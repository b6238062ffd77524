/**
 * The playlist builder component: an ordered list of keyword entries identified
 * by position, a playlist name, a pending "focus this index" marker, and the URL
 * and receipt flag recorded after a successful submission.
 *
 * The values each handler hands to the list's state setter are pure functions
 * (Edited, WithoutIndex, ClearedOrRemoved), and so is the keyword array of the
 * submit payload (Keywords); the handlers themselves are the methods of class
 * PlaylistBuilder, one synchronous step each.
 */
module Builder {
  import opened Wrappers
  import opened Keyboard

  /** One keyword entry; its identity is its position in the list. */
  datatype InputField = InputField(value: string)

  /** The JSON body posted to the submission service. */
  datatype Payload = Payload(playlistName: string, keywords: seq<string>)

  /** The submission service's answer: the created playlist's URL, or any failure. */
  datatype Response = Created(url: string) | Failed

  /** A freshly added (or cleared) keyword entry. */
  const Blank := InputField("")

  // ---------------------------------------------------------------------------
  // The new list values computed by the handlers
  // ---------------------------------------------------------------------------

  /**
   * The list after editing entry `idx` to `v`: a positional map that rewrites
   * only the entry at `idx`; an index that matches no position changes nothing.
   */
  function Edited(s: seq<InputField>, idx: int, v: string): (r: seq<InputField>)
    ensures |r| == |s|
    ensures forall i :: 0 <= i < |s| && i != idx ==> r[i] == s[i]
    ensures 0 <= idx < |s| ==> r == s[idx := InputField(v)]
    ensures !(0 <= idx < |s|) ==> r == s
  {
    seq(|s|, i requires 0 <= i < |s| => if i == idx then s[i].(value := v) else s[i])
  }

  /**
   * The list filtered on position: every entry except the one at `k`, in order.
   * A `k` outside the list keeps everything.
   */
  function WithoutIndex(s: seq<InputField>, k: int): (r: seq<InputField>)
    ensures 0 <= k < |s| ==> r == s[..k] + s[k + 1..]
    ensures !(0 <= k < |s|) ==> r == s
  {
    if s == [] then []
    else
      var rest := WithoutIndex(s[1..], k - 1);
      if k == 0 then rest
      else
        assert 0 < k < |s| ==> s[1..][..k - 1] == s[1..k] && s[1..][k..] == s[k + 1..];
        assert 0 < k < |s| ==> [s[0]] + (s[1..k] + s[k + 1..]) == s[..k] + s[k + 1..];
        assert [s[0]] + s[1..] == s;
        [s[0]] + rest
  }

  /**
   * The dual-mode clear of entry `index`: a non-empty entry is blanked in
   * place; an empty entry is removed, unless it is the only entry left, in
   * which case the list is returned as it was. The result is never empty.
   */
  function ClearedOrRemoved(s: seq<InputField>, index: int): (r: seq<InputField>)
    requires 0 <= index < |s|
    ensures s[index].value != "" ==> r == s[index := Blank]
    ensures s[index].value == "" && |s| == 1 ==> r == s
    ensures s[index].value == "" && |s| > 1 ==> r == s[..index] + s[index + 1..]
    ensures |r| == |s| || |r| == |s| - 1
    ensures |r| >= 1
  {
    if s[index].value == "" then
      if |s| == 1 then s else WithoutIndex(s, index)
    else
      Edited(s, index, "")
  }

  // ---------------------------------------------------------------------------
  // The submission payload
  // ---------------------------------------------------------------------------

  /** The value of each entry, in list order. */
  function Values(s: seq<InputField>): (r: seq<string>)
    ensures |r| == |s|
    ensures forall i :: 0 <= i < |s| ==> r[i] == s[i].value
  {
    seq(|s|, i requires 0 <= i < |s| => s[i].value)
  }

  /** The strings of `vs` that are not empty, in their original order. */
  function NonEmpty(vs: seq<string>): (r: seq<string>)
    ensures |r| <= |vs|
    ensures forall k :: k in r ==> k != "" && k in vs
  {
    if vs == [] then []
    else (if vs[0] == "" then [] else [vs[0]]) + NonEmpty(vs[1..])
  }

  /** The keyword array of the payload: the non-empty entry values. */
  function Keywords(s: seq<InputField>): (r: seq<string>)
    ensures forall k :: k in r ==> k != "" && exists i :: 0 <= i < |s| && s[i].value == k
  {
    NonEmpty(Values(s))
  }

  /** The submit guard: it refuses only a list that is exactly one empty entry. */
  predicate SubmitBlocked(s: seq<InputField>) {
    |s| == 1 && s[0].value == ""
  }

  /** Filtering distributes over concatenation, so the relative order of kept keywords is the list's order. */
  lemma {:induction false} NonEmptyConcat(a: seq<string>, b: seq<string>)
    ensures NonEmpty(a + b) == NonEmpty(a) + NonEmpty(b)
  {
    if a == [] {
      assert a + b == b;
    } else {
      assert (a + b)[1..] == a[1..] + b;
      NonEmptyConcat(a[1..], b);
    }
  }

  /** Every non-empty keyword is kept exactly as often as it occurs (duplicates kept); empty ones are all dropped. */
  lemma {:induction false} NonEmptyCounts(vs: seq<string>)
    ensures multiset(NonEmpty(vs)) == multiset(vs)["" := 0]
  {
    if vs != [] {
      NonEmptyCounts(vs[1..]);
      assert vs == [vs[0]] + vs[1..];
    }
  }

  /** Nothing is dropped from a list without empty strings. */
  lemma {:induction false} NonEmptyKeepsFilled(vs: seq<string>)
    requires forall i :: 0 <= i < |vs| ==> vs[i] != ""
    ensures NonEmpty(vs) == vs
  {
    if vs != [] {
      NonEmptyKeepsFilled(vs[1..]);
    }
  }

  /** The filtered list is empty exactly when every string is empty. */
  lemma {:induction false} NonEmptyIsNil(vs: seq<string>)
    ensures NonEmpty(vs) == [] <==> forall i :: 0 <= i < |vs| ==> vs[i] == ""
  {
    if vs != [] {
      NonEmptyIsNil(vs[1..]);
      if NonEmpty(vs) == [] {
        forall i | 0 <= i < |vs| ensures vs[i] == "" {
          if i > 0 { assert vs[i] == vs[1..][i - 1]; }
        }
      }
    }
  }

  /** A blocked list carries no keyword, so the guard never refuses a payload that had keywords. */
  lemma BlockedHasNoKeywords(s: seq<InputField>)
    requires SubmitBlocked(s)
    ensures Keywords(s) == []
  {
    assert Values(s) == [""];
  }

  /** A list with at least one filled entry passes the guard and yields a non-empty keyword array. */
  lemma FilledEntryPassesGuard(s: seq<InputField>, i: int)
    requires 0 <= i < |s| && s[i].value != ""
    ensures !SubmitBlocked(s) && Keywords(s) != []
  {
    NonEmptyIsNil(Values(s));
  }

  /** The guard is weaker than "some keyword is non-empty": two empty entries pass it with an empty keyword array. */
  lemma GuardAdmitsEmptyKeywords()
    ensures !SubmitBlocked([Blank, Blank]) && Keywords([Blank, Blank]) == []
  {
    NonEmptyIsNil(Values([Blank, Blank]));
  }

  /** On a one-entry list the guard blocks exactly when there is no keyword to send. */
  lemma GuardExactOnSingleEntry(s: seq<InputField>)
    requires |s| == 1
    ensures SubmitBlocked(s) <==> Keywords(s) == []
  {
    NonEmptyIsNil(Values(s));
  }

  /** The worked example: empty entries are dropped and the rest keep their order. */
  lemma KeywordsExample()
    ensures Keywords([InputField("jazz"), Blank, InputField("blues")]) == ["jazz", "blues"]
  {
    var s := [InputField("jazz"), Blank, InputField("blues")];
    assert Values(s) == ["jazz"] + [""] + ["blues"];
    NonEmptyConcat(["jazz"] + [""], ["blues"]);
    NonEmptyConcat(["jazz"], [""]);
  }

  // ---------------------------------------------------------------------------
  // The component's state and handlers
  // ---------------------------------------------------------------------------

  class PlaylistBuilder {
    var playlistName: string
    var inputs: seq<InputField>
    /** The index whose input should receive focus after the next render, if any. */
    var newFieldIndex: Option<int>
    /**
     * The marker value the focus effect last ran with: the effect depends on
     * the marker alone, so after a render that leaves it unchanged it does not run.
     */
    var effectDeps: Option<int>
    var playlistUrl: string
    var receipt: bool

    /** The keyword list is never empty. */
    ghost predicate Valid()
      reads this
    {
      |inputs| >= 1
    }

    /** The initial state; the effect's first run, after mounting, sees no marker and does nothing else. */
    constructor ()
      ensures Valid()
      ensures inputs == [Blank] && playlistName == "" && newFieldIndex == None
      ensures effectDeps == None
      ensures playlistUrl == "" && !receipt
    {
      playlistName := "";
      inputs := [Blank];
      newFieldIndex := None;
      effectDeps := None;
      playlistUrl := "";
      receipt := false;
    }

    /** Appends one empty entry and asks for it to be focused. */
    method AddNewInput()
      requires Valid()
      modifies this
      ensures Valid()
      ensures |inputs| == old(|inputs|) + 1
      ensures inputs[..old(|inputs|)] == old(inputs) && inputs[|inputs| - 1] == Blank
      ensures newFieldIndex == Some(|inputs| - 1)
      ensures playlistName == old(playlistName) && effectDeps == old(effectDeps)
      ensures playlistUrl == old(playlistUrl) && receipt == old(receipt)
    {
      newFieldIndex := Some(|inputs|);
      inputs := inputs + [Blank];
    }

    /** Typing into keyword field `idx`. */
    method HandleInputChange(idx: int, newValue: string)
      requires Valid()
      modifies this
      ensures Valid()
      ensures inputs == Edited(old(inputs), idx, newValue)
      ensures playlistName == old(playlistName) && newFieldIndex == old(newFieldIndex)
      ensures effectDeps == old(effectDeps)
      ensures playlistUrl == old(playlistUrl) && receipt == old(receipt)
    {
      inputs := Edited(inputs, idx, newValue);
    }

    /** A key press in any keyword field: Enter appends, every other key changes nothing. */
    method HandleKeyPress(key: string)
      requires Valid()
      modifies this
      ensures Valid()
      ensures key == EnterKey ==> inputs == old(inputs) + [Blank] && newFieldIndex == Some(old(|inputs|))
      ensures key != EnterKey ==> inputs == old(inputs) && newFieldIndex == old(newFieldIndex)
      ensures playlistName == old(playlistName) && effectDeps == old(effectDeps)
      ensures playlistUrl == old(playlistUrl) && receipt == old(receipt)
    {
      if key == EnterKey {
        AddNewInput();
        assert inputs == old(inputs) + [Blank];
      }
    }

    /** Typing into the playlist-name field. */
    method HandlePlaylistNameChange(newValue: string)
      requires Valid()
      modifies this
      ensures Valid()
      ensures playlistName == newValue
      ensures inputs == old(inputs) && newFieldIndex == old(newFieldIndex)
      ensures effectDeps == old(effectDeps)
      ensures playlistUrl == old(playlistUrl) && receipt == old(receipt)
    {
      playlistName := newValue;
    }

    /**
     * The clear button: index -1 is the playlist name's button, any other index
     * the keyword entry's dual-mode clear, which also requests focus on `index`.
     */
    method ClearInput(index: int)
      requires Valid()
      requires index == -1 || 0 <= index < |inputs|
      modifies this
      ensures Valid()
      ensures index == -1 ==> playlistName == "" && inputs == old(inputs) && newFieldIndex == old(newFieldIndex)
      ensures index != -1 ==> playlistName == old(playlistName) && newFieldIndex == Some(index)
      ensures index != -1 ==> inputs == ClearedOrRemoved(old(inputs), index)
      ensures effectDeps == old(effectDeps)
      ensures playlistUrl == old(playlistUrl) && receipt == old(receipt)
    {
      if index == -1 {
        playlistName := "";
      } else {
        newFieldIndex := Some(index);
        inputs := ClearedOrRemoved(inputs, index);
      }
    }

    /**
     * The focus effect, called after every render. It runs only when the marker
     * differs from the value it last ran with, and then records the marker. When
     * it runs, a pending index that names a live input is focused and the marker
     * is consumed; otherwise the marker stays pending. Consuming the marker
     * re-renders at once, and the effect's run on that render sees no marker, so
     * that run is folded in here: the recorded value becomes "none".
     */
    method FocusEffect() returns (focused: Option<int>)
      requires Valid()
      modifies this
      ensures Valid()
      ensures old(newFieldIndex) == old(effectDeps) ==> focused == None && newFieldIndex == old(newFieldIndex)
      ensures focused.None? ==> effectDeps == old(newFieldIndex)
      ensures focused.Some? ==> effectDeps == None
      ensures focused.Some? <==> old(newFieldIndex) != old(effectDeps) && old(newFieldIndex).Some? &&
                                 0 <= old(newFieldIndex).value < |inputs|
      ensures focused.Some? ==> focused == old(newFieldIndex) && newFieldIndex == None
      ensures focused.None? ==> newFieldIndex == old(newFieldIndex)
      ensures inputs == old(inputs) && playlistName == old(playlistName)
      ensures playlistUrl == old(playlistUrl) && receipt == old(receipt)
    {
      focused := None;
      if newFieldIndex != effectDeps {
        effectDeps := newFieldIndex;
        if newFieldIndex.Some? && 0 <= newFieldIndex.value < |inputs| {
          focused := newFieldIndex;
          newFieldIndex := None;
          effectDeps := None;
        }
      }
    }

    /**
     * The validation and payload step of submitting: no payload when the guard
     * blocks, otherwise the name as typed and the non-empty keywords in order.
     */
    method Submit() returns (payload: Option<Payload>)
      requires Valid()
      ensures payload.None? <==> SubmitBlocked(inputs)
      ensures payload.Some? ==> payload.value.playlistName == playlistName
      ensures payload.Some? ==> payload.value.keywords == Keywords(inputs)
    {
      if SubmitBlocked(inputs) {
        payload := None;
      } else {
        payload := Some(Payload(playlistName, Keywords(inputs)));
      }
    }

    /** Recording the service's answer: a success stores the URL and shows the receipt; a failure changes nothing. */
    method ReceiveResponse(response: Response)
      requires Valid()
      modifies this
      ensures Valid()
      ensures response.Created? ==> playlistUrl == response.url && receipt
      ensures response.Failed? ==> playlistUrl == old(playlistUrl) && receipt == old(receipt)
      ensures inputs == old(inputs) && playlistName == old(playlistName)
      ensures newFieldIndex == old(newFieldIndex) && effectDeps == old(effectDeps)
    {
      if response.Created? {
        playlistUrl := response.url;
        receipt := true;
      }
    }
  }

  /** Enter pressed three times on a fresh builder: four entries, the marker naming the newest entry after each press. */
  method EnterThreeTimes() returns (length: int, markers: seq<Option<int>>)
    ensures length == 4 && markers == [Some(1), Some(2), Some(3)]
  {
    var b := new PlaylistBuilder();
    b.HandleKeyPress(EnterKey);
    markers := [b.newFieldIndex];
    b.HandleKeyPress(EnterKey);
    markers := markers + [b.newFieldIndex];
    b.HandleKeyPress(EnterKey);
    markers := markers + [b.newFieldIndex];
    length := |b.inputs|;
  }

  /** A focus request is applied once: the effect run after the next render finds nothing pending. */
  method FocusAppliedOnce() returns (first: Option<int>, second: Option<int>)
    ensures first == Some(1) && second == None
  {
    var b := new PlaylistBuilder();
    b.HandleKeyPress(EnterKey);
    first := b.FocusEffect();
    second := b.FocusEffect();
  }

  /**
   * A focus request that re-sets the marker to the value the effect last ran
   * with is lost: after an append is focused, removing that entry leaves a
   * marker naming no live input; the next Enter appends at that same index, the
   * marker does not change, the effect does not run, and the new entry is not
   * focused although its index is live.
   */
  method FocusLostOnRepeatedIndex() returns (effects: seq<Option<int>>, length: int, marker: Option<int>)
    ensures effects == [Some(1), None, None, None]
    ensures length == 2 && marker == Some(1)
  {
    var b := new PlaylistBuilder();
    b.HandleKeyPress(EnterKey);
    var f := b.FocusEffect();
    effects := [f];
    f := b.FocusEffect();
    effects := effects + [f];
    b.ClearInput(1);
    f := b.FocusEffect();
    effects := effects + [f];
    b.HandleKeyPress(EnterKey);
    f := b.FocusEffect();
    effects := effects + [f];
    length, marker := |b.inputs|, b.newFieldIndex;
  }

  /**
   * Clearing the same index twice focuses it twice: the first clear blanks
   * entry 0 and focuses it, the second removes it and focuses the entry that
   * moved into position 0.
   */
  method RefocusSameIndex() returns (effects: seq<Option<int>>, entries: seq<InputField>)
    ensures effects == [Some(1), Some(0), Some(0)]
    ensures entries == [InputField("b")]
  {
    var b := new PlaylistBuilder();
    b.HandleKeyPress(EnterKey);
    var f := b.FocusEffect();
    effects := [f];
    b.HandleInputChange(0, "a");
    b.HandleInputChange(1, "b");
    assert b.inputs == [InputField("a"), InputField("b")];
    b.ClearInput(0);
    f := b.FocusEffect();
    effects := effects + [f];
    assert b.inputs == [Blank, InputField("b")];
    b.ClearInput(0);
    f := b.FocusEffect();
    effects := effects + [f];
    entries := b.inputs;
  }

  /** Submitting one filled entry with a name sends that name and that keyword. */
  method SubmitOneKeyword() returns (payload: Option<Payload>)
    ensures payload == Some(Payload("Road Trip", ["rock"]))
  {
    var b := new PlaylistBuilder();
    b.HandlePlaylistNameChange("Road Trip");
    b.HandleInputChange(0, "rock");
    assert Values(b.inputs) == ["rock"];
    NonEmptyKeepsFilled(["rock"]);
    payload := b.Submit();
  }
}
