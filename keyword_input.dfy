/**
 * The keyword input component: the same keyword list as the playlist builder,
 * but every entry carries an `id` and the handlers select entries by id.
 *
 * New ids are minted as the list's current length, so after a removal a new
 * entry can take an id that a live entry already has. The list stays non-empty
 * while ids are unique (ClearUniqueKeepsNonEmpty); once two entries share an
 * id, clearing that id can remove both and empty the list
 * (DuplicateIdEmptiesList, DuplicateIdScenario).
 */
module Keyed {
  import opened Wrappers
  import opened Keyboard

  /** One keyword entry, selected by its id. */
  datatype KeyedField = KeyedField(id: int, value: string)

  /** No two entries share an id. */
  predicate UniqueIds(s: seq<KeyedField>) {
    forall i, j :: 0 <= i < j < |s| ==> s[i].id != s[j].id
  }

  /** The list after appending an empty entry whose id is the previous length. */
  function Appended(s: seq<KeyedField>): (r: seq<KeyedField>)
    ensures |r| == |s| + 1 && r[..|s|] == s
    ensures r[|s|].id == |s| && r[|s|].value == ""
  {
    s + [KeyedField(|s|, "")]
  }

  /** The first entry whose id is `id`, if there is one. */
  function Find(s: seq<KeyedField>, id: int): (r: Option<KeyedField>)
    ensures r.None? <==> forall i :: 0 <= i < |s| ==> s[i].id != id
    ensures r.Some? ==> exists i :: 0 <= i < |s| && s[i] == r.value && s[i].id == id &&
                                   forall j :: 0 <= j < i ==> s[j].id != id
  {
    if s == [] then None
    else if s[0].id == id then Some(s[0])
    else
      var r := Find(s[1..], id);
      assert r.Some? ==> forall i :: 0 <= i < |s| - 1 && s[1..][i] == r.value && s[1..][i].id == id &&
                                       (forall j :: 0 <= j < i ==> s[1..][j].id != id) ==>
                                       s[i + 1] == r.value && s[i + 1].id == id &&
                                       forall j :: 0 <= j < i + 1 ==> s[j].id != id;
      r
  }

  /** The list with the value of every entry whose id is `id` set to `v`; ids and length are kept. */
  function SetValue(s: seq<KeyedField>, id: int, v: string): (r: seq<KeyedField>)
    ensures |r| == |s|
    ensures forall i :: 0 <= i < |s| ==> r[i].id == s[i].id
    ensures forall i :: 0 <= i < |s| && s[i].id == id ==> r[i].value == v
    ensures forall i :: 0 <= i < |s| && s[i].id != id ==> r[i] == s[i]
    ensures (forall i :: 0 <= i < |s| ==> s[i].id != id) ==> r == s
  {
    seq(|s|, i requires 0 <= i < |s| => if s[i].id == id then s[i].(value := v) else s[i])
  }

  /** The list filtered on id: every entry whose id is not `id`, in order. */
  function WithoutId(s: seq<KeyedField>, id: int): (r: seq<KeyedField>)
    ensures |r| <= |s|
    ensures forall x :: x in r <==> x in s && x.id != id
    ensures (forall i :: 0 <= i < |s| ==> s[i].id != id) ==> r == s
  {
    if s == [] then []
    else
      assert [s[0]] + s[1..] == s;
      (if s[0].id == id then [] else [s[0]]) + WithoutId(s[1..], id)
  }

  /**
   * The dual-mode clear of id `id`: when the first entry with that id is empty,
   * every entry with that id is removed, unless the list has a single entry;
   * otherwise (a non-empty first match, or no match at all) every entry with
   * that id is blanked.
   */
  function Cleared(s: seq<KeyedField>, id: int): (r: seq<KeyedField>)
    ensures (forall i :: 0 <= i < |s| ==> s[i].id != id) ==> r == s
    ensures |s| == 1 && s[0].id == id && s[0].value == "" ==> r == s
    ensures forall i :: 0 <= i < |s| && s[i].id == id && s[i].value != "" &&
                        (forall j :: 0 <= j < i ==> s[j].id != id) ==>
                        r == SetValue(s, id, "")
    ensures Find(s, id).Some? && Find(s, id).value.value == "" && |s| > 1 ==> r == WithoutId(s, id)
  {
    var target := Find(s, id);
    if target.Some? && target.value.value == "" then
      if |s| == 1 then s else WithoutId(s, id)
    else
      SetValue(s, id, "")
  }

  /** Filtering on an id distributes over concatenation, so the surviving entries keep their order and multiplicity. */
  lemma {:induction false} WithoutIdConcat(a: seq<KeyedField>, b: seq<KeyedField>, id: int)
    ensures WithoutId(a + b, id) == WithoutId(a, id) + WithoutId(b, id)
  {
    if a == [] {
      assert a + b == b;
    } else {
      assert (a + b)[1..] == a[1..] + b;
      WithoutIdConcat(a[1..], b, id);
    }
  }

  /** Filtering on an id keeps the remaining ids unique. */
  lemma {:induction false} WithoutIdKeepsUnique(s: seq<KeyedField>, id: int)
    requires UniqueIds(s)
    ensures UniqueIds(WithoutId(s, id))
  {
    if s != [] {
      UniqueTail(s);
      WithoutIdKeepsUnique(s[1..], id);
      var t := WithoutId(s[1..], id);
      if s[0].id != id {
        var r := [s[0]] + t;
        forall i, j | 0 <= i < j < |r| ensures r[i].id != r[j].id {
          if i == 0 {
            assert r[j] == t[j - 1] && r[j] in t;
          } else {
            assert r[i] == t[i - 1] && r[j] == t[j - 1];
          }
        }
      }
    }
  }

  /** Clearing any id keeps unique ids unique. */
  lemma ClearedKeepsUnique(s: seq<KeyedField>, id: int)
    requires UniqueIds(s)
    ensures UniqueIds(Cleared(s, id))
  {
    if Find(s, id).Some? && Find(s, id).value.value == "" && |s| > 1 {
      WithoutIdKeepsUnique(s, id);
    }
  }

  /** Dropping the first entry keeps ids unique. */
  lemma UniqueTail(s: seq<KeyedField>)
    requires UniqueIds(s) && s != []
    ensures UniqueIds(s[1..])
    ensures forall i :: 0 <= i < |s| - 1 ==> s[1..][i].id != s[0].id
  {
    forall i | 0 <= i < |s| - 1 ensures s[1..][i].id != s[0].id {
      assert s[1..][i] == s[i + 1];
    }
  }

  /** Splicing out position `k` of a list whose head is kept. */
  lemma SpliceCons(s: seq<KeyedField>, k: int)
    requires 0 < k < |s|
    ensures [s[0]] + (s[1..][..k - 1] + s[1..][k..]) == s[..k] + s[k + 1..]
  {
    assert s[1..][..k - 1] == s[1..k] && s[1..][k..] == s[k + 1..];
  }

  /** With unique ids, filtering on the id of entry `k` drops exactly that entry and keeps the others in order. */
  lemma {:induction false} WithoutUniqueId(s: seq<KeyedField>, k: int)
    requires UniqueIds(s)
    requires 0 <= k < |s|
    ensures WithoutId(s, s[k].id) == s[..k] + s[k + 1..]
  {
    UniqueTail(s);
    if k > 0 {
      assert s[1..][k - 1] == s[k];
      WithoutUniqueId(s[1..], k - 1);
      SpliceCons(s, k);
    }
  }

  /** With unique ids, an id's first match is its only entry. */
  lemma FindUnique(s: seq<KeyedField>, k: int)
    requires UniqueIds(s)
    requires 0 <= k < |s|
    ensures Find(s, s[k].id) == Some(s[k])
  {
    var r := Find(s, s[k].id);
    var i :| 0 <= i < |s| && s[i] == r.value && s[i].id == s[k].id &&
             forall j :: 0 <= j < i ==> s[j].id != s[k].id;
  }

  /**
   * With unique ids, clearing the id of an empty entry `k` in a list of more
   * than one entry removes exactly entry `k`, keeps the others in order, and
   * leaves a non-empty list.
   */
  lemma ClearUniqueRemovesExactlyOne(s: seq<KeyedField>, k: int)
    requires UniqueIds(s)
    requires 0 <= k < |s| && |s| > 1 && s[k].value == ""
    ensures Cleared(s, s[k].id) == s[..k] + s[k + 1..]
    ensures |Cleared(s, s[k].id)| == |s| - 1 >= 1
  {
    FindUnique(s, k);
    WithoutUniqueId(s, k);
  }

  /** With unique ids, clearing the id of a non-empty entry `k` blanks exactly that entry. */
  lemma ClearUniqueBlanksExactlyOne(s: seq<KeyedField>, k: int)
    requires UniqueIds(s)
    requires 0 <= k < |s| && s[k].value != ""
    ensures Cleared(s, s[k].id) == s[k := KeyedField(s[k].id, "")]
  {
    FindUnique(s, k);
  }

  /** With unique ids, clearing any id leaves a non-empty list non-empty. */
  lemma ClearUniqueKeepsNonEmpty(s: seq<KeyedField>, id: int)
    requires UniqueIds(s) && |s| >= 1
    ensures |Cleared(s, id)| >= 1
  {
    var target := Find(s, id);
    if target.Some? && target.value.value == "" && |s| > 1 {
      var k :| 0 <= k < |s| && s[k] == target.value && s[k].id == id &&
               forall j :: 0 <= j < k ==> s[j].id != id;
      WithoutUniqueId(s, k);
    }
  }

  /** Minting by length keeps ids unique as long as every id is below the length, which holds until the first removal. */
  lemma AppendedKeepsUniqueBelowLength(s: seq<KeyedField>)
    requires UniqueIds(s)
    requires forall i :: 0 <= i < |s| ==> 0 <= s[i].id < |s|
    ensures UniqueIds(Appended(s))
    ensures forall i :: 0 <= i < |s| + 1 ==> 0 <= Appended(s)[i].id < |s| + 1
  {
    var r := Appended(s);
    forall i, j | 0 <= i < j < |r| ensures r[i].id != r[j].id {
      if j < |s| { assert r[i] == s[i] && r[j] == s[j]; }
    }
  }

  /** After a removal, minting by length can hand out an id that is already live. */
  lemma AppendedCanDuplicateId()
    ensures UniqueIds([KeyedField(0, ""), KeyedField(2, "")])
    ensures !UniqueIds(Appended([KeyedField(0, ""), KeyedField(2, "")]))
  {
    var r := Appended([KeyedField(0, ""), KeyedField(2, "")]);
    assert r[1].id == r[2].id;
  }

  /** Two empty entries sharing an id: clearing that id removes both and empties the list. */
  lemma DuplicateIdEmptiesList()
    ensures Cleared([KeyedField(2, ""), KeyedField(2, "")], 2) == []
  {
    var s := [KeyedField(2, ""), KeyedField(2, "")];
    assert Find(s, 2) == Some(KeyedField(2, ""));
    assert WithoutId(s[1..], 2) == [] by {
      assert s[1..][1..] == [];
    }
  }

  /** Clearing the empty middle entry of ids 0, 1, 2 removes just that entry. */
  lemma RemoveMiddleOfThree()
    ensures Cleared([KeyedField(0, ""), KeyedField(1, ""), KeyedField(2, "")], 1) ==
            [KeyedField(0, ""), KeyedField(2, "")]
  {
    var s := [KeyedField(0, ""), KeyedField(1, ""), KeyedField(2, "")];
    ClearUniqueRemovesExactlyOne(s, 1);
    assert s[..1] + s[2..] == [KeyedField(0, ""), KeyedField(2, "")];
  }

  /** Clearing the empty entry with id 0 ahead of two entries with id 2 removes just that entry. */
  lemma RemoveFirstOfDuplicatePair()
    ensures Cleared([KeyedField(0, ""), KeyedField(2, ""), KeyedField(2, "")], 0) ==
            [KeyedField(2, ""), KeyedField(2, "")]
  {
    var s := [KeyedField(0, ""), KeyedField(2, ""), KeyedField(2, "")];
    assert Find(s, 0) == Some(KeyedField(0, ""));
    assert WithoutId(s, 0) == [KeyedField(2, ""), KeyedField(2, "")] by {
      assert s[1..][1..] == [KeyedField(2, "")];
      assert s[1..][1..][1..] == [];
    }
  }

  class KeywordInput {
    var inputs: seq<KeyedField>

    constructor ()
      ensures inputs == [KeyedField(0, "")]
    {
      inputs := [KeyedField(0, "")];
    }

    /** Typing into the field with id `id`. */
    method HandleInputChange(id: int, newValue: string)
      modifies this
      ensures inputs == SetValue(old(inputs), id, newValue)
      ensures UniqueIds(old(inputs)) ==> UniqueIds(inputs)
    {
      inputs := SetValue(inputs, id, newValue);
    }

    /** Appends one empty entry whose id is the previous length. */
    method AddNewInput()
      modifies this
      ensures |inputs| == old(|inputs|) + 1 && inputs[..old(|inputs|)] == old(inputs)
      ensures inputs[|inputs| - 1] == KeyedField(old(|inputs|), "")
    {
      inputs := Appended(inputs);
    }

    /** A key press in the field with id `id`: Enter appends whichever field it came from; other keys change nothing. */
    method HandleKeyPress(id: int, key: string)
      modifies this
      ensures key == EnterKey ==> inputs == Appended(old(inputs))
      ensures key != EnterKey ==> inputs == old(inputs)
    {
      if key == EnterKey {
        AddNewInput();
        assert inputs == old(inputs) + [KeyedField(old(|inputs|), "")];
      }
    }

    /** The clear button of the field with id `id`. */
    method ClearInput(id: int)
      modifies this
      ensures inputs == Cleared(old(inputs), id)
      ensures UniqueIds(old(inputs)) ==> UniqueIds(inputs)
      ensures UniqueIds(old(inputs)) && old(|inputs|) >= 1 ==> |inputs| >= 1
    {
      if UniqueIds(inputs) {
        ClearedKeepsUnique(inputs, id);
        if |inputs| >= 1 {
          ClearUniqueKeepsNonEmpty(inputs, id);
        }
      }
      inputs := Cleared(inputs, id);
    }
  }

  /** Add, add, remove the middle entry, add: the last append reuses id 2. */
  method ReachDuplicateId() returns (k: KeywordInput)
    ensures fresh(k)
    ensures k.inputs == [KeyedField(0, ""), KeyedField(2, ""), KeyedField(2, "")]
  {
    RemoveMiddleOfThree();
    k := new KeywordInput();
    k.AddNewInput();
    k.AddNewInput();
    assert k.inputs == [KeyedField(0, ""), KeyedField(1, ""), KeyedField(2, "")];
    k.ClearInput(1);
    k.AddNewInput();
  }

  /**
   * Add, add, remove the middle entry, add (reusing id 2), remove id 0, clear
   * id 2: every handler runs on a reachable state, and the list ends empty.
   */
  method DuplicateIdScenario() returns (final: seq<KeyedField>)
    ensures final == []
  {
    RemoveFirstOfDuplicatePair();
    DuplicateIdEmptiesList();
    var k := ReachDuplicateId();
    k.ClearInput(0);
    k.ClearInput(2);
    final := k.inputs;
  }
}
