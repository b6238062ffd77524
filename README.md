# Playlist builder: the keyword-list controller

This project models the state logic of the playlist builder's front end and
proves properties of it. The user types a playlist name and an open-ended list
of search keywords. A submission service turns these into a playlist and sends
back its URL.

- `Builder` (`builder.dfy`) models the `PlaylistBuilder` component.
  - Class `PlaylistBuilder` holds the state: the keyword entries `inputs` (each
    entry is identified by its position), `playlistName`, the pending focus
    marker `newFieldIndex`, `playlistUrl` and `receipt`.
  - Each event handler is one method, and each method is one synchronous step.
  - The lists that the handlers pass to the state setter are pure functions:
    `Edited`, `WithoutIndex` and `ClearedOrRemoved`.
  - The keyword array of the submit payload is the pure function `Keywords`:
    the non-empty entry values, in order.
  - The class invariant `Valid()` says the keyword list is never empty. The
    constructor establishes it and every handler keeps it.
- `Keyed` (`keyword_input.dfy`) models the `KeywordInput` component. It has the
  same list logic, but it picks entries by an `id` field.
  - A new id is the list's current length, so after a removal a new entry can
    get an id that a live entry already has.
  - While ids are unique, the list stays non-empty, and clearing an empty entry
    in a list of more than one entry removes exactly that entry.
  - With a duplicate id, the filter removes every entry that has that id.
    `DuplicateIdScenario` shows a reachable run that empties the list: add, add,
    remove id 1, add (which mints id 2 again), remove id 0, clear id 2.
- `PlaylistInput` (`playlist_input.dfy`) models `ClearableInput`, a single text
  field with a clear button.
- `Wrappers` (`wrappers.dfy`) defines `Option`. The model uses it for the
  source's `null` and `undefined` values. `Keyboard`, in the same file, names
  the Enter key that both keyword components react to.

Three behaviours of the code are worth stating outright:

- **Submit guard.** The code refuses to submit only when the list is exactly one
  empty entry. A list of two empty entries passes the guard and sends an empty
  keyword array (`GuardAdmitsEmptyKeywords`).
- **Out-of-range edit.** Editing at an index outside the list changes nothing.
- **Focus marker.** The focus effect runs only after a render that changed the
  marker. When it runs, it consumes the marker only if its index names a live
  input; otherwise the marker stays pending. If the next append sets the marker
  to the same pending index, the effect does not run and the new entry is not
  focused (`FocusLostOnRepeatedIndex`).

## Model

| member | source | states |
|---|---|---|
| `Builder.Edited` | frontend/src/components/playlist_builder/index.tsx:34-40 | equals updating position `idx` to the new value when `idx` is in range, and the unchanged list otherwise; length and every other entry are kept |
| `Builder.WithoutIndex` | frontend/src/components/playlist_builder/index.tsx:56 | the filter on position removes exactly entry `k`, keeping the others in order (`s[..k] + s[k+1..]`); an index outside the list keeps everything |
| `Builder.ClearedOrRemoved` | frontend/src/components/playlist_builder/index.tsx:53-62 | a non-empty entry is blanked in place; an empty entry is removed (length − 1, others in order) unless it is the only one, when the list is unchanged; the length changes by 0 or −1 and the result is never empty |
| `Builder.Values` | frontend/src/components/playlist_builder/index.tsx:73 | the projection to values keeps length and gives entry `i`'s value at position `i` |
| `Builder.NonEmpty` | frontend/src/components/playlist_builder/index.tsx:73 | the filtered list is no longer than its input, and every string in it is non-empty and comes from the input |
| `Builder.Keywords` | frontend/src/components/playlist_builder/index.tsx:73 | every payload keyword is non-empty and is the value of some entry |
| `Builder.NonEmptyConcat` | frontend/src/components/playlist_builder/index.tsx:73 | the filter distributes over concatenation, so kept keywords stay in their list order |
| `Builder.NonEmptyCounts` | frontend/src/components/playlist_builder/index.tsx:73 | as multisets, the keywords are the values with every empty string removed: duplicates are kept with their counts |
| `Builder.NonEmptyKeepsFilled` | frontend/src/components/playlist_builder/index.tsx:73 | a list with no empty value is passed through whole |
| `Builder.NonEmptyIsNil` | frontend/src/components/playlist_builder/index.tsx:73 | the keyword array is empty if and only if every value is empty |
| `Builder.BlockedHasNoKeywords` | frontend/src/components/playlist_builder/index.tsx:67-70 | when the guard blocks, there was no keyword to send |
| `Builder.FilledEntryPassesGuard` | frontend/src/components/playlist_builder/index.tsx:67-73 | a list with any non-empty entry passes the guard and has a non-empty keyword array |
| `Builder.GuardAdmitsEmptyKeywords` | frontend/src/components/playlist_builder/index.tsx:67-73 | the list of two empty entries is not blocked, yet its keyword array is empty |
| `Builder.GuardExactOnSingleEntry` | frontend/src/components/playlist_builder/index.tsx:67-73 | on a one-entry list, the guard blocks if and only if there are no keywords |
| `Builder.KeywordsExample` | frontend/src/components/playlist_builder/index.tsx:73 | the values jazz, empty, blues give the keywords jazz, blues |
| `Builder.PlaylistBuilder.constructor` | frontend/src/components/playlist_builder/index.tsx:11-24 | the initial state is one empty entry, an empty name, no pending focus (and the focus effect last ran with none), no URL and no receipt; the list is non-empty |
| `Builder.PlaylistBuilder.AddNewInput` | frontend/src/components/playlist_builder/index.tsx:26-32 | adds exactly one empty entry at the end; earlier entries are unchanged; the focus marker is the new entry's index (the old length); nothing else changes |
| `Builder.PlaylistBuilder.HandleInputChange` | frontend/src/components/playlist_builder/index.tsx:34-40 | the list becomes `Edited` of the old list; name, focus marker, URL and receipt are unchanged; the list stays non-empty |
| `Builder.PlaylistBuilder.HandleKeyPress` | frontend/src/components/playlist_builder/index.tsx:42-47 | Enter appends one empty entry and sets the focus marker to it, from whichever field it came; any other key changes nothing |
| `Builder.PlaylistBuilder.HandlePlaylistNameChange` | frontend/src/components/playlist_builder/index.tsx:116 | typing in the name field replaces the name and changes nothing else |
| `Builder.PlaylistBuilder.ClearInput` | frontend/src/components/playlist_builder/index.tsx:49-64 | index −1 only empties the name; any other index sets focus to `index` in every branch, applies `ClearedOrRemoved`, and keeps the name; the list stays non-empty |
| `Builder.PlaylistBuilder.FocusEffect` | frontend/src/components/playlist_builder/index.tsx:99-104 | when the marker equals the value the effect last ran with, nothing happens; otherwise a pending index that names a live input is focused and the marker reset (the recorded value becoming none, as the follow-up render's run sees no marker), while any other marker stays pending and is recorded; the list, name, URL and receipt are unchanged |
| `Builder.PlaylistBuilder.Submit` | frontend/src/components/playlist_builder/index.tsx:66-78 | there is no payload if and only if the list is exactly one empty entry; otherwise the payload carries the name unfiltered and the non-empty values in order; the state is not changed |
| `Builder.PlaylistBuilder.ReceiveResponse` | frontend/src/components/playlist_builder/index.tsx:88-96 | success records the URL and sets the receipt; failure changes nothing; the list, the name and the focus marker are unchanged in both cases |
| `Builder.EnterThreeTimes` | frontend/src/components/playlist_builder/index.tsx:26-47 | pressing Enter three times from the initial state gives four entries, and after each press the focus marker names the newest entry (1, 2, then 3) |
| `Builder.FocusLostOnRepeatedIndex` | frontend/src/components/playlist_builder/index.tsx:99-104 | Enter, effect, effect, clear index 1, effect, Enter, effect: the effects focus 1, then nothing three times; the list ends with two entries and the marker stays at 1, so the appended entry is never focused |
| `Builder.RefocusSameIndex` | frontend/src/components/playlist_builder/index.tsx:99-104 | after "a", "b": clearing index 0 focuses 0, and clearing it again (now removing it) focuses 0 again; the list ends as "b" |
| `Builder.FocusAppliedOnce` | frontend/src/components/playlist_builder/index.tsx:99-104 | after an append, the first effect run focuses index 1 and the second finds nothing pending |
| `Builder.SubmitOneKeyword` | frontend/src/components/playlist_builder/index.tsx:66-78 | the name "Road Trip" and the single entry "rock" give exactly that payload |
| `Keyed.Appended` | frontend/src/components/keyword_input/index.tsx:27-32 | adds one empty entry whose id is the old length; earlier entries are unchanged |
| `Keyed.Find` | frontend/src/components/keyword_input/index.tsx:36 | returns nothing if and only if no entry has the id; otherwise returns the first entry with that id |
| `Keyed.SetValue` | frontend/src/components/keyword_input/index.tsx:12-18 | every entry with the id gets the new value; ids, length and all other entries are kept; an unknown id changes nothing |
| `Keyed.WithoutId` | frontend/src/components/keyword_input/index.tsx:40 | the result holds exactly the entries whose id differs, so every duplicate of the id is dropped |
| `Keyed.WithoutIdConcat` | frontend/src/components/keyword_input/index.tsx:40 | the filter on id distributes over concatenation, so surviving entries keep their order and multiplicity |
| `Keyed.WithoutIdKeepsUnique` | frontend/src/components/keyword_input/index.tsx:40 | filtering a list with unique ids leaves ids unique |
| `Keyed.ClearedKeepsUnique` | frontend/src/components/keyword_input/index.tsx:34-48 | every clear keeps unique ids unique |
| `Keyed.Cleared` | frontend/src/components/keyword_input/index.tsx:34-48 | an unknown id changes nothing; a single empty matching entry is kept; an empty first match in a longer list removes every entry with the id; a non-empty first match blanks every entry with the id |
| `Keyed.WithoutUniqueId` | frontend/src/components/keyword_input/index.tsx:40 | with unique ids, filtering on entry `k`'s id removes exactly entry `k` and keeps the others in order |
| `Keyed.FindUnique` | frontend/src/components/keyword_input/index.tsx:36 | with unique ids, the lookup finds the entry that has that id |
| `Keyed.ClearUniqueRemovesExactlyOne` | frontend/src/components/keyword_input/index.tsx:36-40 | with unique ids, clearing an empty entry in a list of several entries removes exactly that entry, keeps order and leaves at least one entry |
| `Keyed.ClearUniqueBlanksExactlyOne` | frontend/src/components/keyword_input/index.tsx:41-45 | with unique ids, clearing a non-empty entry blanks exactly that entry |
| `Keyed.ClearUniqueKeepsNonEmpty` | frontend/src/components/keyword_input/index.tsx:34-48 | with unique ids, clearing any id keeps a non-empty list non-empty |
| `Keyed.AppendedKeepsUniqueBelowLength` | frontend/src/components/keyword_input/index.tsx:30 | minting by length keeps ids unique as long as every id is below the length |
| `Keyed.AppendedCanDuplicateId` | frontend/src/components/keyword_input/index.tsx:30 | after a removal, the ids 0 and 2 are unique but the appended id 2 duplicates one |
| `Keyed.DuplicateIdEmptiesList` | frontend/src/components/keyword_input/index.tsx:36-40 | clearing an id shared by two empty entries removes both and gives the empty list |
| `Keyed.KeywordInput.constructor` | frontend/src/components/keyword_input/index.tsx:9 | the initial list is the single entry with id 0 and an empty value |
| `Keyed.KeywordInput.HandleInputChange` | frontend/src/components/keyword_input/index.tsx:12-18 | the list becomes `SetValue` of the old list and keeps unique ids unique |
| `Keyed.KeywordInput.AddNewInput` | frontend/src/components/keyword_input/index.tsx:27-32 | adds one empty entry with the old length as its id; earlier entries are unchanged |
| `Keyed.KeywordInput.HandleKeyPress` | frontend/src/components/keyword_input/index.tsx:20-25 | Enter appends, whichever field's id comes with it; any other key changes nothing |
| `Keyed.KeywordInput.ClearInput` | frontend/src/components/keyword_input/index.tsx:34-48 | the list becomes `Cleared` of the old list; unique ids stay unique, and a non-empty list with unique ids stays non-empty |
| `Keyed.RemoveMiddleOfThree` | frontend/src/components/keyword_input/index.tsx:36-40 | clearing the empty entry with id 1 among ids 0, 1, 2 leaves ids 0, 2 |
| `Keyed.RemoveFirstOfDuplicatePair` | frontend/src/components/keyword_input/index.tsx:36-40 | clearing the empty entry with id 0 among ids 0, 2, 2 leaves the two entries with id 2 |
| `Keyed.ReachDuplicateId` | frontend/src/components/keyword_input/index.tsx:27-48 | add, add, clear id 1, add on a fresh component gives ids 0, 2, 2 |
| `Keyed.DuplicateIdScenario` | frontend/src/components/keyword_input/index.tsx:27-48 | add, add, clear id 1, add, clear id 0, clear id 2 on a fresh component leaves the empty list |
| `PlaylistInput.ClearableInput.constructor` | frontend/src/components/playlist_input/index.tsx:8-12 | the value is the `value` property, or "" when it is absent; the placeholder defaults to "Playlist name" |
| `PlaylistInput.ClearableInput.HandleInputChange` | frontend/src/components/playlist_input/index.tsx:14-17 | the value becomes the new text |
| `PlaylistInput.ClearableInput.ClearInput` | frontend/src/components/playlist_input/index.tsx:19-21 | the value becomes "" whatever it was, and the clear button is then hidden |
| `PlaylistInput.ClearableInput.ShowsClearButton` | frontend/src/components/playlist_input/index.tsx:32 | the clear button is offered if and only if the value is non-empty |
| `PlaylistInput.ClearTwice` | frontend/src/components/playlist_input/index.tsx:19-21 | clearing twice leaves the same empty value as clearing once, with no clear button |

## Left out

- The HTTP POST, the `alert` notices and the console logging in `handleSubmit` are network and UI code. `Builder.PlaylistBuilder.Submit` returns the payload that would be posted. `Builder.PlaylistBuilder.ReceiveResponse` takes the service's answer as a parameter: a URL, or a failure.
- A second submit while one is still outstanding is not modelled. The code does not guard against it, and the model treats sending and receiving as two separate steps.
- Moving DOM focus is not modelled. `Builder.PlaylistBuilder.FocusEffect` returns the index it would focus. React's scheduling of the effect is modelled by calling it after every render; the field `effectDeps` holds the marker value of its last run, so a render that leaves the marker unchanged does not run it. "The input at that index is live" is modelled as "the index is inside the list": the source sets each ref through a callback, and React resets that ref when its input unmounts.
- React batching and stale closures are not modelled. Handlers are sequential events, and each one sees the current state. In particular, `addNewInput` reads `inputs.length` from its closure; the model uses the length at the time of the call.
- `Builder.PlaylistBuilder.ClearInput` requires the index to be −1 or inside the list. For any other index, the source reads `.value` of an undefined entry and throws, and the interface only passes its own indices.
- Hover flags, styles and markup are presentation only. So are the `SubmitButton` and `HorizontalLine` components.
- The Go backend (OAuth, Spotify client calls, HTTP handlers) and the browser-extension popup are I/O glue and are not part of this model.
