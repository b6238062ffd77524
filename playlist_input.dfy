/**
 * The clearable playlist-name input: one text value that typing replaces and
 * the clear button empties; the clear button is offered only while the value
 * is non-empty.
 */
module PlaylistInput {
  import opened Wrappers

  /** The placeholder shown when the caller gives none. */
  const DefaultPlaceholder := "Playlist name"

  class ClearableInput {
    const placeholder: string
    var inputValue: string

    /** Both properties are optional; a missing one takes its default. */
    constructor (placeholder: Option<string>, value: Option<string>)
      ensures this.placeholder == if placeholder.Some? then placeholder.value else DefaultPlaceholder
      ensures inputValue == if value.Some? then value.value else ""
    {
      this.placeholder := if placeholder.Some? then placeholder.value else DefaultPlaceholder;
      inputValue := if value.Some? then value.value else "";
    }

    /** A change event replaces the whole value with the new text. */
    method HandleInputChange(newValue: string)
      modifies this
      ensures inputValue == newValue
    {
      inputValue := newValue;
    }

    /** The clear button empties the value, whatever it was. */
    method ClearInput()
      modifies this
      ensures inputValue == ""
      ensures !ShowsClearButton()
    {
      inputValue := "";
    }

    /** The clear button is rendered exactly when the value is truthy, that is non-empty. */
    predicate ShowsClearButton()
      reads this
      ensures ShowsClearButton() <==> inputValue != ""
    {
      |inputValue| > 0
    }
  }

  /** Clearing twice leaves the same state as clearing once: an empty value and no clear button. */
  method ClearTwice(initial: string) returns (once: string, twice: string, shown: bool)
    ensures once == "" && twice == once && !shown
  {
    var c := new ClearableInput(None, Some(initial));
    c.ClearInput();
    once := c.inputValue;
    c.ClearInput();
    twice := c.inputValue;
    shown := c.ShowsClearButton();
  }
}
