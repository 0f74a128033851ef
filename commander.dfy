/**
 * PyCommander's extension filter: the window keeps the normalised filter
 * `filter_ext` next to the text of its filter box.  Listing the directory,
 * the file operations and the dialogs are outside the model.
 */
module Commander {
  import opened Text
  import opened ExtFilter

  class FileManager {
    /** The normalised filter, `""` for none. */
    var filterExt: string
    /** The text currently typed into the filter box. */
    var filterInput: string

    ghost predicate Valid()
      reads this
    {
      IsExtFilter(filterExt)
    }

    /** A new window has no filter and an empty filter box. */
    constructor ()
      ensures Valid()
      ensures filterExt == "" && filterInput == ""
    {
      filterExt := "";
      filterInput := "";
    }

    /** The user types into the filter box. */
    method SetFilterInput(text: string)
      modifies this`filterInput
      ensures filterInput == text
    {
      filterInput := text;
    }

    /** `apply_filter`: the box's text, normalised, becomes the filter; the box keeps its text. */
    method ApplyFilter()
      modifies this`filterExt
      ensures Valid()
      ensures filterExt == NormalizeExt(filterInput)
      ensures filterExt == "" <==> IsBlank(filterInput)
    {
      filterExt := NormalizeExt(filterInput);
    }

    /** `clear_filter`: both the box and the filter become empty. */
    method ClearFilter()
      modifies this
      ensures Valid()
      ensures filterExt == "" && filterInput == ""
    {
      filterInput := "";
      filterExt := "";
    }
  }
}
