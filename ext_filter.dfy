/**
 * The extension-filter rule both file managers apply to the filter box:
 * strip the text, put a `.` in front of a non-empty text that lacks one,
 * and lower-case the result.
 */
module ExtFilter {
  import opened Text

  /** What a normalised filter looks like: empty, or a stripped lower-case text starting with `.`. */
  predicate IsExtFilter(s: string) {
    s == [] || (s[0] == '.' && IsLower(s) && IsStripped(s))
  }

  /** The filter `apply_filter` stores for the text `text`. */
  function NormalizeExt(text: string): (r: string)
    ensures IsExtFilter(r)
    ensures r == [] <==> IsBlank(text)
  {
    var t := Strip(text);
    var dotted := if t != [] && !StartsWith(t, ".") then "." + t else t;
    assert t != [] ==> dotted[0] == '.';
    assert IsStripped(dotted);
    LowerIsLower(dotted);
    LowerKeepsStripped(dotted);
    Lower(dotted)
  }

  /** A normalised filter is its own normal form. */
  lemma NormalizedFilterIsFixed(s: string)
    requires IsExtFilter(s)
    ensures NormalizeExt(s) == s
  {
    StripStripped(s);
    assert s != [] ==> StartsWith(s, ".");
    assert Lower(s) == s;
  }

  /** Applying the rule to its own output changes nothing. */
  lemma NormalizeExtIdempotent(text: string)
    ensures NormalizeExt(NormalizeExt(text)) == NormalizeExt(text)
  {
    NormalizedFilterIsFixed(NormalizeExt(text));
  }

  /** A bare extension gets its dot in front and is lower-cased. */
  lemma NormalizeExtAddsDot(t: string)
    requires t != [] && IsStripped(t) && t[0] != '.'
    ensures NormalizeExt(t) == "." + Lower(t)
  {
    StripStripped(t);
    LowerConcat(".", t);
    assert Lower(".") == ".";
  }

  /** Blanks around the text do not matter. */
  lemma NormalizeExtIgnoresBlanks(text: string)
    ensures NormalizeExt(Strip(text)) == NormalizeExt(text)
  {
    StripIdempotent(text);
  }
}
