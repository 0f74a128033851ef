/**
 * The image downloader's two pieces of pure bookkeeping: file names are made
 * safe by replacing every reserved character with `_`, and the collected
 * `(url, extension)` pairs are de-duplicated keeping first occurrences.
 */
module ImageDownloader {
  import opened Text

  /** The characters `sanitize_filename` replaces. */
  const Reserved: string := "<>:\"/\\|?*"

  predicate IsReserved(c: char) {
    c in Reserved
  }

  /** The name with each reserved character turned into `_`. */
  function Sanitized(name: string): (r: string)
    ensures |r| == |name|
    ensures forall i :: 0 <= i < |name| ==> r[i] == if IsReserved(name[i]) then '_' else name[i]
  {
    seq(|name|, i requires 0 <= i < |name| => if IsReserved(name[i]) then '_' else name[i])
  }

  /** A sanitised name holds no reserved character. */
  lemma SanitizedIsSafe(name: string)
    ensures forall i :: 0 <= i < |Sanitized(name)| ==> !IsReserved(Sanitized(name)[i])
  {
    assert !IsReserved('_');
  }

  /** Sanitising twice is sanitising once. */
  lemma SanitizedIdempotent(name: string)
    ensures Sanitized(Sanitized(name)) == Sanitized(name)
  {
    SanitizedIsSafe(name);
  }

  /** `sanitize_filename(name)`: one pass of `replace(ch, "_")` per reserved character. */
  method SanitizeFilename(name: string) returns (r: string)
    ensures r == Sanitized(name)
  {
    r := name;
    var k := 0;
    while k < |Reserved|
      invariant 0 <= k <= |Reserved|
      invariant |r| == |name|
      invariant forall i :: 0 <= i < |name| ==> r[i] == if name[i] in Reserved[..k] then '_' else name[i]
    {
      var ch := Reserved[k];
      assert forall c :: c in Reserved[..k + 1] <==> c in Reserved[..k] || c == ch by {
        assert Reserved[..k + 1] == Reserved[..k] + [ch];
      }
      r := ReplaceChar(r, ch, '_');
      k := k + 1;
    }
    assert Reserved[..k] == Reserved;
  }

  /** No element occurs twice. */
  predicate Distinct<T(==)>(xs: seq<T>) {
    forall k, l :: 0 <= k < l < |xs| ==> xs[k] != xs[l]
  }

  /** The position of the first occurrence of `x`. */
  function FirstIndex<T(==)>(xs: seq<T>, x: T): (i: nat)
    requires x in xs
    ensures i < |xs| && xs[i] == x
    ensures forall j :: 0 <= j < i ==> xs[j] != x
  {
    if xs[0] == x then 0 else 1 + FirstIndex(xs[1..], x)
  }

  /** `list(dict.fromkeys(xs))`. */
  function Dedupe<T(==)>(xs: seq<T>): (r: seq<T>)
    ensures |r| <= |xs|
    ensures forall i :: 0 <= i < |xs| ==> xs[i] in r
    ensures forall k :: 0 <= k < |r| ==> r[k] in xs
    ensures Distinct(r)
  {
    if xs == [] then []
    else
      var d := Dedupe(xs[..|xs| - 1]);
      var last := xs[|xs| - 1];
      assert forall i :: 0 <= i < |xs| - 1 ==> xs[i] == xs[..|xs| - 1][i];
      if last in d then d else d + [last]
  }

  /** An element of a prefix is first found at the same position in the whole sequence. */
  lemma {:induction false} FirstIndexPrefix<T>(xs: seq<T>, n: nat, x: T)
    requires n <= |xs| && x in xs[..n]
    ensures FirstIndex(xs, x) == FirstIndex(xs[..n], x)
  {
    if xs[0] != x {
      assert xs[1..][..n - 1] == xs[..n][1..];
      FirstIndexPrefix(xs[1..], n - 1, x);
    }
  }

  /** The kept elements come in the order of their first occurrences. */
  lemma {:induction false} DedupeKeepsFirstOrder<T>(xs: seq<T>)
    ensures forall k, l :: 0 <= k < l < |Dedupe(xs)| ==>
      FirstIndex(xs, Dedupe(xs)[k]) < FirstIndex(xs, Dedupe(xs)[l])
  {
    if xs != [] {
      var n := |xs| - 1;
      var init := xs[..n];
      var d := Dedupe(init);
      DedupeKeepsFirstOrder(init);
      forall y | y in d
        ensures FirstIndex(xs, y) == FirstIndex(init, y) && FirstIndex(init, y) < n
      {
        FirstIndexPrefix(xs, n, y);
      }
      if xs[n] !in d {
        assert FirstIndex(xs, xs[n]) == n by {
          assert forall j :: 0 <= j < n ==> xs[j] == init[j];
        }
      }
    }
  }
}
