/**
 * The We Work Remotely client over an already-parsed listing page: the text
 * normaliser, the link rule for site-relative hrefs, and the result loop that
 * skips listings without a link and stops once `limit` results are collected.
 */
module Wework {
  import opened Wrappers
  import opened Text
  import opened Links

  const Base: string := "https://weworkremotely.com"
  const DefaultMaxLen: nat := 300
  const DefaultLimit: int := 100

  /** `_normalize_text(value, max_len)`. */
  function NormalizeText(value: Option<string>, maxLen: nat): (r: string)
    ensures value.None? ==> r == [EmDash]
    ensures forall i :: 0 <= i < |r| ==> !IsBreak(r[i])
    ensures |r| <= maxLen + 1
    ensures IsStripped(r)
    ensures value.Some? && |Cleaned(value.value)| <= maxLen ==> r == Cleaned(value.value)
    ensures value.Some? && |Cleaned(value.value)| > maxLen ==> r == Cleaned(value.value)[..maxLen] + [Ellipsis]
  {
    if value.None? then [EmDash]
    else
      var s := Cleaned(value.value);
      assert forall i :: 0 <= i < Min(|s|, maxLen) ==> s[..Min(|s|, maxLen)][i] == s[i];
      s[..Min(|s|, maxLen)] + (if |s| > maxLen then [Ellipsis] else [])
  }

  /** `BASE + href` for a site-relative href, the href itself otherwise. */
  function JobLink(href: string): (r: string)
    ensures StartsWith(href, "/") ==> r == Base + href
    ensures !StartsWith(href, "/") ==> r == href
    ensures !StartsWith(r, "/")
  {
    assert (Base + href)[0] == 'h';
    if StartsWith(href, "/") then Base + href else href
  }

  /** A site-relative href becomes a web link on the board's own site. */
  lemma JobLinkIsHttp(href: string)
    requires StartsWith(href, "/")
    ensures IsHttp(JobLink(href)) && StartsWith(JobLink(href), Base + "/")
  {
    var r := Base + href;
    assert r[..8] == "https://";
    assert r[..|Base| + 1] == Base + "/";
  }

  /** The link anchor of a listing: its `href` and its text. */
  datatype Anchor = Anchor(href: string, text: string)

  /**
   * What the loop reads from one listing element: the first anchor with an
   * `href`, if any, and the texts of its title and company elements, if found.
   */
  datatype Listing = Listing(anchor: Option<Anchor>, titleText: Option<string>, companyText: Option<string>)

  /** One result dict. */
  datatype Job = Job(title: string, company: string, salary: string, link: string)

  /** The result built for a listing with an anchor. */
  function JobOf(l: Listing): (j: Job)
    requires l.anchor.Some?
    ensures j.salary == [EmDash] && j.link == JobLink(l.anchor.value.href)
    ensures |j.title| <= DefaultMaxLen + 1 && |j.company| <= DefaultMaxLen + 1
  {
    var a := l.anchor.value;
    var title := if l.titleText.Some? then l.titleText.value else a.text;
    var company := if l.companyText.Some? then l.companyText.value else "";
    Job(NormalizeText(Some(title), DefaultMaxLen), NormalizeText(Some(company), DefaultMaxLen), [EmDash], JobLink(a.href))
  }

  /** The results of every listing with an anchor, in order, without the limit. */
  function Anchored(ls: seq<Listing>): (r: seq<Job>)
    ensures |r| <= |ls|
  {
    if ls == [] then []
    else
      var last := ls[|ls| - 1];
      Anchored(ls[..|ls| - 1]) + (if last.anchor.Some? then [JobOf(last)] else [])
  }

  /** The results of a shorter run of listings are a prefix of those of the longer one. */
  lemma {:induction false} AnchoredPrefix(ls: seq<Listing>, i: nat)
    requires i <= |ls|
    ensures |Anchored(ls[..i])| <= |Anchored(ls)|
    ensures Anchored(ls[..i]) == Anchored(ls)[..|Anchored(ls[..i])|]
    decreases |ls|
  {
    if i < |ls| {
      var init := ls[..|ls| - 1];
      assert init[..i] == ls[..i];
      AnchoredPrefix(init, i);
    } else {
      assert ls[..i] == ls;
    }
  }

  /**
   * What the loop returns: the first `limit` anchored results.  The limit is
   * checked only after an append, so a limit below 1 still lets one result through.
   */
  function Collected(ls: seq<Listing>, limit: int): (r: seq<Job>)
    ensures |r| == Min(|Anchored(ls)|, Max(limit, 1))
    ensures |r| <= Max(limit, 1) && |r| <= |Anchored(ls)|
    ensures r == Anchored(ls)[..|r|]
  {
    var all := Anchored(ls);
    all[..Min(|all|, Max(limit, 1))]
  }

  /** Stopping after the append that reaches the limit leaves exactly the collected results. */
  lemma CollectedAtStop(ls: seq<Listing>, i: nat, limit: int)
    requires i < |ls|
    requires |Anchored(ls[..i + 1])| >= limit
    requires |Anchored(ls[..i + 1])| == |Anchored(ls[..i])| + 1
    requires |Anchored(ls[..i])| < limit || Anchored(ls[..i]) == []
    ensures Anchored(ls[..i + 1]) == Collected(ls, limit)
  {
    AnchoredPrefix(ls, i + 1);
  }

  /** Running out of listings before the limit leaves every anchored result. */
  lemma CollectedAtEnd(ls: seq<Listing>, limit: int)
    requires |Anchored(ls)| < limit || Anchored(ls) == []
    ensures Anchored(ls) == Collected(ls, limit)
  {
  }

  /** One more listing extends the anchored results by that listing's job, if it has an anchor. */
  lemma AnchoredStep(ls: seq<Listing>, i: nat)
    requires i < |ls|
    ensures Anchored(ls[..i + 1]) == Anchored(ls[..i]) + (if ls[i].anchor.Some? then [JobOf(ls[i])] else [])
  {
    assert ls[..i + 1][..i] == ls[..i];
  }

  /** The result loop of `search_weworkremotely`. */
  method CollectJobs(listings: seq<Listing>, limit: int) returns (results: seq<Job>)
    ensures results == Collected(listings, limit)
  {
    results := [];
    var i := 0;
    while i < |listings|
      invariant 0 <= i <= |listings|
      invariant results == Anchored(listings[..i])
      invariant |results| < limit || results == []
    {
      var l := listings[i];
      AnchoredStep(listings, i);
      if l.anchor.Some? {
        results := results + [JobOf(l)];
        if |results| >= limit {
          CollectedAtStop(listings, i, limit);
          return;
        }
      }
      i := i + 1;
    }
    assert listings[..i] == listings;
    CollectedAtEnd(listings, limit);
  }
}
