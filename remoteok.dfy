/**
 * The RemoteOK client over an already-decoded API response: the text
 * normaliser, the case-sensitive link repair, the query filter and the loop
 * that skips the response's leading metadata entry and maps every matching
 * job dict to a result.
 */
module RemoteOk {
  import opened Wrappers
  import opened Text
  import opened Json
  import opened Links

  const DefaultMaxLen: nat := 500
  const TitleLen: nat := 300
  const FieldLen: nat := 200
  const RawFieldLen: nat := 200
  const RawEntries: nat := 10

  /** `map(str, items)`. */
  function Strs(items: seq<Json>): (r: seq<string>)
    ensures |r| == |items|
    ensures forall i :: 0 <= i < |items| ==> r[i] == Str(items[i])
  {
    if items == [] then [] else [Str(items[0])] + Strs(items[1..])
  }

  /** The text `_normalize_text` starts from: a list's items or a dict's keys joined by spaces, else `str`. */
  function Rendered(value: Json): string {
    match value
    case JList(items) => Join(" ", Strs(items))
    case JDict(entries) => Join(" ", Keys(entries))
    case _ => Str(value)
  }

  /** Drops the line and tab breaks at the front of `s`. */
  function DropBreaks(s: string): (r: string)
    ensures |r| <= |s|
    ensures r == s[|s| - |r|..]
    ensures r == [] || !IsBreak(r[0])
  {
    if s != [] && IsBreak(s[0]) then DropBreaks(s[1..]) else s
  }

  /** `re.sub(r"[\r\n\t]+", " ", s)`: each maximal run of breaks becomes a single space. */
  function CollapseBreaks(s: string): (r: string)
    ensures |r| <= |s|
    ensures forall i :: 0 <= i < |r| ==> !IsBreak(r[i])
    decreases |s|
  {
    if s == [] then []
    else if IsBreak(s[0]) then " " + CollapseBreaks(DropBreaks(s[1..]))
    else [s[0]] + CollapseBreaks(s[1..])
  }

  predicate BreakFree(s: string) {
    forall i :: 0 <= i < |s| ==> !IsBreak(s[i])
  }

  predicate AllBreaks(s: string) {
    forall i :: 0 <= i < |s| ==> IsBreak(s[i])
  }

  /** Text without breaks is left as it is. */
  lemma {:induction false} CollapseBreakFree(s: string)
    requires BreakFree(s)
    ensures CollapseBreaks(s) == s
    decreases |s|
  {
    if s != [] {
      assert BreakFree(s[1..]) by { assert forall i :: 0 <= i < |s| - 1 ==> s[1..][i] == s[i + 1]; }
      CollapseBreakFree(s[1..]);
    }
  }

  /** A whole run of breaks is dropped in one go. */
  lemma {:induction false} DropRun(run: string, y: string)
    requires AllBreaks(run) && (y == [] || !IsBreak(y[0]))
    ensures DropBreaks(run + y) == y
    decreases |run|
  {
    if run == [] {
      assert run + y == y;
    } else {
      assert (run + y)[1..] == run[1..] + y;
      DropRun(run[1..], y);
    }
  }

  /** A run of breaks at the front becomes one space. */
  lemma CollapseLeadingRun(run: string, y: string)
    requires run != [] && AllBreaks(run) && (y == [] || !IsBreak(y[0]))
    ensures CollapseBreaks(run + y) == " " + CollapseBreaks(y)
  {
    var s := run + y;
    assert s[0] == run[0] && s[1..] == run[1..] + y;
    DropRun(run[1..], y);
  }

  /** Break-free text, then a run of breaks: the text is kept and the run becomes one space. */
  lemma {:induction false} CollapseRun(x: string, run: string, y: string)
    requires BreakFree(x) && run != [] && AllBreaks(run) && (y == [] || !IsBreak(y[0]))
    ensures CollapseBreaks(x + run + y) == x + " " + CollapseBreaks(y)
    decreases |x|
  {
    if x == [] {
      assert x + run + y == run + y;
      CollapseLeadingRun(run, y);
    } else {
      var s := x + run + y;
      assert s[0] == x[0] && s[1..] == x[1..] + run + y;
      assert BreakFree(x[1..]) by { assert forall i :: 0 <= i < |x| - 1 ==> x[1..][i] == x[i + 1]; }
      CollapseRun(x[1..], run, y);
      assert x + " " + CollapseBreaks(y) == [x[0]] + (x[1..] + " " + CollapseBreaks(y));
    }
  }

  /** Runs of breaks collapsed, then stripped. */
  function Flattened(s: string): (r: string)
    ensures IsStripped(r) && BreakFree(r)
  {
    var t := CollapseBreaks(s);
    assert t == [] || !IsBreak(t[0]);
    StripNoBreaks(t);
    Strip(t)
  }

  /** `_normalize_text(value, max_len)`. */
  function NormalizeText(value: Json, maxLen: nat): (r: string)
    ensures value.JNull? ==> r == []
    ensures BreakFree(r)
    ensures |r| <= maxLen + 1
    ensures maxLen > 0 ==> IsStripped(r)
    ensures !value.JNull? && |Flattened(Rendered(value))| <= maxLen ==>
      r == Flattened(Rendered(value)) && IsStripped(r)
    ensures !value.JNull? && |Flattened(Rendered(value))| > maxLen ==>
      r == Flattened(Rendered(value))[..maxLen] + [Ellipsis]
  {
    if value.JNull? then []
    else
      var s := Flattened(Rendered(value));
      assert |s| > maxLen ==> forall i :: 0 <= i < maxLen ==> s[..maxLen][i] == s[i];
      Truncate(s, maxLen)
  }

  /** `_safe_url(u)`: like the table's link repair, but the scheme test is case-sensitive. */
  function SafeUrl(u: Json): (r: string)
    ensures !Truthy(u) ==> r == "-"
    ensures r == "-" || (IsHttp(r) && IsStripped(r))
    ensures r == "-" || r == Prefixed(Strip(Str(u)))
  {
    if !Truthy(u) then "-"
    else
      var s := Prefixed(Strip(Str(u)));
      if !IsHttp(s) then "-" else s
  }

  /** The four texts `_matches_query` searches: title, company, tags and description. */
  function Fields(job: seq<(string, Json)>): (f: seq<string>)
    ensures |f| == 4
  {
    var tags := Or(GetFirst(job, ["tags", "tag", "keywords"]), JStr(""));
    var tagText := if tags.JList? then JStr(Join(" ", Strs(tags.items))) else tags;
    [NormalizeText(Or(GetFirst(job, ["position", "title"]), JStr("")), DefaultMaxLen),
     NormalizeText(Or(Get(job, "company"), JStr("")), DefaultMaxLen),
     NormalizeText(tagText, DefaultMaxLen),
     NormalizeText(Or(Get(job, "description"), JStr("")), DefaultMaxLen)]
  }

  /** `f"{title} {company} {tags} {description}".lower()` for the four field texts. */
  function Joined(f: seq<string>): string
    requires |f| == 4
  {
    Lower(f[0] + " " + f[1] + " " + f[2] + " " + f[3])
  }

  /** `_matches_query(job, q)`. */
  predicate MatchesQuery(job: seq<(string, Json)>, q: string) {
    q == [] || Contains(Joined(Fields(job)), Lower(q))
  }

  /** The joined text is the four lower-cased fields joined by spaces. */
  lemma JoinedParts(f: seq<string>)
    requires |f| == 4
    ensures Joined(f) == Lower(f[0]) + " " + Lower(f[1]) + " " + Lower(f[2]) + " " + Lower(f[3])
  {
    assert Lower(" ") == " ";
    LowerConcat(f[0] + " " + f[1] + " " + f[2] + " ", f[3]);
    LowerConcat(f[0] + " " + f[1] + " " + f[2], " ");
    LowerConcat(f[0] + " " + f[1] + " ", f[2]);
    LowerConcat(f[0] + " " + f[1], " ");
    LowerConcat(f[0] + " ", f[1]);
    LowerConcat(f[0], " ");
  }

  /** A substring of one of four space-separated parts is a substring of their join. */
  lemma ContainsInJoin(a: string, b: string, c: string, d: string, sub: string, k: nat)
    requires k < 4 && Contains([a, b, c, d][k], sub)
    ensures Contains(a + " " + b + " " + c + " " + d, sub)
  {
    var l := a + " " + b + " " + c + " " + d;
    if k == 0 {
      ContainsInside([], a, " " + b + " " + c + " " + d, sub);
      assert [] + a + (" " + b + " " + c + " " + d) == l;
    } else if k == 1 {
      ContainsInside(a + " ", b, " " + c + " " + d, sub);
      assert a + " " + b + (" " + c + " " + d) == l;
    } else if k == 2 {
      ContainsInside(a + " " + b + " ", c, " " + d, sub);
      assert a + " " + b + " " + c + (" " + d) == l;
    } else {
      ContainsInside(a + " " + b + " " + c + " ", d, [], sub);
      assert a + " " + b + " " + c + " " + d + [] == l;
    }
  }

  /** A text found, ignoring case, in one of the four fields is found in their join. */
  lemma JoinedContains(f: seq<string>, sub: string, k: nat)
    requires |f| == 4 && k < 4 && Contains(Lower(f[k]), sub)
    ensures Contains(Joined(f), sub)
  {
    JoinedParts(f);
    assert [Lower(f[0]), Lower(f[1]), Lower(f[2]), Lower(f[3])][k] == Lower(f[k]);
    ContainsInJoin(Lower(f[0]), Lower(f[1]), Lower(f[2]), Lower(f[3]), sub, k);
  }

  /** A query found, ignoring case, in any one of the four fields matches. */
  lemma MatchesField(job: seq<(string, Json)>, q: string, k: nat)
    requires k < 4 && Contains(Lower(Fields(job)[k]), Lower(q))
    ensures MatchesQuery(job, q)
  {
    JoinedContains(Fields(job), Lower(q), k);
  }

  /** The dict `search_remoteok` appends for an item. */
  function ItemJson(it: Item): Json {
    JDict([("title", JStr(it.title)), ("company", JStr(it.company)), ("salary", JStr(it.salary)),
           ("link", JStr(it.link)), ("raw", JDict(RawJson(it.raw)))])
  }

  /** Reading the emitted dict's four table keys gives the item's fields back. */
  lemma ItemJsonFields(it: Item)
    ensures Get(ItemJson(it).entries, "title") == JStr(it.title)
    ensures Get(ItemJson(it).entries, "company") == JStr(it.company)
    ensures Get(ItemJson(it).entries, "salary") == JStr(it.salary)
    ensures Get(ItemJson(it).entries, "link") == JStr(it.link)
  {
    var e := ItemJson(it).entries;
    assert |e[0].0| == 5 && |e[1].0| == 7 && |e[2].0| == 6 && |e[3].0| == 4;
    LookupAt(e, "title", 0);
    LookupAt(e, "company", 1);
    LookupAt(e, "salary", 2);
    LookupAt(e, "link", 3);
  }

  function RawJson(raw: seq<(string, string)>): (r: seq<(string, Json)>)
    ensures |r| == |raw|
  {
    if raw == [] then [] else [(raw[0].0, JStr(raw[0].1))] + RawJson(raw[1..])
  }

  /** One emitted result.  `raw` holds the first ten entries of the job, normalised. */
  datatype Item = Item(title: string, company: string, salary: string, link: string, raw: seq<(string, string)>)

  /** `x or "—"` on a string. */
  function OrDash(s: string): (r: string)
    ensures r != []
    ensures s != [] ==> r == s
  {
    if s == [] then [EmDash] else s
  }

  /** The `raw` field: each entry's key with its value normalised to 200 characters. */
  function RawFields(entries: seq<(string, Json)>): (r: seq<(string, string)>)
    ensures |r| == |entries|
    ensures forall i :: 0 <= i < |entries| ==> r[i] == (entries[i].0, NormalizeText(entries[i].1, RawFieldLen))
  {
    if entries == [] then []
    else [(entries[0].0, NormalizeText(entries[0].1, RawFieldLen))] + RawFields(entries[1..])
  }

  /** The result built for one matching job. */
  function ItemOf(job: seq<(string, Json)>): (r: Item)
    ensures r.title != [] && r.company != [] && r.salary != []
    ensures |r.title| <= TitleLen + 1 && |r.company| <= FieldLen + 1 && |r.salary| <= FieldLen + 1
    ensures r.link == "-" || (IsHttp(r.link) && IsStripped(r.link))
    ensures |r.raw| == Min(RawEntries, |job|)
    ensures forall i :: 0 <= i < |r.raw| ==> r.raw[i].0 == job[i].0
  {
    Item(OrDash(NormalizeText(Or(GetFirst(job, ["position", "title"]), JStr([EmDash])), TitleLen)),
         OrDash(NormalizeText(Or(Get(job, "company"), JStr([EmDash])), FieldLen)),
         OrDash(NormalizeText(Or(GetFirst(job, ["salary", "payment"]), JStr([EmDash])), FieldLen)),
         SafeUrl(GetFirst(job, ["url", "apply_url", "company_url"])),
         RawFields(job[..Min(RawEntries, |job|)]))
  }

  /** The results for a run of entries: every job dict that matches the query, in order. */
  function Accepted(jobs: seq<Json>, q: string): (r: seq<Item>)
    ensures |r| <= |jobs|
  {
    if jobs == [] then []
    else
      var job := jobs[|jobs| - 1];
      Accepted(jobs[..|jobs| - 1], q) + (if job.JDict? && MatchesQuery(job.entries, q) then [ItemOf(job.entries)] else [])
  }

  /** What `search_remoteok` returns for a decoded response: the first entry is metadata and is skipped. */
  function SearchResults(data: Json, q: string): seq<Item> {
    if !data.JList? || data.items == [] then [] else Accepted(data.items[1..], q)
  }

  /** Every result comes from a job dict that matches the query. */
  lemma {:induction false} AcceptedSound(jobs: seq<Json>, q: string, k: nat)
    requires k < |Accepted(jobs, q)|
    ensures exists j :: 0 <= j < |jobs| && jobs[j].JDict? && MatchesQuery(jobs[j].entries, q)
                        && Accepted(jobs, q)[k] == ItemOf(jobs[j].entries)
  {
    var init := jobs[..|jobs| - 1];
    var last := |jobs| - 1;
    if k < |Accepted(init, q)| {
      AcceptedSound(init, q, k);
      var j :| 0 <= j < |init| && init[j].JDict? && MatchesQuery(init[j].entries, q)
               && Accepted(init, q)[k] == ItemOf(init[j].entries);
      assert jobs[j] == init[j];
    } else {
      assert jobs[last].JDict? && MatchesQuery(jobs[last].entries, q);
      assert Accepted(jobs, q)[k] == ItemOf(jobs[last].entries);
    }
  }

  /** No matching job dict is dropped. */
  lemma {:induction false} AcceptedComplete(jobs: seq<Json>, q: string, j: nat)
    requires j < |jobs| && jobs[j].JDict? && MatchesQuery(jobs[j].entries, q)
    ensures ItemOf(jobs[j].entries) in Accepted(jobs, q)
  {
    var init := jobs[..|jobs| - 1];
    if j < |jobs| - 1 {
      assert jobs[j] == init[j];
      AcceptedComplete(init, q, j);
    }
  }

  /** With an empty query, every job dict yields a result. */
  lemma EmptyQueryKeepsAll(jobs: seq<Json>, j: nat)
    requires j < |jobs| && jobs[j].JDict?
    ensures ItemOf(jobs[j].entries) in Accepted(jobs, [])
  {
    AcceptedComplete(jobs, [], j);
  }

  /** One more job extends the accepted results by that job's item, if it has one. */
  lemma AcceptedStep(jobs: seq<Json>, j: nat, q: string)
    requires j < |jobs|
    ensures Accepted(jobs[..j + 1], q) == Accepted(jobs[..j], q) +
      (if jobs[j].JDict? && MatchesQuery(jobs[j].entries, q) then [ItemOf(jobs[j].entries)] else [])
  {
    assert jobs[..j + 1][..j] == jobs[..j];
  }

  /** The item loop of `search_remoteok`. */
  method SearchRemoteOk(data: Json, query: string) returns (results: seq<Item>)
    ensures results == SearchResults(data, query)
  {
    if !data.JList? || data.items == [] {
      return [];
    }
    var jobs := data.items[1..];
    results := [];
    var i := 0;
    while i < |jobs|
      invariant 0 <= i <= |jobs|
      invariant results == Accepted(jobs[..i], query)
    {
      var job := jobs[i];
      AcceptedStep(jobs, i, query);
      if job.JDict? && MatchesQuery(job.entries, query) {
        results := results + [ItemOf(job.entries)];
      }
      i := i + 1;
    }
    assert jobs[..i] == jobs;
  }
}
