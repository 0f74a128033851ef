/**
 * The job-board window's data handling: `safe_str` renders any value as one
 * table cell, `normalize_link` repairs or rejects a link, the result list is
 * cut to its first 200 entries, each entry is turned into a row by trying
 * several keys per column, and a click on the link column opens only a
 * web link.
 */
module FreelanceGui {
  import opened Wrappers
  import opened Text
  import opened Json
  import opened Links
  import RemoteOk
  import Wework

  const MaxRows: nat := 200
  const TitleLen: nat := 300
  const FieldLen: nat := 200
  const LinkColumn: int := 3

  /** `safe_str(value, max_len)`. */
  function SafeStr(value: Json, maxLen: nat): (r: string)
    ensures value.JNull? ==> r == [EmDash]
    ensures forall i :: 0 <= i < |r| ==> !IsBreak(r[i])
    ensures |r| <= maxLen + 1
    ensures !value.JNull? ==> (r == [] <==> IsBlank(Str(value)))
    ensures !value.JNull? && |Cleaned(Str(value))| <= maxLen ==> r == Cleaned(Str(value))
    ensures !value.JNull? && |Cleaned(Str(value))| > maxLen ==> r == Cleaned(Str(value))[..maxLen] + [Ellipsis]
  {
    if value.JNull? then [EmDash]
    else
      var s := Cleaned(Str(value));
      assert |s| > maxLen ==> forall i :: 0 <= i < maxLen ==> s[..maxLen][i] == s[i];
      Truncate(s, maxLen)
  }

  /** `normalize_link(u)`. */
  function NormalizeLink(u: Json): (r: string)
    ensures !Truthy(u) ==> r == "-"
    ensures r == "-" || (IsHttpAnyCase(r) && IsStripped(r))
    ensures r == "-" || r == Prefixed(Strip(Str(u)))
  {
    if !Truthy(u) then "-"
    else
      var s := Prefixed(Strip(Str(u)));
      if IsHttpAnyCase(s) then s else "-"
  }

  /** The placeholder is not a web link. */
  lemma DashIsNotHttp()
    ensures !IsHttpAnyCase("-")
  {
    assert Lower("-") == "-";
  }

  /** A stripped link that passes the web-link test is returned as it is. */
  lemma NormalizeLinkKeepsValid(s: string)
    requires IsStripped(s) && IsHttpAnyCase(s)
    ensures NormalizeLink(JStr(s)) == s
  {
    StripStripped(s);
    PrefixedKeepsHttp(s);
  }

  /** Normalising a normalised link changes nothing. */
  lemma NormalizeLinkIdempotent(u: Json)
    ensures NormalizeLink(JStr(NormalizeLink(u))) == NormalizeLink(u)
  {
    var r := NormalizeLink(u);
    if r == "-" {
      assert Strip(r) == r;
      assert Prefixed(r) == r;
      DashIsNotHttp();
    } else {
      NormalizeLinkKeepsValid(r);
    }
  }

  /** For a non-empty stripped string, the result is its prefixed form when that is a web link. */
  lemma NormalizeStripped(s: string)
    requires s != [] && IsStripped(s)
    ensures NormalizeLink(JStr(s)) == if IsHttpAnyCase(Prefixed(s)) then Prefixed(s) else "-"
  {
    StripStripped(s);
  }

  /** A scheme-relative link `//x` becomes `https://x`. */
  lemma SchemeRelativeLink(x: string)
    requires x == [] || !IsSpace(x[|x| - 1])
    ensures NormalizeLink(JStr("//" + x)) == "https://" + x
  {
    var s := "//" + x;
    var t := "https://" + x;
    assert IsStripped(s) && StartsWith(s, "//");
    assert Prefixed(s) == t;
    assert StartsWith(t, "https://") by { assert t[..8] == "https://"; }
    HttpAnyCase(t);
    NormalizeStripped(s);
  }

  /** A site-relative link `/p` is resolved against the RemoteOK origin. */
  lemma SiteRelativeLink(p: string)
    requires p == [] || (p[0] != '/' && !IsSpace(p[|p| - 1]))
    ensures NormalizeLink(JStr("/" + p)) == "https://remoteok.com/" + p
  {
    var s := "/" + p;
    var t := "https://remoteok.com/" + p;
    assert IsStripped(s) && StartsWith(s, "/") && !StartsWith(s, "//");
    assert Prefixed(s) == t;
    assert StartsWith(t, "https://") by { assert t[..8] == "https://"; }
    HttpAnyCase(t);
    NormalizeStripped(s);
  }

  /** The 200-row cut: the first `MaxRows` results, or all of them when there are fewer. */
  function TrimResults(results: seq<Json>): (r: seq<Json>)
    ensures |r| == Min(|results|, MaxRows)
    ensures r == results[..|r|]
  {
    if |results| > MaxRows then results[..MaxRows] else results
  }

  /** One table row: title, company, salary and link columns. */
  datatype Row = Row(title: string, company: string, salary: string, link: string)

  /** The row shown for an entry that is not a dict: every `.get` raises and each column falls back. */
  const Placeholder: Row := Row([EmDash], [EmDash], [EmDash], "-")

  const TitleKeys: seq<string> := ["title", "position", "name"]
  const CompanyKeys: seq<string> := ["company", "employer", "company_name"]
  const SalaryKeys: seq<string> := ["salary", "budget", "payment"]
  const LinkKeys: seq<string> := ["link", "url", "apply_url", "company_url"]

  /** The row `run_search` builds for one result. */
  function RowOf(v: Json): (row: Row)
    ensures !v.JDict? ==> row == Placeholder
    ensures |row.title| <= TitleLen + 1 && |row.company| <= FieldLen + 1 && |row.salary| <= FieldLen + 1
    ensures row.link == "-" || (IsHttpAnyCase(row.link) && IsStripped(row.link))
    ensures forall i :: 0 <= i < |row.title| ==> !IsBreak(row.title[i])
  {
    if !v.JDict? then Placeholder
    else
      Row(SafeStr(GetFirst(v.entries, TitleKeys), TitleLen),
          SafeStr(GetFirst(v.entries, CompanyKeys), FieldLen),
          SafeStr(GetFirst(v.entries, SalaryKeys), FieldLen),
          NormalizeLink(GetFirst(v.entries, LinkKeys)))
  }

  /** The title column shows the first title key with a truthy value. */
  lemma RowTitleKey(e: seq<(string, Json)>, i: nat)
    requires i < |TitleKeys| && Truthy(Get(e, TitleKeys[i]))
    requires forall j :: 0 <= j < i ==> !Truthy(Get(e, TitleKeys[j]))
    ensures RowOf(JDict(e)).title == SafeStr(Get(e, TitleKeys[i]), TitleLen)
  {
    GetFirstPicks(e, TitleKeys, i);
  }

  /** The link column comes from the first link key with a truthy value. */
  lemma RowLinkKey(e: seq<(string, Json)>, i: nat)
    requires i < |LinkKeys| && Truthy(Get(e, LinkKeys[i]))
    requires forall j :: 0 <= j < i ==> !Truthy(Get(e, LinkKeys[j]))
    ensures RowOf(JDict(e)).link == NormalizeLink(Get(e, LinkKeys[i]))
  {
    GetFirstPicks(e, LinkKeys, i);
  }

  /** A dict without any title key shows the placeholder title. */
  lemma RowMissingTitle(e: seq<(string, Json)>)
    requires forall j :: 0 <= j < |TitleKeys| ==> !HasKey(e, TitleKeys[j])
    ensures RowOf(JDict(e)).title == [EmDash]
  {
    assert Get(e, TitleKeys[2]) == JNull;
  }

  /** `open_link(row, column)`: the link to open for a click on a cell holding `cell`, if any. */
  function OpenedLink(column: int, cell: Option<string>): (r: Option<string>)
    ensures r.Some? <==> column == LinkColumn && cell.Some? && IsHttpAnyCase(Strip(cell.value))
    ensures r.Some? ==> r.value == Strip(cell.value) && r.value != []
  {
    if column != LinkColumn || cell.None? then None
    else
      var link := Strip(cell.value);
      if link == [] || !IsHttpAnyCase(link) then None else Some(link)
  }

  /** Clicking a row's link cell opens exactly the link the row shows, unless it is the placeholder. */
  lemma RowLinkOpens(v: Json)
    ensures OpenedLink(LinkColumn, Some(RowOf(v).link)) ==
      if RowOf(v).link == "-" then None else Some(RowOf(v).link)
  {
    var link := RowOf(v).link;
    StripStripped(link);
    DashIsNotHttp();
  }

  /** Where the client keeps a link, the table's case-insensitive repair gives the same link. */
  lemma LinkRepairsAgree(u: Json)
    requires RemoteOk.SafeUrl(u) != "-"
    ensures NormalizeLink(u) == RemoteOk.SafeUrl(u)
  {
    HttpAnyCase(RemoteOk.SafeUrl(u));
  }

  /** The table accepts an upper-case scheme that the client rejects. */
  lemma LinkRepairsDiffer()
    ensures NormalizeLink(JStr("HTTP://x")) == "HTTP://x"
    ensures RemoteOk.SafeUrl(JStr("HTTP://x")) == "-"
  {
    var s := "HTTP://x";
    assert IsStripped(s) && !StartsWith(s, "/");
    StripStripped(s);
    assert Lower(s) == "http://x";
    assert StartsWith(Lower(s), "http://");
    assert !StartsWith(s, "http://") by { assert s[0] != 'h'; }
    assert !StartsWith(s, "https://") by { assert s[0] != 'h'; }
  }

  /** `safe_str` leaves a cell text alone that is already clean and no longer than its own truncation. */
  lemma SafeStrKeeps(t: string, n: nat)
    requires t != [] && IsStripped(t) && forall i :: 0 <= i < |t| ==> !IsBreak(t[i])
    requires |t| <= n || (|t| == n + 1 && t[n] == Ellipsis)
    ensures SafeStr(JStr(t), n) == t
  {
    assert BreaksToSpaces(t) == t;
    StripStripped(t);
    assert |t| > n ==> t[..n] + [Ellipsis] == t;
  }

  /** A client text of width `n` passes `safe_str(_, n)` unchanged. */
  lemma ClientTextKeeps(v: Json, n: nat)
    requires n > 0
    ensures var t := RemoteOk.OrDash(RemoteOk.NormalizeText(v, n)); SafeStr(JStr(t), n) == t
  {
    var r := RemoteOk.NormalizeText(v, n);
    var t := RemoteOk.OrDash(r);
    if r == [] {
      assert t == [EmDash];
    } else {
      assert forall i :: 0 <= i < |t| ==> !IsBreak(t[i]);
    }
    SafeStrKeeps(t, n);
  }

  /** An item whose texts pass through `safe_str` and `normalize_link` unchanged shows as it is. */
  lemma ItemRowShowsItem(it: RemoteOk.Item)
    requires it.title != [] && it.company != [] && it.salary != [] && it.link != []
    requires SafeStr(JStr(it.title), TitleLen) == it.title
    requires SafeStr(JStr(it.company), FieldLen) == it.company
    requires SafeStr(JStr(it.salary), FieldLen) == it.salary
    requires NormalizeLink(JStr(it.link)) == it.link
    ensures RowOf(RemoteOk.ItemJson(it)) == Row(it.title, it.company, it.salary, it.link)
  {
    var e := RemoteOk.ItemJson(it).entries;
    RemoteOk.ItemJsonFields(it);
    GetFirstPicks(e, TitleKeys, 0);
    GetFirstPicks(e, CompanyKeys, 0);
    GetFirstPicks(e, SalaryKeys, 0);
    GetFirstPicks(e, LinkKeys, 0);
  }

  /** A RemoteOK result shows in the table with its title, company, salary and link unchanged. */
  lemma RemoteOkRowShowsItem(job: seq<(string, Json)>)
    ensures var it := RemoteOk.ItemOf(job);
      RowOf(RemoteOk.ItemJson(it)) == Row(it.title, it.company, it.salary, it.link)
  {
    var it := RemoteOk.ItemOf(job);
    ClientTextKeeps(Or(GetFirst(job, ["position", "title"]), JStr([EmDash])), TitleLen);
    ClientTextKeeps(Or(Get(job, "company"), JStr([EmDash])), FieldLen);
    ClientTextKeeps(Or(GetFirst(job, ["salary", "payment"]), JStr([EmDash])), FieldLen);
    if it.link == "-" {
      NormalizeLinkIdempotent(JNull);
    } else {
      HttpAnyCase(it.link);
      NormalizeLinkKeepsValid(it.link);
    }
    ItemRowShowsItem(it);
  }

  /** The We Work Remotely normaliser is `safe_str` on strings. */
  lemma WeworkTextIsSafeStr(s: string, n: nat)
    ensures Wework.NormalizeText(Some(s), n) == SafeStr(JStr(s), n)
  {
  }
}
