/**
 * Link repair shared by the job-board table and the RemoteOK client: a
 * scheme-relative `//host/...` link gets `https:` in front, and a site-relative
 * `/path` gets the RemoteOK origin in front.
 */
module Links {
  import opened Text

  const RemoteOkOrigin: string := "https://remoteok.com"

  /** `s.startswith(("http://", "https://"))`. */
  predicate IsHttp(s: string) {
    StartsWith(s, "http://") || StartsWith(s, "https://")
  }

  /** `s.lower().startswith(("http://", "https://"))`. */
  predicate IsHttpAnyCase(s: string) {
    IsHttp(Lower(s))
  }

  /** The two prefix rules, applied one after the other. */
  function Prefixed(s: string): (r: string)
    ensures StartsWith(s, "//") ==> r == "https:" + s
    ensures StartsWith(s, "/") && !StartsWith(s, "//") ==> r == RemoteOkOrigin + s
    ensures !StartsWith(s, "/") ==> r == s
    ensures IsStripped(s) ==> IsStripped(r)
  {
    var t := if StartsWith(s, "//") then "https:" + s else s;
    assert StartsWith(s, "//") ==> t[0] == 'h';
    if StartsWith(t, "/") then RemoteOkOrigin + t else t
  }

  /** A link that passes the case-sensitive test also passes the case-insensitive one. */
  lemma HttpAnyCase(s: string)
    requires IsHttp(s)
    ensures IsHttpAnyCase(s)
  {
    if StartsWith(s, "http://") {
      assert Lower(s)[..7] == Lower(s[..7]);
    } else {
      assert Lower(s)[..8] == Lower(s[..8]);
    }
  }

  /** A link that passes the case-insensitive test starts with a letter, so the prefix rules leave it alone. */
  lemma PrefixedKeepsHttp(s: string)
    requires IsHttpAnyCase(s)
    ensures Prefixed(s) == s
  {
    assert Lower(s)[0] == 'h';
    assert s[0] != '/';
  }
}
