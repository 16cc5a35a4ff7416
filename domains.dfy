/** Which hosts the mirror downloads, rewrites and names with a query suffix, and the
    query sanitisation that all three programs share. */
module Domains {
  import opened Text

  const KUJIALE_SUFFIX := ".kujiale.com"
  const MAIN_DOMAIN := "www.kujiale.com"
  const PANOJSON := "panojson-oss.kujiale.com"
  const STATIC := "qhstaticssl.kujiale.com"
  /** The one host whose references are queued for download. */
  const RENDER := "qhrenderpicoss.kujiale.com"

  /** Hosts whose links are never rewritten to root-relative form. */
  const EXCLUDE_REWRITE: seq<string> := [MAIN_DOMAIN, STATIC]

  /** post_process.py: a `*.kujiale.com` host other than the main site and the panorama
      JSON host. */
  predicate ShouldProcessDomain(domain: string)
  {
    EndsWith(domain, KUJIALE_SUFFIX) && domain != PANOJSON && domain != MAIN_DOMAIN
  }

  /** save_responses.py's own version, which admits the panorama JSON host. */
  predicate CaptureShouldProcessDomain(domain: string)
  {
    EndsWith(domain, KUJIALE_SUFFIX) && domain != MAIN_DOMAIN
  }

  /** save_responses.py's condition on the host for naming a file after its query. */
  predicate CaptureQueryHost(netloc: string)
  {
    Contains(netloc, "kujiale.com") && netloc != PANOJSON && netloc != MAIN_DOMAIN
  }

  predicate IsQueryReserved(c: char) { c == '/' || c == ':' || c == '?' }

  /** `q.replace("/", "_").replace(":", "_").replace("?", "_")`: the query as it appears in
      a file name. */
  function SanitizeQuery(q: string): (r: string)
    ensures |r| == |q|
    ensures forall i :: 0 <= i < |q| ==> r[i] == (if IsQueryReserved(q[i]) then '_' else q[i])
    ensures forall c :: c in r ==> !IsQueryReserved(c)
  {
    var r := ReplaceAll(ReplaceAll(ReplaceAll(q, "/", "_"), ":", "_"), "?", "_");
    ReplaceChar(q, '/', '_');
    ReplaceChar(ReplaceAll(q, "/", "_"), ':', '_');
    ReplaceChar(ReplaceAll(ReplaceAll(q, "/", "_"), ":", "_"), '?', '_');
    r
  }

  /** `"__"` and the sanitised query, for a non-empty query. */
  function QuerySuffix(query: string): (r: string)
    ensures query == [] ==> r == []
    ensures query != [] ==> r == "__" + SanitizeQuery(query)
    ensures '/' !in r
  {
    if query != [] then
      var r := "__" + SanitizeQuery(query);
      assert forall i :: 0 <= i < |r| ==> r[i] in "__" || r[i] in SanitizeQuery(query);
      r
    else []
  }

  /** A protocol-relative reference (`//host/...`) with the `https:` scheme put in front;
      both `handle_url` and the queue loop of `extract_and_rewrite_file` do this. */
  function WithScheme(url: string): (r: string)
    ensures StartsWith(url, "//") ==> r == "https:" + url
    ensures !StartsWith(url, "//") ==> r == url
  {
    if StartsWith(url, "//") then "https:" + url else url
  }

  /** The characters that sanitising turns into, or leaves as, `_`. */
  predicate SanitizesToUnderscore(c: char)
  {
    IsQueryReserved(c) || c == '_'
  }

  // ---------------------------------------------------------------------------------
  // Lemmas

  /** The downloader's filter is the capture hook's filter without the panorama JSON host. */
  lemma ProcessFilters(domain: string)
    ensures ShouldProcessDomain(domain) <==> CaptureShouldProcessDomain(domain) && domain != PANOJSON
    ensures CaptureShouldProcessDomain(domain) && !ShouldProcessDomain(domain) <==> domain == PANOJSON
  {
    if domain == PANOJSON {
      assert EndsWith(PANOJSON, KUJIALE_SUFFIX);
    }
  }

  /** Every downloadable host also gets its query in the captured file name. */
  lemma EligibleHasQueryName(domain: string)
    requires ShouldProcessDomain(domain)
    ensures CaptureQueryHost(domain)
  {
    var n := |domain|;
    assert domain[n - 12..] == KUJIALE_SUFFIX;
    assert domain == domain[..n - 11] + "kujiale.com" + [];
    ContainsInfix(domain[..n - 11], "kujiale.com", []);
  }

  /** The roles of the named hosts: render images are downloaded and rewritten, static
      assets are downloaded but keep their absolute links, and the main site is neither. */
  lemma HostRoles()
    ensures ShouldProcessDomain(RENDER) && RENDER !in EXCLUDE_REWRITE
    ensures ShouldProcessDomain(STATIC) && STATIC in EXCLUDE_REWRITE
    ensures !ShouldProcessDomain(MAIN_DOMAIN) && MAIN_DOMAIN in EXCLUDE_REWRITE
    ensures !ShouldProcessDomain(PANOJSON) && PANOJSON !in EXCLUDE_REWRITE
  {
    assert RENDER[|RENDER| - 12..] == KUJIALE_SUFFIX;
    assert STATIC[|STATIC| - 12..] == KUJIALE_SUFFIX;
  }

  /** Sanitising is idempotent, and it never changes a query without reserved characters. */
  lemma SanitizeIdempotent(q: string)
    ensures SanitizeQuery(SanitizeQuery(q)) == SanitizeQuery(q)
    ensures (forall c :: c in q ==> !IsQueryReserved(c)) ==> SanitizeQuery(q) == q
  {
    if forall c :: c in q ==> !IsQueryReserved(c) {
      assert forall i :: 0 <= i < |q| ==> q[i] in q;
    }
  }

  /** Two queries name the same file exactly when they have the same length and, at every
      place, either agree or both hold one of `/`, `:`, `?` and `_`. */
  lemma SanitizeCollision(a: string, b: string)
    ensures SanitizeQuery(a) == SanitizeQuery(b) <==>
              |a| == |b| && forall i :: 0 <= i < |a| ==> a[i] == b[i] || (SanitizesToUnderscore(a[i]) && SanitizesToUnderscore(b[i]))
  {
    var sa, sb := SanitizeQuery(a), SanitizeQuery(b);
    if sa == sb {
      forall i | 0 <= i < |a| ensures a[i] == b[i] || (SanitizesToUnderscore(a[i]) && SanitizesToUnderscore(b[i])) {
        assert sa[i] == sb[i];
      }
    }
  }
}
