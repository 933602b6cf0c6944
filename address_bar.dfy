/** The address-bar input classifier of the tab store: whether a line typed into the address
    bar is used as a URL as it is, gets `https://` in front, or becomes a Google search.

    The WHATWG URL parser behind `isValidUrl` (`new URL(s)` not throwing) and
    `encodeURIComponent` are library code; both are parameters. */
module AddressBar {
  import opened JsString

  const HTTP: string := "http://"
  const HTTPS: string := "https://"
  const SEARCH_PREFIX: string := "https://www.google.com/search?q="
  /** What the unused `createSearchUrl` appends; the classifier does not. */
  const SAFE_SEARCH_SUFFIX: string := "&safe=active"

  /** `[a-zA-Z0-9]([a-zA-Z0-9\-]{0,61}[a-zA-Z0-9])?`: 1 to 63 characters, letters, digits and
      hyphens, starting and ending with a letter or digit. */
  predicate IsLabel(l: string)
  {
    1 <= |l| <= 63 && IsAlnum(l[0]) && IsAlnum(l[|l| - 1])
    && forall i :: 0 < i < |l| - 1 ==> IsAlnum(l[i]) || l[i] == '-'
  }

  /** `[a-zA-Z]{2,}`: the top-level domain. */
  predicate IsTld(t: string)
  {
    |t| >= 2 && forall i :: 0 <= i < |t| ==> IsAlpha(t[i])
  }

  /** `(label\.)+tld`. Neither part can contain a dot, so the dots split the host uniquely:
      the text before the first dot is a label, and the rest is either the top-level domain
      or again a host. */
  predicate IsHost(h: string)
    decreases |h|
  {
    var i := IndexOf(h, '.');
    i >= 0 && IsLabel(h[..i]) && (IsTld(h[i + 1..]) || IsHost(h[i + 1..]))
  }

  /** `(\/[^\s]*)?`: nothing, or a slash followed by non-white-space characters. */
  predicate IsPath(p: string)
  {
    p == [] || (p[0] == '/' && forall i :: 1 <= i < |p| ==> !IsWhitespace(p[i]))
  }

  /** The host runs up to the first slash (a host has none), the path from there. */
  predicate IsHostThenPath(t: string)
  {
    var k := IndexOf(t, '/');
    var cut := if k < 0 then |t| else k;
    IsHost(t[..cut]) && IsPath(t[cut..])
  }

  /** The whole-string match of the address-bar URL pattern; the optional `https?://` group
      is tried with each scheme and without one. Whatever matches contains a dot, so the
      classifier's and `looksLikeUrl`'s own `includes('.')` tests never reject a match. */
  predicate MatchesUrlPattern(s: string): (r: bool)
    ensures r ==> Contains(s, ".")
  {
    if IsHostThenPath(s) then
      HostThenPathHasDot(s, 0);
      true
    else if StartsWith(s, HTTP) && IsHostThenPath(s[|HTTP|..]) then
      HostThenPathHasDot(s, |HTTP|);
      true
    else if StartsWith(s, HTTPS) && IsHostThenPath(s[|HTTPS|..]) then
      HostThenPathHasDot(s, |HTTPS|);
      true
    else false
  }

  /** `looksLikeUrl`: the pattern, a dot, and more than five characters; the dot test is
      implied by the pattern, so only the pattern and the length decide. */
  predicate LooksLikeUrl(s: string): (r: bool)
    ensures r <==> MatchesUrlPattern(s) && |s| > 5
  {
    MatchesUrlPattern(s) && Contains(s, ".") && |s| > 5
  }

  predicate HasWebScheme(u: string)
  {
    StartsWith(u, HTTP) || StartsWith(u, HTTPS)
  }

  /** The URL `updateTabUrl` navigates to for the address-bar text `input`. The trimmed text is
      kept when the URL parser accepts it (with `https://` added if it has neither web
      scheme); otherwise text that contains a dot and looks like a URL gets `https://`; all
      other text becomes a Google search for it, without the safe-search parameter. */
  function FinalUrl(input: string, isValidUrl: string -> bool, encode: string -> string): (r: string)
    ensures var t := Trim(input);
            isValidUrl(t) ==> r == (if HasWebScheme(t) then t else HTTPS + t)
    ensures var t := Trim(input);
            !isValidUrl(t) && LooksLikeUrl(t) ==> r == HTTPS + t
    ensures var t := Trim(input);
            !isValidUrl(t) && !LooksLikeUrl(t) ==> r == SEARCH_PREFIX + encode(t)
    ensures HasWebScheme(r)
  {
    var finalUrl := Trim(input);
    if isValidUrl(finalUrl) then
      if !StartsWith(finalUrl, HTTP) && !StartsWith(finalUrl, HTTPS) then HTTPS + finalUrl
      else finalUrl
    else if Contains(finalUrl, ".") && LooksLikeUrl(finalUrl) then HTTPS + finalUrl
    else SEARCH_PREFIX + encode(finalUrl)
  }

  /** A host always contains a dot. */
  lemma {:induction false} HostHasDot(h: string)
    requires IsHost(h)
    ensures '.' in h
  {
  }

  /** A host-then-path at offset `n` puts a dot into the whole text. */
  lemma HostThenPathHasDot(s: string, n: nat)
    requires n <= |s| && IsHostThenPath(s[n..])
    ensures Contains(s, ".")
  {
    ContainsChar(s, '.');
    var t := s[n..];
    var k := IndexOf(t, '/');
    var cut := if k < 0 then |t| else k;
    HostHasDot(t[..cut]);
    assert '.' in t;
  }

  /** Text with no dot that the URL parser rejects is always searched for. */
  lemma DotlessTextIsSearched(input: string, isValidUrl: string -> bool, encode: string -> string)
    requires !isValidUrl(Trim(input)) && '.' !in Trim(input)
    ensures FinalUrl(input, isValidUrl, encode) == SEARCH_PREFIX + encode(Trim(input))
  {
    ContainsChar(Trim(input), '.');
  }

  /** The length test is not redundant: `ab.cd` matches the pattern but is only five
      characters long, so it is not taken for a URL. */
  lemma ShortHostIsNotUrl()
    ensures MatchesUrlPattern("ab.cd") && !LooksLikeUrl("ab.cd")
  {
    ShortDomainCut();
    ShortDomain();
    assert "ab.cd"[..5] == "ab.cd" && "ab.cd"[5..] == [];
  }

  lemma ShortDomainCut()
    ensures IndexOf("ab.cd", '/') == -1
  {
  }

  lemma ShortDomain()
    ensures IsHost("ab.cd")
  {
    assert IndexOf("ab.cd", '.') == 2;
    assert "ab.cd"[..2] == "ab" && "ab.cd"[3..] == "cd";
    assert IsLabel("ab") && IsTld("cd");
  }

  lemma ShortPathCut()
    ensures IndexOf("ab.io/x", '/') == 5
  {
  }

  lemma ShortHost()
    ensures IsHost("ab.io")
  {
    assert IndexOf("ab.io", '.') == 2;
    assert "ab.io"[..2] == "ab" && "ab.io"[3..] == "io";
  }

  lemma ShortPathHostThenPath()
    ensures IsHostThenPath("ab.io/x")
  {
    ShortPathCut();
    ShortHost();
    ShortPath();
    Halves("ab.io", "/x");
    assert "ab.io" + "/x" == "ab.io/x";
  }

  lemma ShortPath()
    ensures IsPath("/x")
  {
    assert "/x"[1] == 'x';
  }

  lemma Halves(a: string, b: string)
    ensures (a + b)[..|a|] == a && (a + b)[|a|..] == b
  {
  }

  /** `ab.io/x` is taken for a URL. */
  lemma ShortPathLooksLikeUrl()
    ensures LooksLikeUrl("ab.io/x")
  {
    ShortPathHostThenPath();
  }

  /** Text the URL parser rejects but that looks like a URL, typed without surrounding white
      space, is loaded over `https://` (for instance `ab.io/x` becomes `https://ab.io/x`). */
  lemma BareDomainGetsHttps(input: string, isValidUrl: string -> bool, encode: string -> string)
    requires input == [] || (!IsWhitespace(input[0]) && !IsWhitespace(input[|input| - 1]))
    requires !isValidUrl(input) && LooksLikeUrl(input)
    ensures FinalUrl(input, isValidUrl, encode) == HTTPS + input
  {
    TrimUnchanged(input);
  }

  /** Submitting again a URL the classifier produced without searching, when the URL parser
      accepts it, yields the same URL: the classifier is idempotent on URLs. */
  lemma ResubmitUrlIsStable(input: string, isValidUrl: string -> bool, encode: string -> string)
    requires var t := Trim(input); isValidUrl(t) || LooksLikeUrl(t)
    requires isValidUrl(FinalUrl(input, isValidUrl, encode))
    ensures var r := FinalUrl(input, isValidUrl, encode);
            FinalUrl(r, isValidUrl, encode) == r
  {
    var t := Trim(input);
    var r := FinalUrl(input, isValidUrl, encode);
    if isValidUrl(t) {
      assert r == if HasWebScheme(t) then t else HTTPS + t;
    } else {
      assert r == HTTPS + t;
    }
    SchemeKeepsEnds(t, r);
    TrimUnchanged(r);
    KeptAsIs(r, isValidUrl, encode);
  }

  /** A trimmed text with a web scheme that the URL parser accepts is used as it is. */
  lemma KeptAsIs(u: string, isValidUrl: string -> bool, encode: string -> string)
    requires Trim(u) == u && isValidUrl(u) && HasWebScheme(u)
    ensures FinalUrl(u, isValidUrl, encode) == u
  {
  }

  /** A trimmed text, kept because it has a web scheme or given `https://` in front, has no
      white space at either end. */
  lemma SchemeKeepsEnds(t: string, r: string)
    requires t == [] || (!IsWhitespace(t[0]) && !IsWhitespace(t[|t| - 1]))
    requires (r == t && HasWebScheme(t)) || r == HTTPS + t
    ensures r != [] && !IsWhitespace(r[0]) && !IsWhitespace(r[|r| - 1])
  {
    if r != HTTPS + t {
      assert t[0] == 'h';
    } else {
      assert r[0] == 'h';
      assert r[|r| - 1] == (if t == [] then '/' else t[|t| - 1]);
    }
  }
}
