/**
 The decision whether a download goes through the configured proxy: only
 YouTube links are proxied, only when the proxy mode is not `none`, and only
 with an address whose scheme the downloader accepts.
 */
module Proxy {
  import opened Options
  import opened Text

  /** Domains whose links need the proxy; other sites (Bilibili, say) are
      fetched directly. */
  const ProxiedDomains: seq<string> := ["youtube.com", "youtu.be"]

  /** Address prefixes accepted as a proxy URL, compared case-sensitively. */
  const ProxySchemes: seq<string> := ["http://", "https://", "socks5://"]

  /** The proxy-mode value that switches the proxy off, compared after
      lower-casing. */
  const DisabledMode: string := "none"

  /** Python's `s.startswith(tuple)`: one of the prefixes matches. */
  predicate StartsWithAny(s: string, prefixes: seq<string>) {
    |prefixes| > 0 && (IsPrefix(prefixes[0], s) || StartsWithAny(s, prefixes[1..]))
  }

  /** Whether the link names a proxied domain anywhere in its text: a plain
      substring test on the lower-cased link, not a parse of its host. */
  predicate IsYouTubeLink(url: string) {
    Contains(Lower(url), "youtube.com") || Contains(Lower(url), "youtu.be")
  }

  /** The condition under which the download passes `--proxy`, spelled out. */
  ghost predicate ProxyApplies(url: string, mode: string, address: string) {
    && (HasSubstring(Lower(url), "youtube.com") || HasSubstring(Lower(url), "youtu.be"))
    && !SpellsNone(mode)
    && address != ""
    && (IsPrefix("http://", address) || IsPrefix("https://", address) || IsPrefix("socks5://", address))
  }

  /** The proxy the download uses, if any. */
  function ProxyFor(url: string, mode: string, address: string): (p: Option<string>)
    ensures p == Some(address) <==> ProxyApplies(url, mode, address)
    ensures p == None <==> !ProxyApplies(url, mode, address)
  {
    ContainsIff(Lower(url), "youtube.com");
    ContainsIff(Lower(url), "youtu.be");
    LowerIsNoneIff(mode);
    AcceptedSchemes(address);
    if IsYouTubeLink(url) && Lower(mode) != DisabledMode && address != "" then
      if StartsWithAny(address, ProxySchemes) then Some(address) else None
    else None
  }

  /** The three accepted schemes, one by one. */
  lemma AcceptedSchemes(address: string)
    ensures StartsWithAny(address, ProxySchemes) <==>
      IsPrefix("http://", address) || IsPrefix("https://", address) || IsPrefix("socks5://", address)
  {
    var s := ProxySchemes;
    assert s[0] == "http://" && s[1..][0] == "https://" && s[1..][1..][0] == "socks5://";
    assert s[1..][1..][1..] == [];
    assert StartsWithAny(address, s[1..][1..]) <==> IsPrefix("socks5://", address);
    assert StartsWithAny(address, s[1..]) <==>
      IsPrefix("https://", address) || IsPrefix("socks5://", address);
  }

  /** The emptiness test is subsumed by the scheme test: every accepted
      address is non-empty. */
  lemma SchemeImpliesNonEmpty(address: string)
    requires StartsWithAny(address, ProxySchemes)
    ensures address != ""
  {
    AcceptedSchemes(address);
  }

  /** The scheme comparison is case-sensitive: an upper-case scheme is
      rejected even though it names the same protocol, while the lower-case
      spelling is accepted under the same link and mode. */
  lemma SchemeIsCaseSensitive(url: string, mode: string, rest: string)
    requires HasSubstring(Lower(url), "youtube.com") || HasSubstring(Lower(url), "youtu.be")
    requires !SpellsNone(mode)
    ensures ProxyFor(url, mode, "SOCKS5://" + rest) == None
    ensures ProxyFor(url, mode, "HTTP://" + rest) == None
    ensures ProxyFor(url, mode, "socks5://" + rest) == Some("socks5://" + rest)
    ensures ProxyFor(url, mode, "http://" + rest) == Some("http://" + rest)
  {
    var upperSocks := "SOCKS5://" + rest;
    var upperHttp := "HTTP://" + rest;
    assert upperSocks[0] == 'S' && upperHttp[0] == 'H';
    assert !IsPrefix("http://", upperSocks) && !IsPrefix("https://", upperSocks);
    assert !IsPrefix("socks5://", upperSocks);
    assert !IsPrefix("http://", upperHttp) && !IsPrefix("https://", upperHttp);
    assert !IsPrefix("socks5://", upperHttp);
    assert IsPrefix("socks5://", "socks5://" + rest);
    assert IsPrefix("http://", "http://" + rest);
  }

  /** The mode comparison ignores case: any spelling of `none` disables the
      proxy, whatever the link and the address. */
  lemma AnyNoneSpellingDisables(url: string, mode: string, address: string)
    requires SpellsNone(mode)
    ensures ProxyFor(url, mode, address) == None
  {
  }

  /** The case of the link never matters: only its lower-cased text is
      searched for the domains. */
  lemma LinkCaseIsIgnored(url: string, mode: string, address: string)
    ensures ProxyFor(Lower(url), mode, address) == ProxyFor(url, mode, address)
  {
    LowerIdempotent(url);
  }

  /** A lower-case word inside a text is still there after lower-casing. */
  lemma LowerKeepsLowerCaseWord(before: string, word: string, after: string)
    requires forall i :: 0 <= i < |word| ==> !('A' <= word[i] <= 'Z')
    ensures HasSubstring(Lower(before + word + after), word)
  {
    LowerAppend(before + word, after);
    LowerAppend(before, word);
    LowerOfLowerCase(word);
    OccursBetween(Lower(before), word, Lower(after));
  }

  /** The domain is found anywhere in the link, not only in its host: a link
      that merely mentions `youtu.be` in its query is proxied too. */
  lemma DomainIsPlainSubstring(before: string, after: string, mode: string, address: string)
    requires !SpellsNone(mode) && StartsWithAny(address, ProxySchemes)
    ensures ProxyFor(before + "youtu.be" + after, mode, address) == Some(address)
  {
    LowerKeepsLowerCaseWord(before, "youtu.be", after);
    AcceptedSchemes(address);
  }
}
