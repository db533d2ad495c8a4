/** `resolveMedia`: rewriting `ipfs://` media URIs to the public HTTP gateway. */
module Media {

  const IpfsScheme: string := "ipfs://"
  const IpfsGateway: string := "https://ipfs.io/ipfs/"

  predicate StartsWith(s: string, prefix: string)
  {
    |prefix| <= |s| && s[..|prefix|] == prefix
  }

  /** JavaScript's `s.replace(pattern, replacement)` with a string pattern: only the first
      occurrence of `pattern` is replaced; with no occurrence `s` is returned as it is. */
  function ReplaceFirst(s: string, pattern: string, replacement: string): string
    decreases |s|
  {
    if |s| < |pattern| then s
    else if s[..|pattern|] == pattern then replacement + s[|pattern|..]
    else [s[0]] + ReplaceFirst(s[1..], pattern, replacement)
  }

  /** When `s` starts with `pattern`, the first occurrence is the prefix itself. */
  lemma ReplaceFirstAtStart(s: string, pattern: string, replacement: string)
    requires StartsWith(s, pattern)
    ensures ReplaceFirst(s, pattern, replacement) == replacement + s[|pattern|..]
  {
  }

  /** `resolveMedia(uri)`. */
  function ResolveMedia(uri: string): (r: string)
    ensures StartsWith(uri, IpfsScheme) ==> r == IpfsGateway + uri[|IpfsScheme|..]
    ensures !StartsWith(uri, IpfsScheme) ==> r == uri
    ensures !StartsWith(r, IpfsScheme)
  {
    if uri == "" then uri
    else if StartsWith(uri, IpfsScheme) then
      ReplaceFirstAtStart(uri, IpfsScheme, "");
      var r := IpfsGateway + ReplaceFirst(uri, IpfsScheme, "");
      assert r[0] == 'h' != IpfsScheme[0];
      r
    else uri
  }

  /** Resolving twice is resolving once. */
  lemma ResolveMediaIdempotent(uri: string)
    ensures ResolveMedia(ResolveMedia(uri)) == ResolveMedia(uri)
  {
  }

  /** The content identifier after the scheme survives the rewrite and can be read back. */
  lemma ResolveMediaKeepsContentId(uri: string)
    requires StartsWith(uri, IpfsScheme)
    ensures StartsWith(ResolveMedia(uri), IpfsGateway)
    ensures ResolveMedia(uri)[|IpfsGateway|..] == uri[|IpfsScheme|..]
  {
  }
}
