/**
 * `RedirectService.ExtractRedirectUriFromReturnUrl`: recovers the client's redirect address
 * from an authorisation return URL. HTML entity decoding is the framework's
 * `WebUtility.HtmlDecode`, passed in as `htmlDecode`.
 */
module RedirectService {
  import opened Wrappers
  import opened Text

  const RedirectUriKey := "redirect_uri="
  const SignInKey := "signin-oidc"
  const ScopeKey := "scope"

  /** The three replacements: `%3A` to `:`, `%2F` to `/`, and every `&` dropped. */
  function UnescapeRedirectUri(s: string): string {
    Replace(Replace(Replace(s, "%3A", ":"), "%2F", "/"), "&", "")
  }

  /**
   * As written: split the decoded URL on `redirect_uri=` and take the second piece, split that
   * on `signin-oidc` when it holds it and on `scope` otherwise, keep the first piece and
   * unescape it. A missing separator gives the empty string.
   */
  function ExtractRedirectUriFromReturnUrl(returnUrl: string, htmlDecode: string -> string): (r: string)
    ensures '&' !in r
    ensures !Contains(htmlDecode(returnUrl), RedirectUriKey) ==> r == ""
  {
    var decodeUrl := htmlDecode(returnUrl);
    var results := Split(decodeUrl, RedirectUriKey);
    SplitHead(decodeUrl, RedirectUriKey);
    if |results| < 2 then ""
    else
      var result := results[1];
      var splitKey := if Contains(result, SignInKey) then SignInKey else ScopeKey;
      var pieces := Split(result, splitKey);
      if |pieces| < 2 then ""
      else
        ReplaceCharRemovesIt(Replace(Replace(pieces[0], "%3A", ":"), "%2F", "/"), '&', "");
        UnescapeRedirectUri(pieces[0])
  }

  /** What precedes the first occurrence of `key`, or all of `s`. */
  function Before(s: string, key: string): string {
    match IndexOf(s, key)
    case None => s
    case Some(i) => s[..i]
  }

  /**
   * The same extraction stated by positions: the text after the first `redirect_uri=`, up to
   * the next one; cut before the first `signin-oidc`, or else before the first `scope`, of which
   * there must be one.
   */
  function RedirectUriByPosition(decoded: string): string {
    match IndexOf(decoded, RedirectUriKey)
    case None => ""
    case Some(i) =>
      var segment := Before(decoded[i + |RedirectUriKey|..], RedirectUriKey);
      if Contains(segment, SignInKey) then UnescapeRedirectUri(Before(segment, SignInKey))
      else if Contains(segment, ScopeKey) then UnescapeRedirectUri(Before(segment, ScopeKey))
      else ""
  }

  /** The split-based code and the position-based statement agree on every input. */
  lemma ExtractAgreesWithPositions(returnUrl: string, htmlDecode: string -> string)
    ensures ExtractRedirectUriFromReturnUrl(returnUrl, htmlDecode) == RedirectUriByPosition(htmlDecode(returnUrl))
  {
    var decoded := htmlDecode(returnUrl);
    SplitHead(decoded, RedirectUriKey);
    if Contains(decoded, RedirectUriKey) {
      var i := IndexOf(decoded, RedirectUriKey).value;
      var rest := decoded[i + |RedirectUriKey|..];
      SplitHead(rest, RedirectUriKey);
      var segment := Split(decoded, RedirectUriKey)[1];
      assert segment == Before(rest, RedirectUriKey);
      SplitHead(segment, SignInKey);
      SplitHead(segment, ScopeKey);
    }
  }

  /** An address with no `%` and no `&` comes back unchanged from the unescaping. */
  lemma UnescapeKeepsPlainAddress(address: string)
    requires '%' !in address && '&' !in address
    ensures UnescapeRedirectUri(address) == address
  {
    ReplaceWithoutFirstChar(address, "%3A", ":");
    ReplaceWithoutFirstChar(address, "%2F", "/");
    ReplaceWithoutFirstChar(address, "&", "");
  }
}
