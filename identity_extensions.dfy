/**
 * The identity service's controller helpers: whether an authorisation request comes from a
 * native client (`IsNativeClient`), and the page that makes a native client follow a redirect
 * (`LoadingPage`).
 */
module IdentityExtensions {
  import opened Wrappers
  import opened Text
  import opened Http

  /**
   * `IsNativeClient`: a redirect address that starts, ordinally, neither with `https` nor with
   * `http`. Since every `https` address starts with `http`, this is "does not start with http".
   */
  function IsNativeClient(redirectUri: string): (r: bool)
    ensures r <==> !StartsWith(redirectUri, "http")
  {
    HttpsStartsWithHttp(redirectUri);
    !StartsWith(redirectUri, "https") && !StartsWith(redirectUri, "http")
  }

  /** The `https` test is subsumed by the `http` one. */
  lemma HttpsStartsWithHttp(s: string)
    ensures StartsWith(s, "https") ==> StartsWith(s, "http")
  {
    if StartsWith(s, "https") {
      assert s[..4] == s[..5][..4] == "https"[..4] == "http";
    }
  }

  /** Web addresses are never native redirects; custom schemes are. */
  lemma NativeClientExamples()
    ensures !IsNativeClient("https://shop.example/signin-oidc")
    ensures !IsNativeClient("http://localhost:5100/signin-oidc")
    ensures IsNativeClient("maui://callback")
  {
    assert "https://shop.example/signin-oidc"[..4] == "http";
    assert "http://localhost:5100/signin-oidc"[..4] == "http";
    assert "maui://callback"[0] != "http"[0];
  }

  /** The view a controller renders: its name and the redirect address of its model. */
  datatype ViewResult = ViewResult(ViewName: string, RedirectUrl: Option<string>)

  const LocationHeader := "Location"

  /**
   * `LoadingPage`: answers 200 with an empty `Location` header, so that the browser stays and
   * shows the named view; every other header is kept.
   */
  method LoadingPage(response: HttpResponse, viewName: string, redirectUrl: Option<string>) returns (r: ViewResult)
    modifies response
    ensures response.StatusCode == 200
    ensures response.Headers == old(response.Headers)[LocationHeader := ""]
    ensures r == ViewResult(viewName, redirectUrl)
  {
    response.StatusCode := 200;
    response.Headers := response.Headers[LocationHeader := ""];
    r := ViewResult(viewName, redirectUrl);
  }

  /** A loading page leaves every header other than `Location` as it was. */
  lemma LoadingPageKeepsOtherHeaders(headers: map<string, string>, name: string)
    requires name != LocationHeader
    ensures name in headers[LocationHeader := ""] <==> name in headers
    ensures name in headers ==> headers[LocationHeader := ""][name] == headers[name]
  {
  }
}
