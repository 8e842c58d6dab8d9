/**
 * `SecurityHeadersAttribute`, the result filter that adds the browser security headers to every
 * rendered view: `X-Content-Type-Options`, `X-Frame-Options` (RFC 7034), the content security
 * policy under its standard and its legacy name, and `Referrer-Policy`. A header the response
 * already has is never replaced.
 */
module SecurityHeaders {
  import opened Http

  const ContentTypeOptions := "X-Content-Type-Options"
  const FrameOptions := "X-Frame-Options"
  const ContentSecurityPolicy := "Content-Security-Policy"
  const LegacyContentSecurityPolicy := "X-Content-Security-Policy"
  const ReferrerPolicy := "Referrer-Policy"

  const NoSniff := "nosniff"
  const SameOrigin := "SAMEORIGIN"
  const Csp := "default-src 'self'; object-src 'none'; frame-ancestors 'none'; sandbox allow-forms allow-same-origin allow-scripts; base-uri 'self'; upgrade-insecure-requests;"
  const NoReferrer := "no-referrer"

  /** The five header names the filter sets. */
  predicate IsSecurityHeader(name: string) {
    name == ContentTypeOptions || name == FrameOptions || name == ContentSecurityPolicy
    || name == LegacyContentSecurityPolicy || name == ReferrerPolicy
  }

  /** A header map with `name` added when it is absent. */
  function WithHeader(headers: map<string, string>, name: string, value: string): (r: map<string, string>)
    ensures r.Keys == headers.Keys + {name}
    ensures r[name] == if name in headers then headers[name] else value
    ensures forall k :: k in headers ==> r[k] == headers[k]
  {
    if name in headers then headers else headers[name := value]
  }

  /** The headers after the filter has run on a view: the five added in order, each only if absent. */
  function WithSecurityHeaders(headers: map<string, string>): map<string, string> {
    var h1 := WithHeader(headers, ContentTypeOptions, NoSniff);
    var h2 := WithHeader(h1, FrameOptions, SameOrigin);
    var h3 := WithHeader(h2, ContentSecurityPolicy, Csp);
    var h4 := WithHeader(h3, LegacyContentSecurityPolicy, Csp);
    WithHeader(h4, ReferrerPolicy, NoReferrer)
  }

  /** `AddResponseHeader`: adds the header unless the response already has one of that name. */
  method AddResponseHeader(response: HttpResponse, headerName: string, value: string)
    modifies response
    ensures response.Headers == WithHeader(old(response.Headers), headerName, value)
    ensures response.StatusCode == old(response.StatusCode)
  {
    if headerName !in response.Headers {
      response.Headers := response.Headers[headerName := value];
    }
  }

  /** `OnResultExecuting`: a view result gets the security headers; any other result nothing. */
  method OnResultExecuting(response: HttpResponse, isViewResult: bool)
    modifies response
    ensures response.Headers == if isViewResult then WithSecurityHeaders(old(response.Headers)) else old(response.Headers)
    ensures response.StatusCode == old(response.StatusCode)
  {
    if isViewResult {
      AddResponseHeader(response, ContentTypeOptions, NoSniff);
      AddResponseHeader(response, FrameOptions, SameOrigin);
      var csp := Csp;
      AddResponseHeader(response, ContentSecurityPolicy, csp);
      AddResponseHeader(response, LegacyContentSecurityPolicy, csp);
      AddResponseHeader(response, ReferrerPolicy, NoReferrer);
    }
  }

  /**
   * After the filter every security header is present, with the value the response already
   * had or else the filter's own; every other header is exactly as it was.
   */
  lemma SecurityHeadersSet(headers: map<string, string>)
    ensures var r := WithSecurityHeaders(headers);
            && r.Keys == headers.Keys + {ContentTypeOptions, FrameOptions, ContentSecurityPolicy,
                                         LegacyContentSecurityPolicy, ReferrerPolicy}
            && (forall k :: k in headers ==> r[k] == headers[k])
            && r[ContentTypeOptions] == (if ContentTypeOptions in headers then headers[ContentTypeOptions] else NoSniff)
            && r[FrameOptions] == (if FrameOptions in headers then headers[FrameOptions] else SameOrigin)
            && r[ContentSecurityPolicy] == (if ContentSecurityPolicy in headers then headers[ContentSecurityPolicy] else Csp)
            && r[LegacyContentSecurityPolicy]
               == (if LegacyContentSecurityPolicy in headers then headers[LegacyContentSecurityPolicy] else Csp)
            && r[ReferrerPolicy] == (if ReferrerPolicy in headers then headers[ReferrerPolicy] else NoReferrer)
  {
    NamesDistinct();
    WithFiveHeaders(headers, ContentTypeOptions, NoSniff, FrameOptions, SameOrigin, ContentSecurityPolicy, Csp,
                    LegacyContentSecurityPolicy, Csp, ReferrerPolicy, NoReferrer);
  }

  /** Adding five different names in turn, each only if absent, whatever the names and values. */
  lemma WithFiveHeaders(headers: map<string, string>, n1: string, v1: string, n2: string, v2: string,
                        n3: string, v3: string, n4: string, v4: string, n5: string, v5: string)
    requires n1 != n2 && n1 != n3 && n1 != n4 && n1 != n5 && n2 != n3 && n2 != n4 && n2 != n5
    requires n3 != n4 && n3 != n5 && n4 != n5
    ensures var r := WithHeader(WithHeader(WithHeader(WithHeader(WithHeader(headers, n1, v1), n2, v2), n3, v3), n4, v4), n5, v5);
            && r.Keys == headers.Keys + {n1, n2, n3, n4, n5}
            && (forall k :: k in headers ==> r[k] == headers[k])
            && r[n1] == (if n1 in headers then headers[n1] else v1)
            && r[n2] == (if n2 in headers then headers[n2] else v2)
            && r[n3] == (if n3 in headers then headers[n3] else v3)
            && r[n4] == (if n4 in headers then headers[n4] else v4)
            && r[n5] == (if n5 in headers then headers[n5] else v5)
  {
    var h1 := WithHeader(headers, n1, v1);
    var h2 := WithHeader(h1, n2, v2);
    var h3 := WithHeader(h2, n3, v3);
    var h4 := WithHeader(h3, n4, v4);
    var r := WithHeader(h4, n5, v5);
    assert r.Keys == headers.Keys + {n1, n2, n3, n4, n5} by {
      FiveKeys(headers.Keys, h1.Keys, h2.Keys, h3.Keys, h4.Keys, r.Keys, n1, n2, n3, n4, n5);
    }
    assert r[n1] == h1[n1] by {
      assert h2[n1] == h1[n1] && h3[n1] == h2[n1] && h4[n1] == h3[n1];
    }
    assert r[n2] == h2[n2] by {
      assert h3[n2] == h2[n2] && h4[n2] == h3[n2];
    }
    assert r[n3] == h3[n3] by {
      assert h4[n3] == h3[n3];
    }
  }

  /** Five one-name unions, in turn, add all five names. */
  lemma FiveKeys(k0: set<string>, k1: set<string>, k2: set<string>, k3: set<string>, k4: set<string>, k5: set<string>,
                 n1: string, n2: string, n3: string, n4: string, n5: string)
    requires k1 == k0 + {n1} && k2 == k1 + {n2} && k3 == k2 + {n3} && k4 == k3 + {n4} && k5 == k4 + {n5}
    ensures k5 == k0 + {n1, n2, n3, n4, n5}
  {
  }

  /** The five header names are pairwise different. */
  lemma NamesDistinct()
    ensures ContentTypeOptions != FrameOptions && ContentTypeOptions != ContentSecurityPolicy
    ensures ContentTypeOptions != LegacyContentSecurityPolicy && ContentTypeOptions != ReferrerPolicy
    ensures FrameOptions != ContentSecurityPolicy && FrameOptions != LegacyContentSecurityPolicy
    ensures FrameOptions != ReferrerPolicy && ContentSecurityPolicy != LegacyContentSecurityPolicy
    ensures ContentSecurityPolicy != ReferrerPolicy && LegacyContentSecurityPolicy != ReferrerPolicy
  {
    assert FrameOptions[0] != ReferrerPolicy[0];
  }

  /** Headers other than the five are neither added, removed nor changed. */
  lemma OtherHeadersUntouched(headers: map<string, string>, name: string)
    requires !IsSecurityHeader(name)
    ensures (name in WithSecurityHeaders(headers)) <==> (name in headers)
    ensures name in headers ==> WithSecurityHeaders(headers)[name] == headers[name]
  {
    SecurityHeadersSet(headers);
  }

  /** Running the filter a second time changes nothing. */
  lemma SecurityHeadersIdempotent(headers: map<string, string>)
    ensures WithSecurityHeaders(WithSecurityHeaders(headers)) == WithSecurityHeaders(headers)
  {
    var once := WithSecurityHeaders(headers);
    SecurityHeadersSet(headers);
    SecurityHeadersSet(once);
    assert WithSecurityHeaders(once).Keys == once.Keys;
  }

  /** When the response had neither policy header, both carry the same policy. */
  lemma PolicyHeadersAgree(headers: map<string, string>)
    requires ContentSecurityPolicy !in headers && LegacyContentSecurityPolicy !in headers
    ensures WithSecurityHeaders(headers)[ContentSecurityPolicy] == WithSecurityHeaders(headers)[LegacyContentSecurityPolicy] == Csp
  {
    SecurityHeadersSet(headers);
  }
}
