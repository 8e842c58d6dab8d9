/**
 * The decisions of the OpenIddict `AuthorizationController`: where each claim of an issued
 * identity goes (`GetDestinations`), how an authorisation request is answered (`Authorize`:
 * accept and deny buttons, the login re-challenge, the consent switch), and which grants the
 * token endpoint serves (`ExchangeToken`). The managers, the clock and the authentication
 * handlers are inputs: what they would return is passed in.
 */
module AuthorizationController {
  import opened Wrappers
  import opened Text
  import opened Collections
  import Claims

  /* ---------- claim destinations ---------- */

  datatype Destination = AccessToken | IdentityToken

  const SecurityStampClaimType := "AspNet.Identity.SecurityStamp"

  /* The standard scopes of OpenID Connect Core 1.0, section 5.4, and OpenIddict's `roles`. */
  const ProfileScope := "profile"
  const EmailScope := "email"
  const RolesScope := "roles"

  /** The scope under which a claim type may also travel in the identity token, if any. */
  function IdentityTokenScope(claimType: string): Option<string> {
    if claimType == Claims.Name || claimType == Claims.PreferredUserName then Some(ProfileScope)
    else if claimType == Claims.Email then Some(EmailScope)
    else if claimType == Claims.Role then Some(RolesScope)
    else None
  }

  /**
   * `GetDestinations`, for a claim of type `claimType` whose identity (`claim.Subject`) has the
   * scopes `subjectScopes`, or no identity at all (`None`). The security stamp goes nowhere; any
   * other claim goes to the access token first, and to the identity token exactly when its type
   * has an identity-token scope and the identity was granted it.
   */
  function GetDestinations(claimType: string, subjectScopes: Option<set<string>>): (r: seq<Destination>)
    ensures claimType == SecurityStampClaimType ==> r == []
    ensures claimType != SecurityStampClaimType ==> |r| > 0 && r[0] == AccessToken
    ensures IdentityToken in r <==>
              IdentityTokenScope(claimType).Some? && subjectScopes.Some?
              && IdentityTokenScope(claimType).value in subjectScopes.value
    ensures Distinct(r)
  {
    var existSubject := subjectScopes.Some?;
    if claimType == Claims.Name || claimType == Claims.PreferredUserName then
      [AccessToken] + (if existSubject && ProfileScope in subjectScopes.value then [IdentityToken] else [])
    else if claimType == Claims.Email then
      [AccessToken] + (if existSubject && EmailScope in subjectScopes.value then [IdentityToken] else [])
    else if claimType == Claims.Role then
      [AccessToken] + (if existSubject && RolesScope in subjectScopes.value then [IdentityToken] else [])
    else if claimType == SecurityStampClaimType then []
    else [AccessToken]
  }

  /** A claim outside the profile, email and role claims never reaches the identity token. */
  lemma OtherClaimsStayInAccessToken(claimType: string, subjectScopes: Option<set<string>>)
    requires claimType !in {Claims.Name, Claims.PreferredUserName, Claims.Email, Claims.Role, SecurityStampClaimType}
    ensures GetDestinations(claimType, subjectScopes) == [AccessToken]
  {
  }

  /* ---------- the authorisation endpoint ---------- */

  /** `OpenIddictConstants.ConsentTypes`, plus any other value the application store may hold. */
  datatype ConsentType = Explicit | External | Implicit | Systematic | Unrecognised

  /* `OpenIddictConstants.Errors` (OpenID Connect Core 1.0, section 3.1.2.6). */
  const ConsentRequired := "consent_required"
  const LoginRequired := "login_required"
  const InvalidGrant := "invalid_grant"

  /* `OpenIddictConstants.PromptValues` (OpenID Connect Core 1.0, section 3.1.2.1). */
  const PromptNone := "none"
  const PromptLogin := "login"
  const PromptConsent := "consent"

  const PromptParameter := "prompt"
  const AcceptButton := "submit.Accept"
  const DenyButton := "submit.Deny"

  /**
   * How the action ends: an exception (`Rejected`), `Forbid` with an OpenID Connect error,
   * `Deny`, a `Challenge` back to the login page with the given request parameters, `SignIn`,
   * or the consent page.
   */
  datatype AuthorizeResult =
    | Rejected
    | Forbidden(error: string)
    | Denied
    | Challenged(parameters: seq<(string, string)>)
    | SignedIn
    | ConsentView

  /**
   * The HTTP request: its method, whether it has a form body, the form and the query
   * parameters, and the prompt values OpenIddict parsed from it (`GetPromptValues`).
   */
  datatype AuthorizeRequest = AuthorizeRequest(
    isPost: bool, hasFormContentType: bool,
    form: seq<(string, string)>, query: seq<(string, string)>,
    prompts: seq<string>)

  /**
   * What the framework reports: whether the cookie authentication succeeded, whether its issue
   * time is older than the request's `max_age`, whether the user and the client application
   * were found, the application's consent type and the number of valid permanent
   * authorisations for this user, client and scopes.
   */
  datatype AuthorizeEnvironment = AuthorizeEnvironment(
    authenticated: bool, maxAgeExceeded: bool,
    userFound: bool, applicationFound: bool,
    consentType: ConsentType, authorizationCount: nat)

  function Keys(parameters: seq<(string, string)>): (r: set<string>)
    ensures forall k :: 0 <= k < |parameters| ==> parameters[k].0 in r
    ensures forall x :: x in r ==> exists k :: 0 <= k < |parameters| && parameters[k].0 == x
  {
    set k | 0 <= k < |parameters| :: parameters[k].0
  }

  /** The parameters whose name is not `key`, in their order. */
  function WithoutKey(parameters: seq<(string, string)>, key: string): (r: seq<(string, string)>)
    ensures |r| <= |parameters|
    ensures forall k :: 0 <= k < |r| ==> r[k].0 != key && r[k] in parameters
    ensures forall k :: 0 <= k < |parameters| && parameters[k].0 != key ==> parameters[k] in r
  {
    if |parameters| == 0 then []
    else (if parameters[0].0 == key then [] else [parameters[0]]) + WithoutKey(parameters[1..], key)
  }

  /** Dropping a key keeps the order: dropping it from two runs gives the first's rest, then the second's. */
  lemma {:induction false} WithoutKeyAppend(a: seq<(string, string)>, b: seq<(string, string)>, key: string)
    ensures WithoutKey(a + b, key) == WithoutKey(a, key) + WithoutKey(b, key)
  {
    if |a| > 0 {
      assert (a + b)[0] == a[0];
      assert (a + b)[1..] == a[1..] + b;
      WithoutKeyAppend(a[1..], b, key);
    } else {
      assert a + b == b;
    }
  }

  /** `ImmutableArray.Remove`: the first copy of `x` taken out, if there is one. */
  function RemoveFirst(s: seq<string>, x: string): (r: seq<string>)
    ensures x in s ==> |r| == |s| - 1
    ensures x !in s ==> r == s
  {
    if |s| == 0 then []
    else if s[0] == x then s[1..]
    else [s[0]] + RemoveFirst(s[1..], x)
  }

  /**
   * The parameters of the re-challenge: the request's own (from the form when it has one,
   * otherwise from the query) without any `prompt`, followed by one `prompt` holding the
   * prompt values without `login`, space-separated.
   */
  function ChallengeParameters(req: AuthorizeRequest): seq<(string, string)> {
    var source := if req.hasFormContentType then req.form else req.query;
    WithoutKey(source, PromptParameter) + [(PromptParameter, Join(" ", RemoveFirst(req.prompts, PromptLogin)))]
  }

  /** The user must (re)authenticate: no successful authentication, `prompt=login`, or `max_age` exceeded. */
  predicate MustLogIn(req: AuthorizeRequest, env: AuthorizeEnvironment) {
    !env.authenticated || PromptLogin in req.prompts || env.maxAgeExceeded
  }

  /**
   * The consent `switch`: its cases are tried in order, the first whose guard holds wins, and
   * one that matches none shows the consent page.
   */
  function ConsentDecision(consentType: ConsentType, authorizationCount: nat, prompts: seq<string>): (r: AuthorizeResult)
    ensures r == SignedIn <==>
              || consentType == Implicit
              || (consentType == External && authorizationCount > 0)
              || (consentType == Explicit && authorizationCount > 0 && PromptConsent !in prompts)
    ensures r == Forbidden(ConsentRequired) <==>
              || (consentType == External && authorizationCount == 0)
              || (consentType == Systematic && PromptNone in prompts)
              || (consentType == Explicit && PromptNone in prompts
                  && !(authorizationCount > 0 && PromptConsent !in prompts))
    ensures r == SignedIn || r == Forbidden(ConsentRequired) || r == ConsentView
  {
    match consentType
    case External =>
      if authorizationCount == 0 then Forbidden(ConsentRequired) else SignedIn
    case Implicit => SignedIn
    case Explicit =>
      if authorizationCount != 0 && PromptConsent !in prompts then SignedIn
      else if PromptNone in prompts then Forbidden(ConsentRequired)
      else ConsentView
    case Systematic =>
      if PromptNone in prompts then Forbidden(ConsentRequired) else ConsentView
    case Unrecognised => ConsentView
  }

  /** `Authorize`, branch by branch. */
  function Authorize(req: AuthorizeRequest, env: AuthorizeEnvironment): (r: AuthorizeResult)
    ensures req.isPost && !req.hasFormContentType ==> r == Rejected
    ensures r.Challenged? ==> r.parameters == ChallengeParameters(req)
  {
    if req.isPost && !req.hasFormContentType then Rejected
    else if req.isPost && AcceptButton in Keys(req.form) then
      if !env.userFound || !env.applicationFound then Rejected
      else if env.authorizationCount == 0 && env.consentType == External then Forbidden(ConsentRequired)
      else SignedIn
    else if req.isPost && DenyButton in Keys(req.form) then Denied
    else if MustLogIn(req, env) then
      if PromptNone in req.prompts then Forbidden(LoginRequired)
      else Challenged(ChallengeParameters(req))
    else if !env.userFound || !env.applicationFound then Rejected
    else ConsentDecision(env.consentType, env.authorizationCount, req.prompts)
  }

  /**
   * Outside the accept and deny buttons, a request that needs a login and says `prompt=none`
   * gets `login_required` and no challenge; one without `prompt=none` is challenged.
   */
  lemma LoginRequiredWithoutChallenge(req: AuthorizeRequest, env: AuthorizeEnvironment)
    requires !req.isPost && MustLogIn(req, env)
    ensures PromptNone in req.prompts ==> Authorize(req, env) == Forbidden(LoginRequired)
    ensures PromptNone !in req.prompts ==> Authorize(req, env) == Challenged(ChallengeParameters(req))
  {
  }

  /**
   * `prompt=none` never leads to a page the user must act on (OpenID Connect Core 1.0,
   * section 3.1.2.1): with any of the four consent types there is no challenge and no consent
   * page.
   */
  lemma PromptNoneNeverInteracts(req: AuthorizeRequest, env: AuthorizeEnvironment)
    requires PromptNone in req.prompts && env.consentType != Unrecognised
    ensures !Authorize(req, env).Challenged? && Authorize(req, env) != ConsentView
  {
  }

  /** Implicit consent signs in whatever the prompt says, once the user is logged in and known. */
  lemma ImplicitConsentSignsIn(req: AuthorizeRequest, env: AuthorizeEnvironment)
    requires !req.isPost && !MustLogIn(req, env) && env.userFound && env.applicationFound
    requires env.consentType == Implicit
    ensures Authorize(req, env) == SignedIn
  {
  }

  /** Systematic consent never signs in from the GET flow: the user is asked every time. */
  lemma SystematicConsentAlwaysAsks(req: AuthorizeRequest, env: AuthorizeEnvironment)
    requires !req.isPost && env.consentType == Systematic
    ensures Authorize(req, env) != SignedIn
  {
  }

  /** The re-challenge carries exactly one `prompt` parameter, the last one, and keeps every other parameter. */
  lemma ChallengeHasOnePrompt(req: AuthorizeRequest)
    ensures var ps := ChallengeParameters(req);
            && |ps| > 0 && ps[|ps| - 1].0 == PromptParameter
            && (forall k :: 0 <= k < |ps| - 1 ==> ps[k].0 != PromptParameter)
            && (forall p :: p in (if req.hasFormContentType then req.form else req.query) && p.0 != PromptParameter ==> p in ps)
  {
    var source := if req.hasFormContentType then req.form else req.query;
    var ps := ChallengeParameters(req);
    var kept := WithoutKey(source, PromptParameter);
    forall k | 0 <= k < |ps| - 1 ensures ps[k].0 != PromptParameter {
      assert ps[k] == kept[k];
    }
    forall p | p in source && p.0 != PromptParameter ensures p in ps {
      var k :| 0 <= k < |source| && source[k] == p;
      assert p in kept;
    }
  }

  /**
   * With distinct prompt values, as OpenIddict parses them, the re-challenge's prompt holds
   * every value but `login`, in the original order.
   */
  lemma ChallengePromptDropsLogin(prompts: seq<string>)
    requires Distinct(prompts)
    ensures RemoveFirst(prompts, PromptLogin) == RemoveAll(prompts, PromptLogin)
    ensures PromptLogin !in RemoveFirst(prompts, PromptLogin)
    ensures forall k :: 0 <= k < |prompts| && prompts[k] != PromptLogin ==> prompts[k] in RemoveFirst(prompts, PromptLogin)
  {
    RemoveFirstOfDistinct(prompts, PromptLogin);
    RemoveAllMembers(prompts, PromptLogin);
  }

  /** Splitting the new prompt on spaces reads back the remaining values, when there are any. */
  lemma ChallengePromptReadsBack(prompts: seq<string>)
    requires forall k :: 0 <= k < |prompts| ==> ' ' !in prompts[k]
    requires RemoveFirst(prompts, PromptLogin) != []
    ensures Split(Join(" ", RemoveFirst(prompts, PromptLogin)), " ") == RemoveFirst(prompts, PromptLogin)
  {
    var rest := RemoveFirst(prompts, PromptLogin);
    RemoveFirstKeeps(prompts, PromptLogin);
    forall k | 0 <= k < |rest| ensures ' ' !in rest[k] {
      assert rest[k] in prompts;
    }
    SplitJoin(rest, ' ');
  }

  lemma {:induction false} RemoveFirstKeeps(s: seq<string>, x: string)
    ensures forall y :: y in RemoveFirst(s, x) ==> y in s
  {
    if |s| > 0 && s[0] != x {
      RemoveFirstKeeps(s[1..], x);
    }
  }

  lemma {:induction false} RemoveFirstOfDistinct(s: seq<string>, x: string)
    requires Distinct(s)
    ensures RemoveFirst(s, x) == RemoveAll(s, x)
  {
    if |s| > 0 {
      assert Distinct(s[1..]) by {
        forall i, j | 0 <= i < j < |s[1..]| ensures s[1..][i] != s[1..][j] {
          assert s[1..][i] == s[i + 1] && s[1..][j] == s[j + 1];
        }
      }
      if s[0] == x {
        assert x !in s[1..] by {
          forall k | 0 <= k < |s[1..]| ensures s[1..][k] != x {
            assert s[1..][k] == s[k + 1];
          }
        }
        RemoveAllAbsent(s[1..], x);
      } else {
        RemoveFirstOfDistinct(s[1..], x);
      }
    }
  }

  lemma {:induction false} RemoveAllAbsent(s: seq<string>, x: string)
    requires x !in s
    ensures RemoveAll(s, x) == s
  {
    if |s| > 0 {
      assert x !in s[1..] by {
        forall k | 0 <= k < |s[1..]| ensures s[1..][k] != x {
          assert s[1..][k] == s[k + 1];
        }
      }
      RemoveAllAbsent(s[1..], x);
      assert s == [s[0]] + s[1..];
    }
  }

  /* ---------- the token endpoint ---------- */

  /* RFC 6749, sections 4.1.3 and 6. */
  const AuthorizationCodeGrant := "authorization_code"
  const RefreshTokenGrant := "refresh_token"

  /**
   * `ExchangeToken` ends in an exception (`TokenRejected`), `Forbid` with `invalid_grant`, or
   * `SignIn` with the refreshed identity.
   */
  datatype TokenResult = TokenRejected | TokenForbidden(error: string) | TokenSignedIn

  /**
   * `ExchangeToken`: `principalPresent` says whether the code or refresh token authenticated
   * to a principal, `subject` is its `sub` claim, `userExists` whether a user has that id and
   * `canSignIn` whether the sign-in manager still lets that user in.
   */
  function ExchangeToken(grantType: string, principalPresent: bool, subject: Option<string>,
                         userExists: bool, canSignIn: bool): (r: TokenResult)
    ensures grantType != AuthorizationCodeGrant && grantType != RefreshTokenGrant ==> r == TokenRejected
    ensures r == TokenSignedIn <==>
              (grantType == AuthorizationCodeGrant || grantType == RefreshTokenGrant)
              && principalPresent && !IsNullOrWhiteSpace(subject) && userExists && canSignIn
    ensures r.TokenForbidden? ==> r.error == InvalidGrant
  {
    if grantType != AuthorizationCodeGrant && grantType != RefreshTokenGrant then TokenRejected
    else if !principalPresent || IsNullOrWhiteSpace(subject) then TokenRejected
    else if !userExists then TokenForbidden(InvalidGrant)
    else if !canSignIn then TokenForbidden(InvalidGrant)
    else TokenSignedIn
  }
}
