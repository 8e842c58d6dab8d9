/**
 * `ExternalController`, sign-in through an external identity provider: the return-address
 * check of `Challenge`, the choice of the external user id and of the provider in
 * `FindUserFromExternalProviderAsync`, the claims kept for a user created on first sign-in
 * (`AutoProvisionUserAsync`) and the session facts carried into the local sign-in
 * (`ProcessLoginCallback`). `Url.IsLocalUrl` and the interaction service's `IsValidReturnUrl`
 * are parameters; the login store is a map from (provider, provider user id) to a local user id.
 */
module ExternalController {
  import opened Wrappers
  import opened Text
  import opened Claims

  const BaseReturnUrl := "~/"
  const ReturnUrlItem := "returnUrl"
  const SchemeItem := "scheme"
  const IdTokenName := "id_token"

  /** The exceptions the controller throws. */
  datatype ExternalError = InvalidReturnUrl | UnknownUserId | MissingScheme

  /** An authentication token kept in the authentication properties. */
  datatype AuthenticationToken = AuthenticationToken(Name: string, Value: string)

  /** The properties of an authentication: its items (values may be null) and its tokens. */
  datatype AuthProperties = AuthProperties(Items: map<string, Option<string>>, Tokens: seq<AuthenticationToken>)

  /** What authenticating with the external cookie gave: the principal's claims and the properties. */
  datatype AuthenticateResult = AuthenticateResult(Principal: Option<seq<Claim>>, Properties: Option<AuthProperties>)

  /** The challenge `Challenge` issues: the scheme and the properties it carries. */
  datatype ChallengeRequest = ChallengeRequest(Scheme: Option<string>, RedirectUri: string, Items: map<string, Option<string>>)

  /* ---- Challenge ---- */

  /** The return address after defaulting: a blank one becomes `~/`. */
  function EffectiveReturnUrl(returnUrl: Option<string>): (r: string)
    ensures !IsBlank(r)
    ensures !IsNullOrWhiteSpace(returnUrl) ==> r == returnUrl.value
  {
    assert !IsWhiteSpace(BaseReturnUrl[0]);
    if IsNullOrWhiteSpace(returnUrl) then BaseReturnUrl else returnUrl.value
  }

  /**
   * `Challenge`: refuses a return address that is neither local nor accepted by the interaction
   * service, and otherwise challenges `scheme`, keeping the address and the scheme in the items.
   * `callbackUrl` is the address of `Callback`.
   */
  function Challenge(scheme: Option<string>, returnUrl: Option<string>, callbackUrl: string,
                     isLocalUrl: string -> bool, isValidReturnUrl: string -> bool)
    : (r: Result<ChallengeRequest, ExternalError>)
    ensures var url := EffectiveReturnUrl(returnUrl);
            && (r.Success? <==> isLocalUrl(url) || isValidReturnUrl(url))
            && (r.Failure? ==> r.error == InvalidReturnUrl)
            && (r.Success? ==> r.value.Scheme == scheme && r.value.RedirectUri == callbackUrl
                               && r.value.Items.Keys == {ReturnUrlItem, SchemeItem}
                               && r.value.Items[ReturnUrlItem] == Some(url)
                               && r.value.Items[SchemeItem] == scheme)
  {
    var url := EffectiveReturnUrl(returnUrl);
    if !isLocalUrl(url) && !isValidReturnUrl(url) then Failure(InvalidReturnUrl)
    else Success(ChallengeRequest(scheme, callbackUrl, map[ReturnUrlItem := Some(url), SchemeItem := scheme]))
  }

  /** The return address `Callback` reads back (`Items["returnUrl"] ?? "~/"`) is the one validated. */
  lemma ChallengeReturnUrlReadsBack(scheme: Option<string>, returnUrl: Option<string>, callbackUrl: string,
                                    isLocalUrl: string -> bool, isValidReturnUrl: string -> bool)
    requires Challenge(scheme, returnUrl, callbackUrl, isLocalUrl, isValidReturnUrl).Success?
    ensures var items := Challenge(scheme, returnUrl, callbackUrl, isLocalUrl, isValidReturnUrl).value.Items;
            OrElse(items[ReturnUrlItem], Some(BaseReturnUrl)).value == EffectiveReturnUrl(returnUrl)
            && (IsNullOrWhiteSpace(returnUrl) ==> items[ReturnUrlItem] == Some(BaseReturnUrl))
  {
  }

  /* ---- FindUserFromExternalProviderAsync ---- */

  /**
   * The position of the claim that names the external user: the first claim of type `sub`, or
   * when there is none the first of type `ClaimTypes.NameIdentifier`, both types compared
   * ignoring case as `ClaimsPrincipal.FindFirst` does.
   */
  function UserIdClaimIndex(principal: Option<seq<Claim>>): (r: Option<nat>)
    ensures r.None? <==> principal.None? || (FirstIndexOfTypeIgnoreCase(principal.value, Subject).None?
                                             && FirstIndexOfTypeIgnoreCase(principal.value, NameIdentifierUri).None?)
    ensures r.Some? ==> r.value < |principal.value| &&
                        if (exists k :: 0 <= k < |principal.value| && EqualsIgnoreCase(principal.value[k].Type, Subject))
                        then r == FirstIndexOfTypeIgnoreCase(principal.value, Subject)
                        else r == FirstIndexOfTypeIgnoreCase(principal.value, NameIdentifierUri)
  {
    if principal.None? then None
    else
      var sub := FirstIndexOfTypeIgnoreCase(principal.value, Subject);
      if sub.Some? then sub else FirstIndexOfTypeIgnoreCase(principal.value, NameIdentifierUri)
  }

  /** `Properties?.Items.TryGetValue("scheme", out provider)` with a provider that is not blank. */
  function Provider(properties: Option<AuthProperties>): (r: Option<string>)
    ensures r.Some? <==> properties.Some? && SchemeItem in properties.value.Items
                         && !IsNullOrWhiteSpace(properties.value.Items[SchemeItem])
    ensures r.Some? ==> Some(r.value) == properties.value.Items[SchemeItem]
  {
    if properties.None? || SchemeItem !in properties.value.Items then None
    else
      var provider := properties.value.Items[SchemeItem];
      if IsNullOrWhiteSpace(provider) then None else provider
  }

  /** The local user of an external login: already linked, or created from the filtered claims. */
  datatype LocalUser = Found(UserId: string) | Provisioned(Claims: seq<Claim>)

  /** The tuple `FindUserFromExternalProviderAsync` returns. */
  datatype ExternalLogin = ExternalLogin(User: LocalUser, Provider: string, ProviderUserId: string, Claims: seq<Claim>)

  /**
   * The external login a callback yields: the user id claim taken out of the principal's
   * claims, the provider from the items, and the linked local user or else a new one.
   */
  function ExternalLoginOf(result: AuthenticateResult, logins: map<(string, string), string>)
    : (r: Result<ExternalLogin, ExternalError>)
    ensures r == Failure(UnknownUserId) <==> UserIdClaimIndex(result.Principal).None?
    ensures r == Failure(MissingScheme) <==> UserIdClaimIndex(result.Principal).Some? && Provider(result.Properties).None?
    ensures r.Success? ==> var i := UserIdClaimIndex(result.Principal).value;
                           var p := result.Principal.value;
                           && r.value.ProviderUserId == p[i].Value
                           && r.value.Provider == Provider(result.Properties).value
                           && r.value.Claims == p[..i] + p[i + 1..]
                           && (r.value.User.Found? <==> (r.value.Provider, r.value.ProviderUserId) in logins)
                           && r.value.User == if (r.value.Provider, r.value.ProviderUserId) in logins
                                              then Found(logins[(r.value.Provider, r.value.ProviderUserId)])
                                              else Provisioned(ProvisionedClaims(r.value.Claims))
  {
    var i := UserIdClaimIndex(result.Principal);
    if i.None? then Failure(UnknownUserId)
    else
      var p := result.Principal.value;
      var claims := p[..i.value] + p[i.value + 1..];
      var provider := Provider(result.Properties);
      if provider.None? then Failure(MissingScheme)
      else
        var providerUserId := p[i.value].Value;
        var user := if (provider.value, providerUserId) in logins then Found(logins[(provider.value, providerUserId)])
                    else Provisioned(ProvisionedClaims(claims));
        Success(ExternalLogin(user, provider.value, providerUserId, claims))
  }

  /**
   * `FindUserFromExternalProviderAsync`: copies the principal's claims, removes the user id
   * claim, checks the provider and looks the login up, creating a user when there is none.
   */
  method FindUserFromExternalProvider(result: AuthenticateResult, logins: map<(string, string), string>)
    returns (r: Result<ExternalLogin, ExternalError>)
    ensures r == ExternalLoginOf(result, logins)
  {
    var userIdClaim := UserIdClaimIndex(result.Principal);
    if userIdClaim.None? {
      return Failure(UnknownUserId);
    }
    var claims := new ClaimList(result.Principal.value);
    var idClaim := claims.Items[userIdClaim.value];
    claims.RemoveAt(userIdClaim.value);
    var provider := Provider(result.Properties);
    if provider.None? {
      return Failure(MissingScheme);
    }
    var providerUserId := idClaim.Value;
    var user: LocalUser;
    if (provider.value, providerUserId) in logins {
      user := Found(logins[(provider.value, providerUserId)]);
    } else {
      var filtered := AutoProvisionUser(claims.Items);
      user := Provisioned(filtered);
    }
    return Success(ExternalLogin(user, provider.value, providerUserId, claims.Items));
  }

  /** The claims handed on are the principal's with exactly the user id claim taken out. */
  lemma ExternalLoginKeepsOtherClaims(result: AuthenticateResult, logins: map<(string, string), string>)
    requires ExternalLoginOf(result, logins).Success?
    ensures var p := result.Principal.value;
            var login := ExternalLoginOf(result, logins).value;
            && |login.Claims| == |p| - 1
            && multiset(login.Claims) + multiset{p[UserIdClaimIndex(result.Principal).value]} == multiset(p)
  {
    var p := result.Principal.value;
    var i := UserIdClaimIndex(result.Principal).value;
    DropOneMultiset(p, i);
  }

  /** Taking out the element at `i` leaves one fewer element, the rest of the multiset. */
  lemma DropOneMultiset<T>(p: seq<T>, i: nat)
    requires i < |p|
    ensures |p[..i] + p[i + 1..]| == |p| - 1
    ensures multiset(p[..i] + p[i + 1..]) + multiset{p[i]} == multiset(p)
  {
    assert p == p[..i] + [p[i]] + p[i + 1..];
  }

  /**
   * The external user id is the first `sub` value, or else the first NameIdentifier value, with
   * claim types compared ignoring case.
   */
  lemma ExternalUserIdPreference(result: AuthenticateResult, logins: map<(string, string), string>)
    requires ExternalLoginOf(result, logins).Success?
    ensures var p := result.Principal.value;
            ExternalLoginOf(result, logins).value.ProviderUserId
              == OrElse(FirstValueOfTypeIgnoreCase(p, Subject), FirstValueOfTypeIgnoreCase(p, NameIdentifierUri)).value
  {
  }

  /** A principal whose only claim is `SUB` (upper case) still yields that claim's value as the user id. */
  lemma UpperCaseSubjectIsUserId(properties: AuthProperties, logins: map<(string, string), string>)
    requires Provider(Some(properties)).Some?
    ensures var result := AuthenticateResult(Some([Claim("SUB", "42", None)]), Some(properties));
            ExternalLoginOf(result, logins).Success?
            && ExternalLoginOf(result, logins).value.ProviderUserId == "42"
            && ExternalLoginOf(result, logins).value.Claims == []
  {
    UpperCaseSubjectFound();
  }

  /* ---- AutoProvisionUserAsync ---- */

  /** `claims.FirstOrDefault(JWT type)?.Value ?? claims.FirstOrDefault(ClaimTypes type)?.Value`. */
  function ClaimValue(claims: seq<Claim>, jwtType: string, claimTypesType: string): Option<string> {
    OrElse(FirstValueOfType(claims, jwtType), FirstValueOfType(claims, claimTypesType))
  }

  /** `"{first} {last}"` when both are present, else whichever is, else nothing. */
  function NameFromParts(firstName: Option<string>, lastName: Option<string>): (r: Option<string>)
    ensures r.None? <==> IsNullOrWhiteSpace(firstName) && IsNullOrWhiteSpace(lastName)
    ensures r.Some? ==> !IsBlank(r.value)
  {
    if !IsNullOrWhiteSpace(firstName) && !IsNullOrWhiteSpace(lastName) then
      var k :| 0 <= k < |firstName.value| && !IsWhiteSpace(firstName.value[k]);
      assert (firstName.value + " " + lastName.value)[k] == firstName.value[k];
      Some(firstName.value + " " + lastName.value)
    else if !IsNullOrWhiteSpace(firstName) then firstName
    else if !IsNullOrWhiteSpace(lastName) then lastName
    else None
  }

  /** The name given to a new user: the name claim when it is not blank, else one from its parts. */
  function DerivedName(claims: seq<Claim>): (r: Option<string>)
    ensures r.Some? ==> !IsBlank(r.value)
  {
    var name := ClaimValue(claims, Claims.Name, NameUri);
    if !IsNullOrWhiteSpace(name) then name
    else NameFromParts(ClaimValue(claims, GivenName, GivenNameUri), ClaimValue(claims, FamilyName, SurnameUri))
  }

  /** The claims kept for a new user: at most a name claim, then at most an e-mail claim. */
  function ProvisionedClaims(claims: seq<Claim>): seq<Claim> {
    (match DerivedName(claims)
     case Some(name) => [Claim(Claims.Name, name, None)]
     case None => [])
    + (match ClaimValue(claims, Claims.Email, EmailUri)
       case Some(email) => [Claim(Claims.Email, email, None)]
       case None => [])
  }

  /** `AutoProvisionUserAsync`, the claim filtering: builds the list by appending. */
  method AutoProvisionUser(claims: seq<Claim>) returns (filtered: seq<Claim>)
    ensures filtered == ProvisionedClaims(claims)
  {
    var list := new ClaimList([]);
    var name := ClaimValue(claims, Claims.Name, NameUri);
    if !IsNullOrWhiteSpace(name) {
      list.Add(Claim(Claims.Name, name.value, None));
    } else {
      var firstName := ClaimValue(claims, GivenName, GivenNameUri);
      var lastName := ClaimValue(claims, FamilyName, SurnameUri);
      if !IsNullOrWhiteSpace(firstName) && !IsNullOrWhiteSpace(lastName) {
        list.Add(Claim(Claims.Name, firstName.value + " " + lastName.value, None));
      } else if !IsNullOrWhiteSpace(firstName) {
        list.Add(Claim(Claims.Name, firstName.value, None));
      } else if !IsNullOrWhiteSpace(lastName) {
        list.Add(Claim(Claims.Name, lastName.value, None));
      }
    }
    var email := ClaimValue(claims, Claims.Email, EmailUri);
    if email.Some? {
      list.Add(Claim(Claims.Email, email.value, None));
    }
    filtered := list.Items;
  }

  /**
   * The kept claims: at most two, a name claim with a value that is not blank exactly when a
   * name can be derived, followed by an e-mail claim exactly when the source has one.
   */
  lemma ProvisionedShape(claims: seq<Claim>)
    ensures var r := ProvisionedClaims(claims);
            && |r| <= 2
            && (forall k :: 0 <= k < |r| ==> r[k].Type == Claims.Name || r[k].Type == Claims.Email)
            && (|r| == 2 ==> r[0].Type == Claims.Name && r[1].Type == Claims.Email)
            && ((exists k :: 0 <= k < |r| && r[k].Type == Claims.Name) <==> DerivedName(claims).Some?)
            && (forall k :: 0 <= k < |r| && r[k].Type == Claims.Name ==> !IsBlank(r[k].Value))
            && ((exists k :: 0 <= k < |r| && r[k].Type == Claims.Email)
                <==> (exists k :: 0 <= k < |claims| && (claims[k].Type == Claims.Email || claims[k].Type == EmailUri)))
  {
    var r := ProvisionedClaims(claims);
    var name := DerivedName(claims);
    var email := ClaimValue(claims, Claims.Email, EmailUri);
    var head := if name.Some? then [Claim(Claims.Name, name.value, None)] else [];
    var tail := if email.Some? then [Claim(Claims.Email, email.value, None)] else [];
    assert r == head + tail;
    if name.Some? {
      assert r[0].Type == Claims.Name;
    } else {
      assert forall k :: 0 <= k < |r| ==> r[k].Type == Claims.Email;
    }
    EmailPresent(claims);
    if email.None? {
      assert forall k :: 0 <= k < |r| ==> r[k].Type == Claims.Name;
    } else {
      assert r[|r| - 1].Type == Claims.Email;
    }
  }

  /** The source has an e-mail value exactly when it holds a claim of either e-mail type. */
  lemma EmailPresent(claims: seq<Claim>)
    ensures ClaimValue(claims, Claims.Email, EmailUri).Some?
            <==> (exists k :: 0 <= k < |claims| && (claims[k].Type == Claims.Email || claims[k].Type == EmailUri))
  {
    if ClaimValue(claims, Claims.Email, EmailUri).None? {
      assert forall k :: 0 <= k < |claims| ==> claims[k].Type != Claims.Email && claims[k].Type != EmailUri;
    } else if FirstValueOfType(claims, Claims.Email).Some? {
      var k :| 0 <= k < |claims| && claims[k].Type == Claims.Email;
    } else {
      var k :| 0 <= k < |claims| && claims[k].Type == EmailUri;
    }
  }

  /** A name claim that is not blank wins, whichever of the two types carries it first. */
  lemma NameClaimWins(claims: seq<Claim>, name: string)
    requires ClaimValue(claims, Claims.Name, NameUri) == Some(name) && !IsBlank(name)
    ensures ProvisionedClaims(claims)[0] == Claim(Claims.Name, name, None)
  {
  }

  /**
   * A JWT `name` claim that is blank hides a `ClaimTypes.Name` claim: the name then comes from
   * the given and family names alone.
   */
  lemma BlankJwtNameHidesClaimTypesName(claims: seq<Claim>, v: string)
    requires FirstValueOfType(claims, Claims.Name) == Some(v) && IsBlank(v)
    ensures DerivedName(claims) == NameFromParts(ClaimValue(claims, GivenName, GivenNameUri),
                                                 ClaimValue(claims, FamilyName, SurnameUri))
  {
  }

  /** Without a name claim, given and family names that are both present are joined with a space. */
  lemma NameFromGivenAndFamily(claims: seq<Claim>, first: string, last: string)
    requires FirstValueOfType(claims, Claims.Name).None? && FirstValueOfType(claims, NameUri).None?
    requires ClaimValue(claims, GivenName, GivenNameUri) == Some(first) && !IsBlank(first)
    requires ClaimValue(claims, FamilyName, SurnameUri) == Some(last) && !IsBlank(last)
    ensures ProvisionedClaims(claims)[0] == Claim(Claims.Name, first + " " + last, None)
  {
  }

  /** Only a missing e-mail is dropped: an empty address is kept. */
  lemma EmptyEmailKept(claims: seq<Claim>)
    requires FirstValueOfType(claims, Claims.Email) == Some("")
    ensures var r := ProvisionedClaims(claims); r[|r| - 1] == Claim(Claims.Email, "", None)
  {
  }

  /* ---- ProcessLoginCallback ---- */

  /** The properties of the local sign-in, into which tokens are stored. */
  class LocalSignInProperties {
    var Tokens: seq<AuthenticationToken>

    constructor()
      ensures Tokens == []
    {
      Tokens := [];
    }

    /** `StoreTokens`: the given tokens replace those held. */
    method StoreTokens(tokens: seq<AuthenticationToken>)
      modifies this
      ensures Tokens == tokens
    {
      Tokens := tokens;
    }
  }

  /** `Properties?.GetTokenValue(name)`: the value of the first token of that name. */
  function TokenValue(properties: Option<AuthProperties>, name: string): (r: Option<string>)
    ensures r.Some? <==> properties.Some? && exists k :: 0 <= k < |properties.value.Tokens| && properties.value.Tokens[k].Name == name
    ensures r.Some? ==> exists k :: 0 <= k < |properties.value.Tokens| && properties.value.Tokens[k] == AuthenticationToken(name, r.value)
  {
    if properties.None? then None else FirstTokenValue(properties.value.Tokens, name)
  }

  /** The position of the first token named `name`. */
  function FirstTokenIndex(tokens: seq<AuthenticationToken>, name: string): (r: Option<nat>)
    ensures r.Some? ==> r.value < |tokens| && tokens[r.value].Name == name
    ensures r.None? ==> forall k :: 0 <= k < |tokens| ==> tokens[k].Name != name
  {
    if |tokens| == 0 then None
    else if tokens[0].Name == name then Some(0)
    else
      match FirstTokenIndex(tokens[1..], name)
      case None => None
      case Some(i) => Some(i + 1)
  }

  function FirstTokenValue(tokens: seq<AuthenticationToken>, name: string): (r: Option<string>)
    ensures r.Some? <==> exists k :: 0 <= k < |tokens| && tokens[k].Name == name
    ensures r.Some? ==> exists k :: 0 <= k < |tokens| && tokens[k] == AuthenticationToken(name, r.value)
  {
    match FirstTokenIndex(tokens, name)
    case None => None
    case Some(i) => Some(tokens[i].Value)
  }

  /** The session id claim carried to the local sign-in: one when the subject has a session id that is not blank. */
  function SessionClaim(principal: Option<seq<Claim>>): (r: seq<Claim>)
    ensures |r| <= 1
    ensures r != [] <==> principal.Some? && !IsNullOrWhiteSpace(FirstValueOfType(principal.value, SessionId))
    ensures r != [] ==> r[0] == Claim(SessionId, FirstValueOfType(principal.value, SessionId).value, None)
  {
    var sessionId := if principal.None? then None else FirstValueOfType(principal.value, SessionId);
    if IsNullOrWhiteSpace(sessionId) then [] else [Claim(SessionId, sessionId.value, None)]
  }

  /**
   * `ProcessLoginCallback`: appends the session id claim when there is one that is not blank,
   * and stores the identity token as the only token when there is one that is not blank;
   * otherwise leaves the list and the tokens as they were.
   */
  method ProcessLoginCallback(result: AuthenticateResult, additionalLocalClaims: ClaimList,
                              localSignInProps: LocalSignInProperties)
    modifies additionalLocalClaims, localSignInProps
    ensures additionalLocalClaims.Items == old(additionalLocalClaims.Items) + SessionClaim(result.Principal)
    ensures var idToken := TokenValue(result.Properties, IdTokenName);
            localSignInProps.Tokens == if IsNullOrWhiteSpace(idToken) then old(localSignInProps.Tokens)
                                       else [AuthenticationToken(IdTokenName, idToken.value)]
  {
    var sessionId := if result.Principal.None? then None else FirstValueOfType(result.Principal.value, SessionId);
    if !IsNullOrWhiteSpace(sessionId) {
      additionalLocalClaims.Add(Claim(SessionId, sessionId.value, None));
    }
    var idToken := TokenValue(result.Properties, IdTokenName);
    if !IsNullOrWhiteSpace(idToken) {
      localSignInProps.StoreTokens([AuthenticationToken(IdTokenName, idToken.value)]);
    }
  }
}
