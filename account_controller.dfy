/**
 * `AccountController` under `Controller/`: how the login page is built (`BuildLoginViewModelAsync`,
 * both overloads), when the login page hands straight over to an external provider
 * (`Login(returnUrl)`), and where a posted login goes (`Login(LoginInputModel)`). The
 * authorisation context, the authentication schemes and the enabled clients are inputs; the
 * password check and `Url.IsLocalUrl` are a flag and a parameter.
 */
module AccountController {
  import opened Wrappers
  import opened Text
  import opened LoginViewModel
  import AccountOptions
  import IdentityExtensions

  /** `IdentityServerConstants.LocalIdentityProvider`. */
  const LocalIdentityProvider := "local"

  /** A registered authentication scheme: its name and optional display name. */
  datatype AuthenticationScheme = AuthenticationScheme(Name: string, DisplayName: Option<string>)

  /** The fields of an enabled client the page reads. A null restriction list is an empty one. */
  datatype Client = Client(EnableLocalLogin: bool, IdentityProviderRestrictions: seq<string>)

  /** The authorisation request behind a return address: the IdP hint, login hint, client and redirect address. */
  datatype AuthorizationContext = AuthorizationContext(
    IdP: Option<string>, LoginHint: Option<string>, ClientId: Option<string>, RedirectUri: string)

  /** The IdP the request asks for, when it names a scheme that exists. */
  function HintedIdP(context: Option<AuthorizationContext>, schemes: seq<AuthenticationScheme>): (r: Option<string>)
    ensures r.Some? <==> context.Some? && context.value.IdP.Some?
                         && exists k :: 0 <= k < |schemes| && schemes[k].Name == context.value.IdP.value
    ensures r.Some? ==> r == context.value.IdP
  {
    if context.Some? && context.value.IdP.Some? && exists k :: 0 <= k < |schemes| && schemes[k].Name == context.value.IdP.value
    then context.value.IdP else None
  }

  /** The enabled client of the request, when it names one. */
  function ClientOf(context: Option<AuthorizationContext>, clients: map<string, Client>): Option<Client> {
    if context.Some? && context.value.ClientId.Some? && context.value.ClientId.value in clients
    then Some(clients[context.value.ClientId.value]) else None
  }

  /** The schemes that have a display name, as providers, in their order. */
  function SchemeProviders(schemes: seq<AuthenticationScheme>): (r: seq<ExternalProvider>)
    ensures |r| <= |schemes|
    ensures forall k :: 0 <= k < |r| ==> r[k].DisplayName.Some?
                                         && AuthenticationScheme(r[k].AuthenticationScheme, r[k].DisplayName) in schemes
    ensures forall k :: 0 <= k < |schemes| && schemes[k].DisplayName.Some? ==>
                          ExternalProvider(schemes[k].DisplayName, schemes[k].Name) in r
  {
    if |schemes| == 0 then []
    else
      (if schemes[0].DisplayName.Some? then [ExternalProvider(schemes[0].DisplayName, schemes[0].Name)] else [])
      + SchemeProviders(schemes[1..])
  }

  /** The providers whose scheme the client allows, in their order. */
  function Restricted(providers: seq<ExternalProvider>, restrictions: seq<string>): (r: seq<ExternalProvider>)
    ensures |r| <= |providers|
    ensures forall k :: 0 <= k < |r| ==> r[k] in providers && r[k].AuthenticationScheme in restrictions
    ensures forall k :: 0 <= k < |providers| && providers[k].AuthenticationScheme in restrictions ==> providers[k] in r
  {
    if |providers| == 0 then []
    else
      (if providers[0].AuthenticationScheme in restrictions then [providers[0]] else [])
      + Restricted(providers[1..], restrictions)
  }

  /** The providers the page offers. */
  function ProvidersFor(context: Option<AuthorizationContext>, schemes: seq<AuthenticationScheme>,
                        clients: map<string, Client>): seq<ExternalProvider> {
    match HintedIdP(context, schemes)
    case Some(idp) => if idp == LocalIdentityProvider then [] else [ExternalProvider(None, idp)]
    case None =>
      var providers := SchemeProviders(schemes);
      var client := ClientOf(context, clients);
      if client.Some? && |client.value.IdentityProviderRestrictions| > 0
      then Restricted(providers, client.value.IdentityProviderRestrictions)
      else providers
  }

  /** Whether the page offers the local user name and password form. */
  function LocalLoginFor(context: Option<AuthorizationContext>, schemes: seq<AuthenticationScheme>,
                         clients: map<string, Client>): bool {
    match HintedIdP(context, schemes)
    case Some(idp) => idp == LocalIdentityProvider
    case None =>
      var client := ClientOf(context, clients);
      (if client.Some? then client.value.EnableLocalLogin else true) && AccountOptions.AllowLocalLogin
  }

  /** `context?.LoginHint ?? string.Empty`. */
  function LoginHintOf(context: Option<AuthorizationContext>): string {
    if context.Some? && context.value.LoginHint.Some? then context.value.LoginHint.value else ""
  }

  /** `BuildLoginViewModelAsync(returnUrl)`. */
  method BuildLoginViewModel(returnUrl: Option<string>, context: Option<AuthorizationContext>,
                             schemes: seq<AuthenticationScheme>, clients: map<string, Client>)
    returns (vm: LoginViewModel)
    ensures fresh(vm)
    ensures vm.ExternalProviders == ProvidersFor(context, schemes, clients)
    ensures vm.EnableLocalLogin == LocalLoginFor(context, schemes, clients)
    ensures vm.UserName == LoginHintOf(context) && vm.Password == "" && vm.ReturnUrl == returnUrl
    ensures !vm.RememberLogin && vm.AllowRememberLogin
  {
    var idp := HintedIdP(context, schemes);
    if idp.Some? {
      var local := idp.value == LocalIdentityProvider;
      vm := new LoginViewModel(LoginHintOf(context), "");
      vm.EnableLocalLogin := local;
      vm.ReturnUrl := returnUrl;
      if !local {
        vm.ExternalProviders := [ExternalProvider(None, idp.value)];
      }
      return;
    }
    var providers := SchemeProviders(schemes);
    var allowLocal := true;
    var client := ClientOf(context, clients);
    if client.Some? {
      allowLocal := client.value.EnableLocalLogin;
      if |client.value.IdentityProviderRestrictions| > 0 {
        providers := Restricted(providers, client.value.IdentityProviderRestrictions);
      }
    }
    vm := new LoginViewModel(LoginHintOf(context), "");
    vm.AllowRememberLogin := AccountOptions.AllowRememberLogin;
    vm.EnableLocalLogin := allowLocal && AccountOptions.AllowLocalLogin;
    vm.ReturnUrl := returnUrl;
    vm.ExternalProviders := providers;
  }

  /** `BuildLoginViewModelAsync(loginInputModel)`: the page for the posted return address, keeping the posted name and flag. */
  method BuildLoginViewModelFromInput(model: LoginInputModel, context: Option<AuthorizationContext>,
                                      schemes: seq<AuthenticationScheme>, clients: map<string, Client>)
    returns (vm: LoginViewModel)
    ensures fresh(vm)
    ensures vm.ExternalProviders == ProvidersFor(context, schemes, clients)
    ensures vm.EnableLocalLogin == LocalLoginFor(context, schemes, clients)
    ensures vm.UserName == model.UserName && vm.RememberLogin == model.RememberLogin
    ensures vm.Password == "" && vm.ReturnUrl == model.ReturnUrl && vm.AllowRememberLogin
  {
    vm := BuildLoginViewModel(model.ReturnUrl, context, schemes, clients);
    vm.UserName := model.UserName;
    vm.RememberLogin := model.RememberLogin;
  }

  /**
   * With an IdP hint naming an existing scheme: local login exactly for the local provider,
   * whose page lists no provider, and otherwise that scheme as the only provider.
   */
  lemma HintedIdPPage(context: Option<AuthorizationContext>, schemes: seq<AuthenticationScheme>,
                      clients: map<string, Client>, idp: string)
    requires HintedIdP(context, schemes) == Some(idp)
    ensures LocalLoginFor(context, schemes, clients) <==> idp == LocalIdentityProvider
    ensures idp != LocalIdentityProvider ==>
              ProvidersFor(context, schemes, clients) == [ExternalProvider(None, idp)]
              && ExternalLoginSchemeOf(LocalLoginFor(context, schemes, clients), ProvidersFor(context, schemes, clients)) == Some(idp)
    ensures idp == LocalIdentityProvider ==> ProvidersFor(context, schemes, clients) == []
  {
  }

  /**
   * Without such a hint: a provider is listed exactly when a scheme has a display name and,
   * for a client with restrictions, the client allows it.
   */
  lemma ListedProviders(context: Option<AuthorizationContext>, schemes: seq<AuthenticationScheme>,
                        clients: map<string, Client>, name: string, displayName: string)
    requires HintedIdP(context, schemes).None?
    ensures var restricted := ClientOf(context, clients).Some? && |ClientOf(context, clients).value.IdentityProviderRestrictions| > 0;
            ExternalProvider(Some(displayName), name) in ProvidersFor(context, schemes, clients)
            <==> AuthenticationScheme(name, Some(displayName)) in schemes
                 && (restricted ==> name in ClientOf(context, clients).value.IdentityProviderRestrictions)
    ensures forall k :: 0 <= k < |ProvidersFor(context, schemes, clients)| ==>
                          ProvidersFor(context, schemes, clients)[k].DisplayName.Some?
  {
    var providers := SchemeProviders(schemes);
    var p := ExternalProvider(Some(displayName), name);
    if AuthenticationScheme(name, Some(displayName)) in schemes {
      var k :| 0 <= k < |schemes| && schemes[k] == AuthenticationScheme(name, Some(displayName));
      assert p in providers;
    }
    if p in providers {
      var k :| 0 <= k < |providers| && providers[k] == p;
      assert AuthenticationScheme(name, Some(displayName)) in schemes;
    }
    var client := ClientOf(context, clients);
    if client.Some? && |client.value.IdentityProviderRestrictions| > 0 {
      var r := Restricted(providers, client.value.IdentityProviderRestrictions);
      if p in providers && name in client.value.IdentityProviderRestrictions {
        var k :| 0 <= k < |providers| && providers[k] == p;
        assert p in r;
      }
      if p in r {
        var k :| 0 <= k < |r| && r[k] == p;
      }
      forall k | 0 <= k < |r| ensures r[k].DisplayName.Some? {
        var j :| 0 <= j < |providers| && providers[j] == r[k];
      }
    }
  }

  /** The providers of two runs of schemes are those of the first followed by those of the second. */
  lemma {:induction false} SchemeProvidersAppend(a: seq<AuthenticationScheme>, b: seq<AuthenticationScheme>)
    ensures SchemeProviders(a + b) == SchemeProviders(a) + SchemeProviders(b)
  {
    if |a| > 0 {
      assert (a + b)[0] == a[0];
      assert (a + b)[1..] == a[1..] + b;
      SchemeProvidersAppend(a[1..], b);
    } else {
      assert a + b == b;
    }
  }

  /** Restricting two runs of providers keeps the survivors of the first before those of the second. */
  lemma {:induction false} RestrictedAppend(a: seq<ExternalProvider>, b: seq<ExternalProvider>, restrictions: seq<string>)
    ensures Restricted(a + b, restrictions) == Restricted(a, restrictions) + Restricted(b, restrictions)
  {
    if |a| > 0 {
      assert (a + b)[0] == a[0];
      assert (a + b)[1..] == a[1..] + b;
      RestrictedAppend(a[1..], b, restrictions);
    } else {
      assert a + b == b;
    }
  }

  /**
   * Without a hint, the page lists providers in the order of the schemes: the providers of two
   * runs of schemes are those of the first followed by those of the second.
   */
  lemma ProvidersForAppend(context: Option<AuthorizationContext>, a: seq<AuthenticationScheme>,
                           b: seq<AuthenticationScheme>, clients: map<string, Client>)
    requires HintedIdP(context, a + b).None?
    ensures HintedIdP(context, a).None? && HintedIdP(context, b).None?
    ensures ProvidersFor(context, a + b, clients) == ProvidersFor(context, a, clients) + ProvidersFor(context, b, clients)
  {
    assert forall k :: 0 <= k < |a| ==> (a + b)[k] == a[k];
    assert forall k :: 0 <= k < |b| ==> (a + b)[|a| + k] == b[k];
    SchemeProvidersAppend(a, b);
    var client := ClientOf(context, clients);
    if client.Some? && |client.value.IdentityProviderRestrictions| > 0 {
      RestrictedAppend(SchemeProviders(a), SchemeProviders(b), client.value.IdentityProviderRestrictions);
    }
  }

  /** Without a hint, a single scheme yields itself as a provider exactly when the client would list it. */
  lemma ProvidersForOne(context: Option<AuthorizationContext>, s: AuthenticationScheme, clients: map<string, Client>)
    requires HintedIdP(context, [s]).None?
    ensures var client := ClientOf(context, clients);
            var restricted := client.Some? && |client.value.IdentityProviderRestrictions| > 0;
            ProvidersFor(context, [s], clients)
              == if s.DisplayName.Some? && (restricted ==> s.Name in client.value.IdentityProviderRestrictions)
                 then [ExternalProvider(s.DisplayName, s.Name)] else []
  {
    assert SchemeProviders([s][1..]) == [];
  }

  /** Without a hint, local login is the client's choice (on when there is no client) and the global switch. */
  lemma LocalLoginWithoutHint(context: Option<AuthorizationContext>, schemes: seq<AuthenticationScheme>,
                              clients: map<string, Client>)
    requires HintedIdP(context, schemes).None?
    ensures LocalLoginFor(context, schemes, clients)
            <==> (ClientOf(context, clients).None? || ClientOf(context, clients).value.EnableLocalLogin)
                 && AccountOptions.AllowLocalLogin
  {
  }

  /* ---- the two Login actions ---- */

  /** Where a login action leads. */
  datatype LoginResult =
    | ChallengeRedirect(Scheme: Option<string>, ReturnUrl: Option<string>)
    | LoginView(ModelErrors: seq<string>)
    | NativeRedirect(RedirectUrl: Option<string>)
    | Redirect(Url: Option<string>)
    | InvalidReturnUrl

  /**
   * `Login(returnUrl)`: builds the page and goes straight to the external challenge when the
   * page would offer only that provider.
   */
  method LoginPage(returnUrl: Option<string>, context: Option<AuthorizationContext>,
                   schemes: seq<AuthenticationScheme>, clients: map<string, Client>)
    returns (r: LoginResult, vm: LoginViewModel)
    ensures fresh(vm)
    ensures vm.ExternalProviders == ProvidersFor(context, schemes, clients)
    ensures vm.EnableLocalLogin == LocalLoginFor(context, schemes, clients)
    ensures r.ChallengeRedirect? <==> vm.IsExternalLoginOnly()
    ensures r.ChallengeRedirect? ==> r == ChallengeRedirect(vm.ExternalLoginScheme(), returnUrl)
    ensures !r.ChallengeRedirect? ==> r == LoginView([])
  {
    vm := BuildLoginViewModel(returnUrl, context, schemes, clients);
    if vm.IsExternalLoginOnly() {
      return ChallengeRedirect(vm.ExternalLoginScheme(), returnUrl), vm;
    }
    return LoginView([]), vm;
  }

  /** The login page forwards to the external challenge for a hinted provider that is not local. */
  lemma HintedProviderIsChallenged(context: Option<AuthorizationContext>, schemes: seq<AuthenticationScheme>,
                                   clients: map<string, Client>, idp: string)
    requires HintedIdP(context, schemes) == Some(idp) && idp != LocalIdentityProvider
    ensures ExternalLoginOnly(LocalLoginFor(context, schemes, clients), ProvidersFor(context, schemes, clients))
  {
  }

  /** `Url.IsLocalUrl` on a possibly null address: null is not local. */
  function IsLocal(url: Option<string>, isLocalUrl: string -> bool): bool {
    url.Some? && isLocalUrl(url.value)
  }

  /**
   * Where a posted login goes: after a successful sign-in, to the return address (through the
   * loading page for a native client) when there is an authorisation context, else to a local
   * return address, else home for a blank one, else nowhere; after a failure, back to the form,
   * with the invalid-credentials message when the form itself was valid.
   */
  function LoginDecision(model: LoginInputModel, context: Option<AuthorizationContext>, modelStateValid: bool,
                         signInSucceeded: bool, isLocalUrl: string -> bool): (r: LoginResult)
    ensures r.LoginView? <==> !(modelStateValid && signInSucceeded)
    ensures r.LoginView? ==> r.ModelErrors == if modelStateValid then [AccountOptions.InvalidCredentialsErrorMessage] else []
    ensures r.NativeRedirect? <==> modelStateValid && signInSucceeded && context.Some?
                                   && IdentityExtensions.IsNativeClient(context.value.RedirectUri)
    ensures r.InvalidReturnUrl? <==> modelStateValid && signInSucceeded && context.None?
                                     && !IsLocal(model.ReturnUrl, isLocalUrl) && !IsNullOrWhiteSpace(model.ReturnUrl)
    ensures r.Redirect? ==> r.Url == model.ReturnUrl || (r.Url == Some(DefaultReturnUrl) && IsNullOrWhiteSpace(model.ReturnUrl))
    ensures r.NativeRedirect? ==> r.RedirectUrl == model.ReturnUrl
    ensures !r.ChallengeRedirect?
  {
    if modelStateValid && signInSucceeded then
      if context.Some? then
        if IdentityExtensions.IsNativeClient(context.value.RedirectUri) then NativeRedirect(model.ReturnUrl)
        else Redirect(model.ReturnUrl)
      else if IsLocal(model.ReturnUrl, isLocalUrl) then Redirect(model.ReturnUrl)
      else if IsNullOrWhiteSpace(model.ReturnUrl) then Redirect(Some(DefaultReturnUrl))
      else InvalidReturnUrl
    else LoginView(if modelStateValid then [AccountOptions.InvalidCredentialsErrorMessage] else [])
  }

  /**
   * `Login(LoginInputModel)`: the decision above; when the form is shown again it is rebuilt for
   * the posted return address with the posted user name and remember flag and an empty password.
   */
  method Login(model: LoginInputModel, context: Option<AuthorizationContext>, schemes: seq<AuthenticationScheme>,
               clients: map<string, Client>, modelStateValid: bool, signInSucceeded: bool, isLocalUrl: string -> bool)
    returns (r: LoginResult, vm: LoginViewModel?)
    ensures r == LoginDecision(model, context, modelStateValid, signInSucceeded, isLocalUrl)
    ensures r.LoginView? <==> vm != null
    ensures vm != null ==> fresh(vm) && vm.UserName == model.UserName && vm.RememberLogin == model.RememberLogin
                           && vm.Password == "" && vm.ReturnUrl == model.ReturnUrl
                           && vm.ExternalProviders == ProvidersFor(context, schemes, clients)
                           && vm.EnableLocalLogin == LocalLoginFor(context, schemes, clients)
  {
    var errors: seq<string> := [];
    if modelStateValid {
      if signInSucceeded {
        if context.Some? {
          if IdentityExtensions.IsNativeClient(context.value.RedirectUri) {
            return NativeRedirect(model.ReturnUrl), null;
          }
          return Redirect(model.ReturnUrl), null;
        }
        if IsLocal(model.ReturnUrl, isLocalUrl) {
          return Redirect(model.ReturnUrl), null;
        }
        if IsNullOrWhiteSpace(model.ReturnUrl) {
          return Redirect(Some(DefaultReturnUrl)), null;
        }
        return InvalidReturnUrl, null;
      }
      errors := errors + [AccountOptions.InvalidCredentialsErrorMessage];
    }
    vm := BuildLoginViewModelFromInput(model, context, schemes, clients);
    r := LoginView(errors);
  }

  /** With an authorisation context or a local return address, a successful login always leads somewhere. */
  lemma TrustedReturnNeverFails(model: LoginInputModel, context: Option<AuthorizationContext>,
                                isLocalUrl: string -> bool)
    requires context.Some? || IsLocal(model.ReturnUrl, isLocalUrl)
    ensures !LoginDecision(model, context, true, true, isLocalUrl).InvalidReturnUrl?
    ensures !LoginDecision(model, context, true, true, isLocalUrl).LoginView?
  {
  }
}
