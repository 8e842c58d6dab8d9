/**
 * The login page's models: `ExternalProvider`, `LoginInputModel` (what the form posts) and
 * `LoginViewModel` (what the page shows), with the computed properties `VisibleExternalProviders`,
 * `IsExternalLoginOnly` and `ExternalLoginScheme`.
 */
module LoginViewModel {
  import opened Wrappers
  import opened Text

  /** An external sign-in choice: an optional display name and the scheme it challenges. */
  datatype ExternalProvider = ExternalProvider(DisplayName: Option<string>, AuthenticationScheme: string)

  const DefaultReturnUrl := "~/"

  /** `LoginInputModel`: the posted user name, password, remember flag and return address. */
  datatype LoginInputModel = LoginInputModel(UserName: string, Password: string, RememberLogin: bool, ReturnUrl: Option<string>)

  /** The providers shown on the page: those whose display name is not blank, in their order. */
  function Visible(providers: seq<ExternalProvider>): (r: seq<ExternalProvider>)
    ensures |r| <= |providers|
    ensures forall k :: 0 <= k < |r| ==> r[k] in providers && !IsNullOrWhiteSpace(r[k].DisplayName)
    ensures forall k :: 0 <= k < |providers| && !IsNullOrWhiteSpace(providers[k].DisplayName) ==> providers[k] in r
  {
    if |providers| == 0 then []
    else (if IsNullOrWhiteSpace(providers[0].DisplayName) then [] else [providers[0]]) + Visible(providers[1..])
  }

  /** Filtering keeps the order: the visible part of a concatenation is the concatenation of the visible parts. */
  lemma {:induction false} VisibleAppend(a: seq<ExternalProvider>, b: seq<ExternalProvider>)
    ensures Visible(a + b) == Visible(a) + Visible(b)
  {
    if |a| > 0 {
      assert (a + b)[1..] == a[1..] + b;
      VisibleAppend(a[1..], b);
    } else {
      assert a + b == b;
    }
  }

  /** `IsExternalLoginOnly`: local login is off and there is exactly one provider. */
  predicate ExternalLoginOnly(enableLocalLogin: bool, providers: seq<ExternalProvider>) {
    !enableLocalLogin && |providers| == 1
  }

  /** `ExternalLoginScheme`: the one provider's scheme when the login is external only. */
  function ExternalLoginSchemeOf(enableLocalLogin: bool, providers: seq<ExternalProvider>): (r: Option<string>)
    ensures r.Some? <==> ExternalLoginOnly(enableLocalLogin, providers)
    ensures r.Some? ==> exists k :: 0 <= k < |providers| && providers[k].AuthenticationScheme == r.value
  {
    if ExternalLoginOnly(enableLocalLogin, providers) then Some(providers[0].AuthenticationScheme) else None
  }

  /** `LoginViewModel`; the input fields are its own, as the class derives from the input model. */
  class LoginViewModel {
    var UserName: string
    var Password: string
    var RememberLogin: bool
    var ReturnUrl: Option<string>
    var AllowRememberLogin: bool
    var EnableLocalLogin: bool
    var ExternalProviders: seq<ExternalProvider>

    /** A new view model: the required names given, every other member at its default. */
    constructor(userName: string, password: string)
      ensures UserName == userName && Password == password && !RememberLogin
      ensures ReturnUrl == Some(DefaultReturnUrl)
      ensures AllowRememberLogin && EnableLocalLogin && ExternalProviders == []
    {
      UserName := userName;
      Password := password;
      RememberLogin := false;
      ReturnUrl := Some(DefaultReturnUrl);
      AllowRememberLogin := true;
      EnableLocalLogin := true;
      ExternalProviders := [];
    }

    function VisibleExternalProviders(): seq<ExternalProvider>
      reads this
    {
      Visible(ExternalProviders)
    }

    predicate IsExternalLoginOnly()
      reads this
    {
      ExternalLoginOnly(EnableLocalLogin, ExternalProviders)
    }

    function ExternalLoginScheme(): Option<string>
      reads this
    {
      ExternalLoginSchemeOf(EnableLocalLogin, ExternalProviders)
    }
  }
}
