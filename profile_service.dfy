/**
 * `ProfileService`, the Duende IdentityServer profile service: the claims issued for a user
 * (`GetProfileDataAsync`, `GetClaimsFromUser`, `AddClaims`) and whether a signed-in subject is
 * still active (`IsActiveAsync`). The user store is a map from user id to user, the store's
 * optional features are flags and the clock reading is `now`.
 */
module ProfileService {
  import opened Wrappers
  import opened Text
  import opened Claims
  import opened ParameterCheck

  /**
   * The user fields the service reads: those of `IdentityUser` (id, user name, e-mail, phone,
   * security stamp and lockout) and the profile fields of the shop's `ApplicationUser`.
   * Instants are integers on a common clock.
   */
  datatype ApplicationUser = ApplicationUser(
    Id: string, UserName: Option<string>,
    Name: Option<string>, LastName: Option<string>,
    CardNumber: Option<string>, CardHolderName: Option<string>, SecurityNumber: Option<string>,
    Expiration: Option<string>,
    City: Option<string>, Country: Option<string>, State: Option<string>, Street: Option<string>,
    ZipCode: Option<string>,
    Email: Option<string>, EmailConfirmed: bool,
    PhoneNumber: Option<string>, PhoneNumberConfirmed: bool,
    SecurityStamp: Option<string>, LockoutEnabled: bool, LockoutEnd: Option<int>)

  /** `UserManager.SupportsUserEmail`, `SupportsUserPhoneNumber` and `SupportsUserSecurityStamp`. */
  datatype StoreFeatures = StoreFeatures(
    SupportsUserEmail: bool, SupportsUserPhoneNumber: bool, SupportsUserSecurityStamp: bool)

  /** The claim type that carries the user id. */
  const SubjectClaimType := "sub"
  const SecurityStampClaimType := "security_stamp"

  /** The claim a value gives: none when the value is missing or blank. */
  function ClaimFor(claimType: string, claimValue: Option<string>, claimValueType: Option<string>): (r: seq<Claim>)
    ensures |r| <= 1
    ensures r != [] <==> !IsNullOrWhiteSpace(claimValue)
    ensures r != [] ==> r[0] == Claim(claimType, claimValue.value, claimValueType)
  {
    if IsNullOrWhiteSpace(claimValue) then [] else [Claim(claimType, claimValue.value, claimValueType)]
  }

  /**
   * `AddClaims`: refuses a blank claim type and otherwise appends one claim when the value is
   * not blank, leaving the list as it was when it is.
   */
  method AddClaims(claims: ClaimList, claimType: string, claimValue: Option<string>, claimValueType: Option<string>)
    returns (o: Outcome<CheckError>)
    modifies claims
    ensures o.Fail? <==> IsBlank(claimType)
    ensures o.Fail? ==> claims.Items == old(claims.Items)
    ensures o.Pass? ==> claims.Items == old(claims.Items) + ClaimFor(claimType, claimValue, claimValueType)
  {
    o := IsNotNullOrWhitespace(Some(claimType), "claim type must not be blank");
    if o.Fail? {
      return;
    }
    if !IsNullOrWhiteSpace(claimValue) {
      var claim := Claim(claimType, claimValue.value, claimValueType);
      claims.Add(claim);
    }
  }

  /** The list with the eleven profile claims appended in order, each only when its field is not blank. */
  function WithProfileClaims(claims: seq<Claim>, user: ApplicationUser): seq<Claim> {
    claims
    + ClaimFor("name", user.Name, None) + ClaimFor("last_name", user.LastName, None)
    + ClaimFor("card_number", user.CardNumber, None) + ClaimFor("card_holder", user.CardHolderName, None)
    + ClaimFor("card_security_number", user.SecurityNumber, None)
    + ClaimFor("card_expiration", user.Expiration, None) + ClaimFor("address_city", user.City, None)
    + ClaimFor("address_country", user.Country, None) + ClaimFor("address_state", user.State, None)
    + ClaimFor("address_street", user.Street, None) + ClaimFor("address_zip_code", user.ZipCode, None)
  }

  function BoolText(b: bool): string {
    if b then "true" else "false"
  }

  /** With e-mail support: the address when it is not blank, then whether it is confirmed. */
  function WithEmailClaims(claims: seq<Claim>, user: ApplicationUser, features: StoreFeatures): seq<Claim> {
    if features.SupportsUserEmail then
      claims + ClaimFor(Email, user.Email, None)
      + ClaimFor(EmailVerified, Some(BoolText(user.EmailConfirmed)), Some(BooleanValueType))
    else claims
  }

  /** With phone support and a number that is not blank: the number, then whether it is confirmed. */
  function WithPhoneClaims(claims: seq<Claim>, user: ApplicationUser, features: StoreFeatures): seq<Claim> {
    if features.SupportsUserPhoneNumber && !IsNullOrWhiteSpace(user.PhoneNumber) then
      claims + ClaimFor(PhoneNumber, user.PhoneNumber, None)
      + ClaimFor(PhoneNumberVerified, Some(BoolText(user.PhoneNumberConfirmed)), Some(BooleanValueType))
    else claims
  }

  /**
   * The claims of a user: refused when the user name is blank; otherwise the subject, the
   * preferred and unique names, the present profile fields, the e-mail claims and the phone
   * claims, in that order.
   */
  function ClaimsFromUser(user: ApplicationUser, features: StoreFeatures): Result<seq<Claim>, CheckError> {
    if IsNullOrWhiteSpace(user.UserName) then Failure(ArgumentException("user name must not be blank"))
    else
      Success(WithPhoneClaims(WithEmailClaims(WithProfileClaims(ClaimsFromUserHead(user), user), user, features),
                              user, features))
  }

  lemma ClaimTypesNotBlank()
    ensures !IsBlank("name") && !IsBlank("last_name") && !IsBlank("card_number") && !IsBlank("card_holder")
    ensures !IsBlank("card_security_number") && !IsBlank("card_expiration") && !IsBlank("address_city")
    ensures !IsBlank("address_country") && !IsBlank("address_state") && !IsBlank("address_street")
    ensures !IsBlank("address_zip_code")
    ensures !IsBlank(Email) && !IsBlank(EmailVerified) && !IsBlank(PhoneNumber) && !IsBlank(PhoneNumberVerified)
    ensures !IsBlank("true") && !IsBlank("false")
  {
    assert !IsWhiteSpace("name"[0]) && !IsWhiteSpace("last_name"[0]) && !IsWhiteSpace("card_number"[0]);
    assert !IsWhiteSpace("card_holder"[0]) && !IsWhiteSpace("card_security_number"[0]);
    assert !IsWhiteSpace("card_expiration"[0]) && !IsWhiteSpace("address_city"[0]);
    assert !IsWhiteSpace("address_country"[0]) && !IsWhiteSpace("address_state"[0]);
    assert !IsWhiteSpace("address_street"[0]) && !IsWhiteSpace("address_zip_code"[0]);
    assert !IsWhiteSpace(Email[0]) && !IsWhiteSpace(EmailVerified[0]);
    assert !IsWhiteSpace(PhoneNumber[0]) && !IsWhiteSpace(PhoneNumberVerified[0]);
    assert !IsWhiteSpace("true"[0]) && !IsWhiteSpace("false"[0]);
  }

  /** `GetClaimsFromUser`: builds the list by appending, claim by claim. */
  method GetClaimsFromUser(user: ApplicationUser, features: StoreFeatures) returns (r: Result<seq<Claim>, CheckError>)
    ensures r == ClaimsFromUser(user, features)
  {
    var check := IsNotNullOrWhitespace(user.UserName, "user name must not be blank");
    if check.Fail? {
      return Failure(ArgumentException("user name must not be blank"));
    }
    ClaimTypesNotBlank();
    var claims := new ClaimList(ClaimsFromUserHead(user));
    var o := AddClaims(claims, "name", user.Name, None);
    o := AddClaims(claims, "last_name", user.LastName, None);
    o := AddClaims(claims, "card_number", user.CardNumber, None);
    o := AddClaims(claims, "card_holder", user.CardHolderName, None);
    o := AddClaims(claims, "card_security_number", user.SecurityNumber, None);
    o := AddClaims(claims, "card_expiration", user.Expiration, None);
    o := AddClaims(claims, "address_city", user.City, None);
    o := AddClaims(claims, "address_country", user.Country, None);
    o := AddClaims(claims, "address_state", user.State, None);
    o := AddClaims(claims, "address_street", user.Street, None);
    o := AddClaims(claims, "address_zip_code", user.ZipCode, None);
    assert claims.Items == WithProfileClaims(ClaimsFromUserHead(user), user);
    if features.SupportsUserEmail {
      var emailConfirmed := BoolText(user.EmailConfirmed);
      o := AddClaims(claims, Email, user.Email, None);
      o := AddClaims(claims, EmailVerified, Some(emailConfirmed), Some(BooleanValueType));
    }
    if features.SupportsUserPhoneNumber && !IsNullOrWhiteSpace(user.PhoneNumber) {
      var phoneConfirmed := BoolText(user.PhoneNumberConfirmed);
      o := AddClaims(claims, PhoneNumber, user.PhoneNumber, None);
      o := AddClaims(claims, PhoneNumberVerified, Some(phoneConfirmed), Some(BooleanValueType));
    }
    return Success(claims.Items);
  }

  /** The subject, then the user name as preferred and as unique name. */
  function ClaimsFromUserHead(user: ApplicationUser): seq<Claim>
    requires !IsNullOrWhiteSpace(user.UserName)
  {
    [Claim(Claims.Subject, user.Id, None), Claim(PreferredUserName, user.UserName.value, None),
     Claim(UniqueName, user.UserName.value, None)]
  }

  /* ---------- what the issued claims say ---------- */

  /** The types of a list of claims. */
  function ClaimTypes(cs: seq<Claim>): (r: set<string>)
    ensures forall k :: 0 <= k < |cs| ==> cs[k].Type in r
    ensures forall t :: t in r ==> exists k :: 0 <= k < |cs| && cs[k].Type == t
  {
    set k | 0 <= k < |cs| :: cs[k].Type
  }

  lemma ClaimTypesAppend(a: seq<Claim>, b: seq<Claim>)
    ensures ClaimTypes(a + b) == ClaimTypes(a) + ClaimTypes(b)
  {
    forall t | t in ClaimTypes(a + b) ensures t in ClaimTypes(a) + ClaimTypes(b) {
      var k :| 0 <= k < |a + b| && (a + b)[k].Type == t;
      if k >= |a| {
        assert b[k - |a|].Type == t;
      }
    }
    forall t | t in ClaimTypes(a) ensures t in ClaimTypes(a + b) {
      var k :| 0 <= k < |a| && a[k].Type == t;
      assert (a + b)[k].Type == t;
    }
    forall t | t in ClaimTypes(b) ensures t in ClaimTypes(a + b) {
      var k :| 0 <= k < |b| && b[k].Type == t;
      assert (a + b)[k + |a|].Type == t;
    }
  }

  /** The profile claim types and the fields they come from, in order. */
  function ProfileFields(user: ApplicationUser): seq<(string, Option<string>)> {
    [("name", user.Name), ("last_name", user.LastName), ("card_number", user.CardNumber),
     ("card_holder", user.CardHolderName), ("card_security_number", user.SecurityNumber),
     ("card_expiration", user.Expiration), ("address_city", user.City),
     ("address_country", user.Country), ("address_state", user.State),
     ("address_street", user.Street), ("address_zip_code", user.ZipCode)]
  }

  /** The claim types of the fields that are present and not blank. */
  function PresentTypes(fields: seq<(string, Option<string>)>): set<string> {
    set k | 0 <= k < |fields| && !IsNullOrWhiteSpace(fields[k].1) :: fields[k].0
  }

  lemma ClaimForTypes(claimType: string, claimValue: Option<string>, claimValueType: Option<string>)
    ensures ClaimTypes(ClaimFor(claimType, claimValue, claimValueType))
            == if IsNullOrWhiteSpace(claimValue) then {} else {claimType}
  {
    var cs := ClaimFor(claimType, claimValue, claimValueType);
    if cs != [] {
      assert cs[0].Type == claimType;
    }
  }

  /** The list with the claims of `fields` appended in order, one field after the other. */
  function AppendFields(claims: seq<Claim>, fields: seq<(string, Option<string>)>): seq<Claim> {
    if |fields| == 0 then claims
    else AppendFields(claims, fields[..|fields| - 1]) + ClaimFor(fields[|fields| - 1].0, fields[|fields| - 1].1, None)
  }

  /** The eleven appends of `WithProfileClaims` are the fold over `ProfileFields`. */
  lemma AppendProfileFields(claims: seq<Claim>, user: ApplicationUser)
    ensures WithProfileClaims(claims, user) == AppendFields(claims, ProfileFields(user))
  {
    var f := ProfileFields(user);
    assert AppendFields(claims, f[..0]) == claims;
    assert f[..1][..0] == f[..0];
    assert AppendFields(claims, f[..1]) == AppendFields(claims, f[..0]) + ClaimFor(f[0].0, f[0].1, None);
    assert f[..2][..1] == f[..1];
    assert AppendFields(claims, f[..2]) == AppendFields(claims, f[..1]) + ClaimFor(f[1].0, f[1].1, None);
    assert f[..3][..2] == f[..2];
    assert AppendFields(claims, f[..3]) == AppendFields(claims, f[..2]) + ClaimFor(f[2].0, f[2].1, None);
    assert f[..4][..3] == f[..3];
    assert AppendFields(claims, f[..4]) == AppendFields(claims, f[..3]) + ClaimFor(f[3].0, f[3].1, None);
    assert f[..5][..4] == f[..4];
    assert AppendFields(claims, f[..5]) == AppendFields(claims, f[..4]) + ClaimFor(f[4].0, f[4].1, None);
    assert f[..6][..5] == f[..5];
    assert AppendFields(claims, f[..6]) == AppendFields(claims, f[..5]) + ClaimFor(f[5].0, f[5].1, None);
    assert f[..7][..6] == f[..6];
    assert AppendFields(claims, f[..7]) == AppendFields(claims, f[..6]) + ClaimFor(f[6].0, f[6].1, None);
    assert f[..8][..7] == f[..7];
    assert AppendFields(claims, f[..8]) == AppendFields(claims, f[..7]) + ClaimFor(f[7].0, f[7].1, None);
    assert f[..9][..8] == f[..8];
    assert AppendFields(claims, f[..9]) == AppendFields(claims, f[..8]) + ClaimFor(f[8].0, f[8].1, None);
    assert f[..10][..9] == f[..9];
    assert AppendFields(claims, f[..10]) == AppendFields(claims, f[..9]) + ClaimFor(f[9].0, f[9].1, None);
    assert f[..11][..10] == f[..10];
    assert AppendFields(claims, f[..11]) == AppendFields(claims, f[..10]) + ClaimFor(f[10].0, f[10].1, None);
    assert f[..11] == f;
  }

  lemma {:induction false} AppendFieldsTypes(claims: seq<Claim>, fields: seq<(string, Option<string>)>)
    ensures ClaimTypes(AppendFields(claims, fields)) == ClaimTypes(claims) + PresentTypes(fields)
  {
    if |fields| > 0 {
      var init := fields[..|fields| - 1];
      var last := fields[|fields| - 1];
      AppendFieldsTypes(claims, init);
      ClaimTypesAppend(AppendFields(claims, init), ClaimFor(last.0, last.1, None));
      ClaimForTypes(last.0, last.1, None);
      PresentTypesSnoc(fields);
    }
  }

  /** The types of a list of fields are those of all but the last, plus the last's when its value is present. */
  lemma PresentTypesSnoc(fields: seq<(string, Option<string>)>)
    requires |fields| > 0
    ensures var last := fields[|fields| - 1];
            PresentTypes(fields) == PresentTypes(fields[..|fields| - 1]) + (if IsNullOrWhiteSpace(last.1) then {} else {last.0})
  {
    var init := fields[..|fields| - 1];
    var last := fields[|fields| - 1];
    forall t | t in PresentTypes(fields)
      ensures t in PresentTypes(init) + (if IsNullOrWhiteSpace(last.1) then {} else {last.0})
    {
      var k :| 0 <= k < |fields| && !IsNullOrWhiteSpace(fields[k].1) && fields[k].0 == t;
      if k < |init| {
        assert init[k] == fields[k];
      }
    }
    forall t | t in PresentTypes(init) ensures t in PresentTypes(fields) {
      var k :| 0 <= k < |init| && !IsNullOrWhiteSpace(init[k].1) && init[k].0 == t;
      assert fields[k] == init[k];
    }
  }

  /** The e-mail claim types a user gets. */
  function EmailTypes(user: ApplicationUser, features: StoreFeatures): set<string> {
    if features.SupportsUserEmail then (if IsNullOrWhiteSpace(user.Email) then {} else {Email}) + {EmailVerified}
    else {}
  }

  /** The phone claim types a user gets. */
  function PhoneTypes(user: ApplicationUser, features: StoreFeatures): set<string> {
    if features.SupportsUserPhoneNumber && !IsNullOrWhiteSpace(user.PhoneNumber) then {PhoneNumber, PhoneNumberVerified}
    else {}
  }

  /**
   * The claims of a user with a user name: the subject and the two names come first; the
   * types issued are those, the profile fields that are not blank, the e-mail address when
   * e-mail is supported and it is not blank, `email_verified` whenever e-mail is supported
   * (with the text of `EmailConfirmed`), and both phone claims when phone numbers are supported
   * and the number is not blank.
   */
  lemma IssuedClaims(user: ApplicationUser, features: StoreFeatures)
    requires !IsNullOrWhiteSpace(user.UserName)
    ensures ClaimsFromUser(user, features).Success?
    ensures var r := ClaimsFromUser(user, features).value;
            && |r| >= 3 && r[..3] == ClaimsFromUserHead(user)
            && ClaimTypes(r) == {Claims.Subject, PreferredUserName, UniqueName} + PresentTypes(ProfileFields(user))
                                + EmailTypes(user, features) + PhoneTypes(user, features)
            && (features.SupportsUserEmail ==>
                  Claim(EmailVerified, if user.EmailConfirmed then "true" else "false", Some(BooleanValueType)) in r)
  {
    var head := ClaimsFromUserHead(user);
    var p := WithProfileClaims(head, user);
    var e := WithEmailClaims(p, user, features);
    var r := WithPhoneClaims(e, user, features);
    assert ClaimTypes(head) == {Claims.Subject, PreferredUserName, UniqueName} by {
      assert head[0].Type == Claims.Subject && head[1].Type == PreferredUserName && head[2].Type == UniqueName;
    }
    AppendProfileFields(head, user);
    AppendFieldsTypes(head, ProfileFields(user));
    EmailClaimTypes(p, user, features);
    PhoneClaimTypes(e, user, features);
    PrefixKept(head, user, features);
    if features.SupportsUserEmail {
      EmailVerifiedIssued(p, user, features);
      assert e[|e| - 1] in r;
    }
  }

  lemma EmailClaimTypes(claims: seq<Claim>, user: ApplicationUser, features: StoreFeatures)
    ensures ClaimTypes(WithEmailClaims(claims, user, features)) == ClaimTypes(claims) + EmailTypes(user, features)
  {
    if features.SupportsUserEmail {
      var verified := ClaimFor(EmailVerified, Some(BoolText(user.EmailConfirmed)), Some(BooleanValueType));
      ClaimTypesNotBlank();
      ClaimForTypes(Email, user.Email, None);
      ClaimForTypes(EmailVerified, Some(BoolText(user.EmailConfirmed)), Some(BooleanValueType));
      ClaimTypesAppend(claims, ClaimFor(Email, user.Email, None));
      ClaimTypesAppend(claims + ClaimFor(Email, user.Email, None), verified);
    }
  }

  lemma EmailVerifiedIssued(claims: seq<Claim>, user: ApplicationUser, features: StoreFeatures)
    requires features.SupportsUserEmail
    ensures var e := WithEmailClaims(claims, user, features);
            |e| > 0 && e[|e| - 1] == Claim(EmailVerified, if user.EmailConfirmed then "true" else "false", Some(BooleanValueType))
  {
    ClaimTypesNotBlank();
  }

  lemma PhoneClaimTypes(claims: seq<Claim>, user: ApplicationUser, features: StoreFeatures)
    ensures ClaimTypes(WithPhoneClaims(claims, user, features)) == ClaimTypes(claims) + PhoneTypes(user, features)
  {
    if features.SupportsUserPhoneNumber && !IsNullOrWhiteSpace(user.PhoneNumber) {
      var verified := ClaimFor(PhoneNumberVerified, Some(BoolText(user.PhoneNumberConfirmed)), Some(BooleanValueType));
      ClaimTypesNotBlank();
      ClaimForTypes(PhoneNumber, user.PhoneNumber, None);
      ClaimForTypes(PhoneNumberVerified, Some(BoolText(user.PhoneNumberConfirmed)), Some(BooleanValueType));
      ClaimTypesAppend(claims, ClaimFor(PhoneNumber, user.PhoneNumber, None));
      ClaimTypesAppend(claims + ClaimFor(PhoneNumber, user.PhoneNumber, None), verified);
    }
  }

  /** Appending keeps what was there: the head stays the first three claims. */
  lemma PrefixKept(head: seq<Claim>, user: ApplicationUser, features: StoreFeatures)
    ensures var r := WithPhoneClaims(WithEmailClaims(WithProfileClaims(head, user), user, features), user, features);
            |r| >= |head| && r[..|head|] == head
  {
    var p := WithProfileClaims(head, user);
    AppendProfileFields(head, user);
    AppendFieldsPrefix(head, ProfileFields(user));
    var e := WithEmailClaims(p, user, features);
    assert e[..|p|] == p;
    var r := WithPhoneClaims(e, user, features);
    assert r[..|e|] == e;
    assert r[..|head|] == e[..|head|] == p[..|head|];
  }

  lemma {:induction false} AppendFieldsPrefix(claims: seq<Claim>, fields: seq<(string, Option<string>)>)
    ensures |AppendFields(claims, fields)| >= |claims| && AppendFields(claims, fields)[..|claims|] == claims
  {
    if |fields| > 0 {
      var init := AppendFields(claims, fields[..|fields| - 1]);
      AppendFieldsPrefix(claims, fields[..|fields| - 1]);
      var all := AppendFields(claims, fields);
      assert all[..|init|] == init;
      assert all[..|claims|] == init[..|claims|];
    }
  }

  /* ---- IsActiveAsync ---- */

  /** The signed-in subject a request carries: `null` or the principal's claims. */
  class IsActiveContext {
    const Subject: Option<seq<Claim>>
    var IsActive: bool

    constructor(subject: Option<seq<Claim>>)
      ensures Subject == subject && !IsActive
    {
      Subject := subject;
      IsActive := false;
    }
  }

  /** Whether the store's user still matches the security stamp the subject was issued with. */
  predicate StampMatches(claims: seq<Claim>, user: ApplicationUser, features: StoreFeatures) {
    !features.SupportsUserSecurityStamp
    || FirstValueOfType(claims, SecurityStampClaimType).None?
    || user.SecurityStamp == FirstValueOfType(claims, SecurityStampClaimType)
  }

  /** Whether lockout stops the user at instant `now`: enabled and ending strictly later. */
  predicate LockedOut(user: ApplicationUser, now: int) {
    user.LockoutEnabled && user.LockoutEnd.Some? && user.LockoutEnd.value > now
  }

  /**
   * Whether a subject is active: its first `sub` claim names a known user, the security stamp
   * it carries (when the store keeps stamps and the subject has one) is the user's current one,
   * and the user is not locked out.
   */
  function Active(claims: seq<Claim>, users: map<string, ApplicationUser>, features: StoreFeatures, now: int): (r: bool)
    ensures r <==> exists id :: FirstValueOfType(claims, SubjectClaimType) == Some(id) && !IsBlank(id)
                                && id in users && StampMatches(claims, users[id], features)
                                && !LockedOut(users[id], now)
  {
    var subjectId := FirstValueOfType(claims, SubjectClaimType);
    if IsNullOrWhiteSpace(subjectId) then false
    else if subjectId.value !in users then false
    else StampMatches(claims, users[subjectId.value], features) && !LockedOut(users[subjectId.value], now)
  }

  /**
   * `IsActiveAsync`: refuses a context without a subject, and otherwise clears the flag and sets
   * it again only when the subject is active.
   */
  method IsActiveAsync(context: IsActiveContext, users: map<string, ApplicationUser>, features: StoreFeatures, now: int)
    returns (o: Outcome<CheckError>)
    modifies context
    ensures o.Fail? <==> context.Subject.None?
    ensures o.Fail? ==> o.error.ArgumentNullException? && context.IsActive == old(context.IsActive)
    ensures o.Pass? ==> context.IsActive == Active(context.Subject.value, users, features, now)
  {
    o := IsNotNull(context.Subject, "subject must not be null");
    if o.Fail? {
      return;
    }
    var claims := context.Subject.value;
    context.IsActive := false;
    var subjectId := FirstValueOfType(claims, SubjectClaimType);
    if IsNullOrWhiteSpace(subjectId) {
      return;
    }
    if subjectId.value in users {
      var user := users[subjectId.value];
      if features.SupportsUserSecurityStamp {
        var securityStamp := FirstValueOfType(claims, SecurityStampClaimType);
        if securityStamp.Some? {
          var dbSecurityStamp := user.SecurityStamp;
          if dbSecurityStamp != securityStamp {
            return;
          }
        }
      }
      if !user.LockoutEnabled || user.LockoutEnd.None? || user.LockoutEnd.value <= now {
        context.IsActive := true;
      }
    }
  }

  /** A subject issued before the user's security stamp changed is no longer active. */
  lemma ChangedStampDeactivates(claims: seq<Claim>, users: map<string, ApplicationUser>, features: StoreFeatures,
                                now: int, id: string, stamp: string)
    requires FirstValueOfType(claims, SubjectClaimType) == Some(id) && id in users
    requires features.SupportsUserSecurityStamp
    requires FirstValueOfType(claims, SecurityStampClaimType) == Some(stamp)
    requires users[id].SecurityStamp != Some(stamp)
    ensures !Active(claims, users, features, now)
  {
  }

  /** Once the lockout has ended, a known subject with a current stamp is active again. */
  lemma LockoutEndsAtItsInstant(claims: seq<Claim>, users: map<string, ApplicationUser>, features: StoreFeatures,
                                id: string, end: int, now: int)
    requires FirstValueOfType(claims, SubjectClaimType) == Some(id) && !IsBlank(id) && id in users
    requires StampMatches(claims, users[id], features)
    requires users[id].LockoutEnabled && users[id].LockoutEnd == Some(end)
    ensures Active(claims, users, features, now) <==> end <= now
  {
  }

  /* ---- GetProfileDataAsync ---- */

  /** The profile request: `null` or the subject's claims, and the claims to issue. */
  class ProfileDataRequestContext {
    const Subject: Option<seq<Claim>>
    var IssuedClaims: seq<Claim>

    constructor(subject: Option<seq<Claim>>)
      ensures Subject == subject && IssuedClaims == []
    {
      Subject := subject;
      IssuedClaims := [];
    }
  }

  /**
   * The claims a profile request yields: refused without a subject, without a non-blank `sub`
   * claim, for an unknown user and for a user without user name; otherwise the user's claims.
   */
  function ProfileData(subject: Option<seq<Claim>>, users: map<string, ApplicationUser>, features: StoreFeatures)
    : (r: Result<seq<Claim>, CheckError>)
    ensures subject.None? ==> r.Failure? && r.error.ArgumentNullException?
    ensures r.Success? <==> exists id :: subject.Some? && FirstValueOfType(subject.value, SubjectClaimType) == Some(id)
                                        && !IsBlank(id) && id in users && !IsNullOrWhiteSpace(users[id].UserName)
    ensures r.Success? ==> var id := FirstValueOfType(subject.value, SubjectClaimType).value;
                           r == ClaimsFromUser(users[id], features)
  {
    if subject.None? then Failure(ArgumentNullException("subject must not be null"))
    else
      var subjectId := FirstValueOfType(subject.value, SubjectClaimType);
      if IsNullOrWhiteSpace(subjectId) then Failure(ArgumentException("no user id claim"))
      else if subjectId.value !in users then Failure(ArgumentNullException("user not found"))
      else ClaimsFromUser(users[subjectId.value], features)
  }

  /**
   * `GetProfileDataAsync`: the guards in order, then the user's claims become the issued claims;
   * a refused request leaves them as they were.
   */
  method GetProfileDataAsync(context: ProfileDataRequestContext, users: map<string, ApplicationUser>,
                             features: StoreFeatures)
    returns (o: Outcome<CheckError>)
    modifies context
    ensures var d := ProfileData(context.Subject, users, features);
            && (o.Fail? <==> d.Failure?)
            && (o.Fail? ==> o.error == d.error && context.IssuedClaims == old(context.IssuedClaims))
            && (o.Pass? ==> context.IssuedClaims == d.value)
  {
    o := IsNotNull(context.Subject, "subject must not be null");
    if o.Fail? {
      return;
    }
    var subjectId := FirstValueOfType(context.Subject.value, SubjectClaimType);
    o := IsNotNullOrWhitespace(subjectId, "no user id claim");
    if o.Fail? {
      return;
    }
    var user := if subjectId.value in users then Some(users[subjectId.value]) else None;
    o := IsNotNull(user, "user not found");
    if o.Fail? {
      return;
    }
    var claims := GetClaimsFromUser(user.value, features);
    if claims.Failure? {
      return Fail(claims.error);
    }
    context.IssuedClaims := claims.value;
  }

  /** Issued claims start with the subject claim holding the stored user's id. */
  lemma ProfileDataStartsWithSubject(subject: Option<seq<Claim>>, users: map<string, ApplicationUser>,
                                     features: StoreFeatures)
    requires ProfileData(subject, users, features).Success?
    ensures var id := FirstValueOfType(subject.value, SubjectClaimType).value;
            ProfileData(subject, users, features).value[0] == Claim(Claims.Subject, users[id].Id, None)
  {
    var id := FirstValueOfType(subject.value, SubjectClaimType).value;
    IssuedClaims(users[id], features);
  }
}
