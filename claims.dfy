/**
 * `System.Security.Claims.Claim` as a value, with the claim type names of the OpenID Connect
 * and JWT vocabularies and of `System.Security.Claims.ClaimTypes` that the identity service uses.
 */
module Claims {
  import opened Wrappers

  /** A claim: type, value and optional value type. .NET never lets the value be null. */
  datatype Claim = Claim(Type: string, Value: string, ValueType: Option<string>)

  /* OpenID Connect Core 1.0, section 5.1, and RFC 7519 registered names. */
  const Subject := "sub"
  const Name := "name"
  const PreferredUserName := "preferred_username"
  const UniqueName := "unique_name"
  const GivenName := "given_name"
  const FamilyName := "family_name"
  const Email := "email"
  const EmailVerified := "email_verified"
  const PhoneNumber := "phone_number"
  const PhoneNumberVerified := "phone_number_verified"
  const Role := "role"
  const SessionId := "sid"

  /* `System.Security.Claims.ClaimTypes`. */
  const NameIdentifierUri := "http://schemas.xmlsoap.org/ws/2005/05/identity/claims/nameidentifier"
  const NameUri := "http://schemas.xmlsoap.org/ws/2005/05/identity/claims/name"
  const GivenNameUri := "http://schemas.xmlsoap.org/ws/2005/05/identity/claims/givenname"
  const SurnameUri := "http://schemas.xmlsoap.org/ws/2005/05/identity/claims/surname"
  const EmailUri := "http://schemas.xmlsoap.org/ws/2005/05/identity/claims/emailaddress"

  /** `ClaimValueTypes.Boolean`. */
  const BooleanValueType := "http://www.w3.org/2001/XMLSchema#boolean"

  /** The position of the first claim of type `t`: `FirstOrDefault(claim => claim.Type == t)`. */
  function FirstIndexOfType(claims: seq<Claim>, t: string): (r: Option<nat>)
    ensures r.Some? ==> r.value < |claims| && claims[r.value].Type == t
    ensures r.Some? ==> forall k :: 0 <= k < r.value ==> claims[k].Type != t
    ensures r.None? ==> forall k :: 0 <= k < |claims| ==> claims[k].Type != t
  {
    if |claims| == 0 then None
    else if claims[0].Type == t then Some(0)
    else
      match FirstIndexOfType(claims[1..], t)
      case None => None
      case Some(i) => Some(i + 1)
  }

  /** `FirstOrDefault(claim => claim.Type == t)?.Value`. */
  function FirstValueOfType(claims: seq<Claim>, t: string): (r: Option<string>)
    ensures r.Some? <==> exists k :: 0 <= k < |claims| && claims[k].Type == t
    ensures r.Some? ==> exists k :: 0 <= k < |claims| && claims[k] == Claim(t, r.value, claims[k].ValueType)
  {
    match FirstIndexOfType(claims, t)
    case None => None
    case Some(i) => Some(claims[i].Value)
  }

  /** The character `OrdinalIgnoreCase` compares: ASCII lower-case letters map to upper case. */
  function FoldCase(c: char): char {
    if 'a' <= c <= 'z' then (c as int - 32) as char else c
  }

  /** `string.Equals(a, b, StringComparison.OrdinalIgnoreCase)` over ASCII letters. */
  predicate EqualsIgnoreCase(a: string, b: string) {
    |a| == |b| && forall i :: 0 <= i < |a| ==> FoldCase(a[i]) == FoldCase(b[i])
  }

  /**
   * The position of the first claim whose type equals `t` ignoring case:
   * `ClaimsPrincipal.FindFirst(t)`.
   */
  function FirstIndexOfTypeIgnoreCase(claims: seq<Claim>, t: string): (r: Option<nat>)
    ensures r.Some? ==> r.value < |claims| && EqualsIgnoreCase(claims[r.value].Type, t)
    ensures r.Some? ==> forall k :: 0 <= k < r.value ==> !EqualsIgnoreCase(claims[k].Type, t)
    ensures r.None? ==> forall k :: 0 <= k < |claims| ==> !EqualsIgnoreCase(claims[k].Type, t)
  {
    if |claims| == 0 then None
    else if EqualsIgnoreCase(claims[0].Type, t) then Some(0)
    else
      match FirstIndexOfTypeIgnoreCase(claims[1..], t)
      case None => None
      case Some(i) => Some(i + 1)
  }

  /** `FindFirst(t)?.Value`. */
  function FirstValueOfTypeIgnoreCase(claims: seq<Claim>, t: string): (r: Option<string>)
    ensures r.Some? <==> exists k :: 0 <= k < |claims| && EqualsIgnoreCase(claims[k].Type, t)
    ensures r.Some? ==> exists k :: 0 <= k < |claims| && EqualsIgnoreCase(claims[k].Type, t)
                                    && claims[k].Value == r.value
  {
    match FirstIndexOfTypeIgnoreCase(claims, t)
    case None => None
    case Some(i) => Some(claims[i].Value)
  }

  /** A claim whose type is `t` exactly is found by the case-insensitive lookup, at or before it. */
  lemma IgnoreCaseFindsExact(claims: seq<Claim>, t: string)
    requires FirstIndexOfType(claims, t).Some?
    ensures FirstIndexOfTypeIgnoreCase(claims, t).Some?
    ensures FirstIndexOfTypeIgnoreCase(claims, t).value <= FirstIndexOfType(claims, t).value
  {
    var i := FirstIndexOfType(claims, t).value;
    assert EqualsIgnoreCase(claims[i].Type, t);
  }

  /** When no claim type differs from `t` in case only, both lookups find the same claim. */
  lemma IgnoreCaseAgreesWithExact(claims: seq<Claim>, t: string)
    requires forall k :: 0 <= k < |claims| && EqualsIgnoreCase(claims[k].Type, t) ==> claims[k].Type == t
    ensures FirstIndexOfTypeIgnoreCase(claims, t) == FirstIndexOfType(claims, t)
  {
    if FirstIndexOfType(claims, t).Some? {
      IgnoreCaseFindsExact(claims, t);
    }
  }

  /** An upper-case `SUB` claim is a subject claim for `FindFirst`, not for an exact comparison. */
  lemma UpperCaseSubjectFound()
    ensures FirstIndexOfTypeIgnoreCase([Claim("SUB", "42", None)], Subject) == Some(0)
    ensures FirstIndexOfType([Claim("SUB", "42", None)], Subject).None?
  {
    assert EqualsIgnoreCase("SUB", Subject);
  }

  /** Of `Sub` and `sub`, `FindFirst` takes the first in the list. */
  lemma FirstOfCaseVariants()
    ensures FirstIndexOfTypeIgnoreCase([Claim("Sub", "1", None), Claim("sub", "2", None)], Subject) == Some(0)
    ensures FirstIndexOfType([Claim("Sub", "1", None), Claim("sub", "2", None)], Subject) == Some(1)
  {
    assert EqualsIgnoreCase("Sub", Subject);
  }

  /** `a ?? b` on optional strings. */
  function OrElse(a: Option<string>, b: Option<string>): (r: Option<string>)
    ensures a.Some? ==> r == a
    ensures a.None? ==> r == b
  {
    if a.Some? then a else b
  }

  /** A `List<Claim>` that callers append to and remove from. */
  class ClaimList {
    var Items: seq<Claim>

    constructor(items: seq<Claim>)
      ensures Items == items
    {
      Items := items;
    }

    /** `List.Add`. */
    method Add(claim: Claim)
      modifies this
      ensures Items == old(Items) + [claim]
    {
      Items := Items + [claim];
    }

    /** `List.Remove` of one particular claim object: the entry at its position goes. */
    method RemoveAt(i: nat)
      requires i < |Items|
      modifies this
      ensures Items == old(Items[..i]) + old(Items[i + 1..])
      ensures |Items| == |old(Items)| - 1
      ensures multiset(Items) + multiset{old(Items[i])} == multiset(old(Items))
    {
      assert Items == Items[..i] + [Items[i]] + Items[i + 1..];
      Items := Items[..i] + Items[i + 1..];
    }
  }
}
