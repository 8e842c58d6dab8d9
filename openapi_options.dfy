/**
 * `OpenApiOptionExtensions`, the transformers every service applies to its OpenAPI document:
 * version information and the version description (`ApplyApiVersionInfo`, `BuildDescription`),
 * the authorisation responses and requirement (`ApplyAuthorizationChecks`), the deprecation flag
 * (`ApplyOperationDeprecatedStatus`), the `api-version` parameter's description
 * (`ApplyApiVersionDescription`) and non-nullable optional properties (`ApplySchemaNullableFalse`).
 * What the framework knows about an endpoint (its authorisation metadata, whether its version
 * is deprecated) is passed in.
 */
module OpenApiOptions {
  import opened Wrappers
  import opened Text

  /* ---- operations ---- */

  /** A response entry of an operation. */
  datatype OpenApiResponse = OpenApiResponse(Description: string)

  /** A security requirement: security scheme reference id to the scopes required. */
  type SecurityRequirement = map<string, seq<string>>

  /** A parameter of an operation; its schema's example is held with it. */
  class OpenApiParameter {
    const Name: string
    var Description: Option<string>
    var Example: Option<string>

    constructor(name: string, description: Option<string>, example: Option<string>)
      ensures Name == name && Description == description && Example == example
    {
      Name := name;
      Description := description;
      Example := example;
    }
  }

  /** An operation of the document. */
  class OpenApiOperation {
    var Responses: map<string, OpenApiResponse>
    var Security: seq<SecurityRequirement>
    var Deprecated: bool
    var Parameters: seq<OpenApiParameter>

    constructor(responses: map<string, OpenApiResponse>, security: seq<SecurityRequirement>, deprecated: bool,
                parameters: seq<OpenApiParameter>)
      ensures Responses == responses && Security == security && Deprecated == deprecated && Parameters == parameters
    {
      Responses := responses;
      Security := security;
      Deprecated := deprecated;
      Parameters := parameters;
    }
  }

  const OAuth2SchemeId := "oauth2"
  const UnauthorizedStatus := "401"
  const ForbiddenStatus := "403"

  /** `Dictionary.TryAdd`: the entry goes in only when the key is new. */
  function TryAdd(responses: map<string, OpenApiResponse>, status: string, response: OpenApiResponse)
    : (r: map<string, OpenApiResponse>)
    ensures r.Keys == responses.Keys + {status}
    ensures forall k :: k in responses ==> r[k] == responses[k]
    ensures status !in responses ==> r[status] == response
  {
    if status in responses then responses else responses[status := response]
  }

  /** The responses of a protected operation: 401 and 403 added when absent. */
  function WithAuthorizationResponses(responses: map<string, OpenApiResponse>): map<string, OpenApiResponse> {
    TryAdd(TryAdd(responses, UnauthorizedStatus, OpenApiResponse("Unauthorized")),
           ForbiddenStatus, OpenApiResponse("Forbidden"))
  }

  /**
   * `ApplyAuthorizationChecks`: an operation without authorisation metadata is left alone; any
   * other gets the 401 and 403 responses it lacks and exactly one security requirement, the
   * `oauth2` scheme with the configured scopes.
   */
  method ApplyAuthorizationChecks(operation: OpenApiOperation, hasAuthorizeData: bool, scopes: seq<string>)
    modifies operation
    ensures !hasAuthorizeData ==> operation.Responses == old(operation.Responses)
                                  && operation.Security == old(operation.Security)
    ensures hasAuthorizeData ==> operation.Responses == WithAuthorizationResponses(old(operation.Responses))
                                 && operation.Security == [map[OAuth2SchemeId := scopes]]
    ensures operation.Deprecated == old(operation.Deprecated) && operation.Parameters == old(operation.Parameters)
  {
    if !hasAuthorizeData {
      return;
    }
    operation.Responses := TryAdd(operation.Responses, UnauthorizedStatus, OpenApiResponse("Unauthorized"));
    operation.Responses := TryAdd(operation.Responses, ForbiddenStatus, OpenApiResponse("Forbidden"));
    operation.Security := [map[OAuth2SchemeId := scopes]];
  }

  /** Both error responses are there afterwards, and every response the operation had is kept as it was. */
  lemma AuthorizationResponsesKept(responses: map<string, OpenApiResponse>)
    ensures var r := WithAuthorizationResponses(responses);
            && r.Keys == responses.Keys + {UnauthorizedStatus, ForbiddenStatus}
            && (forall k :: k in responses ==> r[k] == responses[k])
            && (UnauthorizedStatus !in responses ==> r[UnauthorizedStatus] == OpenApiResponse("Unauthorized"))
            && (ForbiddenStatus !in responses ==> r[ForbiddenStatus] == OpenApiResponse("Forbidden"))
  {
  }

  /** Adding the responses twice is adding them once. */
  lemma AuthorizationResponsesIdempotent(responses: map<string, OpenApiResponse>)
    ensures WithAuthorizationResponses(WithAuthorizationResponses(responses)) == WithAuthorizationResponses(responses)
  {
    var once := WithAuthorizationResponses(responses);
    AuthorizationResponsesKept(responses);
    AuthorizationResponsesKept(once);
    assert WithAuthorizationResponses(once).Keys == once.Keys;
  }

  /** `ApplyOperationDeprecatedStatus`: `Deprecated |= isDeprecated`, so a deprecated operation stays deprecated. */
  method ApplyOperationDeprecatedStatus(operation: OpenApiOperation, isDeprecated: bool)
    modifies operation
    ensures operation.Deprecated <==> old(operation.Deprecated) || isDeprecated
    ensures operation.Responses == old(operation.Responses) && operation.Security == old(operation.Security)
    ensures operation.Parameters == old(operation.Parameters)
  {
    operation.Deprecated := operation.Deprecated || isDeprecated;
  }

  const ApiVersionParameter := "api-version"
  const ApiVersionDescription := "Api版本，格式为：'major.minor'。"
  const ApiVersionExample := "1.0"

  /** The position of the first parameter with the given name (`FirstOrDefault`). */
  function FirstParameterNamed(parameters: seq<OpenApiParameter>, name: string): (r: Option<nat>)
    ensures r.Some? ==> r.value < |parameters| && parameters[r.value].Name == name
    ensures r.Some? ==> forall k :: 0 <= k < r.value ==> parameters[k].Name != name
    ensures r.None? ==> forall k :: 0 <= k < |parameters| ==> parameters[k].Name != name
  {
    if |parameters| == 0 then None
    else if parameters[0].Name == name then Some(0)
    else
      match FirstParameterNamed(parameters[1..], name)
      case None => None
      case Some(i) => Some(i + 1)
  }

  /**
   * `ApplyApiVersionDescription`: the first `api-version` parameter gets the format description
   * and the example `1.0`; no other parameter object changes, a later parameter of the same name
   * included.
   */
  method ApplyApiVersionDescription(operation: OpenApiOperation)
    modifies set k | 0 <= k < |operation.Parameters| :: operation.Parameters[k]
    ensures var ps := operation.Parameters;
            match FirstParameterNamed(ps, ApiVersionParameter)
            case None => forall k :: 0 <= k < |ps| ==> ps[k].Description == old(ps[k].Description)
                                                       && ps[k].Example == old(ps[k].Example)
            case Some(i) => ps[i].Description == Some(ApiVersionDescription) && ps[i].Example == Some(ApiVersionExample)
                            && forall k :: 0 <= k < |ps| && ps[k] != ps[i] ==>
                                             ps[k].Description == old(ps[k].Description) && ps[k].Example == old(ps[k].Example)
  {
    var index := FirstParameterNamed(operation.Parameters, ApiVersionParameter);
    if index.Some? {
      var apiVersionParameter := operation.Parameters[index.value];
      apiVersionParameter.Description := Some(ApiVersionDescription);
      apiVersionParameter.Example := Some(ApiVersionExample);
    }
  }

  /* ---- schemas ---- */

  /**
   * A schema: the nullable flag, its properties (property name to property schema, in
   * enumeration order; names are distinct) when it has any, and its required names when given.
   */
  class OpenApiSchema {
    var Nullable: bool
    var Properties: Option<seq<(string, OpenApiSchema)>>
    var Required: Option<set<string>>

    constructor(nullable: bool, properties: Option<seq<(string, OpenApiSchema)>>, required: Option<set<string>>)
      ensures Nullable == nullable && Properties == properties && Required == required
    {
      Nullable := nullable;
      Properties := properties;
      Required := required;
    }
  }

  /** `schema.Required?.Contains(name) == true`. */
  predicate IsRequired(required: Option<set<string>>, name: string) {
    required.Some? && name in required.value
  }

  /** Whether every one of the first `n` properties held by `property` is required. */
  predicate OnlyRequiredNames(ps: seq<(string, OpenApiSchema)>, required: Option<set<string>>, property: OpenApiSchema, n: nat) {
    forall j :: 0 <= j < n && j < |ps| && ps[j].1 == property ==> IsRequired(required, ps[j].0)
  }

  /** The property schemas of a schema. */
  function PropertySchemas(properties: Option<seq<(string, OpenApiSchema)>>): set<OpenApiSchema> {
    if properties.None? then {} else set k | 0 <= k < |properties.value| :: properties.value[k].1
  }

  /**
   * `ApplySchemaNullableFalse`: every property that is not required becomes non-nullable. A
   * property schema is left alone when every name it is reached through is required (the same
   * schema object may serve several properties, or be the schema itself).
   */
  method ApplySchemaNullableFalse(schema: OpenApiSchema)
    modifies PropertySchemas(schema.Properties)
    ensures schema.Properties == old(schema.Properties) && schema.Required == old(schema.Required)
    ensures schema.Properties.Some? ==>
              var ps := schema.Properties.value;
              && (forall k :: 0 <= k < |ps| && !IsRequired(schema.Required, ps[k].0) ==> !ps[k].1.Nullable)
              && (forall k :: 0 <= k < |ps| && OnlyRequiredNames(ps, schema.Required, ps[k].1, |ps|) ==>
                                 ps[k].1.Nullable == old(ps[k].1.Nullable))
  {
    if schema.Properties.None? {
      return;
    }
    var ps := schema.Properties.value;
    var required := schema.Required;
    var i := 0;
    while i < |ps|
      invariant 0 <= i <= |ps|
      invariant schema.Properties == Some(ps) && schema.Required == required
      invariant forall k :: 0 <= k < i && !IsRequired(required, ps[k].0) ==> !ps[k].1.Nullable
      invariant forall k :: 0 <= k < |ps| && OnlyRequiredNames(ps, required, ps[k].1, i) ==>
                               ps[k].1.Nullable == old(ps[k].1.Nullable)
    {
      var property := ps[i];
      if !IsRequired(schema.Required, property.0) {
        property.1.Nullable := false;
      }
      i := i + 1;
    }
  }

  /* ---- document information ---- */

  /** A link of a sunset policy: its media type, optional title and target address. */
  datatype LinkHeader = LinkHeader(Type: Option<string>, Title: Option<string>, Target: string)

  /** A sunset policy: the sunset date, already formatted as a short date, and the links. */
  datatype SunsetPolicy = SunsetPolicy(Date: Option<string>, Links: seq<LinkHeader>)

  /** What the API explorer says about one API version. */
  datatype ApiVersionInfo = ApiVersionInfo(GroupName: string, ApiVersion: string, IsDeprecated: bool,
                                           Sunset: Option<SunsetPolicy>)

  /** `Environment.NewLine` on the Linux hosts the services run on. */
  const NewLine := "\n"
  const DeprecatedNotice := "API版本已被弃用。"
  const HtmlType := "text/html"
  const LinksHeader := "<h4>链接</h4><ul>"
  const LinksFooter := "</ul>"

  predicate IsHtml(link: LinkHeader) {
    link.Type == Some(HtmlType)
  }

  /** The text of a link: its title, or its target when the title is null or empty. */
  function LinkTitle(link: LinkHeader): string {
    if link.Title.None? || link.Title.value == "" then link.Target else link.Title.value
  }

  /** The list item of a link, as written, without `>` after the `href` attribute. */
  function LinkItem(link: LinkHeader): string {
    "<li><a href=\"" + link.Target + "\"" + LinkTitle(link) + "</a></li>"
  }

  /** The `text/html` links, in their order. */
  function HtmlLinks(links: seq<LinkHeader>): (r: seq<LinkHeader>)
    ensures |r| <= |links|
  {
    if |links| == 0 then []
    else HtmlLinks(links[..|links| - 1]) + (if IsHtml(links[|links| - 1]) then [links[|links| - 1]] else [])
  }

  /** The `text/html` links are exactly the links of that type. */
  lemma {:induction false} HtmlLinksMembers(links: seq<LinkHeader>)
    ensures forall k :: 0 <= k < |HtmlLinks(links)| ==> HtmlLinks(links)[k] in links && IsHtml(HtmlLinks(links)[k])
    ensures forall k :: 0 <= k < |links| && IsHtml(links[k]) ==> links[k] in HtmlLinks(links)
  {
    if |links| > 0 {
      var init := links[..|links| - 1];
      HtmlLinksMembers(init);
      assert forall k :: 0 <= k < |init| ==> init[k] == links[k];
      assert links == init + [links[|links| - 1]];
    }
  }

  /** One list item per link, in order. */
  function LinkItems(links: seq<LinkHeader>): string {
    if |links| == 0 then "" else LinkItems(links[..|links| - 1]) + LinkItem(links[|links| - 1])
  }

  /** The text before the links: the deprecation notice, then the sunset date sentence. */
  function NoticeText(api: ApiVersionInfo): string {
    var deprecated := if api.IsDeprecated then DeprecatedNotice else "";
    match api.Sunset
    case None => deprecated
    case Some(policy) =>
      match policy.Date
      case None => deprecated
      case Some(date) => (if |deprecated| > 0 then deprecated + " " else deprecated) + "API将在" + date + "弃用。" + "."
  }

  /**
   * The description of an API version: the notices, then, when the sunset policy has links, a
   * line break and, when at least one link is `text/html`, a heading and a list with one item
   * per such link.
   */
  function Description(api: ApiVersionInfo): string {
    var notice := NoticeText(api);
    if api.Sunset.None? || |api.Sunset.value.Links| == 0 then notice
    else
      var html := HtmlLinks(api.Sunset.value.Links);
      if html == [] then notice + NewLine
      else notice + NewLine + LinksHeader + LinkItems(html) + LinksFooter
  }

  /**
   * `BuildDescription`: appends to a builder, with a flag that writes the heading before the
   * first `text/html` link. The `description` argument is not used. The separator the source
   * writes before the deprecation notice when the builder is not empty is left out: the builder
   * is always empty at that point.
   */
  method BuildDescription(api: ApiVersionInfo, description: string) returns (r: string)
    ensures r == Description(api)
  {
    var result := "";
    if api.IsDeprecated {
      result := result + DeprecatedNotice;
    }
    if api.Sunset.Some? {
      var policy := api.Sunset.value;
      if policy.Date.Some? {
        if |result| > 0 {
          result := result + " ";
        }
        result := result + "API将在" + policy.Date.value + "弃用。" + ".";
      }
      assert result == NoticeText(api);
      if |policy.Links| > 0 {
        result := result + NewLine;
        result := AppendHtmlLinks(result, policy.Links);
      }
    } else {
      assert result == NoticeText(api);
    }
    return result;
  }

  /** The `text/html` links of one more link. */
  lemma HtmlLinksStep(links: seq<LinkHeader>, i: int)
    requires 0 <= i < |links|
    ensures HtmlLinks(links[..i + 1]) == HtmlLinks(links[..i]) + (if IsHtml(links[i]) then [links[i]] else [])
  {
    assert links[..i + 1][..i] == links[..i];
  }

  /** The list items of one more link. */
  lemma LinkItemsStep(html: seq<LinkHeader>, link: LinkHeader)
    ensures LinkItems(html + [link]) == LinkItems(html) + LinkItem(link)
  {
    assert (html + [link])[..|html|] == html;
  }

  /** The builder's text after the heading and the items of the `text/html` links seen so far. */
  ghost function Rendered(before: string, html: seq<LinkHeader>): string {
    if html == [] then before else before + LinksHeader + LinkItems(html)
  }

  /** Rendering one more `text/html` link: the heading first when it is the first one, then its item. */
  lemma RenderedStep(before: string, html: seq<LinkHeader>, link: LinkHeader)
    ensures Rendered(before, html + [link]) == (if html == [] then before + LinksHeader else Rendered(before, html)) + LinkItem(link)
  {
    LinkItemsStep(html, link);
    if html == [] {
      assert html + [link] == [link];
    } else {
      var head := before + LinksHeader;
      assert Rendered(before, html + [link]) == head + (LinkItems(html) + LinkItem(link));
      assert head + (LinkItems(html) + LinkItem(link)) == head + LinkItems(html) + LinkItem(link);
    }
  }

  /** The loop of `BuildDescription`: the heading before the first `text/html` link, one item per such link, and the closing tag. */
  method AppendHtmlLinks(before: string, links: seq<LinkHeader>) returns (result: string)
    ensures var html := HtmlLinks(links);
            result == if html == [] then before else before + LinksHeader + LinkItems(html) + LinksFooter
  {
    result := before;
    var rendered := false;
    var i := 0;
    while i < |links|
      invariant 0 <= i <= |links|
      invariant rendered <==> HtmlLinks(links[..i]) != []
      invariant result == Rendered(before, HtmlLinks(links[..i]))
    {
      var link := links[i];
      HtmlLinksStep(links, i);
      if IsHtml(link) {
        RenderedStep(before, HtmlLinks(links[..i]), link);
        if !rendered {
          result := result + LinksHeader;
          rendered := true;
        }
        result := result + LinkItem(link);
      } else {
        assert HtmlLinks(links[..i + 1]) == HtmlLinks(links[..i]);
      }
      i := i + 1;
    }
    assert links[..i] == links;
    if rendered {
      result := result + LinksFooter;
    }
  }

  /** The deprecation notice, when there is one, opens the description. */
  lemma DeprecationNoticeFirst(api: ApiVersionInfo)
    requires api.IsDeprecated
    ensures StartsWith(Description(api), DeprecatedNotice)
  {
    var notice := NoticeText(api);
    assert notice[..|DeprecatedNotice|] == DeprecatedNotice;
    var d := Description(api);
    assert |notice| <= |d| && d[..|notice|] == notice;
    assert d[..|DeprecatedNotice|] == d[..|notice|][..|DeprecatedNotice|];
  }

  /** The link list is closed, and the description ends with `</ul>`, exactly when some link is `text/html`. */
  lemma LinkListIffHtmlLink(api: ApiVersionInfo)
    ensures EndsWith(Description(api), LinksFooter)
            <==> api.Sunset.Some? && exists k :: 0 <= k < |api.Sunset.value.Links| && IsHtml(api.Sunset.value.Links[k])
  {
    var d := Description(api);
    var notice := NoticeText(api);
    if api.Sunset.Some? && exists k :: 0 <= k < |api.Sunset.value.Links| && IsHtml(api.Sunset.value.Links[k]) {
      var k :| 0 <= k < |api.Sunset.value.Links| && IsHtml(api.Sunset.value.Links[k]);
      HtmlLinksMembers(api.Sunset.value.Links);
      assert api.Sunset.value.Links[k] in HtmlLinks(api.Sunset.value.Links);
      assert d[|d| - |LinksFooter|..] == LinksFooter;
    } else {
      if api.Sunset.Some? {
        HtmlLinksNone(api.Sunset.value.Links);
      }
      NoticeLastChar(api);
      assert |d| == 0 || d[|d| - 1] != '>';
      assert !EndsWith(d, LinksFooter) by {
        if |LinksFooter| <= |d| {
          assert d[|d| - |LinksFooter|..][|LinksFooter| - 1] == d[|d| - 1];
          assert LinksFooter[|LinksFooter| - 1] == '>';
        }
      }
    }
  }

  lemma {:induction false} HtmlLinksNone(links: seq<LinkHeader>)
    requires forall k :: 0 <= k < |links| ==> !IsHtml(links[k])
    ensures HtmlLinks(links) == []
  {
    if |links| > 0 {
      HtmlLinksNone(links[..|links| - 1]);
    }
  }

  /** The notices never end with `>`. */
  lemma NoticeLastChar(api: ApiVersionInfo)
    ensures var n := NoticeText(api); |n| == 0 || n[|n| - 1] != '>'
  {
  }

  /** Filtering keeps the order: the `text/html` links of a concatenation are those of each part, in turn. */
  lemma {:induction false} HtmlLinksAppend(a: seq<LinkHeader>, b: seq<LinkHeader>)
    ensures HtmlLinks(a + b) == HtmlLinks(a) + HtmlLinks(b)
  {
    if |b| == 0 {
      assert a + b == a;
    } else {
      var b' := b[..|b| - 1];
      assert (a + b)[..|a + b| - 1] == a + b';
      HtmlLinksAppend(a, b');
    }
  }

  /** One list item per link, in order: the items of a concatenation are the concatenated items. */
  lemma {:induction false} LinkItemsAppend(a: seq<LinkHeader>, b: seq<LinkHeader>)
    ensures LinkItems(a + b) == LinkItems(a) + LinkItems(b)
  {
    if |b| == 0 {
      assert a + b == a;
    } else {
      var b' := b[..|b| - 1];
      assert (a + b)[..|a + b| - 1] == a + b';
      assert (a + b)[|a + b| - 1] == b[|b| - 1];
      LinkItemsAppend(a, b');
      var x, y, z := LinkItems(a), LinkItems(b'), LinkItem(b[|b| - 1]);
      assert LinkItems(a + b) == x + y + z;
      assert x + y + z == x + (y + z);
    }
  }

  /** The document's information block. */
  class OpenApiInfo {
    var Version: Option<string>
    var Title: Option<string>
    var Description: Option<string>

    constructor(version: Option<string>, title: Option<string>, description: Option<string>)
      ensures Version == version && Title == title && Description == description
    {
      Version := version;
      Title := title;
      Description := description;
    }
  }

  /** `SingleOrDefault` finding more than one version description for the document. */
  datatype OpenApiError = MoreThanOneVersionDescription

  /** The version descriptions of a document group. */
  function ForGroup(descriptions: seq<ApiVersionInfo>, documentName: string): (r: seq<ApiVersionInfo>)
    ensures |r| <= |descriptions|
    ensures forall k :: 0 <= k < |r| ==> r[k] in descriptions && r[k].GroupName == documentName
    ensures forall k :: 0 <= k < |descriptions| && descriptions[k].GroupName == documentName ==> descriptions[k] in r
  {
    if |descriptions| == 0 then []
    else (if descriptions[0].GroupName == documentName then [descriptions[0]] else [])
         + ForGroup(descriptions[1..], documentName)
  }

  /** The group's descriptions keep their order: those of two runs are the first's, then the second's. */
  lemma {:induction false} ForGroupAppend(a: seq<ApiVersionInfo>, b: seq<ApiVersionInfo>, documentName: string)
    ensures ForGroup(a + b, documentName) == ForGroup(a, documentName) + ForGroup(b, documentName)
  {
    if |a| > 0 {
      assert (a + b)[0] == a[0];
      assert (a + b)[1..] == a[1..] + b;
      ForGroupAppend(a[1..], b, documentName);
    } else {
      assert a + b == b;
    }
  }

  /** Every description of the group is kept as often as it occurs, and no other. */
  lemma {:induction false} ForGroupCount(descriptions: seq<ApiVersionInfo>, documentName: string, x: ApiVersionInfo)
    ensures multiset(ForGroup(descriptions, documentName))[x]
            == if x.GroupName == documentName then multiset(descriptions)[x] else 0
  {
    if |descriptions| > 0 {
      assert descriptions == [descriptions[0]] + descriptions[1..];
      ForGroupCount(descriptions[1..], documentName, x);
    }
  }

  /**
   * `ApplyApiVersionInfo`'s transformer: without a version description provider or a description
   * for the document nothing changes; with exactly one, the version, the title and the built
   * description are set; with more, `SingleOrDefault` throws.
   */
  method ApplyApiVersionInfo(info: OpenApiInfo, descriptions: Option<seq<ApiVersionInfo>>, documentName: string,
                             title: string, description: string)
    returns (o: Outcome<OpenApiError>)
    modifies info
    ensures var matching := if descriptions.None? then [] else ForGroup(descriptions.value, documentName);
            && (o.Fail? <==> |matching| > 1)
            && (|matching| != 1 ==>
                  info.Version == old(info.Version) && info.Title == old(info.Title)
                  && info.Description == old(info.Description))
            && (|matching| == 1 ==>
                  info.Version == Some(matching[0].ApiVersion) && info.Title == Some(title)
                  && info.Description == Some(Description(matching[0])))
  {
    if descriptions.None? {
      return Pass;
    }
    var matching := ForGroup(descriptions.value, documentName);
    if |matching| > 1 {
      return Fail(MoreThanOneVersionDescription);
    }
    if |matching| == 0 {
      return Pass;
    }
    var apiDescription := matching[0];
    info.Version := Some(apiDescription.ApiVersion);
    info.Title := Some(title);
    var text := BuildDescription(apiDescription, description);
    info.Description := Some(text);
    return Pass;
  }
}
