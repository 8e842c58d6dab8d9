/** The part of an ASP.NET Core HTTP response that the identity service changes. */
module Http {
  /**
   * A response: its status code and its headers, each name holding one value. Names are
   * compared exactly.
   */
  class HttpResponse {
    var StatusCode: int
    var Headers: map<string, string>

    constructor(statusCode: int, headers: map<string, string>)
      ensures StatusCode == statusCode && Headers == headers
    {
      StatusCode := statusCode;
      Headers := headers;
    }
  }
}
