/** Stand-ins for the System.Net.Http types the engine uses. Only what the engine reads or
    writes is kept: a request's method, target, version, headers, properties and content
    reference, and a response's status code. */
module Http {
  import opened Wrappers
  import HttpContentParser

  /** HttpMethod: the four standard verbs and any other, custom, verb. */
  datatype HttpMethod = Get | Post | Put | Delete | Custom(name: string)
  {
    /** HttpMethod.Method, the verb as sent on the wire. */
    function Name(): string
    {
      match this
      case Get => "GET"
      case Post => "POST"
      case Put => "PUT"
      case Delete => "DELETE"
      case Custom(name) => name
    }
  }

  /** System.Version, as used for the HTTP protocol version of a request. */
  datatype Version = Version(major: nat, minor: nat)

  /** The protocol version a new HttpRequestMessage starts with. */
  const DefaultVersion: Version := Version(1, 1)

  /** One entry of HttpRequestHeaders: a header name and its values. */
  datatype Header = Header(name: string, values: seq<string>)

  /** One entry of HttpRequestMessage.Properties: a key and an arbitrary object. */
  datatype Property = Property(key: string, value: object?)

  /** What an HttpContent object carries: the pairs of a FormUrlEncodedContent, or the text
      and mime type of a StringContent. */
  datatype ContentPayload =
    | FormUrlEncoded(pairs: seq<HttpContentParser.Pair>)
    | StringBody(text: string, mimeType: string)

  /** HttpContent: an object shared by reference between a request and its copies. */
  class HttpContent {
    const payload: ContentPayload

    constructor (payload: ContentPayload)
      ensures this.payload == payload
    {
      this.payload := payload;
    }
  }

  /** HttpRequestMessage: a mutable request object. */
  class HttpRequestMessage {
    var httpMethod: HttpMethod
    var requestUri: Option<string>
    var version: Version
    var headers: seq<Header>
    var properties: seq<Property>
    var content: HttpContent?

    /** new HttpRequestMessage(): a GET with no target, no headers, properties or content. */
    constructor ()
      ensures httpMethod == Get && requestUri == None && version == DefaultVersion
      ensures headers == [] && properties == [] && content == null
    {
      httpMethod := Get;
      requestUri := None;
      version := DefaultVersion;
      headers := [];
      properties := [];
      content := null;
    }

    /** new HttpRequestMessage(method, requestUri): an empty target string leaves RequestUri
        null. */
    constructor WithTarget(httpMethod: HttpMethod, requestUri: string)
      ensures this.httpMethod == httpMethod
      ensures this.requestUri == (if requestUri == [] then None else Some(requestUri))
      ensures version == DefaultVersion && headers == [] && properties == [] && content == null
    {
      this.httpMethod := httpMethod;
      this.requestUri := if requestUri == [] then None else Some(requestUri);
      version := DefaultVersion;
      headers := [];
      properties := [];
      content := null;
    }
  }

  /** HttpResponseMessage, reduced to its status code. */
  datatype HttpResponseMessage = HttpResponseMessage(statusCode: int)
  {
    /** HttpResponseMessage.IsSuccessStatusCode: a status in 200-299. */
    predicate IsSuccessStatusCode()
    {
      200 <= statusCode <= 299
    }
  }
}
