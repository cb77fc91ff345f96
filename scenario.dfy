/** The test scenario (SmashItEngine/Scenario.cs): the validated configuration of a load test
    and the ordered list of request templates ("steps") that every virtual user sends. */
module Scenarios {
  import opened Wrappers
  import opened Http
  import HttpContentParser

  /** UserGrowthProgressionModel: how the population of virtual users grows. Only Linear is
      implemented by the engine; any other value of the enum is carried as a code. */
  datatype UserGrowthProgressionModel = Linear | OtherModel(code: int)

  /** The UriKind argument of Uri.IsWellFormedUriString. */
  datatype UriKind = Absolute | Relative

  /** Uri.IsWellFormedUriString, a library predicate the model does not define: every
      operation that needs it receives it. */
  type UriCheck = (string, UriKind) -> bool

  /** HttpRequestContentType. */
  datatype HttpRequestContentType =
    | FormUrlEncodedContent
    | MultipartContent
    | MultipartFormDataContent
    | StringContent

  /** What AddStep throws. */
  datatype StepError =
    | BlankMethod                                       // ArgumentException of new HttpMethod for an empty or blank name
    | MalformedMethod                                   // FormatException of new HttpMethod for a non-token verb
    | InvalidEndpoint                                   // ArgumentException from CreateUri
    | MalformedBody(cause: HttpContentParser.ParseError) // from ParseFormUrlEncodedContent
    | ContentTypeNotImplemented                         // NotImplementedException

  /** Environment.NewLine of the .NET Framework on Windows, which StringBuilder.AppendLine uses. */
  const NewLine: string := "\r\n"
  const ErrorPrefix: string := "Error(s): "

  const UsersMessage: string := "Total number of users must be greater than 0."
  const AddressMessage: string := "The supplied target address is not valid."
  const DurationMessage: string := "Allowed test length is between 30 and 300 seconds."
  const TimeoutMessage: string := "Time out must be greater than 0 milliseconds."
  const PauseMessage: string := "Allowed pause length is between 0 and 10 seconds."

  /** The five checks of the Scenario constructor, declared in the order it runs them. */
  datatype ConfigCheck = TotalUsers | TargetAddress | TestDuration | Timeout | PauseDuration
  {
    /** The line the check appends to the error message when it fails. */
    function Message(): string
    {
      match this
      case TotalUsers => UsersMessage
      case TargetAddress => AddressMessage
      case TestDuration => DurationMessage
      case Timeout => TimeoutMessage
      case PauseDuration => PauseMessage
    }

    /** The position of the check in the constructor. */
    function Rank(): nat
    {
      match this
      case TotalUsers => 0
      case TargetAddress => 1
      case TestDuration => 2
      case Timeout => 3
      case PauseDuration => 4
    }
  }


  /** The arguments the constructor checks; addressIsAbsolute is the library's verdict on the
      target address. */
  datatype Settings = Settings(totalUsers: int, addressIsAbsolute: bool, testDuration: int, timeout: real,
                               pauseDuration: int)

  /** Whether a check fails on the given settings. */
  predicate Violated(check: ConfigCheck, s: Settings)
  {
    match check
    case TotalUsers => s.totalUsers < 1
    case TargetAddress => !s.addressIsAbsolute
    case TestDuration => s.testDuration < 30 || s.testDuration > 300
    case Timeout => s.timeout < 0.0
    case PauseDuration => s.pauseDuration < 0 || s.pauseDuration > 10
  }

  /** The five constraints on a scenario; all bounds are inclusive. */
  predicate ConfigValid(s: Settings)
  {
    && s.totalUsers >= 1
    && s.addressIsAbsolute
    && 30 <= s.testDuration <= 300
    && s.timeout >= 0.0
    && 0 <= s.pauseDuration <= 10
  }

  /** The one-element list of a check if it fails, else nothing. */
  function IfViolated(check: ConfigCheck, s: Settings): seq<ConfigCheck>
  {
    if Violated(check, s) then [check] else []
  }

  /** The failed checks, each once and in the order the constructor runs them. */
  function Violations(s: Settings): (checks: seq<ConfigCheck>)
    ensures checks == [] <==> ConfigValid(s)
    ensures forall c :: c in checks <==> Violated(c, s)
    ensures forall i, j :: 0 <= i < j < |checks| ==> checks[i].Rank() < checks[j].Rank()
  {
    IfViolated(TotalUsers, s) + IfViolated(TargetAddress, s) + IfViolated(TestDuration, s) + IfViolated(Timeout, s)
      + IfViolated(PauseDuration, s)
  }

  /** StringBuilder.AppendLine: the line, then the newline. */
  function AppendLine(builder: string, line: string): string
  {
    builder + line + NewLine
  }

  /** What the StringBuilder holds after AppendLine of the message of each given check. */
  function Report(checks: seq<ConfigCheck>): string
  {
    if checks == [] then []
    else AppendLine(Report(checks[..|checks| - 1]), checks[|checks| - 1].Message())
  }

  /** The builder after one check has run: its message is appended if it fails. */
  function RunCheck(builder: string, check: ConfigCheck, s: Settings): string
  {
    if Violated(check, s) then AppendLine(builder, check.Message()) else builder
  }

  lemma ReportNext(failed: seq<ConfigCheck>, check: ConfigCheck, s: Settings)
    ensures Report(failed + IfViolated(check, s)) == RunCheck(Report(failed), check, s)
  {
    if Violated(check, s) {
      assert (failed + [check])[..|failed|] == failed;
    } else {
      assert failed + [] == failed;
    }
  }

  /** Running the five checks in order builds the report of the failed ones. */
  lemma ReportOfViolations(s: Settings)
    ensures Report(Violations(s)) ==
      RunCheck(RunCheck(RunCheck(RunCheck(RunCheck([], TotalUsers, s), TargetAddress, s), TestDuration, s),
                        Timeout, s), PauseDuration, s)
  {
    var a, b, c, d := IfViolated(TotalUsers, s), IfViolated(TargetAddress, s), IfViolated(TestDuration, s),
                      IfViolated(Timeout, s);
    assert [] + a == a;
    ReportNext([], TotalUsers, s);
    ReportNext(a, TargetAddress, s);
    ReportNext(a + b, TestDuration, s);
    ReportNext(a + b + c, Timeout, s);
    ReportNext(a + b + c + d, PauseDuration, s);
  }

  /** The validation in the Scenario constructor (Scenario.cs): every check runs, each
      failure sets the flag and appends its own line, and only then is the verdict taken, so
      the message of the thrown exception lists all failures, not only the first. */
  method Validate(totalUsers: int, targetAddress: string, testDuration: int, timeout: real,
                  pauseDuration: int, isWellFormedUri: UriCheck)
    returns (throwsException: bool, message: string)
    ensures var s := Settings(totalUsers, isWellFormedUri(targetAddress, Absolute), testDuration, timeout, pauseDuration);
      && (throwsException <==> !ConfigValid(s))
      && message == ErrorPrefix + Report(Violations(s))
  {
    ghost var s := Settings(totalUsers, isWellFormedUri(targetAddress, Absolute), testDuration, timeout, pauseDuration);
    throwsException := false;
    var errorMessageBuilder: string := [];
    ghost var before := errorMessageBuilder;
    if totalUsers < 1 {
      throwsException := true;
      errorMessageBuilder := AppendLine(errorMessageBuilder, UsersMessage);
    }
    assert errorMessageBuilder == RunCheck(before, TotalUsers, s);
    before := errorMessageBuilder;
    if !isWellFormedUri(targetAddress, Absolute) {
      throwsException := true;
      errorMessageBuilder := AppendLine(errorMessageBuilder, AddressMessage);
    }
    assert errorMessageBuilder == RunCheck(before, TargetAddress, s);
    before := errorMessageBuilder;
    if testDuration < 30 || testDuration > 300 {
      throwsException := true;
      errorMessageBuilder := AppendLine(errorMessageBuilder, DurationMessage);
    }
    assert errorMessageBuilder == RunCheck(before, TestDuration, s);
    before := errorMessageBuilder;
    if timeout < 0.0 {
      throwsException := true;
      errorMessageBuilder := AppendLine(errorMessageBuilder, TimeoutMessage);
    }
    assert errorMessageBuilder == RunCheck(before, Timeout, s);
    before := errorMessageBuilder;
    if pauseDuration < 0 || pauseDuration > 10 {
      throwsException := true;
      errorMessageBuilder := AppendLine(errorMessageBuilder, PauseMessage);
    }
    assert errorMessageBuilder == RunCheck(before, PauseDuration, s);
    ReportOfViolations(s);
    message := ErrorPrefix + errorMessageBuilder;
  }

  /** Two failures at once give one message naming both, in the order of the checks. */
  lemma {:induction false} FailuresAreAggregated()
    ensures Report(Violations(Settings(0, false, 60, 1000.0, 3)))
      == TotalUsers.Message() + NewLine + TargetAddress.Message() + NewLine
  {
    var s := Settings(0, false, 60, 1000.0, 3);
    ReportOfViolations(s);
  }

  /** Every bound is inclusive: the extreme values are accepted and the next ones are not. */
  lemma BoundsAreInclusive()
    ensures ConfigValid(Settings(1, true, 30, 0.0, 0)) && ConfigValid(Settings(1, true, 300, 0.0, 10))
    ensures !ConfigValid(Settings(1, true, 29, 0.0, 0)) && !ConfigValid(Settings(1, true, 301, 0.0, 0))
    ensures !ConfigValid(Settings(1, true, 30, 0.0, -1)) && !ConfigValid(Settings(1, true, 30, 0.0, 11))
    ensures !ConfigValid(Settings(0, true, 30, 0.0, 0)) && !ConfigValid(Settings(1, true, 30, -0.5, 0))
  {
  }

  /** ToUpper restricted to ASCII: 'a'..'z' become 'A'..'Z', every other character is kept. */
  function UpperChar(c: char): char
  {
    if 'a' <= c <= 'z' then (c as int - 32) as char else c
  }

  function ToUpper(s: string): string
  {
    seq(|s|, i requires 0 <= i < |s| => UpperChar(s[i]))
  }

  /** Two verbs that differ only in the case of their ASCII letters. */
  predicate SameIgnoringCase(a: string, b: string)
  {
    |a| == |b| && forall i :: 0 <= i < |a| ==> UpperChar(a[i]) == UpperChar(b[i])
  }

  const StandardVerbs: set<string> := {"GET", "POST", "PUT", "DELETE"}

  /** A character of an HTTP token (tchar, section 3.2.6 of RFC 7230): a letter, a digit or
      one of !#$%&'*+-.^_`|~. These are the only characters the HttpMethod constructor
      accepts in a method name. */
  predicate IsTokenChar(c: char)
  {
    || 'a' <= c <= 'z' || 'A' <= c <= 'Z' || '0' <= c <= '9'
    || c in "!#$%&'*+-.^_`|~"
  }

  /** A non-empty string of token characters. */
  predicate IsToken(s: string)
  {
    s != [] && forall i :: 0 <= i < |s| ==> IsTokenChar(s[i])
  }

  /** The characters below U+0100 for which Char.IsWhiteSpace holds: tab, line feed, vertical
      tab, form feed, carriage return, space, next line and no-break space. */
  predicate IsWhiteSpaceChar(c: char)
  {
    '\t' <= c <= '\r' || c == ' ' || c == '\U{85}' || c == '\U{A0}'
  }

  /** What String.IsNullOrWhiteSpace accepts: a name with no character other than white space. */
  predicate IsBlank(s: string)
  {
    forall i :: 0 <= i < |s| ==> IsWhiteSpaceChar(s[i])
  }

  /** A token is never blank. */
  lemma TokenNotBlank(s: string)
    ensures IsToken(s) ==> !IsBlank(s)
  {
    if IsToken(s) {
      assert !IsWhiteSpaceChar(s[0]);
    }
  }

  /** Upper-casing neither makes nor breaks a token. */
  lemma {:induction false} ToUpperKeepsToken(s: string)
    ensures IsToken(ToUpper(s)) <==> IsToken(s)
  {
    var upper := ToUpper(s);
    forall i | 0 <= i < |s|
      ensures IsTokenChar(upper[i]) <==> IsTokenChar(s[i])
    {
      assert upper[i] == UpperChar(s[i]);
    }
  }

  /** Upper-casing neither makes nor breaks a blank name. */
  lemma {:induction false} ToUpperKeepsBlank(s: string)
    ensures IsBlank(ToUpper(s)) <==> IsBlank(s)
  {
    var upper := ToUpper(s);
    forall i | 0 <= i < |s|
      ensures IsWhiteSpaceChar(upper[i]) <==> IsWhiteSpaceChar(s[i])
    {
      assert upper[i] == UpperChar(s[i]);
    }
  }

  /** ParseMethod (Scenario.cs): the method named by the upper-cased verb, a standard one for
      GET, POST, PUT and DELETE and a custom one otherwise. The HttpMethod constructor that
      builds a custom method rejects an empty or blank name first, then a name that is not a
      token. */
  function ParseMethod(verb: string): (r: Result<HttpMethod, StepError>)
    ensures r.Success? <==> IsToken(verb)
    ensures r == Failure(BlankMethod) <==> IsBlank(verb)
    ensures r == Failure(MalformedMethod) <==> !IsBlank(verb) && !IsToken(verb)
    ensures r.Success? ==> r.value.Name() == ToUpper(verb)
    ensures r.Success? ==> (r.value.Custom? <==> ToUpper(verb) !in StandardVerbs)
  {
    var upper := ToUpper(verb);
    ToUpperKeepsToken(verb);
    ToUpperKeepsBlank(verb);
    TokenNotBlank(verb);
    if upper == "GET" then Success(Get)
    else if upper == "POST" then Success(Post)
    else if upper == "PUT" then Success(Put)
    else if upper == "DELETE" then Success(Delete)
    else if IsBlank(upper) then Failure(BlankMethod)
    else if !IsToken(upper) then Failure(MalformedMethod)
    else Success(Custom(upper))
  }

  /** The case of the verb does not matter. */
  lemma {:induction false} ParseMethodIgnoresCase(a: string, b: string)
    requires SameIgnoringCase(a, b)
    ensures ParseMethod(a) == ParseMethod(b)
  {
    assert ToUpper(a) == ToUpper(b);
  }

  /** The standard verbs are recognised in any letter case. */
  lemma LowerCaseVerbs()
    ensures ParseMethod("get") == Success(Get) && ParseMethod("Post") == Success(Post)
    ensures ParseMethod("pUt") == Success(Put) && ParseMethod("delete") == Success(Delete)
  {
    assert ToUpper("get") == "GET";
    assert ToUpper("Post") == "POST";
    assert ToUpper("pUt") == "PUT";
    assert ToUpper("delete") == "DELETE";
  }

  /** Any other token verb becomes a custom method named by its upper-cased form. */
  lemma CustomVerbUpperCased()
    ensures ParseMethod("patch") == Success(Custom("PATCH"))
  {
    var upper := "PATCH";
    assert ToUpper("patch") == upper;
    assert !IsWhiteSpaceChar(upper[0]);
    assert IsToken(upper) by {
      forall i | 0 <= i < |upper|
        ensures IsTokenChar(upper[i])
      {
        assert 'A' <= upper[i] <= 'Z';
      }
    }
  }

  /** An empty or blank verb and a verb that is not a token are rejected. */
  lemma RejectedVerbs()
    ensures ParseMethod("") == Failure(BlankMethod)
    ensures ParseMethod("  ") == Failure(BlankMethod)
    ensures ParseMethod("G T") == Failure(MalformedMethod)
  {
    var blank := "  ";
    assert ToUpper(blank) == blank;
    var verb := "G T";
    assert ToUpper(verb) == verb;
    assert verb[1] == ' ' && !IsTokenChar(verb[1]);
    assert !IsWhiteSpaceChar(verb[0]);
  }

  /** CreateContentType (Scenario.cs): the content of a step. There is none without a
      content type or without a body; a form body is parsed into its pairs; a string body is
      kept with its mime type; the multipart types are not implemented. */
  function CreateContentType(contentType: Option<HttpRequestContentType>, bodyContent: Option<string>,
                             mimeType: string): (r: Result<Option<ContentPayload>, StepError>)
    ensures r == Success(None) <==> contentType.None? || bodyContent.None? || bodyContent.value == []
    ensures r == Failure(ContentTypeNotImplemented) <==>
      && bodyContent.Some? && bodyContent.value != []
      && contentType in {Some(MultipartContent), Some(MultipartFormDataContent)}
    ensures r.Failure? && r != Failure(ContentTypeNotImplemented) ==>
      && contentType == Some(FormUrlEncodedContent)
      && r == Failure(MalformedBody(HttpContentParser.MalformedContent))
    ensures contentType == Some(FormUrlEncodedContent) && bodyContent.Some? && bodyContent.value != [] ==>
      match HttpContentParser.Parse(bodyContent)
      case Success(pairs) => r == Success(Some(FormUrlEncoded(pairs)))
      case Failure(_) => r.Failure?
    ensures contentType == Some(StringContent) && bodyContent.Some? && bodyContent.value != [] ==>
      r == Success(Some(StringBody(bodyContent.value, mimeType)))
  {
    if contentType.Some? && bodyContent.Some? && bodyContent.value != [] then
      match contentType.value
      case FormUrlEncodedContent =>
        (match HttpContentParser.Parse(bodyContent)
         case Success(collection) => Success(Some(FormUrlEncoded(collection)))
         case Failure(e) => Failure(MalformedBody(e)))
      case StringContent => Success(Some(StringBody(bodyContent.value, mimeType)))
      case _ => Failure(ContentTypeNotImplemented)
    else Success(None)
  }

  /** The Uri built by new Uri(BaseAddress, endpoint); its resolution rules are the library's. */
  datatype ResolvedUri = ResolvedUri(baseAddress: string, endpoint: string)

  /** The entries of a Dictionary: no key occurs twice. */
  predicate DistinctKeys(entries: seq<(string, string)>)
  {
    forall i, j :: 0 <= i < j < |entries| ==> entries[i].0 != entries[j].0
  }

  /** The headers a new step gets from the dictionary passed to AddStep, in its order. */
  function HeaderEntries(headers: Option<seq<(string, string)>>): seq<Header>
  {
    match headers
    case None => []
    case Some(entries) => seq(|entries|, i requires 0 <= i < |entries| => Header(entries[i].0, [entries[i].1]))
  }

  /** The method and the content of a step that AddStep is about to append. */
  datatype StepPlan = StepPlan(httpMethod: HttpMethod, content: Option<ContentPayload>)

  /** What AddStep decides before it builds the request: the first exception of ParseMethod,
      CreateUri and CreateContentType, in that order, or the method and content of the step. */
  function PlanStep(verb: string, endpoint: string, contentType: Option<HttpRequestContentType>,
                    bodyContent: Option<string>, mimeType: string, isWellFormedUri: UriCheck)
    : (r: Result<StepPlan, StepError>)
    ensures r == Failure(BlankMethod) <==> IsBlank(verb)
    ensures r == Failure(MalformedMethod) <==> !IsBlank(verb) && !IsToken(verb)
    ensures r == Failure(InvalidEndpoint) <==> IsToken(verb) && !isWellFormedUri(endpoint, Relative)
    ensures r.Success? <==>
      && IsToken(verb) && isWellFormedUri(endpoint, Relative)
      && CreateContentType(contentType, bodyContent, mimeType).Success?
    ensures r.Failure? && IsToken(verb) && isWellFormedUri(endpoint, Relative) ==>
      r.error == CreateContentType(contentType, bodyContent, mimeType).error
    ensures r.Success? ==>
      && r.value.httpMethod == ParseMethod(verb).value
      && r.value.content == CreateContentType(contentType, bodyContent, mimeType).value
  {
    match ParseMethod(verb)
    case Failure(e) => Failure(e)
    case Success(httpMethod) =>
      if !isWellFormedUri(endpoint, Relative) then Failure(InvalidEndpoint)
      else
        match CreateContentType(contentType, bodyContent, mimeType)
        case Failure(e) => Failure(e)
        case Success(content) => Success(StepPlan(httpMethod, content))
  }

  /** The request AddStep appends (Scenario.cs): the method and target, then one header per
      dictionary entry in enumeration order, then the content if there is any. */
  method BuildRequest(httpMethod: HttpMethod, endpoint: string, headers: Option<seq<(string, string)>>,
                      content: Option<ContentPayload>)
    returns (step: HttpRequestMessage)
    requires headers.Some? ==> DistinctKeys(headers.value)
    ensures fresh(step)
    ensures step.httpMethod == httpMethod
    ensures step.requestUri == (if endpoint == [] then None else Some(endpoint))
    ensures step.version == DefaultVersion && step.properties == []
    ensures step.headers == HeaderEntries(headers)
    ensures match content
      case None => step.content == null
      case Some(payload) => step.content != null && fresh(step.content) && step.content.payload == payload
  {
    step := new HttpRequestMessage.WithTarget(httpMethod, endpoint);
    if headers.Some? && |headers.value| > 0 {
      var entries := headers.value;
      for i := 0 to |entries|
        modifies step
        invariant step.headers == HeaderEntries(Some(entries[..i]))
        invariant step.httpMethod == httpMethod
        invariant step.requestUri == (if endpoint == [] then None else Some(endpoint))
        invariant step.version == DefaultVersion && step.properties == [] && step.content == null
      {
        assert entries[..i + 1] == entries[..i] + [entries[i]];
        step.headers := step.headers + [Header(entries[i].0, [entries[i].1])];
      }
      assert entries[..|entries|] == entries;
    }
    if content.Some? {
      step.content := new HttpContent(content.value);
    }
  }

  class Scenario {
    const users: int
    const baseAddress: string
    const duration: int
    const pauseDuration: int
    const timeout: real
    const userGrowthProgressionModel: UserGrowthProgressionModel
    const isWellFormedUri: UriCheck
    var steps: seq<HttpRequestMessage>

    /** The constraints the constructor enforces before it returns. */
    ghost predicate Valid()
    {
      ConfigValid(Settings(users, isWellFormedUri(baseAddress, Absolute), duration, timeout, pauseDuration))
    }

    constructor (users: int, baseAddress: string, duration: int, userGrowthProgressionModel: UserGrowthProgressionModel,
                 timeout: real, pauseDuration: int, isWellFormedUri: UriCheck)
      requires ConfigValid(Settings(users, isWellFormedUri(baseAddress, Absolute), duration, timeout, pauseDuration))
      ensures Valid()
      ensures this.users == users && this.baseAddress == baseAddress && this.duration == duration
      ensures this.userGrowthProgressionModel == userGrowthProgressionModel
      ensures this.timeout == timeout && this.pauseDuration == pauseDuration
      ensures this.isWellFormedUri == isWellFormedUri && steps == []
    {
      this.users := users;
      this.baseAddress := baseAddress;
      this.duration := duration;
      this.timeout := timeout;
      this.pauseDuration := pauseDuration;
      this.userGrowthProgressionModel := userGrowthProgressionModel;
      this.isWellFormedUri := isWellFormedUri;
      steps := [];
    }

    /** new Scenario(...) (Scenario.cs): either the aggregated ArgumentException, or a scenario
        holding exactly the given settings and no steps yet. */
    static method Create(totalUsers: int, targetAddress: string, testDuration: int,
                         userGrowthProgressionModel: UserGrowthProgressionModel, timeout: real,
                         pauseDuration: int, isWellFormedUri: UriCheck)
      returns (r: Result<Scenario, string>)
      ensures var s := Settings(totalUsers, isWellFormedUri(targetAddress, Absolute), testDuration, timeout, pauseDuration);
        && (r.Failure? <==> !ConfigValid(s))
        && (r.Failure? ==> r.error == ErrorPrefix + Report(Violations(s)))
      ensures r.Success? ==>
        && fresh(r.value) && r.value.Valid()
        && r.value.users == totalUsers && r.value.baseAddress == targetAddress
        && r.value.duration == testDuration && r.value.timeout == timeout
        && r.value.pauseDuration == pauseDuration
        && r.value.userGrowthProgressionModel == userGrowthProgressionModel
        && r.value.isWellFormedUri == isWellFormedUri && r.value.steps == []
    {
      var throwsException, message := Validate(totalUsers, targetAddress, testDuration, timeout, pauseDuration, isWellFormedUri);
      if throwsException {
        return Failure(message);
      }
      var scenario := new Scenario(totalUsers, targetAddress, testDuration, userGrowthProgressionModel,
                                   timeout, pauseDuration, isWellFormedUri);
      return Success(scenario);
    }

    /** CreateUri (Scenario.cs): the endpoint must be a well-formed relative URI. */
    function CreateUri(endpoint: string): (r: Result<ResolvedUri, StepError>)
      ensures r.Failure? <==> !isWellFormedUri(endpoint, Relative)
      ensures r.Failure? ==> r.error == InvalidEndpoint
      ensures r.Success? ==> r.value.baseAddress == baseAddress && r.value.endpoint == endpoint
    {
      if !isWellFormedUri(endpoint, Relative) then Failure(InvalidEndpoint)
      else Success(ResolvedUri(baseAddress, endpoint))
    }

    /** AddStep (Scenario.cs): builds a request from its arguments and appends it to Steps.
        A bad endpoint or body throws before anything is appended; otherwise exactly one new
        request is added at the end and the earlier steps are left as they were. */
    method AddStep(headers: Option<seq<(string, string)>>, verb: string, endpoint: string,
                   contentType: Option<HttpRequestContentType>, bodyContent: Option<string>, mimeType: string)
      returns (error: Option<StepError>)
      requires headers.Some? ==> DistinctKeys(headers.value)
      modifies this
      ensures var plan := PlanStep(verb, endpoint, contentType, bodyContent, mimeType, isWellFormedUri);
        && (error.Some? <==> plan.Failure?)
        && (error.Some? ==> error.value == plan.error && steps == old(steps))
        && (error.None? ==>
              && |steps| == |old(steps)| + 1
              && steps[..|old(steps)|] == old(steps)
              && var step := steps[|steps| - 1];
              && fresh(step)
              && step.httpMethod == plan.value.httpMethod
              && step.requestUri == (if endpoint == [] then None else Some(endpoint))
              && step.version == DefaultVersion
              && step.headers == HeaderEntries(headers)
              && step.properties == []
              && match plan.value.content
                 case None => step.content == null
                 case Some(payload) => step.content != null && fresh(step.content) && step.content.payload == payload)
    {
      var parsed := ParseMethod(verb);
      if parsed.Failure? {
        return Some(parsed.error);
      }
      var httpMethod := parsed.value;
      var uri := CreateUri(endpoint);
      if uri.Failure? {
        return Some(uri.error);
      }
      var content := CreateContentType(contentType, bodyContent, mimeType);
      if content.Failure? {
        return Some(content.error);
      }
      var step := BuildRequest(httpMethod, endpoint, headers, content.value);
      steps := steps + [step];
      return None;
    }

    /** CreateStep (Scenario.cs): a new request that copies the method, target, version,
        headers and properties of the template and shares its content object. */
    method CreateStep(step: HttpRequestMessage) returns (copy: HttpRequestMessage)
      ensures fresh(copy)
      ensures copy.httpMethod == step.httpMethod && copy.requestUri == step.requestUri
      ensures copy.version == step.version
      ensures copy.headers == step.headers && copy.properties == step.properties
      ensures copy.content == step.content
    {
      copy := new HttpRequestMessage();
      copy.content := step.content;
      var headers := step.headers;
      for i := 0 to |headers|
        modifies copy
        invariant copy.headers == headers[..i]
        invariant copy.content == step.content && copy.properties == []
      {
        assert headers[..i + 1] == headers[..i] + [headers[i]];
        copy.headers := copy.headers + [headers[i]];
      }
      copy.httpMethod := step.httpMethod;
      var properties := step.properties;
      for i := 0 to |properties|
        modifies copy
        invariant copy.properties == properties[..i]
        invariant copy.content == step.content && copy.headers == headers
        invariant copy.httpMethod == step.httpMethod
      {
        assert properties[..i + 1] == properties[..i] + [properties[i]];
        copy.properties := copy.properties + [properties[i]];
      }
      copy.requestUri := step.requestUri;
      copy.version := step.version;
    }
  }
}
