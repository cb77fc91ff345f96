# SmashItEngine load-test core in Dafny

This project models the sequential core of SmashItEngine, a small HTTP load-testing engine
written in C#. It has three parts.

- **Form-body parser** (`http_content_parser.dfy`, module `HttpContentParser`).
  `ParseFormUrlEncodedContent` splits a request body on `&` and every segment on `=`. Each
  segment must give exactly one key and one value. The model is a loop proved equal to a pure
  specification `Parse`. Both round trips between `Parse` and a serialiser are proved.
- **Scenario** (`scenario.dfy`, module `Scenarios`, class `Scenario`).
  - The constructor checks five settings. Each failed check appends one line to a message, and
    the constructor throws only after all five have run.
  - `AddStep` builds a request and appends it to the list of steps.
  - `CreateStep` copies a request field by field.
  - `ParseMethod` maps a verb to an HTTP method, ignoring case, and rejects an empty verb and
    a verb that is not an HTTP token.
  - `CreateUri` checks that an endpoint is a relative URI.
  - `CreateContentType` builds a step's body from its content type.
- **Engine** (`engine.dfy`, module `LoadEngine`, class `Engine`).
  - The spawn interval formula.
  - `ExecuteAction`, which classifies one request and updates the counters.
  - `ExecuteScenario`, one virtual user's pass over all steps.
  - The counter helpers.
  - The statistics of the progress and completion events.

`http.dfy` holds stand-ins for the few `System.Net.Http` types the core touches. `statistics.dfy`
holds the LINQ aggregates Sum, Average and Max. `wrappers.dfy` holds `Option` and `Result`.

Modelling conventions:

- A C# exception is a `Failure` value, and a C# `null` is `None`.
- `Uri.IsWellFormedUriString` is a library predicate. It is passed in as the parameter
  `isWellFormedUri` (type `UriCheck`), and the scenario keeps it.
- The awaited HTTP call is replaced by its outcome, given as an input (`Outcome`). The outcome is
  a response with its status code and elapsed time, a cancellation (the client timed out), or a
  fault (any other exception).
- Virtual users run concurrently in the engine. A run is a trace of events (`Event`,
  `RunTrace`). Each user counter update is one event. One completed request is also one event
  (`ActionCompleted`): the error or timeout increment, the read of the concurrency counter,
  `hits++` and the `executionResults.Add` that follows the await. The counter lemmas hold for
  every interleaving of these events, that is, at every point between whole requests. A state
  inside one request is not covered (see "## Left out").
- `double` arithmetic is modelled with exact `real` arithmetic.

What Engine.cs does at the edges:

- The spawn timer never checks the user quota, and the completion timer never waits for the
  users to drain.
- A response with an error status does not end a user's pass. Any exception other than a
  cancellation does end it, because it escapes `ExecuteAction`, and the user is then never
  counted out. This is the `Faulted` outcome.
- The progress and completion statistics throw when no request was answered. See
  "## Findings".

## Model

| member | source | states |
|---|---|---|
| HttpContentParser.SplitCount | SmashItEngine/Utils/HttpContentParser.cs:18 | `String.Split` on one character gives one piece more than there are separators |
| HttpContentParser.SplitRemovesSeparator | SmashItEngine/Utils/HttpContentParser.cs:18-22 | no piece of a split contains the separator |
| HttpContentParser.SplitKeepsAbsence | SmashItEngine/Utils/HttpContentParser.cs:18-22 | a character absent from the input is absent from every piece |
| HttpContentParser.JoinSplit | SmashItEngine/Utils/HttpContentParser.cs:18-22 | joining the pieces of a split with the separator gives back the input |
| HttpContentParser.SplitJoin | SmashItEngine/Utils/HttpContentParser.cs:18-22 | splitting a join of separator-free pieces gives back the pieces |
| HttpContentParser.SplitConcat | SmashItEngine/Utils/HttpContentParser.cs:18-22 | splitting `x + sep + y` is splitting `x`, then splitting `y` |
| HttpContentParser.Parse | SmashItEngine/Utils/HttpContentParser.cs:14-31 | a null or empty body fails with the null-content error and nothing else does. A non-empty body succeeds iff every `&`-segment splits on `=` into exactly two parts. On success there is one pair per segment, in order (one more than the number of `&`), each pair re-encodes to its segment and no key or value contains `&` or `=` |
| HttpContentParser.ParseFormUrlEncodedContent | SmashItEngine/Utils/HttpContentParser.cs:11-33 | the `foreach` loop that appends one pair per segment and throws on the first malformed one returns exactly `Parse` of the body |
| HttpContentParser.SegmentNeedsOneEquals | SmashItEngine/Utils/HttpContentParser.cs:22-26 | a body parses iff every segment contains exactly one `=`, so `k` and `a=b=c` both fail the whole parse |
| HttpContentParser.EmptySegmentMalformed | SmashItEngine/Utils/HttpContentParser.cs:18-26 | a body with an empty segment fails as malformed |
| HttpContentParser.DoubledSeparatorRejected | SmashItEngine/Utils/HttpContentParser.cs:18-26 | a doubled `&` makes the parse fail as malformed |
| HttpContentParser.TrailingSeparatorRejected | SmashItEngine/Utils/HttpContentParser.cs:18-26 | a trailing `&` makes the parse fail as malformed |
| HttpContentParser.LeadingSeparatorRejected | SmashItEngine/Utils/HttpContentParser.cs:18-26 | a leading `&` makes the parse fail as malformed |
| HttpContentParser.EncodeSplits | SmashItEngine/Utils/HttpContentParser.cs:22-28 | `key=value` of a separator-free pair splits back into that key and value, with empty keys and values allowed |
| HttpContentParser.ParseSerialize | SmashItEngine/Utils/HttpContentParser.cs:18-32 | a non-empty list of separator-free pairs, joined as `k=v&k=v`, parses back to the same list |
| HttpContentParser.SerializeParse | SmashItEngine/Utils/HttpContentParser.cs:18-32 | serialising what a successful parse returns gives back the body, so no character is lost or reordered |
| Scenarios.Violations | SmashItEngine/Scenario.cs:65-109 | the failed checks are empty iff the settings are valid, contain exactly the violated checks, and are in the constructor's order |
| Scenarios.ReportOfViolations | SmashItEngine/Scenario.cs:64-109 | running the five checks in order builds the same text as the report of the violated checks |
| Scenarios.Validate | SmashItEngine/Scenario.cs:63-114 | the flag is set iff some check fails (`totalUsers < 1`, address not absolute, duration outside [30,300], `timeout < 0`, pause outside [0,10]), and the message is `Error(s): ` followed by one line per failed check in check order |
| Scenarios.FailuresAreAggregated | SmashItEngine/Scenario.cs:65-113 | with zero users and a bad address, the message reports both failures in order, not only the first |
| Scenarios.BoundsAreInclusive | SmashItEngine/Scenario.cs:65-109 | duration 30 and 300, pause 0 and 10, timeout 0 and one user are accepted; 29, 301, -1, 11, -0.5 and zero users are not |
| Scenarios.Scenario.Create | SmashItEngine/Scenario.cs:60-119 | construction fails iff the settings are invalid, with the aggregated message. On success the scenario holds exactly the given users, address, duration, timeout, pause and growth model, and has no steps |
| Scenarios.Scenario.constructor | SmashItEngine/Scenario.cs:72-118 | called only with settings that pass the five checks; the scenario is valid, its fields are the given settings and the step list is empty |
| Scenarios.ToUpperKeepsToken | SmashItEngine/Scenario.cs:185-202 | upper-casing a verb keeps it a token and keeps a non-token a non-token |
| Scenarios.ParseMethod | SmashItEngine/Scenario.cs:182-206 | succeeds iff the verb is an HTTP token; fails with the blank-method error iff the verb is empty or only white space, and with the malformed-method error iff it is neither blank nor a token. On success the method's name is the upper-cased verb, and it is a custom method iff the upper-cased verb is not GET, POST, PUT or DELETE |
| Scenarios.ParseMethodIgnoresCase | SmashItEngine/Scenario.cs:185-203 | two verbs that differ only in letter case give the same method |
| Scenarios.TokenNotBlank | SmashItEngine/Scenario.cs:202 | a token is never blank, so the constructor's two checks never both reject a name |
| Scenarios.ToUpperKeepsBlank | SmashItEngine/Scenario.cs:185-202 | upper-casing a verb keeps it blank or non-blank |
| Scenarios.LowerCaseVerbs | SmashItEngine/Scenario.cs:185-199 | `get`, `Post`, `pUt` and `delete` give the standard methods |
| Scenarios.CustomVerbUpperCased | SmashItEngine/Scenario.cs:185-202 | `patch` gives the custom method `PATCH` |
| Scenarios.RejectedVerbs | SmashItEngine/Scenario.cs:202 | the empty verb and a verb of two spaces fail as a blank method, and `G T` fails as a malformed method |
| Scenarios.CreateContentType | SmashItEngine/Scenario.cs:217-237 | no content iff there is no content type or the body is null or empty. A form body gives the parsed pairs or the parser's error, a string body gives the body with its mime type, and the multipart types fail as not implemented |
| Scenarios.Scenario.CreateUri | SmashItEngine/Scenario.cs:208-215 | fails iff the endpoint is not a well-formed relative URI; otherwise it resolves the endpoint against the base address |
| Scenarios.PlanStep | SmashItEngine/Scenario.cs:133-135 | the first failure of the method, the endpoint and the content, in that order: blank method iff the verb is empty or only white space, malformed method iff it is neither blank nor a token, bad endpoint iff the verb is a token and the endpoint is not relative, otherwise the content error. It succeeds iff all three succeed, with the parsed method and the built content |
| Scenarios.BuildRequest | SmashItEngine/Scenario.cs:137-150 | a fresh request with the given method, the endpoint as target (none for an empty endpoint), the default version, no properties, one header per dictionary entry in order, and a fresh content object holding the payload iff there is one |
| Scenarios.Scenario.AddStep | SmashItEngine/Scenario.cs:130-154 | on an error nothing is appended and the error is the one `PlanStep` gives. On success exactly one new request is appended at the end, with the parsed method, the endpoint as target (none for an empty endpoint), the default version, the dictionary's headers in order, no properties and the built content; earlier steps are unchanged. Header keys are distinct, as in a dictionary |
| Scenarios.Scenario.CreateStep | SmashItEngine/Scenario.cs:156-178 | a new request with the same method, URI, version, headers and properties as the template, sharing its content object |
| LoadEngine.ComputeUserSpawnFrequency | SmashItEngine/Engine.cs:156-170 | succeeds iff the growth model is Linear, otherwise fails as not implemented; the interval times the number of users is the duration in milliseconds |
| LoadEngine.SpawnIntervalBounds | SmashItEngine/Engine.cs:156-170 | for a valid scenario the interval is positive and at most the test duration |
| LoadEngine.SpawnIntervalExample | SmashItEngine/Engine.cs:162 | 10 users over 100 seconds give an interval of exactly 10000 ms |
| LoadEngine.Classify | SmashItEngine/Engine.cs:190-208 | the result is timed out exactly on a cancellation and then has no response; it carries the response, the elapsed time and the current concurrency |
| LoadEngine.CountAction | SmashItEngine/Engine.cs:185-213 | one more hit whatever the outcome; one more error only for a response with a non-success status; one more timeout only for a cancellation; never both |
| LoadEngine.Engine.ExecuteAction | SmashItEngine/Engine.cs:172-216 | the counters become `CountAction` of the old counters and nothing else changes; a result is returned iff the request did not fault, and it is `Classify` of the outcome with the current concurrency |
| LoadEngine.Engine.IncreaseTotalUsersCounter | SmashItEngine/Engine.cs:229-232 | only `userSpawned` changes, by +1 |
| LoadEngine.Engine.IncreaseConcurrentUsersCounter | SmashItEngine/Engine.cs:234-237 | only the concurrency counter changes, by +1 |
| LoadEngine.Engine.DecreaseConcurrentUsersCounter | SmashItEngine/Engine.cs:239-242 | only the concurrency counter changes, by -1 |
| LoadEngine.Engine.ExecuteScenario | SmashItEngine/Engine.cs:138-150 | the new counters are the old ones after the events of one user: spawned, entered, one completed action per step in step order stopping at a fault, and left if no step faulted |
| LoadEngine.ClassifyAll | SmashItEngine/Engine.cs:143-146 | one result per step of a fault-free pass |
| LoadEngine.ClassifyAllAt | SmashItEngine/Engine.cs:143-146 | the i-th result of a pass describes the i-th step's outcome |
| LoadEngine.StepsCounters | SmashItEngine/Engine.cs:143-149 | a fault-free pass over the steps adds one hit per step, leaves `userSpawned` alone and counts the user out |
| LoadEngine.StepsResults | SmashItEngine/Engine.cs:143-148 | a fault-free pass appends exactly one result per step, in step order, after the existing results |
| LoadEngine.StepsResultsFirst | SmashItEngine/Engine.cs:143-148 | the same for a non-empty pass, taking the first step's result and then the rest |
| LoadEngine.UserRunEffect | SmashItEngine/Engine.cs:138-150 | one fault-free `ExecuteScenario` raises `userSpawned` by 1, adds one hit per step, appends one result per step in step order after the existing ones, and leaves the concurrency counter as it found it |
| LoadEngine.FaultLeavesUserCounted | SmashItEngine/Engine.cs:138-150 | a pass whose request faults leaves the concurrency counter one higher; an answered one leaves it unchanged |
| LoadEngine.CountPartition | SmashItEngine/Engine.cs:185-208 | every well-formed result is exactly one of timed out, error and success |
| LoadEngine.StepAccounted | SmashItEngine/Engine.cs:185-213 | every event keeps the counters in step with the results: hits = results + faults, errors and timeouts count the matching results |
| LoadEngine.TraceAccounted | SmashItEngine/Engine.cs:185-213 | the same holds after any trace of events, from any accounted state |
| LoadEngine.HitsPartition | SmashItEngine/Engine.cs:185-213 | from zero counters, after any trace, hits = errors + timeouts + successful results + faulted requests |
| LoadEngine.TraceGrows | SmashItEngine/Engine.cs:185-242 | along any trace `hits`, `errors`, `timeouts` and `userSpawned` never go down and results are only appended |
| LoadEngine.ConcurrencyBalance | SmashItEngine/Engine.cs:234-242 | the concurrency counter is its start value plus the users that entered minus the users that left, in any interleaving |
| LoadEngine.Engine.constructor | SmashItEngine/Engine.cs:55-74 | all counters start at zero with no results |
| LoadEngine.Engine.Create | SmashItEngine/Engine.cs:55-89 | succeeds iff the settings are valid and growth is linear; fails with the scenario's aggregated message iff the settings are invalid, and as not implemented iff they are valid but growth is not linear; otherwise a fresh engine with zero counters, the linear spawn interval and a valid scenario with no steps that holds the given users, target address, duration, timeout, pause duration, growth model and URI check |
| LoadEngine.Engine.AddStep | SmashItEngine/Engine.cs:91-96 | forwards to the scenario with its contract: the error `PlanStep` gives and no new step, or exactly one new step at the end with the parsed method, the target, the default version, the headers and the built content |
| LoadEngine.AnsweredTimes | SmashItEngine/Engine.cs:255 | there are as many response times as results that did not time out |
| LoadEngine.AnsweredTimesMembers | SmashItEngine/Engine.cs:255 | a time is selected iff some result that did not time out has it |
| Statistics.Max | SmashItEngine/Engine.cs:264 | the maximum is an element and no element exceeds it |
| Statistics.Mean | SmashItEngine/Engine.cs:248-255 | the average lies between the smallest and the largest element |
| Statistics.MeanOfConstant | SmashItEngine/Engine.cs:248 | the average of equal values is that value |
| LoadEngine.CreateTestProgressEventArgsAsWritten | SmashItEngine/Engine.cs:244-258 | the progress report fails iff there are no results or no result was answered |
| LoadEngine.ProgressFailsWhenAllTimedOut | SmashItEngine/Engine.cs:248-256 | a single timed-out result makes the progress report fail as written; the corrected report gives 0 |
| LoadEngine.CreateTestProgressEventArgs | SmashItEngine/Engine.cs:244-258 | the counters are copied. With no results both averages are 0. Otherwise the average concurrency is the mean of the results' concurrency and lies between two of them. The average response time is the mean of the answered times, or 0 if there are none. Wherever the code as written succeeds, this agrees with it |
| LoadEngine.CreateTestCompletedEventArgsAsWritten | SmashItEngine/Engine.cs:260-269 | the completion report fails iff there are no results or no result was answered |
| LoadEngine.CreateTestCompletedEventArgs | SmashItEngine/Engine.cs:260-269 | the counters are copied. The maximum concurrency is at least every result's and equals one of them, and the average concurrency is their mean and at most the maximum. The average response time is the mean of the answered times, or 0 if there are none. Wherever the code as written succeeds, this agrees with it |
| LoadEngine.CompletedResponseTimeBounds | SmashItEngine/Engine.cs:266 | when some request was answered, the average response time lies between the fastest and the slowest answered request |
| LoadEngine.CompletedFailsWhenAllTimedOut | SmashItEngine/Engine.cs:264-266 | a single timed-out result makes the completion report fail as written; the corrected report gives an average of 0 and the maximum concurrency of that result |

## Left out

- Timers, the `async` handlers, `Task.Sleep` pauses, `HttpClient.SendAsync` and `Stopwatch` (Engine.cs 49-51, 76-136, 172-183, 218-227) are left out. The outcome of each request and its elapsed time are inputs, and elapsed test time is a parameter of the statistics.
- `Run` and the timer handlers are left out. They only start and stop timers and raise events with the statistics modelled here.
- Thread safety is not modelled. The code bumps plain fields with `++` and takes no lock. The model treats each event as atomic and proves its counter lemmas for every interleaving of such events. It does not claim that lost updates cannot happen.
- LoadEngine.TraceAccounted: holds between whole requests only. `ExecuteAction` and the `executionResults.Add` after its await (Engine.cs:146, 172-216) are one event here, so a state in between is not covered.
- LoadEngine.HitsPartition: holds between whole requests only. A progress tick that runs after `hits++` (Engine.cs:212) and before `executionResults.Add` (Engine.cs:146) sees one hit more than the results account for.
- LoadEngine.StepAccounted: one `ActionCompleted` event fuses the error or timeout increment, the concurrency read, `hits++` and `executionResults.Add`; the intermediate states of that sequence are not modelled.
- The event delegates and their dispatch (Engine.cs 16-34) are left out. They are callback plumbing.
- The spawn quota ("spawned ≤ users") and a drain barrier at completion are not modelled, because the code has neither.
- `Uri.IsWellFormedUriString` is a parameter. The resolution rules of `new Uri(base, relative)`, the `FormUrlEncodedContent` and `StringContent` constructors and UTF-8 encoding are library internals and are not modelled.
- Scenarios.Scenario.AddStep: `HttpHeaders.Add` validates header names and rejects content headers on a request. That check belongs to the library and is not modelled; every dictionary entry becomes a header.
- Scenarios.Scenario.AddStep: the headers come from a `Dictionary`, so their keys are distinct. The model takes them as a list of pairs and requires distinct keys (`DistinctKeys`). The order of the list stands for the dictionary's enumeration order.
- Scenarios.ParseMethod: the token check of the `HttpMethod` constructor is modelled as the token characters of section 3.2.6 of RFC 7230, without the library's other internal limits.
- Scenarios.ParseMethod: culture-specific `ToUpper` is not modelled. Only ASCII letters are upper-cased.
- Scenarios.ParseMethod: a `null` verb, which makes `ToUpper` throw, is not modelled; verbs are strings.
- Scenarios.ParseMethod: the white space that `String.IsNullOrWhiteSpace` rejects is modelled for the characters below U+0100 only; the other Unicode space separators count as non-token characters, so a name made only of them gives the malformed-method error instead of the blank-method error.
- LoadEngine.Engine: the counters are 32-bit `int` fields bumped with unchecked `++` (Engine.cs:187, 201, 212, 231, 236, 241), so they wrap past 2^31 - 1. The model's counters are unbounded integers, so the counter lemmas hold only while fewer than 2^31 events have happened.
- Scenarios.Scenario.Create, Scenarios.Scenario.AddStep, LoadEngine.Engine.AddStep: the C# default arguments `pauseDuration = 3` (Scenario.cs:61) and `mimeType = "application/json"` (Scenario.cs:131, Engine.cs:92) are not modelled. Every caller passes these values explicitly.
- Scenarios.Validate: the timeout is a `real`, so the `double` NaN, which passes `timeout < 0`, is not modelled.
- LoadEngine.ComputeUserSpawnFrequency: the interval is the exact rational `duration / users * 1000`, without `double` rounding. It requires at least one user. Only a validated scenario, which has at least one user, reaches it.
- Statistics.Mean: `Enumerable.Average` is exact rational division here, without `double` rounding or overflow of the sum.
- LoadEngine.CreateTestCompletedEventArgs: the code takes the maximum over the engine's own result list and the averages over its argument. Its only caller passes that same list, so the model uses one list.
- The `Faulted` outcome ends `ExecuteScenario` with an exception, as the code does. What the surrounding `async void` handler then does with that exception is left out.
- SmashItClient/Client.cs is not part of this model. It is a console demo.
- SmashItEngine/IEngine.cs is not part of this model. It is an interface without behaviour.

## Findings

| source | as written | input that shows it | evidently intended | confidence | as-written member | corrected member |
|---|---|---|---|---|---|---|
| SmashItEngine/Engine.cs:248-256 | The average concurrency is taken before any guard. The guard on the average response time checks that there are results, not that any was answered. `Enumerable.Average` on an empty selection throws `InvalidOperationException` | a progress tick whose results hold one request that timed out (`RequestTimedOut = true`), or a tick before any request has finished | averages over an empty selection are 0, as the `0.0` default of `averageResponseTime` shows | not executed | LoadEngine.CreateTestProgressEventArgsAsWritten, LoadEngine.ProgressFailsWhenAllTimedOut | LoadEngine.CreateTestProgressEventArgs |
| SmashItEngine/Engine.cs:264-266 | `Max` and both `Average` calls are unguarded, so the completion report throws when no request finished or every request timed out | a test whose only request timed out | the report is still produced, with an average response time of 0 | not executed | LoadEngine.CreateTestCompletedEventArgsAsWritten, LoadEngine.CompletedFailsWhenAllTimedOut | LoadEngine.CreateTestCompletedEventArgs |
