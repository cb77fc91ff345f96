/** The load-test engine (SmashItEngine/Engine.cs): the spawn interval, the execution of one
    request and of one virtual user's pass over the scenario, the shared counters these update,
    and the statistics reported in the progress and completion events.

    Timers, the awaited HTTP call, the stopwatch and the pauses are not modelled: what an HTTP
    call produced and how long it took is an input (Outcome). Virtual users run concurrently in
    Engine.cs; the model describes a run as a trace of events (Event): one per user counter
    update, and one per completed request, which also appends its result. It proves its
    properties for every trace, that is, for every interleaving of these events, between whole
    requests. */
module LoadEngine {
  import opened Wrappers
  import opened Http
  import opened Scenarios
  import Statistics

  /** What HttpClient.SendAsync did with one request. */
  datatype Outcome =
    | Responded(response: HttpResponseMessage, elapsedMilliseconds: nat) // a response arrived
    | Cancelled(elapsedMilliseconds: nat)                                 // TaskCanceledException: the client timed out
    | Faulted                                                             // any other exception, which ExecuteAction does not catch

  /** HttpActionResult: the record kept for each request that did not fault. */
  datatype HttpActionResult = HttpActionResult(
    requestTimedOut: bool,
    responseMessage: Option<HttpResponseMessage>,
    responseTime: nat,
    concurrentUsers: int)

  /** The engine's counters and its list of results. */
  datatype Counters = Counters(
    userSpawned: int,
    concurrentUsers: int,
    hits: int,
    errors: int,
    timeouts: int,
    results: seq<HttpActionResult>)

  const Zero: Counters := Counters(0, 0, 0, 0, 0, [])

  datatype EngineError =
    | InvalidScenario(message: string) // the ArgumentException of the Scenario constructor
    | GrowthModelNotImplemented        // NotImplementedException of ComputeUserSpawnFrequency

  // ---------------------------------------------------------------- spawn interval

  /** ComputeUserSpawnFrequency (Engine.cs): with linear growth a new user is spawned every
      duration / users seconds, so that all users have started when the test ends; any other
      growth model is not implemented. The result is in milliseconds. */
  function ComputeUserSpawnFrequency(model: UserGrowthProgressionModel, duration: int, users: int)
    : (r: Result<real, EngineError>)
    requires users >= 1
    ensures r.Success? <==> model == Linear
    ensures r.Failure? ==> r.error == GrowthModelNotImplemented
    ensures r.Success? ==> r.value * users as real == duration as real * 1000.0
  {
    if model == Linear then Success((duration as real / users as real) * 1000.0)
    else Failure(GrowthModelNotImplemented)
  }

  /** For a valid scenario the interval is positive and at most the test duration. */
  lemma SpawnIntervalBounds(duration: int, users: int)
    requires users >= 1 && 30 <= duration <= 300
    ensures var r := ComputeUserSpawnFrequency(Linear, duration, users).value;
      0.0 < r <= duration as real * 1000.0
  {
    var r := ComputeUserSpawnFrequency(Linear, duration, users).value;
    assert r * users as real == duration as real * 1000.0;
    if r > duration as real * 1000.0 {
      assert r * users as real >= r;
    }
  }

  lemma SpawnIntervalExample()
    ensures ComputeUserSpawnFrequency(Linear, 100, 10) == Success(10000.0)
  {
  }

  // ---------------------------------------------------------------- one request

  predicate IsSuccessResponse(outcome: Outcome)
  {
    outcome.Responded? && outcome.response.IsSuccessStatusCode()
  }

  /** The result ExecuteAction builds for an outcome that did not fault, given the
      concurrency counter at that moment. */
  function Classify(outcome: Outcome, concurrentUsers: int): (r: HttpActionResult)
    requires !outcome.Faulted?
    ensures r.requestTimedOut <==> outcome.Cancelled?
    ensures r.responseMessage.None? <==> outcome.Cancelled?
    ensures outcome.Responded? ==> r.responseMessage == Some(outcome.response)
    ensures r.responseTime == outcome.elapsedMilliseconds
    ensures r.concurrentUsers == concurrentUsers
  {
    match outcome
    case Responded(response, elapsed) => HttpActionResult(false, Some(response), elapsed, concurrentUsers)
    case Cancelled(elapsed) => HttpActionResult(true, None, elapsed, concurrentUsers)
  }

  /** The counters after ExecuteAction: hits always counts the request (the finally block),
      errors counts a response with a non-success status, timeouts a cancellation. */
  function CountAction(c: Counters, outcome: Outcome): (d: Counters)
    ensures d.hits == c.hits + 1
    ensures d.errors == c.errors + (if outcome.Responded? && !IsSuccessResponse(outcome) then 1 else 0)
    ensures d.timeouts == c.timeouts + (if outcome.Cancelled? then 1 else 0)
    ensures d.errors + d.timeouts <= c.errors + c.timeouts + 1
    ensures d.userSpawned == c.userSpawned && d.concurrentUsers == c.concurrentUsers && d.results == c.results
  {
    var errors := if outcome.Responded? && !outcome.response.IsSuccessStatusCode() then c.errors + 1 else c.errors;
    var timeouts := if outcome.Cancelled? then c.timeouts + 1 else c.timeouts;
    c.(hits := c.hits + 1, errors := errors, timeouts := timeouts)
  }

  // ---------------------------------------------------------------- traces of counter updates

  /** The atomic updates of the shared state. */
  datatype Event =
    | UserSpawned                     // IncreaseTotalUsersCounter
    | UserEntered                     // IncreaseConcurrentUsersCounter
    | UserLeft                        // DecreaseConcurrentUsersCounter
    | ActionCompleted(outcome: Outcome) // ExecuteAction, then executionResults.Add

  function Step(c: Counters, e: Event): Counters
  {
    match e
    case UserSpawned => c.(userSpawned := c.userSpawned + 1)
    case UserEntered => c.(concurrentUsers := c.concurrentUsers + 1)
    case UserLeft => c.(concurrentUsers := c.concurrentUsers - 1)
    case ActionCompleted(outcome) =>
      var d := CountAction(c, outcome);
      if outcome.Faulted? then d else d.(results := d.results + [Classify(outcome, c.concurrentUsers)])
  }

  function RunTrace(c: Counters, t: seq<Event>): Counters
    decreases |t|
  {
    if t == [] then c else RunTrace(Step(c, t[0]), t[1..])
  }

  /** The events of the step loop of ExecuteScenario: one completed action per step, stopping
      after a faulted one (the exception leaves the method), and the user leaves after the last
      step. */
  function StepEvents(outcomes: seq<Outcome>): seq<Event>
  {
    if outcomes == [] then [UserLeft]
    else [ActionCompleted(outcomes[0])] + (if outcomes[0].Faulted? then [] else StepEvents(outcomes[1..]))
  }

  /** The events of one ExecuteScenario, given the outcome of each step's request. */
  function UserEvents(outcomes: seq<Outcome>): seq<Event>
  {
    [UserSpawned, UserEntered] + StepEvents(outcomes)
  }

  predicate FaultFree(outcomes: seq<Outcome>)
  {
    forall i :: 0 <= i < |outcomes| ==> !outcomes[i].Faulted?
  }

  // ---------------------------------------------------------------- counting results

  predicate IsTimedOut(r: HttpActionResult) { r.requestTimedOut }

  predicate IsError(r: HttpActionResult)
  {
    !r.requestTimedOut && r.responseMessage.Some? && !r.responseMessage.value.IsSuccessStatusCode()
  }

  predicate IsSuccess(r: HttpActionResult)
  {
    !r.requestTimedOut && r.responseMessage.Some? && r.responseMessage.value.IsSuccessStatusCode()
  }

  /** A result as ExecuteAction builds it: timed out exactly when it carries no response. */
  predicate WellFormed(r: HttpActionResult)
  {
    r.requestTimedOut <==> r.responseMessage.None?
  }

  function Count(rs: seq<HttpActionResult>, p: HttpActionResult -> bool): nat
  {
    if rs == [] then 0 else Count(rs[..|rs| - 1], p) + (if p(rs[|rs| - 1]) then 1 else 0)
  }

  lemma CountAppend(rs: seq<HttpActionResult>, r: HttpActionResult, p: HttpActionResult -> bool)
    ensures Count(rs + [r], p) == Count(rs, p) + (if p(r) then 1 else 0)
  {
    assert (rs + [r])[..|rs|] == rs;
  }

  /** Every well-formed result is exactly one of timed out, error and success. */
  lemma {:induction false} CountPartition(rs: seq<HttpActionResult>)
    requires forall i :: 0 <= i < |rs| ==> WellFormed(rs[i])
    ensures Count(rs, IsTimedOut) + Count(rs, IsError) + Count(rs, IsSuccess) == |rs|
  {
    if rs != [] {
      var init := rs[..|rs| - 1];
      assert forall i :: 0 <= i < |init| ==> init[i] == rs[i];
      CountPartition(init);
    }
  }

  /** The counters agree with the results: every request that did not fault left one result,
      `faults` requests faulted, errors and timeouts count the matching results. */
  predicate Accounted(c: Counters, faults: nat)
  {
    && c.hits == |c.results| + faults
    && c.errors == Count(c.results, IsError)
    && c.timeouts == Count(c.results, IsTimedOut)
    && forall i :: 0 <= i < |c.results| ==> WellFormed(c.results[i])
  }

  function Faults(t: seq<Event>): nat
  {
    multiset(t)[ActionCompleted(Faulted)]
  }

  lemma StepAccounted(c: Counters, faults: nat, e: Event)
    requires Accounted(c, faults)
    ensures Accounted(Step(c, e), faults + (if e == ActionCompleted(Faulted) then 1 else 0))
  {
    if e.ActionCompleted? && !e.outcome.Faulted? {
      var r := Classify(e.outcome, c.concurrentUsers);
      CountAppend(c.results, r, IsError);
      CountAppend(c.results, r, IsTimedOut);
    }
  }

  lemma {:induction false} TraceAccounted(c: Counters, faults: nat, t: seq<Event>)
    requires Accounted(c, faults)
    ensures Accounted(RunTrace(c, t), faults + Faults(t))
    decreases |t|
  {
    if t != [] {
      assert t == [t[0]] + t[1..];
      StepAccounted(c, faults, t[0]);
      TraceAccounted(Step(c, t[0]), faults + (if t[0] == ActionCompleted(Faulted) then 1 else 0), t[1..]);
    }
  }

  /** From zero counters, after any interleaving of events, that is, between whole requests, every hit is an error, a timeout,
      a success or a request that faulted; with no fault, hits == errors + timeouts + successes. */
  lemma HitsPartition(t: seq<Event>)
    ensures var c := RunTrace(Zero, t);
      c.hits == c.errors + c.timeouts + Count(c.results, IsSuccess) + Faults(t)
  {
    TraceAccounted(Zero, 0, t);
    CountPartition(RunTrace(Zero, t).results);
  }

  /** Only the concurrency counter ever goes down; results are only appended. */
  predicate Grows(c: Counters, d: Counters)
  {
    && c.userSpawned <= d.userSpawned
    && c.hits <= d.hits
    && c.errors <= d.errors
    && c.timeouts <= d.timeouts
    && |c.results| <= |d.results| && d.results[..|c.results|] == c.results
  }

  lemma {:induction false} TraceGrows(c: Counters, t: seq<Event>)
    ensures Grows(c, RunTrace(c, t))
    decreases |t|
  {
    if t != [] {
      var d := Step(c, t[0]);
      assert Grows(c, d);
      TraceGrows(d, t[1..]);
      var e := RunTrace(d, t[1..]);
      assert e.results[..|d.results|][..|c.results|] == e.results[..|c.results|];
    }
  }

  /** The concurrency counter is its start value plus the users that entered minus the
      users that left, in any interleaving. */
  lemma {:induction false} ConcurrencyBalance(c: Counters, t: seq<Event>)
    ensures RunTrace(c, t).concurrentUsers ==
      c.concurrentUsers + multiset(t)[UserEntered] - multiset(t)[UserLeft]
    decreases |t|
  {
    if t != [] {
      assert t == [t[0]] + t[1..];
      ConcurrencyBalance(Step(c, t[0]), t[1..]);
    }
  }

  /** The results ExecuteAction builds for a run of answered or cancelled requests, in
      order, all seeing the same concurrency counter. */
  function ClassifyAll(outcomes: seq<Outcome>, concurrentUsers: int): (rs: seq<HttpActionResult>)
    requires FaultFree(outcomes)
    ensures |rs| == |outcomes|
  {
    if outcomes == [] then []
    else
      assert FaultFree(outcomes[1..]) by {
        forall i | 0 <= i < |outcomes| - 1
          ensures !outcomes[1..][i].Faulted?
        {
          assert outcomes[1..][i] == outcomes[i + 1];
        }
      }
      [Classify(outcomes[0], concurrentUsers)] + ClassifyAll(outcomes[1..], concurrentUsers)
  }

  /** The i-th result is the classification of the i-th outcome. */
  lemma {:induction false} ClassifyAllAt(outcomes: seq<Outcome>, concurrentUsers: int, i: int)
    requires FaultFree(outcomes)
    requires 0 <= i < |outcomes|
    ensures ClassifyAll(outcomes, concurrentUsers)[i] == Classify(outcomes[i], concurrentUsers)
    decreases i
  {
    if i > 0 {
      var rest := outcomes[1..];
      assert FaultFree(rest) by {
        forall k | 0 <= k < |rest|
          ensures !rest[k].Faulted?
        {
          assert rest[k] == outcomes[k + 1];
        }
      }
      ClassifyAllAt(rest, concurrentUsers, i - 1);
      assert rest[i - 1] == outcomes[i];
    }
  }

  /** The first step of a pass with an answered or cancelled first request. */
  lemma StepEventsUnfold(c: Counters, outcomes: seq<Outcome>)
    requires outcomes != [] && !outcomes[0].Faulted?
    ensures RunTrace(c, StepEvents(outcomes)) ==
      RunTrace(Step(c, ActionCompleted(outcomes[0])), StepEvents(outcomes[1..]))
  {
    var t := StepEvents(outcomes);
    assert t[0] == ActionCompleted(outcomes[0]) && t[1..] == StepEvents(outcomes[1..]);
  }

  /** One answered or cancelled request: one more hit and one more result. */
  lemma ActionEffect(c: Counters, o: Outcome)
    requires !o.Faulted?
    ensures Step(c, ActionCompleted(o)).userSpawned == c.userSpawned
    ensures Step(c, ActionCompleted(o)).concurrentUsers == c.concurrentUsers
    ensures Step(c, ActionCompleted(o)).hits == c.hits + 1
    ensures Step(c, ActionCompleted(o)).results == c.results + [Classify(o, c.concurrentUsers)]
  {
  }

  /** The counters after one user's pass with no faulted request from state c: one hit
      per step, and the user has left. */
  lemma {:induction false} StepsCounters(c: Counters, outcomes: seq<Outcome>)
    requires FaultFree(outcomes)
    ensures RunTrace(c, StepEvents(outcomes)).userSpawned == c.userSpawned
    ensures RunTrace(c, StepEvents(outcomes)).concurrentUsers == c.concurrentUsers - 1
    ensures RunTrace(c, StepEvents(outcomes)).hits == c.hits + |outcomes|
    decreases |outcomes|
  {
    if outcomes == [] {
      assert RunTrace(c, [UserLeft]) == Step(c, UserLeft);
    } else {
      var rest := outcomes[1..];
      assert FaultFree(rest) by {
        forall i | 0 <= i < |rest|
          ensures !rest[i].Faulted?
        {
          assert rest[i] == outcomes[i + 1];
        }
      }
      StepEventsUnfold(c, outcomes);
      ActionEffect(c, outcomes[0]);
      StepsCounters(Step(c, ActionCompleted(outcomes[0])), rest);
    }
  }

  /** The results after one user's pass with no faulted request from state c: one result
      per step appended in step order, each seeing the concurrency counter of c. */
  lemma {:induction false} StepsResults(c: Counters, outcomes: seq<Outcome>)
    requires FaultFree(outcomes)
    ensures RunTrace(c, StepEvents(outcomes)).results == c.results + ClassifyAll(outcomes, c.concurrentUsers)
    decreases |outcomes|, 1
  {
    if outcomes == [] {
      assert RunTrace(c, [UserLeft]) == Step(c, UserLeft);
    } else {
      StepsResultsFirst(c, outcomes);
    }
  }

  /** The inductive step of StepsResults: the first request's result, then the rest. */
  lemma {:induction false} StepsResultsFirst(c: Counters, outcomes: seq<Outcome>)
    requires FaultFree(outcomes) && outcomes != []
    ensures RunTrace(c, StepEvents(outcomes)).results == c.results + ClassifyAll(outcomes, c.concurrentUsers)
    decreases |outcomes|, 0
  {
    var n := c.concurrentUsers;
    var o := outcomes[0];
    var rest := outcomes[1..];
    var r := Classify(o, n);
    var c1 := Step(c, ActionCompleted(o));
    assert FaultFree(rest) by {
      forall i | 0 <= i < |rest|
        ensures !rest[i].Faulted?
      {
        assert rest[i] == outcomes[i + 1];
      }
    }
    var tail := ClassifyAll(rest, n);
    var d := RunTrace(c1, StepEvents(rest));
    assert RunTrace(c, StepEvents(outcomes)) == d by {
      StepEventsUnfold(c, outcomes);
    }
    assert c1.results == c.results + [r] && c1.concurrentUsers == n by {
      ActionEffect(c, o);
    }
    assert d.results == c1.results + tail by {
      StepsResults(c1, rest);
    }
    assert ClassifyAll(outcomes, n) == [r] + tail;
    assert (c.results + [r]) + tail == c.results + ([r] + tail);
  }

  /** One ExecuteScenario with no faulted request raises userSpawned by one, appends one
      result per step in step order, counts one hit per step and leaves the concurrency
      counter as it found it. */
  lemma UserRunEffect(c: Counters, outcomes: seq<Outcome>)
    requires FaultFree(outcomes)
    ensures var d := RunTrace(c, UserEvents(outcomes));
      && d.userSpawned == c.userSpawned + 1
      && d.concurrentUsers == c.concurrentUsers
      && d.hits == c.hits + |outcomes|
      && d.results == c.results + ClassifyAll(outcomes, c.concurrentUsers + 1)
  {
    var t := UserEvents(outcomes);
    var c2 := Step(Step(c, UserSpawned), UserEntered);
    assert t[0] == UserSpawned && t[1..][0] == UserEntered && t[1..][1..] == StepEvents(outcomes);
    assert RunTrace(c, t) == RunTrace(c2, StepEvents(outcomes));
    StepsCounters(c2, outcomes);
    StepsResults(c2, outcomes);
  }

  /** A faulted request ends the pass without the user leaving: the concurrency counter
      stays one higher. */
  lemma FaultLeavesUserCounted(c: Counters, o: Outcome)
    requires !o.Faulted?
    ensures RunTrace(c, UserEvents([Faulted])).concurrentUsers == c.concurrentUsers + 1
    ensures RunTrace(c, UserEvents([o])).concurrentUsers == c.concurrentUsers
  {
    var c2 := Step(Step(c, UserSpawned), UserEntered);
    var faulted := UserEvents([Faulted]);
    assert faulted == [UserSpawned, UserEntered, ActionCompleted(Faulted)];
    assert RunTrace(c, faulted) == RunTrace(c2, faulted[2..]);
    assert RunTrace(c2, faulted[2..]) == Step(c2, ActionCompleted(Faulted));
    var answered := UserEvents([o]);
    assert [o][1..] == [];
    assert StepEvents([o]) == [ActionCompleted(o)] + StepEvents([]);
    assert answered == [UserSpawned, UserEntered, ActionCompleted(o), UserLeft];
    assert RunTrace(c, answered) == RunTrace(c2, answered[2..]);
    var c3 := Step(c2, ActionCompleted(o));
    assert RunTrace(c2, answered[2..]) == RunTrace(c3, [UserLeft]);
  }

  // ---------------------------------------------------------------- the engine object

  class Engine {
    const scenario: Scenario
    const spawnInterval: real
    var userSpawned: int
    var currentNumberOfConcurrentUsers: int
    var hits: int
    var errors: int
    var timeouts: int
    var executionResults: seq<HttpActionResult>

    function Snapshot(): Counters
      reads this
    {
      Counters(userSpawned, currentNumberOfConcurrentUsers, hits, errors, timeouts, executionResults)
    }

    constructor (scenario: Scenario, spawnInterval: real)
      ensures this.scenario == scenario && this.spawnInterval == spawnInterval
      ensures Snapshot() == Zero
    {
      this.scenario := scenario;
      this.spawnInterval := spawnInterval;
      userSpawned := 0;
      currentNumberOfConcurrentUsers := 0;
      hits := 0;
      errors := 0;
      timeouts := 0;
      executionResults := [];
    }

    /** new Engine(...) (Engine.cs): the scenario's ArgumentException comes first; then
        the timers need the spawn interval, which only linear growth provides. */
    static method Create(totalUsers: int, targetAddress: string, testDuration: int,
                         model: UserGrowthProgressionModel, pauseDuration: int, timeout: real,
                         isWellFormedUri: UriCheck)
      returns (r: Result<Engine, EngineError>)
      ensures var s := Settings(totalUsers, isWellFormedUri(targetAddress, Absolute), testDuration, timeout, pauseDuration);
        && (r == Failure(InvalidScenario(ErrorPrefix + Report(Violations(s)))) <==> !ConfigValid(s))
        && (r == Failure(GrowthModelNotImplemented) <==> ConfigValid(s) && model != Linear)
        && (r.Success? <==> ConfigValid(s) && model == Linear)
        && (r.Success? ==>
              && fresh(r.value) && fresh(r.value.scenario)
              && r.value.scenario.Valid() && r.value.scenario.steps == []
              && r.value.scenario.users == totalUsers && r.value.scenario.baseAddress == targetAddress
              && r.value.scenario.duration == testDuration && r.value.scenario.timeout == timeout
              && r.value.scenario.pauseDuration == pauseDuration
              && r.value.scenario.isWellFormedUri == isWellFormedUri
              && r.value.scenario.userGrowthProgressionModel == model
              && r.value.spawnInterval * totalUsers as real == testDuration as real * 1000.0
              && r.value.Snapshot() == Zero)
    {
      var created := Scenario.Create(totalUsers, targetAddress, testDuration, model, timeout, pauseDuration,
                                     isWellFormedUri);
      if created.Failure? {
        return Failure(InvalidScenario(created.error));
      }
      var scenario := created.value;
      var frequency := ComputeUserSpawnFrequency(model, scenario.duration, scenario.users);
      if frequency.Failure? {
        return Failure(frequency.error);
      }
      var engine := new Engine(scenario, frequency.value);
      return Success(engine);
    }

    /** AddStep (Engine.cs) hands the step to the scenario. */
    method AddStep(headers: Option<seq<(string, string)>>, verb: string, endpoint: string,
                   contentType: Option<HttpRequestContentType>, bodyContent: Option<string>, mimeType: string)
      returns (error: Option<StepError>)
      requires headers.Some? ==> DistinctKeys(headers.value)
      modifies scenario
      ensures var plan := PlanStep(verb, endpoint, contentType, bodyContent, mimeType, scenario.isWellFormedUri);
        && (error.Some? <==> plan.Failure?)
        && (error.Some? ==> error.value == plan.error && scenario.steps == old(scenario.steps))
        && (error.None? ==>
              && |scenario.steps| == |old(scenario.steps)| + 1
              && scenario.steps[..|old(scenario.steps)|] == old(scenario.steps)
              && var step := scenario.steps[|old(scenario.steps)|];
              && fresh(step)
              && step.httpMethod == plan.value.httpMethod
              && step.requestUri == (if endpoint == [] then None else Some(endpoint))
              && step.version == DefaultVersion
              && step.headers == HeaderEntries(headers)
              && step.properties == []
              && match plan.value.content
                 case None => step.content == null
                 case Some(payload) => step.content != null && fresh(step.content) && step.content.payload == payload)
    {
      error := scenario.AddStep(headers, verb, endpoint, contentType, bodyContent, mimeType);
    }

    /** IncreaseTotalUsersCounter (Engine.cs). */
    method IncreaseTotalUsersCounter()
      modifies this
      ensures Snapshot() == Step(old(Snapshot()), UserSpawned)
    {
      userSpawned := userSpawned + 1;
    }

    /** IncreaseConcurrentUsersCounter (Engine.cs). */
    method IncreaseConcurrentUsersCounter()
      modifies this
      ensures Snapshot() == Step(old(Snapshot()), UserEntered)
    {
      currentNumberOfConcurrentUsers := currentNumberOfConcurrentUsers + 1;
    }

    /** DecreaseConcurrentUsersCounter (Engine.cs). */
    method DecreaseConcurrentUsersCounter()
      modifies this
      ensures Snapshot() == Step(old(Snapshot()), UserLeft)
    {
      currentNumberOfConcurrentUsers := currentNumberOfConcurrentUsers - 1;
    }

    /** ExecuteAction (Engine.cs): sends one request (its outcome is the parameter), counts it
        and describes it. A faulted request escapes as an exception after hits is counted. */
    method ExecuteAction(step: HttpRequestMessage, outcome: Outcome) returns (result: Option<HttpActionResult>)
      modifies this
      ensures Snapshot() == CountAction(old(Snapshot()), outcome)
      ensures result.None? <==> outcome.Faulted?
      ensures result.Some? ==> result.value == Classify(outcome, currentNumberOfConcurrentUsers)
    {
      match outcome {
        case Responded(response, elapsed) =>
          if !response.IsSuccessStatusCode() {
            errors := errors + 1;
          }
          result := Some(HttpActionResult(false, Some(response), elapsed, currentNumberOfConcurrentUsers));
        case Cancelled(elapsed) =>
          timeouts := timeouts + 1;
          result := Some(HttpActionResult(true, None, elapsed, currentNumberOfConcurrentUsers));
        case Faulted =>
          result := None;
      }
      hits := hits + 1;
    }

    /** ExecuteScenario (Engine.cs): one virtual user. It is counted, enters, runs a copy of
        every step in order, recording each result, and leaves; outcomes[i] is what the
        request of step i produced. */
    method ExecuteScenario(outcomes: seq<Outcome>)
      requires |outcomes| == |scenario.steps|
      modifies this
      ensures Snapshot() == RunTrace(old(Snapshot()), UserEvents(outcomes))
    {
      ghost var events := UserEvents(outcomes);
      ghost var final := RunTrace(Snapshot(), events);
      assert events[0] == UserSpawned && events[1..][0] == UserEntered;
      assert events[1..][1..] == StepEvents(outcomes);
      IncreaseTotalUsersCounter();
      assert final == RunTrace(Snapshot(), events[1..]);
      IncreaseConcurrentUsersCounter();
      assert final == RunTrace(Snapshot(), events[1..][1..]);
      var steps := scenario.steps;
      assert outcomes[0..] == outcomes;
      for i := 0 to |steps|
        invariant RunTrace(Snapshot(), StepEvents(outcomes[i..])) == final
      {
        var request := scenario.CreateStep(steps[i]);
        ghost var before := Snapshot();
        assert StepEvents(outcomes[i..])[0] == ActionCompleted(outcomes[i]);
        var result := ExecuteAction(request, outcomes[i]);
        if result.None? {
          assert StepEvents(outcomes[i..]) == [ActionCompleted(outcomes[i])];
          assert Snapshot() == Step(before, ActionCompleted(outcomes[i]));
          return;
        }
        executionResults := executionResults + [result.value];
        assert outcomes[i..][1..] == outcomes[i + 1..];
        assert Snapshot() == Step(before, ActionCompleted(outcomes[i]));
      }
      DecreaseConcurrentUsersCounter();
    }
  }

  // ---------------------------------------------------------------- statistics

  /** TestProgressEventArgs. */
  datatype TestProgressEventArgs = TestProgressEventArgs(
    timeElapsed: real,
    usersSpawned: int,
    averageConcurrentUsers: real,
    hits: int,
    errors: int,
    timeouts: int,
    averageResponseTime: real)

  /** TestCompletedEventArgs. */
  datatype TestCompletedEventArgs = TestCompletedEventArgs(
    usersSpawned: int,
    actualTestDuration: real,
    maxNumberConcurrentUsers: int,
    averageConcurrentUsers: real,
    averageResponseTime: real,
    hits: int,
    errors: int,
    timeouts: int)

  /** Enumerable.Average and Max throw InvalidOperationException on an empty sequence. */
  datatype StatisticsError = EmptySequence

  /** The concurrency seen by each result, in order. */
  function ConcurrencyOf(rs: seq<HttpActionResult>): seq<int>
  {
    seq(|rs|, i requires 0 <= i < |rs| => rs[i].concurrentUsers)
  }

  /** The response times of the requests that did not time out, in order. */
  function AnsweredTimes(rs: seq<HttpActionResult>): (xs: seq<int>)
    ensures |xs| == |rs| - Count(rs, IsTimedOut)
  {
    if rs == [] then []
    else AnsweredTimes(rs[..|rs| - 1]) + (if rs[|rs| - 1].requestTimedOut then [] else [rs[|rs| - 1].responseTime])
  }

  lemma {:induction false} AnsweredTimesMembers(rs: seq<HttpActionResult>)
    ensures forall x :: x in AnsweredTimes(rs) <==>
      exists i :: 0 <= i < |rs| && !rs[i].requestTimedOut && rs[i].responseTime == x
  {
    if rs != [] {
      var init := rs[..|rs| - 1];
      AnsweredTimesMembers(init);
      assert forall i :: 0 <= i < |init| ==> init[i] == rs[i];
      forall x | exists i :: 0 <= i < |rs| && !rs[i].requestTimedOut && rs[i].responseTime == x
        ensures x in AnsweredTimes(rs)
      {
        var i :| 0 <= i < |rs| && !rs[i].requestTimedOut && rs[i].responseTime == x;
        if i < |init| {
          assert init[i] == rs[i];
        }
      }
    }
  }

  /** CreateTestProgressEventArgs as written (Engine.cs): the average concurrency is taken
      over all results before any guard, and the guard on the response time checks that
      there are results, not that any was answered; both averages then fail on an empty
      selection. */
  function CreateTestProgressEventArgsAsWritten(c: Counters, timeElapsed: real)
    : (r: Result<TestProgressEventArgs, StatisticsError>)
    ensures r.Failure? <==> c.results == [] || AnsweredTimes(c.results) == []
  {
    var rs := c.results;
    if rs == [] then Failure(EmptySequence)
    else
      var averageConcurrentUsers := Statistics.Mean(ConcurrencyOf(rs));
      var answered := AnsweredTimes(rs);
      if answered == [] then Failure(EmptySequence)
      else
        Success(TestProgressEventArgs(timeElapsed, c.userSpawned, averageConcurrentUsers, c.hits, c.errors,
                                      c.timeouts, Statistics.Mean(answered)))
  }

  /** A single timed-out result is enough to make the progress report fail. */
  lemma ProgressFailsWhenAllTimedOut(c: Counters, timeElapsed: real)
    requires c.results == [HttpActionResult(true, None, 30000, 1)]
    ensures CreateTestProgressEventArgsAsWritten(c, timeElapsed) == Failure(EmptySequence)
    ensures CreateTestProgressEventArgs(c, timeElapsed).averageResponseTime == 0.0
  {
    assert c.results[..0] == [];
  }

  /** The progress report with each average taken as 0 over an empty selection. */
  function CreateTestProgressEventArgs(c: Counters, timeElapsed: real): (r: TestProgressEventArgs)
    ensures r.timeElapsed == timeElapsed && r.usersSpawned == c.userSpawned
    ensures r.hits == c.hits && r.errors == c.errors && r.timeouts == c.timeouts
    ensures c.results == [] ==> r.averageConcurrentUsers == 0.0 && r.averageResponseTime == 0.0
    ensures c.results != [] ==>
      && r.averageConcurrentUsers == Statistics.Mean(ConcurrencyOf(c.results))
      && (exists i :: 0 <= i < |c.results| && c.results[i].concurrentUsers as real <= r.averageConcurrentUsers)
      && (exists i :: 0 <= i < |c.results| && r.averageConcurrentUsers <= c.results[i].concurrentUsers as real)
    ensures AnsweredTimes(c.results) == [] ==> r.averageResponseTime == 0.0
    ensures AnsweredTimes(c.results) != [] ==> r.averageResponseTime == Statistics.Mean(AnsweredTimes(c.results))
    ensures CreateTestProgressEventArgsAsWritten(c, timeElapsed).Success? ==>
      CreateTestProgressEventArgsAsWritten(c, timeElapsed).value == r
  {
    var rs := c.results;
    var averageConcurrentUsers := if rs == [] then 0.0 else MeanWitnessed(ConcurrencyOf(rs));
    var answered := AnsweredTimes(rs);
    var averageResponseTime := if answered == [] then 0.0 else Statistics.Mean(answered);
    TestProgressEventArgs(timeElapsed, c.userSpawned, averageConcurrentUsers, c.hits, c.errors, c.timeouts,
                          averageResponseTime)
  }

  /** The mean, with the elements it lies between named. */
  function MeanWitnessed(xs: seq<int>): (m: real)
    requires xs != []
    ensures m == Statistics.Mean(xs)
    ensures exists i :: 0 <= i < |xs| && xs[i] as real <= m
    ensures exists i :: 0 <= i < |xs| && m <= xs[i] as real
  {
    var lo := Statistics.Min(xs);
    var hi := Statistics.Max(xs);
    var i :| 0 <= i < |xs| && xs[i] == lo;
    var j :| 0 <= j < |xs| && xs[j] == hi;
    Statistics.Mean(xs)
  }

  /** CreateTestCompletedEventArgs as written (Engine.cs): Max and both averages fail when
      there are no results, and the response-time average also fails when every request
      timed out. */
  function CreateTestCompletedEventArgsAsWritten(c: Counters, actualTestDuration: real)
    : (r: Result<TestCompletedEventArgs, StatisticsError>)
    ensures r.Failure? <==> c.results == [] || AnsweredTimes(c.results) == []
  {
    var rs := c.results;
    if rs == [] then Failure(EmptySequence)
    else
      var concurrency := ConcurrencyOf(rs);
      var answered := AnsweredTimes(rs);
      if answered == [] then Failure(EmptySequence)
      else
        Success(TestCompletedEventArgs(c.userSpawned, actualTestDuration, Statistics.Max(concurrency),
                                       Statistics.Mean(concurrency), Statistics.Mean(answered),
                                       c.hits, c.errors, c.timeouts))
  }

  /** The completion report with each aggregate taken as 0 over an empty selection. */
  function CreateTestCompletedEventArgs(c: Counters, actualTestDuration: real): (r: TestCompletedEventArgs)
    ensures r.usersSpawned == c.userSpawned && r.actualTestDuration == actualTestDuration
    ensures r.hits == c.hits && r.errors == c.errors && r.timeouts == c.timeouts
    ensures c.results == [] ==>
      r.maxNumberConcurrentUsers == 0 && r.averageConcurrentUsers == 0.0 && r.averageResponseTime == 0.0
    ensures c.results != [] ==>
      && (forall i :: 0 <= i < |c.results| ==> c.results[i].concurrentUsers <= r.maxNumberConcurrentUsers)
      && (exists i :: 0 <= i < |c.results| && c.results[i].concurrentUsers == r.maxNumberConcurrentUsers)
      && r.averageConcurrentUsers == Statistics.Mean(ConcurrencyOf(c.results))
      && r.averageConcurrentUsers <= r.maxNumberConcurrentUsers as real
    ensures AnsweredTimes(c.results) == [] ==> r.averageResponseTime == 0.0
    ensures AnsweredTimes(c.results) != [] ==> r.averageResponseTime == Statistics.Mean(AnsweredTimes(c.results))
    ensures CreateTestCompletedEventArgsAsWritten(c, actualTestDuration).Success? ==>
      CreateTestCompletedEventArgsAsWritten(c, actualTestDuration).value == r
  {
    var rs := c.results;
    var concurrency := ConcurrencyOf(rs);
    assert |concurrency| == |rs| && forall i :: 0 <= i < |rs| ==> concurrency[i] == rs[i].concurrentUsers;
    var maxConcurrentUsers := if rs == [] then 0 else Statistics.Max(concurrency);
    var averageConcurrentUsers := if rs == [] then 0.0 else Statistics.Mean(concurrency);
    var answered := AnsweredTimes(rs);
    var averageResponseTime := if answered == [] then 0.0 else Statistics.Mean(answered);
    TestCompletedEventArgs(c.userSpawned, actualTestDuration, maxConcurrentUsers, averageConcurrentUsers,
                           averageResponseTime, c.hits, c.errors, c.timeouts)
  }

  /** With at least one answered request, the average response time lies between the fastest
      and the slowest answered request. */
  lemma CompletedResponseTimeBounds(c: Counters, d: real)
    requires AnsweredTimes(c.results) != []
    ensures exists i :: (0 <= i < |c.results| && !c.results[i].requestTimedOut &&
                         c.results[i].responseTime as real <= CreateTestCompletedEventArgs(c, d).averageResponseTime)
    ensures exists i :: (0 <= i < |c.results| && !c.results[i].requestTimedOut &&
                         CreateTestCompletedEventArgs(c, d).averageResponseTime <= c.results[i].responseTime as real)
  {
    var answered := AnsweredTimes(c.results);
    AnsweredTimesMembers(c.results);
    var lo := Statistics.Min(answered);
    var hi := Statistics.Max(answered);
    assert lo in answered && hi in answered;
  }

  /** When every request timed out the completion report fails as written; the corrected
      report gives an average response time of 0. */
  lemma CompletedFailsWhenAllTimedOut(c: Counters, d: real)
    requires c.results == [HttpActionResult(true, None, 30000, 1)]
    ensures CreateTestCompletedEventArgsAsWritten(c, d) == Failure(EmptySequence)
    ensures CreateTestCompletedEventArgs(c, d).averageResponseTime == 0.0
    ensures CreateTestCompletedEventArgs(c, d).maxNumberConcurrentUsers == 1
  {
    assert c.results[..0] == [];
  }
}
