/**
 * The two places where the API routes poll the code-generation service for an agent run:
 * `monitor_agent_run_for_pr`, which watches a run for up to sixty fetches and then announces exactly
 * one pull-request event, and the wait loop of `create_plan`, which fetches the run's status every
 * five seconds for at most two minutes before turning the logs into a plan.
 *
 * The service is an oracle `poll`: `poll(k)` is its answer to the k-th status fetch (counting from 0).
 */
module Polling {
  import opened Wrappers
  import opened Seqs
  import opened LogExtract
  import opened PrUrlExtract

  /** One answer of the service to a status fetch. */
  datatype Poll =
    | Pending                       // any status other than "completed" and "failed"
    | Completed(logs: seq<string>)  // "completed", together with the logs fetched right after it
    | Failed                        // "failed"
    | Raised                        // the fetch (or the log fetch after "completed") raised

  /** The first `n` answers of the service. */
  function Answers(poll: nat -> Poll, n: nat): (r: seq<Poll>)
    ensures |r| == n && forall k :: 0 <= k < n ==> r[k] == poll(k)
  {
    seq(n, k requires 0 <= k => poll(k))
  }

  // ---------------------------------------------------------------------------------------------
  // Monitoring an agent run for a pull request
  // ---------------------------------------------------------------------------------------------

  /** The event the monitor broadcasts (its `createdAt` stamp is left out). */
  datatype PrEvent = PrCreated(prUrl: string) | PrFailed(error: string)

  const MaxAttempts := 60

  const NoPrError := "Implementation completed but no PR was created"
  const RunFailedError := "Implementation failed"
  const TimeoutError := "Monitoring timeout - PR status unknown"

  /** An answer that ends the monitoring; a pending answer or a raised fetch only costs an attempt. */
  predicate EndsMonitoring(p: Poll)
  {
    p.Completed? || p.Failed?
  }

  /** The index of the first answer that ends the monitoring, or `MaxAttempts` when none does. */
  function MonitorStop(poll: nat -> Poll): (k: nat)
    ensures k <= MaxAttempts
  {
    FirstWhere(Answers(poll, MaxAttempts), EndsMonitoring)
  }

  /** How many status fetches the monitor makes. */
  function MonitorFetches(poll: nat -> Poll): nat
  {
    var k := MonitorStop(poll);
    if k < MaxAttempts then k + 1 else MaxAttempts
  }

  /** The one event the monitor broadcasts. */
  function MonitorEvent(poll: nat -> Poll): PrEvent
  {
    var k := MonitorStop(poll);
    if k == MaxAttempts then PrFailed(TimeoutError)
    else match poll(k)
      case Completed(logs) =>
        (match PrUrlFromLogs(logs)
         case Some(url) => PrCreated(url)
         case None => PrFailed(NoPrError))
      case _ => PrFailed(RunFailedError)
  }

  /** `monitor_agent_run_for_pr`: fetch the run's status until it completes or fails, at most
      sixty times, then announce the outcome; `events` lists the events handed to the broadcaster.
      `clientAvailable` is false when building the service client raises (its settings are missing):
      that happens before the loop and outside its `try`, so the task ends with no fetch and no event. */
  method MonitorAgentRunForPr(clientAvailable: bool, poll: nat -> Poll) returns (fetches: nat, events: seq<PrEvent>)
    ensures !clientAvailable ==> fetches == 0 && events == []
    ensures clientAvailable ==> 1 <= fetches <= MaxAttempts
    ensures clientAvailable ==> fetches == MonitorFetches(poll)
    ensures clientAvailable ==> events == [MonitorEvent(poll)]
  {
    if !clientAvailable {
      return 0, [];
    }
    ghost var answers := Answers(poll, MaxAttempts);
    var attempt := 0;
    fetches := 0;
    events := [];
    while attempt < MaxAttempts
      invariant attempt <= MaxAttempts && fetches == attempt && events == []
      invariant forall k :: 0 <= k < attempt ==> !EndsMonitoring(answers[k])
    {
      var agentRun := poll(attempt);
      fetches := fetches + 1;
      if agentRun.Completed? {
        FirstWhereIs(answers, EndsMonitoring, attempt);
        var prUrl := ExtractPrUrlFromLogs(agentRun.logs);
        PrUrlFromLogsNonEmpty(agentRun.logs);
        if prUrl.Some? && prUrl.value != "" {
          events := events + [PrCreated(prUrl.value)];
        } else {
          events := events + [PrFailed(NoPrError)];
        }
        return;
      } else if agentRun.Failed? {
        FirstWhereIs(answers, EndsMonitoring, attempt);
        events := events + [PrFailed(RunFailedError)];
        return;
      }
      attempt := attempt + 1;
    }
    FirstWhereIs(answers, EndsMonitoring, MaxAttempts);
    if attempt >= MaxAttempts {
      events := events + [PrFailed(TimeoutError)];
    }
  }

  /** The monitor times out exactly when none of the first sixty answers completes or fails the run. */
  lemma MonitorTimesOutIff(poll: nat -> Poll)
    ensures MonitorEvent(poll) == PrFailed(TimeoutError) <==>
      forall k :: 0 <= k < MaxAttempts ==> !EndsMonitoring(poll(k))
    ensures MonitorEvent(poll) == PrFailed(TimeoutError) ==> MonitorFetches(poll) == MaxAttempts
  {
    FirstWhereFinds(Answers(poll, MaxAttempts), EndsMonitoring);
  }

  /** The monitor announces a pull request exactly when, within sixty fetches, the first answer that
      ends the monitoring is a completion whose logs yield a URL; the URL is the one they yield. */
  lemma MonitorCreatesIff(poll: nat -> Poll)
    ensures MonitorEvent(poll).PrCreated? <==>
      exists k :: 0 <= k < MaxAttempts && poll(k).Completed? && PrUrlFromLogs(poll(k).logs).Some? &&
        forall j :: 0 <= j < k ==> !EndsMonitoring(poll(j))
    ensures MonitorEvent(poll).PrCreated? ==>
      var k := MonitorFetches(poll) - 1;
      k < MaxAttempts && poll(k).Completed? && MonitorEvent(poll).prUrl == PrUrlFromLogs(poll(k).logs).value
  {
    var answers := Answers(poll, MaxAttempts);
    FirstWhereFinds(answers, EndsMonitoring);
    var m := MonitorStop(poll);
    forall k | 0 <= k < MaxAttempts && poll(k).Completed? && forall j :: 0 <= j < k ==> !EndsMonitoring(poll(j))
      ensures k == m
    {
      FirstWhereIs(answers, EndsMonitoring, k);
    }
  }

  /** A pending answer and a raised fetch each cost exactly one attempt: the monitor stops with the
      fetch of the first answer that completes or fails the run. */
  lemma MonitorStopsAtFirstEnd(poll: nat -> Poll, k: nat)
    requires k < MaxAttempts && EndsMonitoring(poll(k))
    requires forall j :: 0 <= j < k ==> !EndsMonitoring(poll(j))
    ensures MonitorFetches(poll) == k + 1
    ensures MonitorEvent(poll) != PrFailed(TimeoutError)
  {
    FirstWhereIs(Answers(poll, MaxAttempts), EndsMonitoring, k);
  }

  /** The monitor reports that the run failed exactly when the first answer that ends the
      monitoring, within sixty fetches, is a failure. */
  lemma MonitorRunFailsIff(poll: nat -> Poll)
    ensures MonitorEvent(poll) == PrFailed(RunFailedError) <==>
      exists k :: 0 <= k < MaxAttempts && poll(k).Failed? &&
        forall j :: 0 <= j < k ==> !EndsMonitoring(poll(j))
  {
    var answers := Answers(poll, MaxAttempts);
    FirstWhereFinds(answers, EndsMonitoring);
    var m := MonitorStop(poll);
    forall k | 0 <= k < MaxAttempts && poll(k).Failed? && forall j :: 0 <= j < k ==> !EndsMonitoring(poll(j))
      ensures k == m
    {
      FirstWhereIs(answers, EndsMonitoring, k);
    }
  }

  // ---------------------------------------------------------------------------------------------
  // Waiting for a plan
  // ---------------------------------------------------------------------------------------------

  /** The plan `create_plan` returns (its `createdAt` stamp is left out). */
  datatype PlanRecord = PlanRecord(id: string, content: string, status: string, agentRunId: string)

  /** Why `create_plan` answers with status 500: a call to the service raised, or the run did not
      complete within the wait. */
  datatype PlanError = ServiceError | GenerationFailed

  const MaxWait := 120
  const WaitStep := 5

  /** The most status fetches the wait loop makes: one every `WaitStep` seconds up to `MaxWait`. */
  const MaxFetches := MaxWait / WaitStep

  /** An answer that ends the wait: anything but a pending status. */
  predicate EndsWaiting(p: Poll)
  {
    !p.Pending?
  }

  /** The index of the first answer that ends the wait, or `MaxFetches` when none does. */
  function WaitStop(poll: nat -> Poll): (k: nat)
    ensures k <= MaxFetches
  {
    FirstWhere(Answers(poll, MaxFetches), EndsWaiting)
  }

  /** How many status fetches `create_plan` makes; `createdRun` is the id of the new agent run, or
      `None` when creating it raised. */
  function PlanFetches(createdRun: Option<string>, poll: nat -> Poll): nat
  {
    if createdRun.None? then 0
    else
      var k := WaitStop(poll);
      if k < MaxFetches then k + 1 else MaxFetches
  }

  /** What `create_plan` answers. */
  function PlanOutcome(createdRun: Option<string>, poll: nat -> Poll): Result<PlanRecord, PlanError>
  {
    if createdRun.None? then Failure(ServiceError)
    else
      var k := WaitStop(poll);
      if k == MaxFetches then Failure(GenerationFailed)
      else match poll(k)
        case Completed(logs) =>
          Success(PlanRecord(createdRun.value, PlanText(logs), "created", createdRun.value))
        case Raised => Failure(ServiceError)
        case _ => Failure(GenerationFailed)
  }

  /** `create_plan`: create an agent run, fetch its status every five seconds until it completes or
      fails or two minutes have passed, and build the plan from the logs of a completed run. */
  method CreatePlan(createdRun: Option<string>, poll: nat -> Poll)
    returns (fetches: nat, r: Result<PlanRecord, PlanError>)
    ensures fetches <= MaxFetches
    ensures fetches == PlanFetches(createdRun, poll)
    ensures r == PlanOutcome(createdRun, poll)
  {
    fetches := 0;
    if createdRun.None? {
      return 0, Failure(ServiceError);
    }
    var agentRunId := createdRun.value;
    ghost var answers := Answers(poll, MaxFetches);
    var waited := 0;
    var runStatus := Pending;
    while waited < MaxWait
      invariant waited == WaitStep * fetches && fetches <= MaxFetches
      invariant forall k :: 0 <= k < fetches ==> !EndsWaiting(answers[k])
      invariant fetches > 0 ==> runStatus == answers[fetches - 1]
      invariant fetches == 0 ==> runStatus.Pending?
    {
      runStatus := poll(fetches);
      fetches := fetches + 1;
      if runStatus.Raised? {
        FirstWhereIs(answers, EndsWaiting, fetches - 1);
        return fetches, Failure(ServiceError);
      }
      if runStatus.Completed? || runStatus.Failed? {
        FirstWhereIs(answers, EndsWaiting, fetches - 1);
        break;
      }
      waited := waited + WaitStep;
    }
    if waited >= MaxWait {
      FirstWhereIs(answers, EndsWaiting, MaxFetches);
    }
    if runStatus.Completed? {
      var planContent := ExtractPlanFromLogs(runStatus.logs);
      r := Success(PlanRecord(agentRunId, planContent, "created", agentRunId));
    } else {
      r := Failure(GenerationFailed);
    }
  }

  /** `create_plan` succeeds exactly when the run was created and, within the wait, the first
      answer that is not pending is a completion; the plan is then the text extracted from that
      completion's logs, which is never empty, and carries the run's id. */
  lemma CreatePlanSucceedsIff(createdRun: Option<string>, poll: nat -> Poll)
    ensures PlanOutcome(createdRun, poll).Success? <==>
      createdRun.Some? &&
      exists k :: 0 <= k < MaxFetches && poll(k).Completed? && forall j :: 0 <= j < k ==> poll(j).Pending?
    ensures PlanOutcome(createdRun, poll).Success? ==>
      var plan := PlanOutcome(createdRun, poll).value;
      var k := PlanFetches(createdRun, poll) - 1;
      0 <= k < MaxFetches && poll(k).Completed? && plan.content == PlanText(poll(k).logs) &&
      plan.content != "" && plan.status == "created" && plan.id == plan.agentRunId == createdRun.value
  {
    var answers := Answers(poll, MaxFetches);
    FirstWhereFinds(answers, EndsWaiting);
    var m := WaitStop(poll);
    forall k | 0 <= k < MaxFetches && poll(k).Completed? && forall j :: 0 <= j < k ==> poll(j).Pending?
      ensures k == m
    {
      FirstWhereIs(answers, EndsWaiting, k);
    }
    if m < MaxFetches && poll(m).Completed? {
      PlanTextIsTemplateIffNothingKept(poll(m).logs);
    }
  }

  /** A run still pending after every fetch of the wait makes `create_plan` fail after exactly
      `MaxFetches` fetches. */
  lemma CreatePlanTimesOut(createdRun: Option<string>, poll: nat -> Poll)
    requires createdRun.Some?
    requires forall k :: 0 <= k < MaxFetches ==> poll(k).Pending?
    ensures PlanOutcome(createdRun, poll) == Failure(GenerationFailed)
    ensures PlanFetches(createdRun, poll) == MaxFetches == 24
  {
    FirstWhereIs(Answers(poll, MaxFetches), EndsWaiting, MaxFetches);
  }
}
