/**
 The promise chain behind `wake` and `runOnce`. Each call appends a job that waits for the promise of the
 job before it; a job moves on in single turns of the event loop, and calls may come between any two turns.
 A failing cycle ends like any other: both kinds of job swallow the error before the next job sees it.
 */
module WakeChain {

  /** `WakeJob` cycles while a wake-up is requested; `OnceJob` runs one cycle. */
  datatype Kind = WakeJob | OnceJob

  datatype Phase = Waiting | Checking | InCycle | Done

  datatype Job = Job(kind: Kind, phase: Phase)

  /** `wakeCycles` counts the cycles that wake jobs started. */
  datatype Chain = Chain(running: bool, wakeRequested: bool, jobs: seq<Job>, wakeCycles: nat)

  datatype Event = Wake | RunOnce | Start | Stop | Turn(k: nat)

  /** The promise a job waits for is that of the job appended before it. */
  predicate MayTurn(s: Chain, k: nat) {
    k < |s.jobs| && s.jobs[k].phase != Done && (k == 0 || s.jobs[k - 1].phase == Done)
  }

  predicate Enabled(s: Chain, e: Event) {
    e.Turn? ==> MayTurn(s, e.k)
  }

  function Woken(s: Chain): Chain {
    if !s.running then s else s.(wakeRequested := true, jobs := s.jobs + [Job(WakeJob, Waiting)])
  }

  /** The `while (wakeRequested && running)` test, which takes the request when it passes. */
  function Checked(s: Chain, k: nat): Chain
    requires k < |s.jobs|
  {
    if s.wakeRequested && s.running then
      s.(wakeRequested := false, wakeCycles := s.wakeCycles + 1, jobs := s.jobs[k := s.jobs[k].(phase := InCycle)])
    else s.(jobs := s.jobs[k := s.jobs[k].(phase := Done)])
  }

  function Turned(s: Chain, k: nat): Chain
    requires k < |s.jobs| && s.jobs[k].phase != Done
  {
    var job := s.jobs[k];
    match job.phase
    case Waiting => s.(jobs := s.jobs[k := job.(phase := if job.kind == WakeJob then Checking else InCycle)])
    case Checking => Checked(s, k)
    case InCycle => s.(jobs := s.jobs[k := job.(phase := if job.kind == WakeJob then Checking else Done)])
  }

  function Do(s: Chain, e: Event): Chain
    requires Enabled(s, e)
  {
    match e
    case Wake => Woken(s)
    case RunOnce => s.(jobs := s.jobs + [Job(OnceJob, Waiting)])
    case Start => if s.running then s else Woken(s.(running := true))
    case Stop => s.(running := false)
    case Turn(k) => Turned(s, k)
  }

  predicate Valid(s: Chain, events: seq<Event>)
    decreases |events|
  {
    events == [] || (Enabled(s, events[0]) && Valid(Do(s, events[0]), events[1..]))
  }

  function End(s: Chain, events: seq<Event>): Chain
    requires Valid(s, events)
    decreases |events|
  {
    if events == [] then s else End(Do(s, events[0]), events[1..])
  }

  const IDLE := Chain(false, false, [], 0)

  // ---- the invariant ----

  /** Only finished jobs stand before a job that has begun. */
  predicate InOrder(s: Chain) {
    && (forall i, j | 0 <= i < j < |s.jobs| && s.jobs[j].phase != Waiting :: s.jobs[i].phase == Done)
    && (forall k | 0 <= k < |s.jobs| :: s.jobs[k].kind == OnceJob ==> s.jobs[k].phase != Checking)
  }

  /** A request that was made while running has a wake job that will still look at it. */
  predicate Heard(s: Chain) {
    s.running && s.wakeRequested ==> HasWakeJob(s.jobs)
  }

  predicate HasWakeJob(jobs: seq<Job>) {
    exists k | 0 <= k < |jobs| :: jobs[k].kind == WakeJob && jobs[k].phase != Done
  }

  lemma StaysInOrder(s: Chain, e: Event)
    requires InOrder(s) && Enabled(s, e)
    ensures InOrder(Do(s, e))
  {
    if e.Turn? {
      var k := e.k;
      forall i | 0 <= i < k ensures s.jobs[i].phase == Done {
        if i < k - 1 {
          assert s.jobs[k - 1].phase != Waiting;
        }
      }
    }
  }

  lemma StaysHeard(s: Chain, e: Event)
    requires InOrder(s) && Heard(s) && Enabled(s, e)
    ensures Heard(Do(s, e))
  {
    var t := Do(s, e);
    if t.running && t.wakeRequested {
      if e.Wake? || (e.Start? && !s.running) {
        assert t.jobs[|s.jobs|] == Job(WakeJob, Waiting);
      } else {
        var k :| 0 <= k < |s.jobs| && s.jobs[k].kind == WakeJob && s.jobs[k].phase != Done;
        assert t.jobs[k].kind == WakeJob && t.jobs[k].phase != Done;
      }
    }
  }

  lemma {:induction false} RunsKeepOrder(s: Chain, events: seq<Event>)
    requires InOrder(s) && Heard(s) && Valid(s, events)
    ensures InOrder(End(s, events)) && Heard(End(s, events))
    decreases |events|
  {
    if events != [] {
      StaysInOrder(s, events[0]);
      StaysHeard(s, events[0]);
      RunsKeepOrder(Do(s, events[0]), events[1..]);
    }
  }

  /** In every run, whatever mix of calls and failures, at most one cycle is under way. */
  lemma OneCycleAtATime(events: seq<Event>, i: nat, j: nat)
    requires Valid(IDLE, events)
    requires var s := End(IDLE, events);
             i < |s.jobs| && j < |s.jobs| && s.jobs[i].phase == InCycle && s.jobs[j].phase == InCycle
    ensures i == j
  {
    RunsKeepOrder(IDLE, events);
  }

  // ---- no lost wake-up ----

  /** Turns a job needs before a request that is already made starts its cycle, or before it is done. */
  function TurnsLeft(job: Job): nat {
    match job.phase
    case Waiting => if job.kind == WakeJob then 1 else 2
    case Checking => 0
    case InCycle => 1
    case Done => 0
  }

  /** The turns before the first wake job that is not done takes the request. */
  function Distance(jobs: seq<Job>): nat {
    if jobs == [] then 0
    else if jobs[0].kind == WakeJob && jobs[0].phase != Done then TurnsLeft(jobs[0])
    else TurnsLeft(jobs[0]) + Distance(jobs[1..])
  }

  lemma {:induction false} DistanceBound(jobs: seq<Job>)
    ensures Distance(jobs) <= 2 * |jobs|
  {
    if jobs != [] {
      DistanceBound(jobs[1..]);
    }
  }

  lemma {:induction false} LaterJobsDoNotMatter(jobs: seq<Job>, job: Job)
    requires HasWakeJob(jobs)
    ensures Distance(jobs + [job]) == Distance(jobs)
  {
    assert (jobs + [job])[0] == jobs[0] && (jobs + [job])[1..] == jobs[1..] + [job];
    if !(jobs[0].kind == WakeJob && jobs[0].phase != Done) {
      WakeJobLater(jobs);
      LaterJobsDoNotMatter(jobs[1..], job);
    }
  }

  lemma WakeJobLater(jobs: seq<Job>)
    requires HasWakeJob(jobs) && !(jobs[0].kind == WakeJob && jobs[0].phase != Done)
    ensures HasWakeJob(jobs[1..])
  {
    var k :| 0 <= k < |jobs| && jobs[k].kind == WakeJob && jobs[k].phase != Done;
    assert jobs[1..][k - 1] == jobs[k];
  }

  /** The job whose turn it is, given that those before it are done: the first that is not. */
  lemma {:induction false} TurnShortens(jobs: seq<Job>, k: nat, job: Job)
    requires HasWakeJob(jobs) && k < |jobs| && forall i | 0 <= i < k :: jobs[i].phase == Done
    requires jobs[k].phase != Done && jobs[k].kind == job.kind
    requires jobs[k].kind == OnceJob ==> jobs[k].phase != Checking
    requires jobs[k].kind == WakeJob ==> jobs[k].phase != Checking && job.phase == Checking
    requires jobs[k].kind == OnceJob ==> job.phase == if jobs[k].phase == Waiting then InCycle else Done
    ensures Distance(jobs[k := job]) == Distance(jobs) - 1
    decreases k
  {
    if k > 0 {
      WakeJobLater(jobs);
      assert jobs[k := job][1..] == jobs[1..][k - 1 := job];
      TurnShortens(jobs[1..], k - 1, job);
    } else {
      assert jobs[0 := job][1..] == jobs[1..];
    }
  }

  /** One step: the request stays and the distance shrinks with each turn, or a cycle starts. */
  lemma StepTowardsCycle(s: Chain, e: Event)
    requires InOrder(s) && Heard(s) && s.running && s.wakeRequested && Enabled(s, e) && !e.Stop?
    ensures var t := Do(s, e);
            || (t.wakeCycles == s.wakeCycles + 1 && e.Turn? && Distance(s.jobs) == 0)
            || (t.running && t.wakeRequested && t.wakeCycles == s.wakeCycles
                && Distance(t.jobs) == Distance(s.jobs) - if e.Turn? then 1 else 0)
  {
    match e
    case Wake => LaterJobsDoNotMatter(s.jobs, Job(WakeJob, Waiting));
    case RunOnce => LaterJobsDoNotMatter(s.jobs, Job(OnceJob, Waiting));
    case Start =>
    case Turn(k) =>
      forall i | 0 <= i < k ensures s.jobs[i].phase == Done {
        if i < k - 1 {
          assert s.jobs[k - 1].phase != Waiting;
        }
      }
      if s.jobs[k].phase == Checking {
        NextChecks(s.jobs, k);
      } else {
        TurnShortens(s.jobs, k, Do(s, e).jobs[k]);
      }
  }

  lemma {:induction false} NextChecks(jobs: seq<Job>, k: nat)
    requires k < |jobs| && (forall i | 0 <= i < k :: jobs[i].phase == Done) && jobs[k] == Job(WakeJob, Checking)
    ensures Distance(jobs) == 0
    decreases k
  {
    if k > 0 {
      NextChecks(jobs[1..], k - 1);
    }
  }

  function Turns(events: seq<Event>): nat {
    if events == [] then 0 else (if events[0].Turn? then 1 else 0) + Turns(events[1..])
  }

  predicate NoStop(events: seq<Event>) {
    forall i | 0 <= i < |events| :: !events[i].Stop?
  }

  lemma {:induction false} CyclesOnlyGrow(s: Chain, events: seq<Event>)
    requires Valid(s, events)
    ensures End(s, events).wakeCycles >= s.wakeCycles
    decreases |events|
  {
    if events != [] {
      CyclesOnlyGrow(Do(s, events[0]), events[1..]);
    }
  }

  /**
   A request made while running is followed by a cycle that starts after it, unless `stop` intervenes: once
   the event loop has taken more turns than the distance at the request, the cycle has started; calls that
   come in meanwhile cannot delay it.
   */
  lemma {:induction false} NoLostWakeup(s: Chain, events: seq<Event>)
    requires InOrder(s) && Heard(s) && s.running && s.wakeRequested
    requires Valid(s, events) && NoStop(events)
    ensures Turns(events) > Distance(s.jobs) <==> End(s, events).wakeCycles > s.wakeCycles
    decreases |events|
  {
    if events != [] {
      var t := Do(s, events[0]);
      StepTowardsCycle(s, events[0]);
      StaysInOrder(s, events[0]);
      StaysHeard(s, events[0]);
      if t.wakeCycles > s.wakeCycles {
        CyclesOnlyGrow(t, events[1..]);
      } else {
        NoLostWakeup(t, events[1..]);
      }
    }
  }

  /** The chain cannot get stuck before that: some job can always take a turn. */
  lemma RequestHasATurn(s: Chain) returns (k: nat)
    requires InOrder(s) && Heard(s) && s.running && s.wakeRequested
    ensures Enabled(s, Turn(k))
  {
    k := 0;
    while s.jobs[k].phase == Done
      invariant 0 <= k < |s.jobs| && forall i | 0 <= i < k :: s.jobs[i].phase == Done
      decreases |s.jobs| - k
    {
      var w :| 0 <= w < |s.jobs| && s.jobs[w].kind == WakeJob && s.jobs[w].phase != Done;
      assert w > k;
      k := k + 1;
    }
  }

  /** From any reachable state, a call of `wake` while running is such a request. */
  lemma WakeIsFollowedByACycle(before: seq<Event>, events: seq<Event>)
    requires Valid(IDLE, before) && End(IDLE, before).running
    requires var s := Woken(End(IDLE, before));
             Valid(s, events) && NoStop(events) && Turns(events) > 2 * |s.jobs|
    ensures var s := Woken(End(IDLE, before)); End(s, events).wakeCycles > s.wakeCycles
  {
    var b := End(IDLE, before);
    RunsKeepOrder(IDLE, before);
    StaysInOrder(b, Wake);
    StaysHeard(b, Wake);
    DistanceBound(Woken(b).jobs);
    NoLostWakeup(Woken(b), events);
  }

  /** After `stop`, no wake job starts another cycle until the next `start`. */
  lemma {:induction false} StoppedStartsNoCycle(s: Chain, events: seq<Event>)
    requires !s.running && Valid(s, events) && forall i | 0 <= i < |events| :: !events[i].Start?
    ensures End(s, events).wakeCycles == s.wakeCycles && !End(s, events).running
    decreases |events|
  {
    if events != [] {
      assert !events[0].Start?;
      StoppedStartsNoCycle(Do(s, events[0]), events[1..]);
    }
  }

  // ---- requests and the cycles they start ----

  /** The event asks for a cycle: a wake while running, or the start of a stopped dispatcher. */
  predicate Requests(s: Chain, e: Event) {
    (e.Wake? && s.running) || (e.Start? && !s.running)
  }

  /** The number of requests made in the run. */
  function RequestsIn(s: Chain, events: seq<Event>): nat
    requires Valid(s, events)
    decreases |events|
  {
    if events == [] then 0 else (if Requests(s, events[0]) then 1 else 0) + RequestsIn(Do(s, events[0]), events[1..])
  }

  function Outstanding(s: Chain): nat {
    if s.wakeRequested then 1 else 0
  }

  lemma StepPaysForCycle(s: Chain, e: Event)
    requires Enabled(s, e)
    ensures var t := Do(s, e);
            t.wakeCycles + Outstanding(t) <= s.wakeCycles + Outstanding(s) + if Requests(s, e) then 1 else 0
  {
  }

  /** Wake jobs start no more cycles than were asked for; requests made before a cycle begins share it. */
  lemma {:induction false} NoCycleWithoutARequest(s: Chain, events: seq<Event>)
    requires Valid(s, events)
    ensures End(s, events).wakeCycles + Outstanding(End(s, events)) <= s.wakeCycles + Outstanding(s) + RequestsIn(s, events)
    decreases |events|
  {
    if events != [] {
      StepPaysForCycle(s, events[0]);
      NoCycleWithoutARequest(Do(s, events[0]), events[1..]);
    }
  }

  /** A wake job that finds a request while running takes it and starts its cycle; that is the only way the count moves. */
  lemma CycleStartsWhen(s: Chain, e: Event)
    requires Enabled(s, e)
    ensures var t := Do(s, e);
            if e.Turn? && s.jobs[e.k].phase == Checking && s.wakeRequested && s.running then
              && t.wakeCycles == s.wakeCycles + 1 && !t.wakeRequested
              && t.jobs == s.jobs[e.k := s.jobs[e.k].(phase := InCycle)]
            else t.wakeCycles == s.wakeCycles
    ensures e.Turn? && s.jobs[e.k] == Job(OnceJob, Waiting) ==> Do(s, e).jobs == s.jobs[e.k := Job(OnceJob, InCycle)]
    ensures e.Turn? && s.jobs[e.k] == Job(OnceJob, InCycle) ==> Do(s, e).jobs == s.jobs[e.k := Job(OnceJob, Done)]
    ensures e.Turn? && s.jobs[e.k].phase == Checking && !(s.wakeRequested && s.running) ==>
              Do(s, e).jobs == s.jobs[e.k := s.jobs[e.k].(phase := Done)]
  {
  }

  /** Only start and stop decide whether the dispatcher runs, and a wake of a stopped one is not heard. */
  lemma RunningIs(s: Chain, e: Event)
    requires Enabled(s, e)
    ensures Do(s, e).running == if e.Start? then true else if e.Stop? then false else s.running
    ensures e.Wake? && !s.running ==> Do(s, e) == s
    ensures Requests(s, e) ==> Do(s, e).wakeRequested && Do(s, e).jobs == s.jobs + [Job(WakeJob, Waiting)]
    ensures e.RunOnce? ==> Do(s, e).jobs == s.jobs + [Job(OnceJob, Waiting)]
  {
  }
}
