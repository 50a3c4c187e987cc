/** Terminal reservation of one run, as concurrent callers of `queueDeterministicValidationTerminal`
    (daemon/internal/app/deterministic_validation.go) see it. Each step is one critical section: of
    the daemon's mutex, or of the journal store. Anything may happen between two steps. */
module TerminalQueue {
  import opened Options

  /** 0 is the zero fence. */
  type Fence = nat

  /** `body` stands for the transition's id, state and payload. */
  datatype Transition = Transition(fence: Fence, body: nat)

  datatype Request = Request(expected: Fence, transition: Transition)

  /** The daemon's record of a running run. `native` is a process or session attached to it, and
      `nativeOwner` a terminal owner on behalf of one, which holds a reservation. */
  datatype Run = Run(terminalizing: nat, terminal: bool, cancelled: bool, stale: bool, native: bool, nativeOwner: bool)

  const FRESH: Run := Run(0, false, false, false, false, false)

  datatype Local = Live | TerminalPending | CleanupPending | Stale

  /** An acknowledged terminal has lost its body. */
  datatype Terminal = Open | Pending(transition: Transition) | Acknowledged

  datatype Journal = Journal(fence: Fence, local: Local, terminal: Terminal)

  // ----- the critical sections

  function Begun(run: Option<Run>): Option<Run> {
    if run.None? then None else Some(run.value.(terminalizing := run.value.terminalizing + 1))
  }

  /** The function that `beginTerminal` returns; it does nothing if no record was found then. */
  function Finished(run: Option<Run>, found: bool, entered: bool): Option<Run> {
    if run.None? || !found then run else
    var r := run.value;
    var left := if r.terminalizing > 0 then r.terminalizing - 1 else 0;
    Some(r.(terminalizing := left, terminal := r.terminal || entered))
  }

  predicate Clear(run: Run, own: nat) {
    !run.native && !run.terminal && run.terminalizing <= own && !run.cancelled && !run.stale
  }

  predicate Admits(run: Option<Run>, own: nat) { run.Some? && Clear(run.value, own) }

  predicate Loads(journal: Journal, request: Request) {
    journal.fence == request.expected && journal.local.Live?
  }

  /** What cancelling a run, losing its lease and claiming it for a native session all test first. */
  predicate Unreserved(run: Option<Run>) { run.Some? && !run.value.terminal && run.value.terminalizing == 0 }

  datatype Outcome = Outcome(journal: Journal, ok: bool)

  /** The journal mutation: the first terminal is recorded; an equal one is replayed; any other is refused.
      `valid` is whether transition and evidence are well formed. */
  function Record(journal: Journal, t: Transition, valid: bool): Outcome {
    if !valid || (t.fence != 0 && t.fence != journal.fence) then Outcome(journal, false) else
    var prepared := t.(fence := journal.fence);
    match journal.terminal
    case Open => Outcome(journal.(terminal := Pending(prepared), local := TerminalPending), true)
    case Pending(existing) => Outcome(journal, existing == prepared)
    case Acknowledged => Outcome(journal, false)
  }

  /** The caller believes a stored outcome only under its own fence and pending. */
  predicate Accepted(outcome: Outcome, request: Request) {
    outcome.ok && outcome.journal.fence == request.expected && outcome.journal.local.TerminalPending?
  }

  // ----- the machine

  datatype Caller =
    | Idle
    | Reserved(found: bool)
    | Checked(found: bool, seen: Run)
    | Loaded(found: bool, seen: Run)
    | Leaving(found: bool, entered: bool)
    | Done

  /** A call that returned success: whether its reservation found a record, what its check saw, the record
      at the write, and the journal it left. */
  datatype Success = Success(caller: nat, found: bool, seen: Run, record: Option<Run>, journal: Journal)

  datatype State = State(
    run: Option<Run>, journal: Journal, callers: seq<Caller>,
    others: nat,                // reservations of other terminal paths
    successes: seq<Success>,    // of this function's callers
    recorded: seq<Transition>)  // every terminal ever recorded in the journal

  datatype Step =
    | Begin(i: nat) | Refuse(i: nat) | Check(i: nat) | Load(i: nat, readable: bool) | Queue(i: nat, valid: bool)
    | Finish(i: nat)
    | OtherBegin | OtherFinish(entered: bool) | OtherRecord(t: Transition)
    | Raise(cancelled: bool, stale: bool) | Lower(cancelled: bool, stale: bool) | Shutdown | Attach(native: bool)
    | ClaimNative | ReleaseNative | ExhaustNative | Register | Drop
    | Rewrite(fence: Fence, local: Local) | Acknowledge

  function Set(s: State, i: nat, c: Caller): State
    requires i < |s.callers|
  {
    s.(callers := s.callers[i := c])
  }

  function Noted(s: State, outcome: Outcome): State {
    s.(journal := outcome.journal,
       recorded := if s.journal.terminal.Open? && outcome.journal.terminal.Pending?
                   then s.recorded + [outcome.journal.terminal.transition] else s.recorded)
  }

  /** Steps of caller `i`, by where it is. */
  function CallerStep(requests: seq<Request>, s: State, i: nat, step: Step): State
    requires i < |s.callers| <= |requests|
  {
    match (step, s.callers[i])
    case (Begin(_), Idle) =>
      Set(s, i, Reserved(s.run.Some?)).(run := Begun(s.run))
    case (Refuse(_), Reserved(found)) =>
      Set(s, i, Leaving(found, false))
    case (Check(_), Reserved(found)) =>
      Set(s, i, if Admits(s.run, 1) then Checked(found, s.run.value) else Leaving(found, false))
    case (Load(_, readable), Checked(found, seen)) =>
      Set(s, i, if readable && Loads(s.journal, requests[i]) then Loaded(found, seen) else Leaving(found, false))
    case (Queue(_, valid), Loaded(found, seen)) =>
      var outcome := Record(s.journal, requests[i].transition, valid);
      var ok := Accepted(outcome, requests[i]);
      var t := Set(Noted(s, outcome), i, Leaving(found, ok));
      if ok then t.(successes := s.successes + [Success(i, found, seen, s.run, outcome.journal)]) else t
    case (Finish(_), Leaving(found, entered)) =>
      Set(s, i, Done).(run := Finished(s.run, found, entered))
    case _ => s
  }

  predicate NativeOwned(run: Option<Run>) { run.Some? && run.value.nativeOwner }

  /** The steps that only change flags of the record. A cancellation or a lost lease is published only while
      nobody has reserved the run; daemon shutdown cancels regardless; a native owner that gives up marks the
      run stale; flags are lowered and sessions attached at any time. */
  function Raised(run: Option<Run>, step: Step): Option<Run> {
    if run.None? then None else
    var r := run.value;
    match step
    case Raise(cancelled, stale) =>
      if Unreserved(run) then Some(r.(cancelled := r.cancelled || cancelled, stale := r.stale || stale)) else run
    case Lower(cancelled, stale) => Some(r.(cancelled := r.cancelled && !cancelled, stale := r.stale && !stale))
    case Shutdown => Some(r.(cancelled := true))
    case Attach(native) => Some(r.(native := native))
    case ExhaustNative => if r.nativeOwner then Some(r.(stale := true)) else run
    case _ => run
  }

  /** Steps of the rest of the daemon. */
  function OtherStep(s: State, step: Step): State {
    match step
    case OtherBegin => if s.run.None? then s else s.(run := Begun(s.run), others := s.others + 1)
    case OtherFinish(entered) =>
      if s.others <= (if NativeOwned(s.run) then 1 else 0) then s
      else s.(run := Finished(s.run, true, entered), others := s.others - 1)
    case OtherRecord(t) => Noted(s, Record(s.journal, t, true))
    case Raise(_, _) => s.(run := Raised(s.run, step))
    case Lower(_, _) => s.(run := Raised(s.run, step))
    case Shutdown => s.(run := Raised(s.run, step))
    case Attach(_) => s.(run := Raised(s.run, step))
    case ExhaustNative => s.(run := Raised(s.run, step))
    case ClaimNative =>
      if !Unreserved(s.run) || s.run.value.nativeOwner then s
      else s.(run := Some(s.run.value.(nativeOwner := true, terminalizing := 1)), others := s.others + 1)
    case ReleaseNative =>
      if !NativeOwned(s.run) || s.others == 0 then s
      else s.(run := Finished(Some(s.run.value.(nativeOwner := false)), true, false), others := s.others - 1)
    case Register => if s.run.Some? then s else s.(run := Some(FRESH))
    case Drop => s.(run := None)
    case Rewrite(fence, local) => s.(journal := s.journal.(fence := fence, local := local))
    case Acknowledge =>
      if s.journal.terminal.Open? then s else s.(journal := s.journal.(terminal := Acknowledged))
    case _ => s
  }

  predicate OfCaller(step: Step) {
    step.Begin? || step.Refuse? || step.Check? || step.Load? || step.Queue? || step.Finish?
  }

  function Next(requests: seq<Request>, s: State, step: Step): (t: State)
    requires |s.callers| <= |requests|
    ensures |t.callers| == |s.callers|
  {
    if !OfCaller(step) then OtherStep(s, step)
    else if step.i < |s.callers| then CallerStep(requests, s, step.i, step)
    else s
  }

  function Execute(requests: seq<Request>, s: State, steps: seq<Step>): (t: State)
    requires |s.callers| <= |requests|
    ensures |t.callers| == |s.callers|
    decreases |steps|
  {
    if steps == [] then s else Execute(requests, Next(requests, s, steps[0]), steps[1..])
  }

  predicate Start(s: State) {
    && (forall i | 0 <= i < |s.callers| :: s.callers[i].Idle?)
    && s.others == 0 && s.successes == [] && s.recorded == [] && s.journal.terminal.Open?
    && (s.run.Some? ==> s.run.value.terminalizing == 0 && !s.run.value.nativeOwner)
  }

  // ----- every interleaving

  /** At most one terminal is ever recorded, and it is the one every success stands for. */
  predicate OneTerminal(requests: seq<Request>, s: State)
    requires |s.callers| <= |requests|
  {
    && |s.recorded| <= 1
    && (s.recorded == [] <==> s.journal.terminal.Open?)
    && (s.journal.terminal.Pending? ==> s.recorded == [s.journal.terminal.transition])
    && forall k | 0 <= k < |s.successes| :: Honest(requests, s, s.successes[k])
  }

  /** The transition names the fence the caller expects, or leaves it to the journal. */
  predicate Carries(request: Request) {
    request.transition.fence == 0 || request.transition.fence == request.expected
  }

  /** The check behind a success saw an unreserved, uncancelled, current run without a native process,
      and the terminal was recorded under the expected fence. */
  predicate Honest(requests: seq<Request>, s: State, e: Success)
    requires |s.callers| <= |requests|
  {
    && e.caller < |s.callers|
    && !e.seen.native && !e.seen.terminal && e.seen.terminalizing <= 1 && !e.seen.cancelled && !e.seen.stale
    && e.journal.fence == requests[e.caller].expected && Carries(requests[e.caller])
    && s.recorded == [Transition(e.journal.fence, requests[e.caller].transition.body)]
    && e.journal.terminal == Pending(s.recorded[0])
  }

  predicate Sighted(c: Caller) { c.Checked? || c.Loaded? ==> Clear(c.seen, 1) }

  predicate Safe(requests: seq<Request>, s: State)
    requires |s.callers| <= |requests|
  {
    OneTerminal(requests, s) && forall i | 0 <= i < |s.callers| :: Sighted(s.callers[i])
  }

  lemma StepSafe(requests: seq<Request>, s: State, step: Step)
    requires |s.callers| <= |requests| && Safe(requests, s)
    ensures Safe(requests, Next(requests, s, step))
  {
    var t := Next(requests, s, step);
    if step.Queue? && step.i < |s.callers| && s.callers[step.i].Loaded? {
      forall k | 0 <= k < |t.successes| ensures Honest(requests, t, t.successes[k]) {
        if k < |s.successes| { assert Honest(requests, s, s.successes[k]); }
      }
    } else {
      assert t.successes == s.successes;
      forall k | 0 <= k < |t.successes| ensures Honest(requests, t, t.successes[k]) {
        assert Honest(requests, s, s.successes[k]);
      }
    }
  }

  /** Under every interleaving with anything else: one terminal at most, and no success whose check saw
      the run cancelled, stale or owned, or whose fence was not the expected one when it was recorded. */
  lemma {:induction false} RunSafe(requests: seq<Request>, s: State, steps: seq<Step>)
    requires |s.callers| <= |requests| && Safe(requests, s)
    ensures Safe(requests, Execute(requests, s, steps))
    decreases |steps|
  {
    if steps != [] {
      StepSafe(requests, s, steps[0]);
      RunSafe(requests, Next(requests, s, steps[0]), steps[1..]);
    }
  }

  /** From a start, and so whatever interleaves. */
  lemma InterleavingsSafe(requests: seq<Request>, s: State, steps: seq<Step>)
    requires |s.callers| <= |requests| && Start(s)
    ensures OneTerminal(requests, Execute(requests, s, steps))
  {
    RunSafe(requests, s, steps);
  }

  // ----- how many calls succeed

  /** A caller that succeeded is on its way out, and no caller succeeded twice. */
  predicate Spent(s: State) {
    && (forall k | 0 <= k < |s.successes| ::
          var i := s.successes[k].caller;
          i < |s.callers| && (s.callers[i].Leaving? || s.callers[i].Done?))
    && forall k, l | 0 <= k < l < |s.successes| :: s.successes[k].caller != s.successes[l].caller
  }

  lemma StepSpent(requests: seq<Request>, s: State, step: Step)
    requires |s.callers| <= |requests| && Spent(s)
    ensures Spent(Next(requests, s, step))
  {
    hide Record, Begun, Finished;
    var t := Next(requests, s, step);
    forall k | 0 <= k < |t.successes|
      ensures var i := t.successes[k].caller; i < |t.callers| && (t.callers[i].Leaving? || t.callers[i].Done?)
    {
      if k < |s.successes| { assert t.successes[k] == s.successes[k]; }
    }
  }

  lemma {:induction false} RunSpent(requests: seq<Request>, s: State, steps: seq<Step>)
    requires |s.callers| <= |requests| && Spent(s)
    ensures Spent(Execute(requests, s, steps))
    decreases |steps|
  {
    if steps != [] {
      StepSpent(requests, s, steps[0]);
      RunSpent(requests, Next(requests, s, steps[0]), steps[1..]);
    }
  }

  /** Two requests that one record can answer. */
  predicate Compatible(a: Request, b: Request) {
    && a.expected == b.expected && a.transition.body == b.transition.body && Carries(a) && Carries(b)
  }

  predicate Distinct(requests: seq<Request>) {
    forall i, j | 0 <= i < j < |requests| :: !Compatible(requests[i], requests[j])
  }

  /** Two successes stand for one record, so their callers carry the same transition. */
  lemma TwoSuccesses(requests: seq<Request>, s: State, steps: seq<Step>)
    requires |s.callers| <= |requests| && Start(s) && |Execute(requests, s, steps).successes| >= 2
    ensures !Distinct(requests)
  {
    RunSafe(requests, s, steps);
    RunSpent(requests, s, steps);
    var t := Execute(requests, s, steps);
    assert Honest(requests, t, t.successes[0]) && Honest(requests, t, t.successes[1]);
    var i, j := t.successes[0].caller, t.successes[1].caller;
    var lo, hi := if i < j then i else j, if i < j then j else i;
    assert Compatible(requests[lo], requests[hi]);
  }

  ghost predicate OneEver(requests: seq<Request>) {
    forall s: State, steps: seq<Step> | |s.callers| == |requests| && Start(s) ::
      |Execute(requests, s, steps).successes| <= 1
  }

  /** At most one of the callers succeeds in every interleaving exactly when no two carry the same
      transition under the same fence. */
  lemma OneSuccessExact(requests: seq<Request>)
    ensures OneEver(requests) <==> Distinct(requests)
  {
    if Distinct(requests) {
      forall s: State, steps: seq<Step> | |s.callers| == |requests| && Start(s)
        ensures |Execute(requests, s, steps).successes| <= 1
      {
        if |Execute(requests, s, steps).successes| >= 2 { TwoSuccesses(requests, s, steps); }
      }
    } else {
      var i, j :| 0 <= i < j < |requests| && Compatible(requests[i], requests[j]);
      var steps := BothSucceed(requests, i, j);
      assert |Execute(requests, Unowned(requests, requests[i].expected), steps).successes| == 2;
    }
  }

  /** Every call makes a transition of its own, so at most one of them succeeds. */
  lemma OwnTransitionsSucceedOnce(requests: seq<Request>)
    requires forall i, j | 0 <= i < j < |requests| :: requests[i].transition.body != requests[j].transition.body
    ensures OneEver(requests)
  {
    OneSuccessExact(requests);
  }

  // ----- the reservation

  predicate InFlight(c: Caller) { !c.Idle? && !c.Done? }

  /** Past the check, and not turned away since. */
  predicate Owner(c: Caller) { c.Checked? || c.Loaded? || (c.Leaving? && c.entered) }

  /** The callers whose reservation is counted on a record. */
  function Holding(callers: seq<Caller>): set<nat> {
    set i | 0 <= i < |callers| && Holds(callers[i])
  }

  predicate Holds(c: Caller) { InFlight(c) && c.found }

  /** A record outlives the reservations made on it. */
  predicate Kept(s: State, step: Step) {
    step.Drop? ==> Holding(s.callers) == {} && s.others == 0
  }

  /** The count is exactly the reservations held; a native owner holds one of them. */
  predicate Counted(s: State) {
    && (s.run.Some? ==> s.run.value.terminalizing == |Holding(s.callers)| + s.others)
    && (s.run.None? ==> Holding(s.callers) == {} && s.others == 0)
    && (NativeOwned(s.run) ==> s.others >= 1)
  }

  /** At most one caller that holds a reservation is past its check. */
  predicate OneOwner(s: State) {
    forall i, j | 0 <= i < j < |s.callers| ::
      !(Holds(s.callers[i]) && Owner(s.callers[i]) && Holds(s.callers[j]) && Owner(s.callers[j]))
  }

  lemma HoldingSet(callers: seq<Caller>, i: nat, c: Caller)
    requires i < |callers|
    ensures Holding(callers[i := c]) == if Holds(c) then Holding(callers) + {i} else Holding(callers) - {i}
    ensures i in Holding(callers) <==> Holds(callers[i])
  {
  }

  lemma TwoHolding(callers: seq<Caller>, i: nat, j: nat)
    requires i < |callers| && j < |callers| && i != j && Holds(callers[i]) && Holds(callers[j])
    ensures |Holding(callers)| >= 2
  {
    var rest := Holding(callers) - {i};
    assert j in rest;
    assert |rest - {j}| == |rest| - 1;
  }

  lemma OneHolding(callers: seq<Caller>, i: nat)
    requires i < |callers| && Holds(callers[i])
    ensures |Holding(callers)| >= 1
  {
    assert i in Holding(callers);
  }

  /** A caller's step makes its reservation, gives it back, or leaves the record alone. */
  lemma CallerEffect(requests: seq<Request>, s: State, i: nat, step: Step)
    requires i < |s.callers| <= |requests|
    ensures var t := CallerStep(requests, s, i, step);
            var c, d := s.callers[i], t.callers[i];
            && t.callers == s.callers[i := d] && t.others == s.others
            && (|| (step.Begin? && c.Idle? && d == Reserved(s.run.Some?) && t.run == Begun(s.run))
                || (c.Leaving? && d.Done? && t.run == Finished(s.run, c.found, c.entered))
                || (t.run == s.run && InFlight(c) == InFlight(d) && (InFlight(c) ==> c.found == d.found)))
  {
  }

  lemma StepCounted(requests: seq<Request>, s: State, step: Step)
    requires |s.callers| <= |requests| && Counted(s) && Kept(s, step)
    ensures Counted(Next(requests, s, step))
  {
    hide Holding, CallerStep, Record;
    if OfCaller(step) && step.i < |s.callers| {
      CallerEffect(requests, s, step.i, step);
      HoldingSet(s.callers, step.i, CallerStep(requests, s, step.i, step).callers[step.i]);
    }
  }

  /** A check passes only for a caller whose reservation is the only one. */
  lemma StepOneOwner(requests: seq<Request>, s: State, step: Step)
    requires |s.callers| <= |requests| && Counted(s) && OneOwner(s)
    ensures OneOwner(Next(requests, s, step))
  {
    hide Holding, Record;
    var t := Next(requests, s, step);
    forall i, j | 0 <= i < j < |t.callers|
      ensures !(Holds(t.callers[i]) && Owner(t.callers[i]) && Holds(t.callers[j]) && Owner(t.callers[j]))
    {
      if Holds(s.callers[i]) && Holds(s.callers[j]) { TwoHolding(s.callers, i, j); }
    }
  }

  // ----- the run is live at the write

  /** Past its check and about to write. */
  predicate Deciding(c: Caller) { c.Checked? || c.Loaded? }

  predicate Alive(run: Option<Run>) { run.Some? && !run.value.cancelled && !run.value.stale }

  /** While a caller that holds a reservation is between its check and its write, the run is alive and has no
      native owner; and so it was at every such write. */
  predicate Guarded(s: State) {
    && (forall i | 0 <= i < |s.callers| :: Deciding(s.callers[i]) && s.callers[i].found ==>
          Alive(s.run) && !NativeOwned(s.run))
    && (forall k | 0 <= k < |s.successes| :: s.successes[k].found ==> Alive(s.successes[k].record))
  }

  /** Shutdown does not come between a check and its write. */
  predicate Undisturbed(s: State, step: Step) {
    step.Shutdown? ==> forall i | 0 <= i < |s.callers| :: !Deciding(s.callers[i])
  }

  lemma StepGuarded(requests: seq<Request>, s: State, step: Step)
    requires |s.callers| <= |requests| && Counted(s) && Guarded(s) && Kept(s, step) && Undisturbed(s, step)
    ensures Guarded(Next(requests, s, step))
  {
    hide Holding, Record;
    var t := Next(requests, s, step);
    forall i | 0 <= i < |t.callers| && Deciding(t.callers[i]) && t.callers[i].found
      ensures Alive(t.run) && !NativeOwned(t.run)
    {
      assert Holds(s.callers[i]);
      OneHolding(s.callers, i);
      assert i in Holding(s.callers) by { HoldingSet(s.callers, i, s.callers[i]); }
    }
  }

  predicate OneSuccess(s: State) {
    && |s.successes| <= 1
    && (s.successes != [] ==>
        !s.journal.local.Live? && forall i | 0 <= i < |s.callers| :: !s.callers[i].Loaded?)
  }

  /** What exclusion of all callers relies on besides: a reservation is made on a record, and a journal that
      left the live states does not come back. */
  predicate Steady(s: State, step: Step) {
    && Kept(s, step)
    && (step.Begin? ==> s.run.Some?)
    && (step.Rewrite? && step.local.Live? ==> s.journal.local.Live?)
  }

  predicate SteadyRun(requests: seq<Request>, s: State, steps: seq<Step>)
    requires |s.callers| <= |requests|
    decreases |steps|
  {
    steps == [] || (Steady(s, steps[0]) && SteadyRun(requests, Next(requests, s, steps[0]), steps[1..]))
  }

  predicate AllFound(s: State) {
    && (forall i | 0 <= i < |s.callers| :: InFlight(s.callers[i]) ==> s.callers[i].found)
    && (forall k | 0 <= k < |s.successes| :: s.successes[k].found)
  }

  lemma StepAllFound(requests: seq<Request>, s: State, step: Step)
    requires |s.callers| <= |requests| && AllFound(s) && (step.Begin? ==> s.run.Some?)
    ensures AllFound(Next(requests, s, step))
  {
    hide Record;
  }

  predicate Exclusive(s: State) { Counted(s) && AllFound(s) && OneOwner(s) && OneSuccess(s) }

  lemma StepOneSuccess(requests: seq<Request>, s: State, step: Step)
    requires |s.callers| <= |requests| && AllFound(s) && OneOwner(s) && OneSuccess(s) && Steady(s, step)
    ensures OneSuccess(Next(requests, s, step))
  {
    hide Holding;
    if step.Queue? && step.i < |s.callers| && s.callers[step.i].Loaded? {
      OnlyOwner(s, step.i);
    }
  }

  lemma OnlyOwner(s: State, i: nat)
    requires AllFound(s) && OneOwner(s) && i < |s.callers| && Owner(s.callers[i])
    ensures forall k | 0 <= k < |s.callers| && k != i :: !Owner(s.callers[k])
  {
    forall k | 0 <= k < |s.callers| && k != i ensures !Owner(s.callers[k]) {
      var c, d := s.callers[i], s.callers[k];
      assert if k < i then !(Holds(d) && Owner(d) && Holds(c) && Owner(c))
          else !(Holds(c) && Owner(c) && Holds(d) && Owner(d));
    }
  }

  lemma {:induction false} RunExclusive(requests: seq<Request>, s: State, steps: seq<Step>)
    requires |s.callers| <= |requests| && Exclusive(s) && SteadyRun(requests, s, steps)
    ensures Exclusive(Execute(requests, s, steps))
    decreases |steps|
  {
    if steps != [] {
      StepCounted(requests, s, steps[0]);
      StepAllFound(requests, s, steps[0]);
      StepOneOwner(requests, s, steps[0]);
      StepOneSuccess(requests, s, steps[0]);
      RunExclusive(requests, Next(requests, s, steps[0]), steps[1..]);
    }
  }

  /** Under every interleaving in which reservations are made on a lasting record, at most one caller is
      past its check at any time and at most one ever succeeds. */
  lemma ReservationExclusive(requests: seq<Request>, s: State, steps: seq<Step>)
    requires |s.callers| <= |requests| && Start(s) && SteadyRun(requests, s, steps)
    ensures var t := Execute(requests, s, steps);
            && |t.successes| <= 1
            && forall i, j | 0 <= i < j < |t.callers| :: !(Owner(t.callers[i]) && Owner(t.callers[j]))
  {
    assert Holding(s.callers) == {};
    RunExclusive(requests, s, steps);
    var t := Execute(requests, s, steps);
    forall i, j | 0 <= i < j < |t.callers| ensures !(Owner(t.callers[i]) && Owner(t.callers[j])) {
      if Owner(t.callers[i]) { OnlyOwner(t, i); }
    }
  }

  /** A reservation given back leaves the record as it was found. */
  lemma FinishUndoesBegin(run: Option<Run>)
    ensures Finished(Begun(run), run.Some?, false) == run
  {
  }

  /** The first terminal recorded stays: whatever is recorded next, the journal is unchanged, and the call
      is answered with success exactly when it asks for the same again. */
  lemma FirstTerminalStays(j: Journal, t: Transition, u: Transition, valid: bool)
    requires Record(j, t, true).ok
    ensures var first := Record(j, t, true);
            var second := Record(first.journal, u, valid);
            && second.journal == first.journal
            && (second.ok <==> valid && u.body == t.body && (u.fence == 0 || u.fence == j.fence))
  {
  }

  /** A call never records a terminal and then reports failure, whatever the journal, exactly when its
      transition carries the expected fence and that is not the zero fence. */
  lemma RecordedIsReported(request: Request)
    ensures (forall j: Journal, valid: bool | Record(j, request.transition, valid).journal != j ::
               Accepted(Record(j, request.transition, valid), request))
            <==> request.transition.fence == request.expected != 0
  {
    var t := request.transition;
    if t.fence != request.expected || t.fence == 0 {
      var j := Journal(if t.fence == 0 then request.expected + 1 else t.fence, Live, Open);
      assert Record(j, t, true).journal != j && !Accepted(Record(j, t, true), request);
    }
  }

  // ----- what the reservation does not give

  /** Nobody has called yet and the run has no record. */
  function Unowned(requests: seq<Request>, fence: Fence): (s: State)
    ensures |s.callers| == |requests| && Start(s)
  {
    State(None, Journal(fence, Live, Open), seq(|requests|, _ => Idle), 0, [], [])
  }

  const ONCE: Run := FRESH.(terminalizing := 1)

  /** A reservation that found no record is not counted in the one registered after it, so two callers
      pass their checks. */
  lemma BothPass(requests: seq<Request>, s: State, i: nat, j: nat, rest: seq<Step>) returns (t: State)
    requires |s.callers| <= |requests| && i < j < |s.callers|
    requires s.run == None && s.callers[i].Idle? && s.callers[j].Idle?
    ensures t == s.(run := Some(ONCE), callers := s.callers[i := Checked(false, ONCE)][j := Checked(true, ONCE)])
    ensures Execute(requests, s, [Begin(i)] + ([Register] + ([Begin(j)] + ([Check(i)] + ([Check(j)] + rest)))))
         == Execute(requests, t, rest)
  {
    hide Execute, AllowedRun;
    var s1 := s.(callers := s.callers[i := Reserved(false)]);
    var s2 := s1.(run := Some(FRESH));
    var s3 := s2.(run := Some(ONCE), callers := s1.callers[j := Reserved(true)]);
    var s4 := s3.(callers := s3.callers[i := Checked(false, ONCE)]);
    t := s4.(callers := s4.callers[j := Checked(true, ONCE)]);
    AllowedHead(ANY, requests, s, Begin(i), [Register] + ([Begin(j)] + ([Check(i)] + ([Check(j)] + rest))));
    assert Next(requests, s, Begin(i)) == s1;
    AllowedHead(ANY, requests, s1, Register, [Begin(j)] + ([Check(i)] + ([Check(j)] + rest)));
    assert Next(requests, s1, Register) == s2;
    AllowedHead(ANY, requests, s2, Begin(j), [Check(i)] + ([Check(j)] + rest));
    assert Next(requests, s2, Begin(j)) == s3;
    AllowedHead(ANY, requests, s3, Check(i), [Check(j)] + rest);
    assert Next(requests, s3, Check(i)) == s4;
    AllowedHead(ANY, requests, s4, Check(j), rest);
    assert Next(requests, s4, Check(j)) == t;
    assert t.callers == s.callers[i := Checked(false, ONCE)][j := Checked(true, ONCE)];
  }

  /** Two callers past their checks both load, one records the terminal and the other replays it. */
  lemma BothQueue(requests: seq<Request>, s: State, i: nat, j: nat) returns (steps: seq<Step>)
    requires |s.callers| <= |requests| && i < j < |s.callers|
    requires s.callers[i].Checked? && s.callers[j].Checked? && s.successes == []
    requires Compatible(requests[i], requests[j]) && s.journal == Journal(requests[i].expected, Live, Open)
    ensures |Execute(requests, s, steps).successes| == 2
  {
    hide Execute, AllowedRun;
    steps := [Load(i, true)] + ([Load(j, true)] + ([Queue(i, true)] + ([Queue(j, true)] + [])));
    var s1 := Next(requests, s, Load(i, true));
    var s2 := Next(requests, s1, Load(j, true));
    var s3 := Next(requests, s2, Queue(i, true));
    var s4 := Next(requests, s3, Queue(j, true));
    AllowedHead(ANY, requests, s, Load(i, true), [Load(j, true)] + ([Queue(i, true)] + ([Queue(j, true)] + [])));
    AllowedHead(ANY, requests, s1, Load(j, true), [Queue(i, true)] + ([Queue(j, true)] + []));
    AllowedHead(ANY, requests, s2, Queue(i, true), [Queue(j, true)] + []);
    AllowedHead(ANY, requests, s3, Queue(j, true), []);
    NoSteps(ANY, requests, s4);
    assert s2.callers[i].Loaded? && s2.callers[j].Loaded? && s2.journal == s.journal;
    var t := Transition(requests[i].expected, requests[i].transition.body);
    assert s3.journal == Journal(requests[i].expected, TerminalPending, Pending(t)) && |s3.successes| == 1;
    assert s3.callers[j].Loaded?;
  }

  /** The reservation alone does not admit one caller only: a run with two successes. */
  lemma BothSucceed(requests: seq<Request>, i: nat, j: nat) returns (steps: seq<Step>)
    requires i < j < |requests| && Compatible(requests[i], requests[j])
    ensures |Execute(requests, Unowned(requests, requests[i].expected), steps).successes| == 2
  {
    hide Execute, Start;
    var s := Unowned(requests, requests[i].expected);
    var t := s.(run := Some(ONCE), callers := s.callers[i := Checked(false, ONCE)][j := Checked(true, ONCE)]);
    var rest := BothQueue(requests, t, i, j);
    var t' := BothPass(requests, s, i, j, rest);
    steps := [Begin(i)] + ([Register] + ([Begin(j)] + ([Check(i)] + ([Check(j)] + rest))));
  }

  // ----- when a terminal can be written for a run that is not alive

  /** Which runs are considered: reservations always find a record, records outlive them, and shutdown does
      not come between a check and its write. */
  datatype Policy = Policy(found: bool, kept: bool, undisturbed: bool)

  const ANY: Policy := Policy(false, false, false)

  predicate Allows(p: Policy, s: State, step: Step) {
    && (p.found && step.Begin? ==> s.run.Some?)
    && (p.kept ==> Kept(s, step))
    && (p.undisturbed ==> Undisturbed(s, step))
  }

  predicate AllowedRun(p: Policy, requests: seq<Request>, s: State, steps: seq<Step>)
    requires |s.callers| <= |requests|
    decreases |steps|
  {
    steps == [] || (Allows(p, s, steps[0]) && AllowedRun(p, requests, Next(requests, s, steps[0]), steps[1..]))
  }

  lemma {:induction false} RunGuarded(p: Policy, requests: seq<Request>, s: State, steps: seq<Step>)
    requires |s.callers| <= |requests| && p.kept && p.undisturbed && AllowedRun(p, requests, s, steps)
    requires Counted(s) && Guarded(s) && (p.found ==> AllFound(s))
    ensures var t := Execute(requests, s, steps); Counted(t) && Guarded(t) && (p.found ==> AllFound(t))
    decreases |steps|
  {
    hide Next, Counted, Guarded, AllFound, Kept, Undisturbed;
    if steps != [] {
      StepCounted(requests, s, steps[0]);
      StepGuarded(requests, s, steps[0]);
      if p.found { StepAllFound(requests, s, steps[0]); }
      RunGuarded(p, requests, Next(requests, s, steps[0]), steps[1..]);
    }
  }

  /** In every interleaving in which records outlive reservations and shutdown does not come between a check
      and its write: a caller whose reservation found the record decides on a run that is neither cancelled
      nor stale, from its check up to and at its write. */
  lemma ReservedRunStaysAlive(requests: seq<Request>, s: State, steps: seq<Step>)
    requires |s.callers| <= |requests| && Start(s) && AllowedRun(Policy(false, true, true), requests, s, steps)
    ensures var t := Execute(requests, s, steps);
            && (forall i | 0 <= i < |t.callers| :: Deciding(t.callers[i]) && t.callers[i].found ==> Alive(t.run))
            && (forall k | 0 <= k < |t.successes| :: t.successes[k].found ==> Alive(t.successes[k].record))
  {
    assert Holding(s.callers) == {};
    RunGuarded(Policy(false, true, true), requests, s, steps);
  }

  /** Every terminal queued in a run so allowed was written for a run that was alive. */
  ghost predicate AliveAtWrite(p: Policy) {
    forall requests: seq<Request>, s: State, steps: seq<Step>
      | |s.callers| == |requests| && Start(s) && AllowedRun(p, requests, s, steps) ::
      AllAlive(Execute(requests, s, steps))
  }

  predicate AllAlive(s: State) { forall k | 0 <= k < |s.successes| :: Alive(s.successes[k].record) }

  /** No terminal is ever queued for a cancelled, stale or vanished run exactly when reservations find a
      record, the record outlives them, and shutdown stays out of the window between check and write. */
  lemma AliveAtWriteExact(p: Policy)
    ensures AliveAtWrite(p) <==> p.found && p.kept && p.undisturbed
  {
    if p.found && p.kept && p.undisturbed {
      forall requests: seq<Request>, s: State, steps: seq<Step>
        | |s.callers| == |requests| && Start(s) && AllowedRun(p, requests, s, steps)
        ensures AllAlive(Execute(requests, s, steps))
      {
        assert Holding(s.callers) == {};
        RunGuarded(p, requests, s, steps);
      }
    } else {
      var request := Request(1, Transition(1, 7));
      var s, steps;
      if !p.found { s, steps := UnfoundFails(p, request); }
      else if !p.kept { s, steps := DroppedFails(p, request); }
      else { s, steps := ShutdownFails(p, request); }
      assert !AllAlive(Execute([request], s, steps));
    }
  }

  lemma AllowedHead(p: Policy, requests: seq<Request>, s: State, step: Step, rest: seq<Step>)
    requires |s.callers| <= |requests|
    ensures AllowedRun(p, requests, s, [step] + rest)
       <==> Allows(p, s, step) && AllowedRun(p, requests, Next(requests, s, step), rest)
    ensures Execute(requests, s, [step] + rest) == Execute(requests, Next(requests, s, step), rest)
  {
    assert ([step] + rest)[1..] == rest;
  }

  /** A lone caller with the journal it expects. */
  function Lone(run: Option<Run>, request: Request, c: Caller): State {
    State(run, Journal(request.expected, Live, Open), [c], 0, [], [])
  }

  /** From its check on, a lone caller that nobody disturbs succeeds, on whatever record there is. */
  lemma LoneWrites(p: Policy, request: Request, run: Option<Run>, found: bool, seen: Run) returns (steps: seq<Step>)
    requires Carries(request)
    ensures var s := Lone(run, request, Checked(found, seen));
            && AllowedRun(p, [request], s, steps)
            && |Execute([request], s, steps).successes| == 1
            && Execute([request], s, steps).successes[0].record == run
  {
    hide Execute, AllowedRun;
    var requests, s := [request], Lone(run, request, Checked(found, seen));
    var s1 := Lone(run, request, Loaded(found, seen));
    var s2 := Next(requests, s1, Queue(0, true));
    steps := [Load(0, true)] + ([Queue(0, true)] + []);
    assert Next(requests, s, Load(0, true)) == s1;
    AllowedHead(p, requests, s, Load(0, true), [Queue(0, true)] + []);
    AllowedHead(p, requests, s1, Queue(0, true), []);
    NoSteps(p, requests, s2);
  }

  lemma NoSteps(p: Policy, requests: seq<Request>, s: State)
    requires |s.callers| <= |requests|
    ensures AllowedRun(p, requests, s, []) && Execute(requests, s, []) == s
  {
  }

  /** The reservation found no record; one is registered, the check passes, and a cancellation sees nobody
      holding it. */
  lemma UnfoundFails(p: Policy, request: Request) returns (s: State, steps: seq<Step>)
    requires !p.found && Carries(request)
    ensures |s.callers| == 1 && Start(s) && AllowedRun(p, [request], s, steps)
    ensures !AllAlive(Execute([request], s, steps))
  {
    hide Execute, AllowedRun;
    var requests := [request];
    var late := Some(FRESH.(cancelled := true));
    s := Lone(None, request, Idle);
    var s1 := Lone(None, request, Reserved(false));
    var s2 := Lone(Some(FRESH), request, Reserved(false));
    var s3 := Lone(Some(FRESH), request, Checked(false, FRESH));
    var rest := LoneWrites(p, request, late, false, FRESH);
    steps := [Begin(0)] + ([Register] + ([Check(0)] + ([Raise(true, false)] + rest)));
    assert Next(requests, s, Begin(0)) == s1;
    AllowedHead(p, requests, s, Begin(0), [Register] + ([Check(0)] + ([Raise(true, false)] + rest)));
    assert Next(requests, s1, Register) == s2;
    AllowedHead(p, requests, s1, Register, [Check(0)] + ([Raise(true, false)] + rest));
    assert Next(requests, s2, Check(0)) == s3;
    AllowedHead(p, requests, s2, Check(0), [Raise(true, false)] + rest);
    assert Next(requests, s3, Raise(true, false)) == Lone(late, request, Checked(false, FRESH));
    AllowedHead(p, requests, s3, Raise(true, false), rest);
  }

  /** The record a reservation was made on is replaced after the check, and the new one is cancelled. */
  lemma DroppedFails(p: Policy, request: Request) returns (s: State, steps: seq<Step>)
    requires !p.kept && Carries(request)
    ensures |s.callers| == 1 && Start(s) && AllowedRun(p, [request], s, steps)
    ensures !AllAlive(Execute([request], s, steps))
  {
    hide Execute, AllowedRun;
    var requests := [request];
    var late := Some(FRESH.(cancelled := true));
    s := Lone(Some(FRESH), request, Idle);
    var s2 := Lone(Some(ONCE), request, Checked(true, ONCE));
    var s3 := Lone(None, request, Checked(true, ONCE));
    var s4 := Lone(Some(FRESH), request, Checked(true, ONCE));
    var rest := LoneWrites(p, request, late, true, ONCE);
    var tail := [Register] + ([Raise(true, false)] + rest);
    steps := [Begin(0)] + ([Check(0)] + ([Drop] + tail));
    LoneChecked(p, request, [Drop] + tail);
    assert Next(requests, s2, Drop) == s3;
    AllowedHead(p, requests, s2, Drop, tail);
    assert Next(requests, s3, Register) == s4;
    AllowedHead(p, requests, s3, Register, [Raise(true, false)] + rest);
    assert Next(requests, s4, Raise(true, false)) == Lone(late, request, Checked(true, ONCE));
    AllowedHead(p, requests, s4, Raise(true, false), rest);
  }

  /** Shutdown after the check cancels the run whoever has reserved it. */
  lemma ShutdownFails(p: Policy, request: Request) returns (s: State, steps: seq<Step>)
    requires !p.undisturbed && Carries(request)
    ensures |s.callers| == 1 && Start(s) && AllowedRun(p, [request], s, steps)
    ensures !AllAlive(Execute([request], s, steps))
  {
    hide Execute, AllowedRun;
    var requests := [request];
    var late := Some(ONCE.(cancelled := true));
    s := Lone(Some(FRESH), request, Idle);
    var s2 := Lone(Some(ONCE), request, Checked(true, ONCE));
    var rest := LoneWrites(p, request, late, true, ONCE);
    steps := [Begin(0)] + ([Check(0)] + ([Shutdown] + rest));
    LoneChecked(p, request, [Shutdown] + rest);
    assert Next(requests, s2, Shutdown) == Lone(late, request, Checked(true, ONCE));
    AllowedHead(p, requests, s2, Shutdown, rest);
  }

  /** A lone caller reserves a fresh record and passes its check. */
  lemma LoneChecked(p: Policy, request: Request, rest: seq<Step>)
    ensures var s, t := Lone(Some(FRESH), request, Idle), Lone(Some(ONCE), request, Checked(true, ONCE));
            var steps := [Begin(0)] + ([Check(0)] + rest);
            && (AllowedRun(p, [request], s, steps) <==> AllowedRun(p, [request], t, rest))
            && Execute([request], s, steps) == Execute([request], t, rest)
  {
    hide Execute, AllowedRun;
    var requests, s := [request], Lone(Some(FRESH), request, Idle);
    var s1 := Lone(Some(ONCE), request, Reserved(true));
    assert Next(requests, s, Begin(0)) == s1;
    AllowedHead(p, requests, s, Begin(0), [Check(0)] + rest);
    assert Next(requests, s1, Check(0)) == Lone(Some(ONCE), request, Checked(true, ONCE));
    AllowedHead(p, requests, s1, Check(0), rest);
  }
}

/** The same critical sections as the daemon's methods, and the whole call made without interference. */
module TerminalDaemon {
  import opened Options
  import opened TerminalQueue

  class Daemon {
    var run: Option<Run>
    var journal: Journal

    constructor (run: Option<Run>, journal: Journal)
      ensures this.run == run && this.journal == journal
    {
      this.run, this.journal := run, journal;
    }

    method BeginTerminal() returns (found: bool)
      modifies this`run
      ensures found == old(run).Some? && run == Begun(old(run))
    {
      if run.None? { return false; }
      run := Some(run.value.(terminalizing := run.value.terminalizing + 1));
      return true;
    }

    method FinishTerminal(found: bool, entered: bool)
      modifies this`run
      ensures run == Finished(old(run), found, entered)
    {
      if !found || run.None? { return; }
      var active := run.value;
      if active.terminalizing > 0 { active := active.(terminalizing := active.terminalizing - 1); }
      if entered { active := active.(terminal := true); }
      run := Some(active);
    }

    method ValidateActiveRun(own: nat) returns (admitted: bool)
      ensures admitted == Admits(run, own)
    {
      if run.None? { return false; }
      var active := run.value;
      if active.native { return false; }
      if active.terminal || active.terminalizing > own { return false; }
      if active.cancelled { return false; }
      return !active.stale;
    }

    method Queue(t: Transition, valid: bool) returns (ok: bool)
      modifies this`journal
      ensures Outcome(journal, ok) == Record(old(journal), t, valid)
    {
      if !valid || (t.fence != 0 && t.fence != journal.fence) { return false; }
      var prepared := t.(fence := journal.fence);
      match journal.terminal
      case Open =>
        journal := journal.(terminal := Pending(prepared), local := TerminalPending);
        return true;
      case Pending(existing) =>
        return existing == prepared;
      case Acknowledged =>
        return false;
    }

    /** `queueDeterministicValidationTerminal` undisturbed. It succeeds exactly on a live journal under the
        expected fence and a run nobody else reserves, cancelled or holds; the reservation is always given
        back, and the run is marked terminal on success only. */
    method QueueTerminal(request: Request, inTime: bool, readable: bool, valid: bool) returns (queued: bool)
      modifies this
      ensures queued <==>
              && inTime && readable && valid
              && old(run).Some?
              && (var r := old(run).value;
                  !r.native && !r.terminal && r.terminalizing == 0 && !r.cancelled && !r.stale)
              && old(journal).fence == request.expected && old(journal).local == Live
              && (request.transition.fence == 0 || request.transition.fence == request.expected)
              && old(journal).terminal.Open?
      ensures run == if queued then Some(old(run).value.(terminal := true)) else old(run)
      ensures queued ==> journal.terminal == Pending(Transition(request.expected, request.transition.body))
      ensures queued ==> journal.fence == old(journal).fence && journal.local == TerminalPending
      ensures !queued ==> journal == old(journal)
    {
      var found := BeginTerminal();
      queued := false;
      if inTime {
        var admitted := ValidateActiveRun(1);
        if admitted && readable && journal.fence == request.expected && journal.local.Live? {
          var ok := Queue(request.transition, valid);
          queued := ok && journal.fence == request.expected && journal.local.TerminalPending?;
        }
      }
      FinishTerminal(found, queued);
    }
  }
}
