/** The response-holding registry of scripts/ci/rootless-compose-transition-proxy.py as a state machine:
    what each critical section does, and what every interleaving of them keeps. */
module Holds {
  import opened Options

  const ARM_TTL := 180
  const HOLD_TTL := 120
  const STATUS_TTL := 120

  datatype Phase = Armed | Held | Released

  /** Which transition a hold is bound to. */
  datatype Binding = Binding(runId: string, transitionId: string, bodyHash: string, generation: int,
                             claimId: string, tokenHash: string)

  const UNBOUND := Binding("", "", "", 0, "", "")

  /** The fields of a `Hold` object; `event` is whether its release event is set. */
  datatype Hold = Hold(runtimeId: string, runtimeEpoch: int, nonce: string, phase: Phase, binding: Binding,
                       expiresAt: int, event: bool)

  function NewHold(runtimeId: string, epoch: int, nonce: string, now: int): Hold {
    Hold(runtimeId, epoch, nonce, Armed, UNBOUND, now + ARM_TTL, false)
  }

  datatype Stage = Waiting | Swept | Done

  /** A request handler parked on a hold since some time, and how far it has got. */
  datatype Handler = Handler(hold: nat, binding: Binding, since: int, stage: Stage)

  /** `objects` lists every hold ever made; `table` is the dictionary `holds`, naming objects by index;
      `releases` lists the release calls that succeeded, with the object each freed. */
  datatype Registry = Registry(objects: seq<Hold>, table: map<string, nat>, epochs: map<string, int>,
                               handlers: seq<Handler>, releases: seq<Grant>, clock: int)

  datatype Grant = Grant(hold: nat, request: ReleaseRequest)

  const EMPTY := Registry([], map[], map[], [], [], 0)

  // ----- the critical sections

  predicate Stale(h: Hold, now: int) { h.expiresAt <= now }

  function Freed(h: Hold, now: int): Hold {
    h.(phase := Released, expiresAt := now + STATUS_TTL, event := true)
  }

  function Bound(h: Hold, b: Binding, now: int): Hold {
    h.(binding := b, phase := Held, expiresAt := now + HOLD_TTL)
  }

  /** What `expire` makes of one hold of the table. */
  function Lapse(h: Hold, now: int): Hold {
    if Stale(h, now) && h.phase.Held? then Freed(h, now) else h
  }

  predicate Known(s: Registry, r: string) { r in s.table && s.table[r] < |s.objects| }

  predicate Listed(s: Registry, i: nat)
    requires i < |s.objects|
  {
    s.objects[i].runtimeId in s.table && s.table[s.objects[i].runtimeId] == i
  }

  /** `expire`, with a clock reading taken before the lock. */
  function Expire(s: Registry, now: int): Registry {
    s.(objects := seq(|s.objects|, i requires 0 <= i < |s.objects| =>
                        if Listed(s, i) then Lapse(s.objects[i], now) else s.objects[i]),
       table := map r | r in s.table && !(Known(s, r) && Drops(s.objects[s.table[r]], now)) :: s.table[r])
  }

  /** `expire` deletes a lapsed hold that is armed or already released. */
  predicate Drops(h: Hold, now: int) { Stale(h, now) && !h.phase.Held? }

  /** The locked part of `observe_registration`: the last epoch reported for a runtime stands. */
  function Observe(s: Registry, observed: seq<(string, int)>): Registry {
    s.(epochs := Latest(s.epochs, observed))
  }

  function Latest(epochs: map<string, int>, observed: seq<(string, int)>): map<string, int>
    decreases |observed|
  {
    if observed == [] then epochs else Latest(epochs[observed[0].0 := observed[0].1], observed[1..])
  }

  /** The locked part of `arm`: the new state and whether the hold was armed. */
  function Arm(s: Registry, runtimeId: string, nonce: string): (Registry, bool) {
    if runtimeId !in s.epochs || s.epochs[runtimeId] <= 0 then (s, false)
    else if Known(s, runtimeId) && !s.objects[s.table[runtimeId]].phase.Released? then (s, false)
    else (s.(objects := s.objects + [NewHold(runtimeId, s.epochs[runtimeId], nonce, s.clock)],
             table := s.table[runtimeId := |s.objects|]), true)
  }

  /** The fields of a release request. */
  datatype ReleaseRequest = ReleaseRequest(runtimeId: string, nonce: string, runId: string, generation: int,
                                           runtimeEpoch: int, claimId: string, tokenHash: string)

  predicate ReleaseMatches(h: Hold, q: ReleaseRequest) {
    && h.phase.Held? && h.nonce == q.nonce && h.binding.runId == q.runId && h.binding.generation == q.generation
    && h.runtimeEpoch == q.runtimeEpoch && h.binding.claimId == q.claimId && h.binding.tokenHash == q.tokenHash
  }

  /** The locked part of `release`. */
  function Release(s: Registry, q: ReleaseRequest): (Registry, bool) {
    if !Known(s, q.runtimeId) then (s, false) else
      var i := s.table[q.runtimeId];
      if !ReleaseMatches(s.objects[i], q) then (s, false)
      else
        (s.(objects := s.objects[i := Freed(s.objects[i], s.clock)],
            releases := s.releases + [Grant(i, q)]), true)
  }

  /** The locked part of `hold_successful_transition`, whose caller then parks on the hold returned. */
  function Transition(s: Registry, runtimeId: string, epoch: int, b: Binding): (Registry, Option<nat>) {
    if !Known(s, runtimeId) then (s, None) else
      var i := s.table[runtimeId];
      var h := s.objects[i];
      if h.runtimeEpoch != epoch then (s, None)
      else if h.phase.Armed? then
        (s.(objects := s.objects[i := Bound(h, b, s.clock)],
            handlers := s.handlers + [Handler(i, b, s.clock, Waiting)]), Some(i))
      else if h.phase.Held? && h.binding == b then
        (s.(handlers := s.handlers + [Handler(i, b, s.clock, Waiting)]), Some(i))
      else (s, None)
  }

  /** A handler whose wait timed out sweeps the registry with a fresh clock reading. */
  predicate MaySweep(s: Registry, k: nat, now: int) {
    k < |s.handlers| && s.handlers[k].stage.Waiting? && s.handlers[k].since + HOLD_TTL <= now <= s.clock
  }

  function Sweep(s: Registry, k: nat, now: int): Registry
    requires MaySweep(s, k, now)
  {
    var e := Expire(s, now);
    e.(handlers := e.handlers[k := e.handlers[k].(stage := Swept)])
  }

  /** Its fallback: set the event whatever the sweep did. */
  function Fallback(s: Registry, k: nat): Registry
    requires k < |s.handlers| && s.handlers[k].hold < |s.objects|
  {
    var i := s.handlers[k].hold;
    s.(objects := s.objects[i := s.objects[i].(event := true)],
       handlers := s.handlers[k := s.handlers[k].(stage := Done)])
  }

  // ----- one step of any interleaving

  datatype Step =
    | Tick(now: int)
    | Registering(observed: seq<(string, int)>)
    | Expiring(now: int)
    | Arming(runtimeId: string, nonce: string)
    | Transitioning(runtimeId: string, epoch: int, binding: Binding)
    | Releasing(request: ReleaseRequest)
    | Waking(handler: nat)
    | Sweeping(handler: nat, now: int)
    | FallingBack(handler: nat)

  /** Expiry and sweeps may act on a clock reading that is already old; nothing reads the future. */
  ghost predicate Enabled(s: Registry, step: Step) {
    match step
    case Tick(now) => s.clock <= now
    case Expiring(now) => now <= s.clock
    case Waking(k) => k < |s.handlers| && s.handlers[k].stage.Waiting? && s.handlers[k].hold < |s.objects|
                      && s.objects[s.handlers[k].hold].event
    case Sweeping(k, now) => MaySweep(s, k, now)
    case FallingBack(k) => k < |s.handlers| && s.handlers[k].stage.Swept? && s.handlers[k].hold < |s.objects|
    case _ => true
  }

  function Next(s: Registry, step: Step): Registry
    requires Enabled(s, step)
  {
    match step
    case Tick(now) => s.(clock := now)
    case Registering(observed) => Observe(s, observed)
    case Expiring(now) => Expire(s, now)
    case Arming(r, n) => Arm(s, r, n).0
    case Transitioning(r, e, b) => Transition(s, r, e, b).0
    case Releasing(q) => Release(s, q).0
    case Waking(k) => s.(handlers := s.handlers[k := s.handlers[k].(stage := Done)])
    case Sweeping(k, now) => Sweep(s, k, now)
    case FallingBack(k) => Fallback(s, k)
  }

  // ----- what every step keeps

  predicate TableValid(s: Registry) {
    forall r | r in s.table :: s.table[r] < |s.objects| && s.objects[s.table[r]].runtimeId == r
  }

  /** The release event is set exactly when the hold is released, a held hold is always in the table,
      and a hold that is not armed any more is bound. */
  predicate HoldsValid(s: Registry) {
    forall i | 0 <= i < |s.objects| ::
      && (s.objects[i].event <==> s.objects[i].phase.Released?)
      && (s.objects[i].phase.Held? ==> Listed(s, i) && s.objects[i].expiresAt <= s.clock + HOLD_TTL)
  }

  /** A handler is parked on a hold bound to its own transition; while the hold is held it expires no
      later than the handler's wait does; a handler that has swept finds its hold released. */
  predicate HandlerValid(s: Registry, p: Handler) {
    && p.hold < |s.objects| && p.since <= s.clock
    && var h := s.objects[p.hold];
    && !h.phase.Armed? && h.binding == p.binding
    && (h.phase.Held? ==> h.expiresAt <= p.since + HOLD_TTL)
    && (!p.stage.Waiting? ==> h.phase.Released?)
  }

  /** A request that names the hold: its runtime, its nonce, its epoch and the transition it is bound to. */
  predicate Names(q: ReleaseRequest, h: Hold) {
    && q.runtimeId == h.runtimeId && q.nonce == h.nonce && q.runtimeEpoch == h.runtimeEpoch
    && q.runId == h.binding.runId && q.generation == h.binding.generation
    && q.claimId == h.binding.claimId && q.tokenHash == h.binding.tokenHash
  }

  /** Every release call that succeeded named the hold it freed, and none succeeded twice on one hold. */
  predicate ReleasesValid(s: Registry) {
    && (forall i | 0 <= i < |s.releases| ::
          var g := s.releases[i];
          g.hold < |s.objects| && s.objects[g.hold].phase.Released? && Names(g.request, s.objects[g.hold]))
    && (forall i, j | 0 <= i < j < |s.releases| :: s.releases[i].hold != s.releases[j].hold)
  }

  ghost predicate Inv(s: Registry) {
    TableValid(s) && HoldsValid(s) && ReleasesValid(s) &&
    forall k | 0 <= k < |s.handlers| :: HandlerValid(s, s.handlers[k])
  }

  function Rank(p: Phase): nat { if p.Armed? then 0 else if p.Held? then 1 else 2 }

  /** How one hold may change in a step: its phase moves forward one at a time, its name never changes,
      and once bound it stays bound to the same transition; only an armed or released hold leaves the
      table. */
  predicate Evolves(g: Hold, h: Hold) {
    && Rank(g.phase) <= Rank(h.phase) <= Rank(g.phase) + 1
    && h.runtimeId == g.runtimeId && h.runtimeEpoch == g.runtimeEpoch && h.nonce == g.nonce
    && (!g.phase.Armed? ==> h.binding == g.binding)
  }

  predicate Follows(s: Registry, t: Registry) {
    && |s.objects| <= |t.objects| && forall i | 0 <= i < |s.objects| :: Evolves(s.objects[i], t.objects[i])
  }

  // ----- every step keeps the invariant and moves every hold forward

  lemma ExpireKeeps(s: Registry, now: int)
    requires Inv(s) && now <= s.clock
    ensures Inv(Expire(s, now)) && Follows(s, Expire(s, now))
  {
    var t := Expire(s, now);
    forall i | 0 <= i < |t.objects| && t.objects[i].phase.Held? ensures Listed(t, i) {
      assert Listed(s, i) && !Stale(s.objects[i], now);
    }
  }

  lemma ArmKeeps(s: Registry, runtimeId: string, nonce: string)
    requires Inv(s)
    ensures var t := Arm(s, runtimeId, nonce).0; Inv(t) && Follows(s, t)
    ensures Arm(s, runtimeId, nonce).1 && runtimeId in s.table ==> s.objects[s.table[runtimeId]].phase.Released?
  {
    var t := Arm(s, runtimeId, nonce).0;
    forall i | 0 <= i < |t.objects|
      ensures t.objects[i].phase.Held? ==> Listed(t, i) && t.objects[i].expiresAt <= t.clock + HOLD_TTL
    {
      if i < |s.objects| { assert t.objects[i] == s.objects[i]; }
    }
    forall k | 0 <= k < |t.handlers| ensures HandlerValid(t, t.handlers[k]) {
      assert HandlerValid(s, s.handlers[k]);
    }
  }

  lemma TransitionKeeps(s: Registry, runtimeId: string, epoch: int, b: Binding)
    requires Inv(s)
    ensures var t := Transition(s, runtimeId, epoch, b).0; Inv(t) && Follows(s, t)
  {
    var t := Transition(s, runtimeId, epoch, b).0;
    if runtimeId in s.table {
      var i := s.table[runtimeId];
      forall k | 0 <= k < |t.handlers| ensures HandlerValid(t, t.handlers[k]) {
        if k < |s.handlers| { assert HandlerValid(s, s.handlers[k]) && t.handlers[k] == s.handlers[k]; }
      }
    }
  }

  lemma ReleaseKeeps(s: Registry, q: ReleaseRequest)
    requires Inv(s)
    ensures var t := Release(s, q).0; Inv(t) && Follows(s, t)
  {
    var t := Release(s, q).0;
    forall k | 0 <= k < |t.handlers| ensures HandlerValid(t, t.handlers[k]) {
      assert HandlerValid(s, s.handlers[k]);
    }
  }

  /** Any expiry that runs once a handler's wait is over has released the hold it is parked on. */
  lemma ExpiryFrees(s: Registry, k: nat, now: int)
    requires Inv(s) && k < |s.handlers| && s.handlers[k].since + HOLD_TTL <= now
    ensures Expire(s, now).objects[s.handlers[k].hold].event
  {
    assert HandlerValid(s, s.handlers[k]);
  }

  lemma SweepKeeps(s: Registry, k: nat, now: int)
    requires Inv(s) && MaySweep(s, k, now)
    ensures Inv(Sweep(s, k, now)) && Follows(s, Sweep(s, k, now))
  {
    hide Expire;
    var e, t := Expire(s, now), Sweep(s, k, now);
    ExpireKeeps(s, now);
    ExpiryFrees(s, k, now);
    ExpireFrame(s, now);
    forall j | 0 <= j < |t.handlers| ensures HandlerValid(t, t.handlers[j]) {
      assert HandlerValid(e, e.handlers[j]);
    }
  }

  lemma ExpireFrame(s: Registry, now: int)
    ensures var e := Expire(s, now);
            |e.objects| == |s.objects| && e.handlers == s.handlers && e.releases == s.releases && e.clock == s.clock
  {
  }

  /** The fallback after a timed-out wait never changes a hold. */
  lemma FallbackIsRedundant(s: Registry, k: nat)
    requires Inv(s) && k < |s.handlers| && s.handlers[k].stage.Swept?
    ensures Fallback(s, k).objects == s.objects
  {
    assert HandlerValid(s, s.handlers[k]);
  }

  lemma StepKeeps(s: Registry, step: Step)
    requires Inv(s) && Enabled(s, step)
    ensures Inv(Next(s, step)) && Follows(s, Next(s, step))
  {
    hide Expire, Arm, Transition, Release, Latest, Sweep;
    match step {
      case Tick(now) =>
        forall k | 0 <= k < |s.handlers| ensures HandlerValid(Next(s, step), s.handlers[k]) {
          assert HandlerValid(s, s.handlers[k]);
        }
      case Registering(observed) =>
        forall k | 0 <= k < |s.handlers| ensures HandlerValid(Next(s, step), s.handlers[k]) {
          assert HandlerValid(s, s.handlers[k]);
        }
      case Expiring(now) => ExpireKeeps(s, now);
      case Arming(r, n) => ArmKeeps(s, r, n);
      case Transitioning(r, e, b) => TransitionKeeps(s, r, e, b);
      case Releasing(q) => ReleaseKeeps(s, q);
      case Waking(k) => HandlerDone(s, k);
      case Sweeping(k, now) => SweepKeeps(s, k, now);
      case FallingBack(k) =>
        assert HandlerValid(s, s.handlers[k]);
        FallbackIsRedundant(s, k);
        HandlerDone(s, k);
    }
  }

  lemma HandlerDone(s: Registry, k: nat)
    requires Inv(s) && k < |s.handlers| && s.handlers[k].hold < |s.objects| && s.objects[s.handlers[k].hold].event
    ensures var t := s.(handlers := s.handlers[k := s.handlers[k].(stage := Done)]); Inv(t) && Follows(s, t)
  {
    var t := s.(handlers := s.handlers[k := s.handlers[k].(stage := Done)]);
    forall j | 0 <= j < |t.handlers| ensures HandlerValid(t, t.handlers[j]) {
      assert HandlerValid(s, s.handlers[j]);
    }
  }

  // ----- what moves a hold

  /** A hold is held only through a transition of its runtime and epoch, which then is its binding, for 120
      seconds. */
  lemma HeldOnlyBy(s: Registry, step: Step, i: nat)
    requires Inv(s) && Enabled(s, step) && i < |s.objects| && s.objects[i].phase.Armed?
    ensures var t := Next(s, step);
            && i < |t.objects|
            && (t.objects[i].phase.Held? ==>
                  && step == Transitioning(s.objects[i].runtimeId, s.objects[i].runtimeEpoch, t.objects[i].binding)
                  && t.objects[i].expiresAt == s.clock + 120)
  {
    hide Latest;
    if step.FallingBack? { FallbackIsRedundant(s, step.handler); }
  }

  /** A held hold is freed only by a request that names it or by an expiry at or after its deadline. */
  lemma FreedOnlyBy(s: Registry, step: Step, i: nat)
    requires Inv(s) && Enabled(s, step) && i < |s.objects| && s.objects[i].phase.Held?
    ensures var t := Next(s, step);
            && i < |t.objects|
            && (t.objects[i].phase.Released? ==>
                  || (step.Releasing? && Names(step.request, s.objects[i]))
                  || (step.Expiring? && s.objects[i].expiresAt <= step.now)
                  || (step.Sweeping? && s.objects[i].expiresAt <= step.now))
  {
    hide Latest;
    if step.FallingBack? { FallbackIsRedundant(s, step.handler); }
  }

  /** What expiry does to each hold and to the table, said on their fields. */
  lemma ExpireMeans(s: Registry, now: int)
    requires TableValid(s)
    ensures var t := Expire(s, now);
            && |t.objects| == |s.objects|
            && (forall i | 0 <= i < |s.objects| ::
                  var h, k := s.objects[i], t.objects[i];
                  if h.runtimeId in s.table && s.table[h.runtimeId] == i && h.phase == Held && h.expiresAt <= now
                  then k == h.(phase := Released, event := true, expiresAt := now + 120)
                  else k == h)
            && (forall r :: r in t.table <==>
                  r in s.table && (s.objects[s.table[r]].expiresAt > now || s.objects[s.table[r]].phase == Held))
            && (forall r | r in t.table :: t.table[r] == s.table[r])
  {
  }

  /** The last epoch reported for a runtime stands, and it changes no other. */
  lemma {:induction false} LatestStands(epochs: map<string, int>, observed: seq<(string, int)>, r: string, epoch: int)
    ensures Latest(epochs, []) == epochs
    ensures Latest(epochs, observed + [(r, epoch)]) == Latest(epochs, observed)[r := epoch]
    decreases |observed|
  {
    if observed == [] {
      var one := observed + [(r, epoch)];
      assert one == [(r, epoch)] && one[1..] == [];
    } else {
      assert (observed + [(r, epoch)])[1..] == observed[1..] + [(r, epoch)];
      LatestStands(epochs[observed[0].0 := observed[0].1], observed[1..], r, epoch);
    }
  }

  // ----- whole runs

  /** A run from the empty registry: every step is enabled and leads to the next state. */
  ghost predicate Run(states: seq<Registry>, steps: seq<Step>) {
    && |states| == |steps| + 1 && states[0] == EMPTY
    && forall n | 0 <= n < |steps| ::
         Enabled(states[n], steps[n]) && states[n + 1] == Next(states[n], steps[n])
  }

  lemma {:induction false} RunInvariant(states: seq<Registry>, steps: seq<Step>, n: nat)
    requires Run(states, steps) && n < |states|
    ensures Inv(states[n])
  {
    if n > 0 {
      RunInvariant(states, steps, n - 1);
      StepKeeps(states[n - 1], steps[n - 1]);
    }
  }

  /** A hold over a stretch of a run: it moves only from armed to held to released, and its binding is
      fixed from the moment it is held. */
  predicate Persists(g: Hold, h: Hold) {
    && Rank(g.phase) <= Rank(h.phase) && h.runtimeId == g.runtimeId && h.nonce == g.nonce
    && h.runtimeEpoch == g.runtimeEpoch && (!g.phase.Armed? ==> h.binding == g.binding)
  }

  lemma {:induction false} HoldsPersist(states: seq<Registry>, steps: seq<Step>, m: nat, n: nat, i: nat)
    requires Run(states, steps) && m <= n < |states| && i < |states[m].objects|
    ensures i < |states[n].objects| && Persists(states[m].objects[i], states[n].objects[i])
    decreases n
  {
    hide Inv, Next, Enabled;
    if m < n {
      HoldsPersist(states, steps, m, n - 1, i);
      RunInvariant(states, steps, n - 1);
      StepKeeps(states[n - 1], steps[n - 1]);
    }
  }

  /** In every run: the event of a hold is set exactly when it is released, a held hold is in the table
      under its own name, handlers parked on one hold carry the same transition, every release call that
      succeeded named its hold and no two succeeded on one, and no expiry past the end of a handler's wait leaves it
      parked. */
  lemma RunSafety(states: seq<Registry>, steps: seq<Step>, n: nat)
    requires Run(states, steps) && n < |states|
    ensures var s := states[n];
            && TableValid(s)
            && (forall i | 0 <= i < |s.objects| ::
                  && (s.objects[i].event <==> s.objects[i].phase.Released?)
                  && (s.objects[i].phase.Held? ==> Listed(s, i)))
            && (forall j, k | 0 <= j < |s.handlers| && 0 <= k < |s.handlers| &&
                s.handlers[j].hold == s.handlers[k].hold ::
                  s.handlers[j].binding == s.handlers[k].binding)
            && ReleasesValid(s)
            && (forall k, now | 0 <= k < |s.handlers| && s.handlers[k].since + HOLD_TTL <= now ::
                  s.handlers[k].hold < |s.objects| && Expire(s, now).objects[s.handlers[k].hold].event)
  {
    hide Expire;
    RunInvariant(states, steps, n);
    var s := states[n];
    forall j, k | 0 <= j < |s.handlers| && 0 <= k < |s.handlers| && s.handlers[j].hold == s.handlers[k].hold
      ensures s.handlers[j].binding == s.handlers[k].binding
    {
      assert HandlerValid(s, s.handlers[j]) && HandlerValid(s, s.handlers[k]);
    }
    forall k, now | 0 <= k < |s.handlers| && s.handlers[k].since + HOLD_TTL <= now
      ensures s.handlers[k].hold < |s.objects|
      ensures |Expire(s, now).objects| == |s.objects| && Expire(s, now).objects[s.handlers[k].hold].event
    {
      assert HandlerValid(s, s.handlers[k]);
      ExpireFrame(s, now);
      ExpiryFrees(s, k, now);
    }
  }
}
