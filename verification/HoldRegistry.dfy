/** The `Hold` and `HoldRegistry` classes of scripts/ci/rootless-compose-transition-proxy.py: each
    critical section, on the objects it mutates, against the state machine of `Holds`. */
module HoldRegistryClass {
  import opened Options
  import H = Holds

  class HoldObject {
    const runtimeId: string
    const nonce: string
    var runtimeEpoch: int
    var phase: H.Phase
    var runId: string
    var transitionId: string
    var transitionSha256: string
    var generation: int
    var claimId: string
    var leaseTokenSha256: string
    var expiresAt: int
    var released: bool

    constructor (runtimeId: string, runtimeEpoch: int, nonce: string, now: int)
      ensures Fields() == H.NewHold(runtimeId, runtimeEpoch, nonce, now)
    {
      this.runtimeId, this.runtimeEpoch, this.nonce := runtimeId, runtimeEpoch, nonce;
      phase := H.Armed;
      runId, transitionId, transitionSha256, generation, claimId, leaseTokenSha256 := "", "", "", 0, "", "";
      expiresAt := now + H.ARM_TTL;
      released := false;
    }

    function Fields(): H.Hold
      reads this
    {
      H.Hold(runtimeId, runtimeEpoch, nonce, phase,
             H.Binding(runId, transitionId, transitionSha256, generation, claimId, leaseTokenSha256),
             expiresAt, released)
    }

    /** The assignments that free a hold and set its event. */
    method Free(now: int)
      modifies this
      ensures Fields() == H.Freed(old(Fields()), now)
    {
      phase := H.Released;
      expiresAt := now + H.STATUS_TTL;
      released := true;
    }

    /** The assignments that bind an armed hold to a transition of its own epoch. */
    method Bind(b: H.Binding, now: int)
      modifies this
      ensures Fields() == H.Bound(old(Fields()), b, now)
    {
      runId, transitionId, transitionSha256 := b.runId, b.transitionId, b.bodyHash;
      generation, claimId, leaseTokenSha256 := b.generation, b.claimId, b.tokenHash;
      phase := H.Held;
      expiresAt := now + H.HOLD_TTL;
    }

    predicate MatchesTransition(b: H.Binding, runtimeId: string, runtimeEpoch: int)
      reads this
    {
      && this.runId == b.runId && this.transitionId == b.transitionId && this.transitionSha256 == b.bodyHash
      && this.generation == b.generation && this.runtimeId == runtimeId && this.runtimeEpoch == runtimeEpoch
      && this.claimId == b.claimId && this.leaseTokenSha256 == b.tokenHash
    }
  }

  class HoldRegistry {
    var holds: map<string, HoldObject>
    var runtimeEpochs: map<string, int>
    /** Every hold ever made, and where each hold of the dictionary stands among them. */
    ghost var made: seq<HoldObject>
    ghost var table: map<string, nat>

    ghost predicate Valid()
      reads this, made
    {
      && (forall i, j | 0 <= i < j < |made| :: made[i] != made[j])
      && table.Keys == holds.Keys
      && forall r | r in holds :: table[r] < |made| && made[table[r]] == holds[r] && holds[r].runtimeId == r
    }

    ghost function Objects(): seq<H.Hold>
      reads this, made
    {
      seq(|made|, i requires 0 <= i < |made| reads this, made => made[i].Fields())
    }

    /** The registry's part of the state, at a given time. */
    ghost function View(now: int): H.Registry
      reads this, made
    {
      H.Registry(Objects(), table, runtimeEpochs, [], [], now)
    }

    constructor ()
      ensures Valid() && View(0) == H.EMPTY && made == []
    {
      holds, runtimeEpochs, made, table := map[], map[], [], map[];
    }

    method ObserveRegistration(observed: seq<(string, int)>)
      requires Valid()
      modifies this`runtimeEpochs
      ensures Valid() && runtimeEpochs == H.Latest(old(runtimeEpochs), observed)
    {
      var k := 0;
      while k < |observed|
        invariant 0 <= k <= |observed| && Valid()
        invariant H.Latest(runtimeEpochs, observed[k..]) == H.Latest(old(runtimeEpochs), observed)
      {
        assert observed[k..][1..] == observed[k + 1..];
        runtimeEpochs := runtimeEpochs[observed[k].0 := observed[k].1];
        k := k + 1;
      }
    }

    method Arm(runtimeId: string, nonce: string, now: int) returns (armed: bool)
      requires Valid()
      modifies this
      ensures Valid() && fresh(set o | o in made && o !in old(made))
      ensures var r := H.Arm(old(View(now)), runtimeId, nonce); View(now) == r.0 && armed == r.1
      ensures armed <==>
              && runtimeId in old(runtimeEpochs) && old(runtimeEpochs)[runtimeId] > 0
              && (runtimeId in old(holds) ==> old(holds[runtimeId].phase) == H.Released)
      ensures armed ==>
                && runtimeId in holds && holds == old(holds)[runtimeId := holds[runtimeId]] && fresh(holds[runtimeId])
                && var h := holds[runtimeId];
                && h.runtimeId == runtimeId && h.runtimeEpoch == old(runtimeEpochs)[runtimeId] && h.nonce == nonce
                && h.phase == H.Armed && h.expiresAt == now + 180 && !h.released
      ensures !armed ==> holds == old(holds)
    {
      if runtimeId !in runtimeEpochs || runtimeEpochs[runtimeId] <= 0 { return false; }
      if runtimeId in holds && !holds[runtimeId].phase.Released? { return false; }
      var hold := new HoldObject(runtimeId, runtimeEpochs[runtimeId], nonce, now);
      holds := holds[runtimeId := hold];
      table := table[runtimeId := |made|];
      made := made + [hold];
      assert Objects() == old(Objects()) + [hold.Fields()];
      return true;
    }

    /** One object changed: the view changes at its index. */
    twostate lemma OneChanged(i: nat)
      requires old(Valid()) && i < |old(made)| && made == old(made)
      requires forall j | 0 <= j < |made| && j != i :: made[j].Fields() == old(made[j].Fields())
      ensures Objects() == old(Objects())[i := made[i].Fields()]
    {
    }

    method Release(q: H.ReleaseRequest, now: int) returns (done: bool)
      requires Valid()
      modifies made
      ensures Valid()
      ensures var r := H.Release(old(View(now)), q); Objects() == r.0.objects && done == r.1
      ensures done <==>
              && q.runtimeId in holds
              && var h := holds[q.runtimeId];
              && old(h.phase) == H.Held && h.nonce == q.nonce && old(h.runId) == q.runId
              && old(h.generation) == q.generation && old(h.runtimeEpoch) == q.runtimeEpoch
              && old(h.claimId) == q.claimId && old(h.leaseTokenSha256) == q.tokenHash
      ensures done ==>
                var h := holds[q.runtimeId];
                h.Fields() == old(h.Fields()).(phase := H.Released, event := true, expiresAt := now + 120)
      ensures forall o | o in made && !(done && o == holds[q.runtimeId]) :: o.Fields() == old(o.Fields())
    {
      if q.runtimeId !in holds { return false; }
      var hold := holds[q.runtimeId];
      if !hold.phase.Held? || hold.nonce != q.nonce { return false; }
      if hold.runId != q.runId || hold.generation != q.generation || hold.runtimeEpoch != q.runtimeEpoch
         || hold.claimId != q.claimId || hold.leaseTokenSha256 != q.tokenHash {
        return false;
      }
      hold.Free(now);
      OneChanged(table[q.runtimeId]);
      return true;
    }

    /** The hold to park on, if any, and whether this call bound it. */
    method HoldSuccessfulTransition(runtimeId: string, runtimeEpoch: int, b: H.Binding, now: int)
      returns (parked: Option<HoldObject>, first: bool)
      requires Valid()
      modifies made
      ensures Valid()
      ensures var r := H.Transition(old(View(now)), runtimeId, runtimeEpoch, b);
              && Objects() == r.0.objects && (parked.Some? <==> r.1.Some?)
              && (parked.Some? ==> r.1.value < |made| && made[r.1.value] == parked.value)
      ensures parked.Some? <==>
              && runtimeId in holds
              && var h := holds[runtimeId];
              && old(h.runtimeEpoch) == runtimeEpoch
              && (|| old(h.phase) == H.Armed
                  || (&& old(h.phase) == H.Held && old(h.runId) == b.runId && old(h.transitionId) == b.transitionId
                      && old(h.transitionSha256) == b.bodyHash && old(h.generation) == b.generation
                      && old(h.claimId) == b.claimId && old(h.leaseTokenSha256) == b.tokenHash))
      ensures parked.Some? ==> parked.value == holds[runtimeId] && (first <==> old(parked.value.phase) == H.Armed)
      ensures parked.Some? ==>
                var h := parked.value;
                h.Fields() == if first then old(h.Fields()).(phase := H.Held, binding := b, expiresAt := now + 120)
                              else old(h.Fields())
      ensures forall o | o in made && !(parked.Some? && o == parked.value) :: o.Fields() == old(o.Fields())
    {
      if runtimeId !in holds { return None, false; }
      var hold := holds[runtimeId];
      if hold.runtimeEpoch != runtimeEpoch { return None, false; }
      if hold.phase.Armed? {
        hold.Bind(b, now);
        OneChanged(table[runtimeId]);
        return Some(hold), true;
      }
      if hold.phase.Held? && hold.MatchesTransition(b, runtimeId, runtimeEpoch) {
        return Some(hold), false;
      }
      return None, false;
    }

    /** One turn of the expiry loop. */
    method Visit(id: string, now: int)
      requires Valid() && id in holds
      modifies this`holds, this`table, made
      ensures Valid() && made == old(made) && View(now) == Visited(old(View(now)), id, now)
    {
      var hold := holds[id];
      if hold.expiresAt > now { return; }
      if hold.phase.Held? {
        hold.Free(now);
        OneChanged(table[id]);
      } else {
        holds := holds - {id};
        table := table - {id};
      }
    }

    method Expire(now: int)
      requires Valid()
      modifies this`holds, this`table, made
      ensures Valid() && View(now) == H.Expire(old(View(now)), now)
    {
      hide Visited, PartlyExpired, H.Expire;
      ghost var before := View(now);
      var todo := holds.Keys;
      ExpiryStart(before, now);
      while todo != {}
        invariant made == old(made) && Valid() && todo <= holds.Keys && PartlyExpired(before, View(now), todo, now)
        decreases todo
      {
        var id :| id in todo;
        ghost var s := View(now);
        Visit(id, now);
        ExpiryStep(before, s, todo, id, now);
        todo := todo - {id};
      }
      ExpiryEnd(before, View(now), now);
    }
  }

  // ----- the expiry loop on values

  ghost function Visited(s: H.Registry, id: string, now: int): H.Registry {
    if !H.Known(s, id) then s else
      var i := s.table[id];
      var h := s.objects[i];
      if H.Drops(h, now) then s.(table := s.table - {id}) else s.(objects := s.objects[i := H.Lapse(h, now)])
  }

  /** The registry while the names in `todo` are still to be visited. */
  ghost predicate PartlyExpired(before: H.Registry, s: H.Registry, todo: set<string>, now: int) {
    && H.TableValid(before) && todo <= before.table.Keys
    && s.epochs == before.epochs && s.handlers == before.handlers && s.releases == before.releases
    && s.clock == before.clock
    && |s.objects| == |before.objects|
    && (forall i | 0 <= i < |s.objects| ::
          var h := before.objects[i];
          s.objects[i] == if H.Listed(before, i) && h.runtimeId !in todo then H.Lapse(h, now) else h)
    && s.table == map r | r in before.table && (r in todo || !H.Drops(before.objects[before.table[r]], now)) ::
        before.table[r]
  }

  lemma ExpiryStart(before: H.Registry, now: int)
    requires H.TableValid(before)
    ensures PartlyExpired(before, before, before.table.Keys, now)
  {
  }

  lemma ExpiryStep(before: H.Registry, s: H.Registry, todo: set<string>, id: string, now: int)
    requires PartlyExpired(before, s, todo, now) && id in todo
    ensures PartlyExpired(before, Visited(s, id, now), todo - {id}, now)
    ensures todo - {id} <= Visited(s, id, now).table.Keys
  {
    hide H.Lapse, H.Drops;
    var t := Visited(s, id, now);
    var j := before.table[id];
    assert s.objects[j] == before.objects[j];
    LapseOrDrop(before.objects[j], now);
    forall i | 0 <= i < |t.objects|
      ensures var h := before.objects[i];
              t.objects[i] == if H.Listed(before, i) && h.runtimeId !in todo - {id} then H.Lapse(h, now) else h
    {
    }
  }

  lemma LapseOrDrop(h: H.Hold, now: int)
    ensures H.Drops(h, now) ==> H.Lapse(h, now) == h
  {
  }

  lemma ExpiryEnd(before: H.Registry, s: H.Registry, now: int)
    requires PartlyExpired(before, s, {}, now)
    ensures s == H.Expire(before, now)
  {
    hide H.Lapse, H.Drops;
    var e := H.Expire(before, now);
    assert s.objects == e.objects;
    assert s.table == e.table;
  }
}
