/** How plans that a worker prepared reach the service loop: every one of them is applied
    or aborted exactly once, whatever completes, is cancelled or shut down first. */
module ServiceWork {
  import opened Common

  datatype Kind = SubscriptionRefresh | ResourceRefresh | TunPrepare

  datatype Request = Request(id: nat, kind: Kind)

  /** A finished piece of work and the worker it comes from. Only resource work carries a
      prepared plan. */
  datatype Outcome = Outcome(id: nat, worker: bool, plan: Option<nat>, failed: bool)

  /** Where a worker is: waiting for a request, working, trying to hand over a result,
      waiting until the loop is done with it, or gone. */
  datatype Stage =
    | Idle
    | Working(request: Request)
    | Sending(outcome: Outcome)
    | Waiting(id: nat)
    | Gone

  datatype Fate = Applied | Aborted

  datatype WorkRecord = WorkRecord(cancelled: bool, tun: bool)

  function PlanOf(o: Outcome): seq<nat> {
    if o.plan.Some? then [o.plan.value] else []
  }

  function StagePlans(s: Stage): seq<nat> {
    if s.Sending? then PlanOf(s.outcome) else []
  }

  function Plans(results: seq<Outcome>): seq<nat> {
    if results == [] then [] else Plans(results[..|results| - 1]) + PlanOf(results[|results| - 1])
  }

  /** Plans that exist and whose fate is open: in a worker's hands or in the channel. */
  function Open(first: Stage, second: Stage, results: seq<Outcome>): seq<nat> {
    StagePlans(first) + StagePlans(second) + Plans(results)
  }

  /** Each plan ever prepared is open once or has met its one fate. */
  ghost predicate Settled(prepared: nat, fates: map<nat, Fate>, open: seq<nat>) {
    && Distinct(open)
    && (forall p :: p in open ==> p < prepared && p !in fates)
    && (forall p: nat :: p < prepared ==> p in fates || p in open)
    && (forall p :: p in fates ==> p < prepared)
  }

  lemma {:induction false} PlansConcat(a: seq<Outcome>, b: seq<Outcome>)
    ensures Plans(a + b) == Plans(a) + Plans(b)
  {
    if b == [] {
      assert a + b == a;
    } else {
      var n := |b| - 1;
      PlansConcat(a, b[..n]);
      assert (a + b)[..|a + b| - 1] == a + b[..n] && (a + b)[|a + b| - 1] == b[n];
      assert Plans(a + b) == Plans(a) + Plans(b[..n]) + PlanOf(b[n]);
    }
  }

  lemma PlansOne(o: Outcome)
    ensures Plans([o]) == PlanOf(o)
  {
    assert [o][..0] == [];
  }

  /** A new plan becomes open. */
  lemma PlanAppears(prepared: nat, fates: map<nat, Fate>, open: seq<nat>, open': seq<nat>)
    requires Settled(prepared, fates, open) && multiset(open') == multiset(open) + multiset{prepared}
    ensures Settled(prepared + 1, fates, open')
  {
    forall x ensures x in open' <==> x in open || x == prepared {
      assert x in multiset(open') <==> x in multiset(open) || x == prepared;
    }
    assert prepared !in open;
    SameDistinct(open + [prepared], open');
  }

  /** Open plans may change hands. */
  lemma PlansMove(prepared: nat, fates: map<nat, Fate>, open: seq<nat>, open': seq<nat>)
    requires Settled(prepared, fates, open) && multiset(open') == multiset(open)
    ensures Settled(prepared, fates, open')
  {
    forall x ensures x in open' <==> x in open {
      assert x in multiset(open') <==> x in multiset(open);
    }
    SameDistinct(open, open');
  }

  /** One open plan meets its fate. */
  lemma PlanSettles(prepared: nat, fates: map<nat, Fate>, open: seq<nat>, open': seq<nat>, plan: nat, fate: Fate)
    requires Settled(prepared, fates, open) && multiset(open) == multiset(open') + multiset{plan}
    ensures plan !in fates && Settled(prepared, fates[plan := fate], open')
  {
    assert plan in multiset(open);
    assert plan in open;
    SameDistinct(open, open' + [plan]);
    forall x ensures x in open <==> x in open' || x == plan {
      assert x in multiset(open) <==> x in multiset(open') || x == plan;
    }
    var all := open' + [plan];
    assert all[|open'|] == plan;
    forall i | 0 <= i < |open'| ensures open'[i] != plan {
      assert all[i] == open'[i];
    }
    forall i, k | 0 <= i < k < |open'| ensures open'[i] != open'[k] {
      assert all[i] == open'[i] && all[k] == open'[k];
    }
    assert forall p :: p in open' ==> p in open && p != plan;
  }

  const QUEUE_SIZE: nat := 33

  /** Cancelling what does, or does not, concern the TUN device. */
  function Cancelled(records: map<nat, WorkRecord>, forTun: bool): map<nat, WorkRecord> {
    map id | id in records :: records[id].(cancelled := records[id].cancelled || records[id].tun == forTun)
  }

  /** The hand-shake: a result in the channel is the only one of its worker, which waits
      until the loop has dealt with it, or is gone. */
  ghost predicate HandedOver(first: Stage, second: Stage, results: seq<Outcome>, released: set<bool>) {
    && (forall i, k :: 0 <= i < k < |results| ==> results[i].worker != results[k].worker)
    && (forall i :: 0 <= i < |results| ==>
          var s := if results[i].worker then second else first;
          s == Gone || (s == Waiting(results[i].id) && results[i].worker !in released))
  }

  function Changed(first: Stage, second: Stage, w: bool, s: Stage): (Stage, Stage) {
    if w then (first, s) else (s, second)
  }

  /** What changes hands when one worker moves. */
  lemma StageChange(first: Stage, second: Stage, results: seq<Outcome>, w: bool, s: Stage)
    ensures
      var after := Changed(first, second, w, s);
      multiset(Open(after.0, after.1, results)) + multiset(StagePlans(if w then second else first))
      == multiset(Open(first, second, results)) + multiset(StagePlans(s))
  {
    hide Plans;
  }

  lemma StageStays(first: Stage, second: Stage, results: seq<Outcome>, w: bool, s: Stage)
    requires StagePlans(if w then second else first) == [] == StagePlans(s)
    ensures var after := Changed(first, second, w, s); Open(after.0, after.1, results) == Open(first, second, results)
  {
  }

  /** A worker that does not wait has nothing in the channel, so it may move. */
  lemma HandedMove(first: Stage, second: Stage, results: seq<Outcome>, released: set<bool>, w: bool, s: Stage)
    requires HandedOver(first, second, results, released) && !s.Waiting?
    requires s == Gone || (!(if w then second else first).Gone? && ((if w then second else first).Waiting? ==> w in released))
    ensures var after := Changed(first, second, w, s); HandedOver(after.0, after.1, results, released)
  {
  }

  lemma HandedSend(first: Stage, second: Stage, results: seq<Outcome>, released: set<bool>, w: bool, o: Outcome)
    requires HandedOver(first, second, results, released) && (if w then second else first).Sending? && o.worker == w
    ensures var after := Changed(first, second, w, Waiting(o.id)); HandedOver(after.0, after.1, results + [o], released - {w})
  {
  }

  /** The loop takes the oldest result and releases its worker. */
  lemma HandedReceive(first: Stage, second: Stage, results: seq<Outcome>, released: set<bool>)
    requires HandedOver(first, second, results, released) && results != []
    ensures HandedOver(first, second, results[1..], released + {results[0].worker})
  {
  }

  lemma OpenResults(first: Stage, second: Stage, results: seq<Outcome>)
    requires results != []
    ensures multiset(Open(first, second, results)) == multiset(Open(first, second, results[1..])) + multiset(PlanOf(results[0]))
  {
    assert results == [results[0]] + results[1..];
    PlansConcat([results[0]], results[1..]);
    PlansOne(results[0]);
  }

  datatype Event =
    | Submit(kind: Kind)
    | CancelWork(tun: bool)
    | Stop
    | Take(w: bool)
    | Complete(w: bool, succeeds: bool, expired: bool)
    | Send(w: bool)
    | Quit(w: bool)
    | Resume(w: bool)
    | Receive

  class Service {
    /** The service context is cancelled. */
    var stopping: bool
    var records: map<nat, WorkRecord>
    var nextWork: nat
    /** The two workers with their request queues: general work, and TUN authorization. */
    var first: Stage
    var second: Stage
    var work: seq<Request>
    var tun: seq<Request>
    var results: seq<Outcome>
    /** Workers whose result the loop has dealt with: their done channel is closed. */
    var released: set<bool>
    /** How many plans were prepared so far, and what became of each. */
    var prepared: nat
    ghost var fates: map<nat, Fate>

    ghost predicate Valid()
      reads this
    {
      && Settled(prepared, fates, Open(first, second, results))
      && HandedOver(first, second, results, released)
    }

    constructor ()
      ensures Valid() && !stopping && first == Idle && second == Idle && results == [] && prepared == 0
    {
      stopping, records, nextWork, work, tun, results, released := false, map[], 0, [], [], [], {};
      first, second := Idle, Idle;
      prepared, fates := 0, map[];
    }

    function StageOf(w: bool): Stage
      reads this
    {
      if w then second else first
    }

    /** Fates are final. */
    twostate predicate Final()
      reads this
    {
      old(prepared) <= prepared && forall p :: p in old(fates) ==> p in fates && fates[p] == old(fates[p])
    }

    /** Queues work, or refuses it when the queue is full. */
    method QueueWork(kind: Kind) returns (accepted: bool)
      requires Valid()
      modifies this`records, this`nextWork, this`work, this`tun
      ensures Valid() && nextWork == old(nextWork) + 1
      ensures accepted <==> (if kind == TunPrepare then old(tun) == [] else |old(work)| < QUEUE_SIZE)
      ensures accepted ==> records == old(records)[nextWork := WorkRecord(false, kind == TunPrepare)]
      ensures accepted ==> tun == (if kind == TunPrepare then old(tun) + [Request(nextWork, kind)] else old(tun))
      ensures accepted ==> work == (if kind == TunPrepare then old(work) else old(work) + [Request(nextWork, kind)])
      ensures !accepted ==> records == old(records) && work == old(work) && tun == old(tun)
    {
      nextWork := nextWork + 1;
      var r := Request(nextWork, kind);
      accepted := if kind == TunPrepare then |tun| < 1 else |work| < QUEUE_SIZE;
      if !accepted {
        return;
      }
      if kind == TunPrepare {
        tun := tun + [r];
      } else {
        work := work + [r];
      }
      records := records[r.id := WorkRecord(false, kind == TunPrepare)];
    }

    method CancelRecords(forTun: bool)
      requires Valid()
      modifies this`records
      ensures Valid() && records == Cancelled(old(records), forTun)
    {
      records := Cancelled(records, forTun);
    }

    /** Moves a worker without changing any plan's owner. */
    method MoveOn(w: bool, s: Stage)
      requires Valid() && StagePlans(StageOf(w)) == [] == StagePlans(s) && !s.Waiting?
      requires s == Gone || (!StageOf(w).Gone? && (StageOf(w).Waiting? ==> w in released))
      modifies this`first, this`second
      ensures Valid() && (first, second) == Changed(old(first), old(second), w, s)
    {
      hide Settled, HandedOver, Open;
      ghost var before := Open(first, second, results);
      StageStays(first, second, results, w, s);
      HandedMove(first, second, results, released, w, s);
      var after := Changed(first, second, w, s);
      first, second := after.0, after.1;
      PlansMove(prepared, fates, before, Open(first, second, results));
    }

    /** An idle worker takes the oldest request of its queue. */
    method TakeRequest(w: bool)
      requires Valid()
      modifies this`first, this`second, this`work, this`tun
      ensures Valid() && StageOf(!w) == old(StageOf(!w))
      ensures
        var queue := if w then old(tun) else old(work);
        && StageOf(w) == (if old(StageOf(w)) == Idle && queue != [] then Working(queue[0]) else old(StageOf(w)))
        && (if w then tun else work) == (if old(StageOf(w)) == Idle && queue != [] then queue[1..] else queue)
        && (if w then work == old(work) else tun == old(tun))
    {
      hide Settled, HandedOver, Open;
      var queue := if w then tun else work;
      if StageOf(w) == Idle && queue != [] {
        if w {
          tun := tun[1..];
        } else {
          work := work[1..];
        }
        MoveOn(w, Working(queue[0]));
      }
    }

    /** The work is over. A plan that was prepared although the request has expired is
        aborted by the worker itself. */
    method CompleteWork(w: bool, succeeds: bool, expired: bool)
      requires Valid()
      modifies this`first, this`second, this`prepared, this`fates
      ensures Valid() && Final() && StageOf(!w) == old(StageOf(!w))
      ensures !old(StageOf(w)).Working? ==> StageOf(w) == old(StageOf(w)) && prepared == old(prepared) && fates == old(fates)
      ensures old(StageOf(w)).Working? ==>
        var r := old(StageOf(w)).request;
        var prepares := r.kind == ResourceRefresh && succeeds;
        && StageOf(w) == Sending(Outcome(r.id, w, if prepares && !expired then Some(old(prepared)) else None, !succeeds || expired))
        && prepared == old(prepared) + (if prepares then 1 else 0)
        && fates == (if prepares && expired then old(fates)[old(prepared) := Aborted] else old(fates))
    {
      hide Settled, HandedOver, Open;
      if !StageOf(w).Working? {
        return;
      }
      var r := StageOf(w).request;
      if r.kind != ResourceRefresh || !succeeds {
        MoveOn(w, Sending(Outcome(r.id, w, None, !succeeds || expired)));
        return;
      }
      if expired {
        AbortPrepared();
        MoveOn(w, Sending(Outcome(r.id, w, None, true)));
      } else {
        CarryPrepared(w, r.id);
      }
    }

    /** A plan nobody wants any more is aborted at once. */
    method AbortPrepared()
      requires Valid()
      modifies this`prepared, this`fates
      ensures Valid() && Final() && prepared == old(prepared) + 1 && fates == old(fates)[old(prepared) := Aborted]
    {
      hide Settled, HandedOver, Open;
      ghost var plan, before := prepared, Open(first, second, results);
      PlanAppears(plan, fates, before, before + [plan]);
      PlanSettles(prepared + 1, fates, before + [plan], before, plan, Aborted);
      prepared := prepared + 1;
      fates := fates[plan := Aborted];
    }

    /** A worker that has prepared a plan carries it until it is handed over. */
    method CarryPrepared(w: bool, id: nat)
      requires Valid() && StageOf(w).Working?
      modifies this`first, this`second, this`prepared
      ensures Valid() && prepared == old(prepared) + 1
      ensures (first, second) == Changed(old(first), old(second), w, Sending(Outcome(id, w, Some(old(prepared)), false)))
    {
      hide Settled, HandedOver, Open;
      ghost var before := Open(first, second, results);
      var s := Sending(Outcome(id, w, Some(prepared), false));
      StageChange(first, second, results, w, s);
      HandedMove(first, second, results, released, w, s);
      PlanAppears(prepared, fates, before, Open(Changed(first, second, w, s).0, Changed(first, second, w, s).1, results));
      var after := Changed(first, second, w, s);
      first, second, prepared := after.0, after.1, prepared + 1;
    }

    /** Hands the result over, if the channel has room; the worker then waits. */
    method SendResult(w: bool)
      requires Valid()
      modifies this`first, this`second, this`results, this`released
      ensures Valid() && StageOf(!w) == old(StageOf(!w))
      ensures old(StageOf(w)).Sending? && |old(results)| < QUEUE_SIZE ==>
        var o := old(StageOf(w)).outcome.(worker := w);
        StageOf(w) == Waiting(o.id) && results == old(results) + [o] && released == old(released) - {w}
      ensures !(old(StageOf(w)).Sending? && |old(results)| < QUEUE_SIZE) ==> StageOf(w) == old(StageOf(w)) && results == old(results) && released == old(released)
    {
      hide Settled, HandedOver, Open;
      if !StageOf(w).Sending? || |results| >= QUEUE_SIZE {
        return;
      }
      var o := StageOf(w).outcome.(worker := w);
      ghost var before := Open(first, second, results);
      HandedSend(first, second, results, released, w, o);
      Handing(first, second, results, w, o);
      var after := Changed(first, second, w, Waiting(o.id));
      first, second, results, released := after.0, after.1, results + [o], released - {w};
      PlansMove(prepared, fates, before, Open(first, second, results));
    }

    /** A worker that sees the service stop leaves, aborting what it could not hand over. */
    method QuitWorker(w: bool)
      requires Valid()
      modifies this`first, this`second, this`fates
      ensures Valid() && Final() && StageOf(!w) == old(StageOf(!w))
      ensures StageOf(w) == if stopping && !old(StageOf(w)).Working? then Gone else old(StageOf(w))
      ensures fates == if stopping && StagePlans(old(StageOf(w))) != [] then old(fates)[StagePlans(old(StageOf(w)))[0] := Aborted] else old(fates)
    {
      hide Settled, HandedOver, Open;
      if !stopping || StageOf(w).Working? {
        return;
      }
      if StagePlans(StageOf(w)) == [] {
        MoveOn(w, Gone);
        return;
      }
      var plan := StageOf(w).outcome.plan.value;
      ghost var before := Open(first, second, results);
      StageChange(first, second, results, w, Gone);
      HandedMove(first, second, results, released, w, Gone);
      var after := Changed(first, second, w, Gone);
      first, second := after.0, after.1;
      PlanSettles(prepared, fates, before, Open(first, second, results), plan, Aborted);
      fates := fates[plan := Aborted];
    }

    /** The loop is done with a worker's result. */
    method ResumeWorker(w: bool)
      requires Valid()
      modifies this`first, this`second
      ensures Valid() && StageOf(!w) == old(StageOf(!w))
      ensures StageOf(w) == if old(StageOf(w)).Waiting? && w in released then Idle else old(StageOf(w))
    {
      hide Settled, HandedOver, Open;
      if StageOf(w).Waiting? && w in released {
        MoveOn(w, Idle);
      }
    }

    /** The loop takes the oldest result. Its plan is applied if the work is still wanted,
        otherwise aborted. */
    method FinishWork()
      requires Valid() && results != []
      modifies this`records, this`results, this`released, this`fates
      ensures Valid() && Final() && results == old(results)[1..] && released == old(released) + {old(results)[0].worker}
      ensures
        var o := old(results)[0];
        var wanted := o.id in old(records) && !old(records)[o.id].cancelled;
        && (o.plan.Some? ==> o.plan.value !in old(fates))
        && fates == (if o.plan.Some? then old(fates)[o.plan.value := if wanted then Applied else Aborted] else old(fates))
        && records == (if wanted && old(records)[o.id].tun then Cancelled(old(records) - {o.id}, false) else old(records) - {o.id})
    {
      hide Settled, HandedOver, Open;
      var o := results[0];
      var wanted := o.id in records && !records[o.id].cancelled;
      ghost var before := Open(first, second, results);
      OpenResults(first, second, results);
      HandedReceive(first, second, results, released);
      records := if wanted && records[o.id].tun then Cancelled(records - {o.id}, false) else records - {o.id};
      results, released := results[1..], released + {o.worker};
      if o.plan.Some? {
        PlanSettles(prepared, fates, before, Open(first, second, results), o.plan.value, if wanted then Applied else Aborted);
        fates := fates[o.plan.value := if wanted then Applied else Aborted];
      } else {
        PlansMove(prepared, fates, before, Open(first, second, results));
      }
    }

    method Step(e: Event)
      requires Valid()
      modifies this
      ensures Valid() && Final()
      ensures e.Stop? ==> stopping
      ensures e.Submit? ==> nextWork == old(nextWork) + 1
      ensures e.CancelWork? ==> records == Cancelled(old(records), e.tun)
      ensures e.Take? && old(StageOf(e.w)) == Idle && (if e.w then old(tun) else old(work)) != [] ==> StageOf(e.w).Working?
      ensures e.Complete? && old(StageOf(e.w)).Working? ==> StageOf(e.w).Sending? && StageOf(e.w).outcome.id == old(StageOf(e.w)).request.id
      ensures e.Send? && old(StageOf(e.w)).Sending? && |old(results)| < QUEUE_SIZE ==> StageOf(e.w).Waiting? && |results| == |old(results)| + 1
      ensures e.Quit? && stopping && !old(StageOf(e.w)).Working? ==> StageOf(e.w) == Gone
      ensures e.Resume? && old(StageOf(e.w)).Waiting? && e.w in old(released) ==> StageOf(e.w) == Idle
      ensures e.Receive? && old(results) != [] ==> results == old(results)[1..] && old(results)[0].worker in released
    {
      hide Settled, HandedOver, Open, Cancelled;
      match e
      case Submit(kind) => var _ := QueueWork(kind);
      case CancelWork(forTun) => CancelRecords(forTun);
      case Stop => stopping := true;
      case Take(w) => TakeRequest(w);
      case Complete(w, succeeds, expired) => CompleteWork(w, succeeds, expired);
      case Send(w) => SendResult(w);
      case Quit(w) => QuitWorker(w);
      case Resume(w) => ResumeWorker(w);
      case Receive =>
        if results != [] {
          FinishWork();
        }
    }

    /** The end of a run: every context is cancelled, the workers leave, and what is still in
        the channel is aborted. */
    method Shutdown(succeed: (bool, bool), send: (bool, bool))
      requires Valid()
      modifies this
      ensures Valid() && Final() && results == [] && first == Gone && second == Gone
      ensures forall p: nat :: p < prepared ==> p in fates
      ensures forall p: nat :: p in fates && p !in old(fates) ==> fates[p] == Aborted
    {
      hide Settled, HandedOver, Open;
      stopping := true;
      LeaveWorker(false, succeed.0, send.0);
      LeaveWorker(true, succeed.1, send.1);
      while results != []
        invariant Valid() && Final() && first == Gone && second == Gone
        invariant forall p: nat :: p in fates && p !in old(fates) ==> fates[p] == Aborted
        decreases |results|
      {
        records := map[];
        FinishWork();
      }
      AllSettled(prepared, fates, first, second, results);
    }

    /** A worker finishes what it has, which has expired, and leaves. */
    method LeaveWorker(w: bool, succeeds: bool, send: bool)
      requires Valid() && stopping
      modifies this`first, this`second, this`prepared, this`fates, this`results, this`released
      ensures Valid() && Final() && StageOf(w) == Gone && StageOf(!w) == old(StageOf(!w))
      ensures forall p: nat :: p in fates && p !in old(fates) ==> fates[p] == Aborted
      // A result that is still sent carries no plan that was prepared meanwhile.
      ensures results == old(results) || (send && |results| == |old(results)| + 1 && old(results) <= results)
      ensures send && |old(results)| < QUEUE_SIZE && (old(StageOf(w)).Working? || old(StageOf(w)).Sending?) ==>
        |results| == |old(results)| + 1 && (old(StageOf(w)).Working? ==> results[|old(results)|].plan == None)
    {
      hide Settled, HandedOver, Open;
      CompleteWork(w, succeeds, true);
      if send {
        SendResult(w);
      }
      QuitWorker(w);
    }

    /** Every interleaving: each plan that was ever prepared is handed to exactly one of
        apply or abort. */
    method Run(events: seq<Event>, succeed: (bool, bool), send: (bool, bool))
      requires Valid()
      modifies this
      ensures Valid() && Final() && forall p: nat :: p in fates <==> p < prepared
    {
      hide Settled, HandedOver, Open;
      for k := 0 to |events|
        invariant Valid() && Final()
      {
        Step(events[k]);
      }
      Shutdown(succeed, send);
      FatesBounded(prepared, fates, first, second, results);
    }
  }

  lemma Handing(first: Stage, second: Stage, results: seq<Outcome>, w: bool, o: Outcome)
    requires (if w then second else first).Sending? && PlanOf(o) == StagePlans(if w then second else first)
    ensures var after := Changed(first, second, w, Waiting(o.id));
      multiset(Open(after.0, after.1, results + [o])) == multiset(Open(first, second, results))
  {
    PlansConcat(results, [o]);
    PlansOne(o);
  }

  lemma AllSettled(prepared: nat, fates: map<nat, Fate>, first: Stage, second: Stage, results: seq<Outcome>)
    requires first == Gone && second == Gone && results == [] && Settled(prepared, fates, Open(first, second, results))
    ensures forall p: nat :: p < prepared ==> p in fates
  {
  }

  lemma FatesBounded(prepared: nat, fates: map<nat, Fate>, first: Stage, second: Stage, results: seq<Outcome>)
    requires Settled(prepared, fates, Open(first, second, results)) && forall p: nat :: p < prepared ==> p in fates
    ensures forall p: nat :: p in fates <==> p < prepared
  {
  }
}
