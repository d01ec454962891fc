/** The owner of the refresh timer, its fixed workers, and the two bounded channels
    between them. */
module RefreshScheduler {
  import opened Common
  import opened SubscriptionImage

  /** A refresh of one subscription, or the one resource refresh. */
  datatype Job = Subscription(id: SubId) | Resources

  /** When a subscription was last checked (never is `None`), and how often it is due. */
  datatype Timetable = Timetable(enabled: bool, checked: Option<int>, interval: int)

  function DueAt(t: Timetable, now: int): int {
    if t.checked == None then now else t.checked.value + t.interval
  }

  predicate Considered(records: map<SubId, Timetable>, excluded: set<SubId>, id: SubId) {
    id in records && records[id].enabled && id !in excluded
  }

  /** An enabled subscription that was never checked, or whose interval has passed since. */
  predicate IsDue(records: map<SubId, Timetable>, id: SubId, now: int) {
    id in records && records[id].enabled && (records[id].checked == None || records[id].checked.value + records[id].interval <= now)
  }

  /** The deadline of a subscription says when it is due; without a check that is now. */
  lemma DueMeans(records: map<SubId, Timetable>, excluded: set<SubId>, now: int)
    ensures forall id :: Considered(records, excluded, id) && DueAt(records[id], now) <= now <==> IsDue(records, id, now) && id !in excluded
    ensures forall id :: id in records ==> DueAt(records[id], now) == if records[id].checked == None then now else records[id].checked.value + records[id].interval
  {
  }

  /** Which subscriptions are due now, and when the next one will be. */
  method DueIDs(records: map<SubId, Timetable>, now: int, excluded: set<SubId>) returns (ids: seq<SubId>, next: Option<int>)
    ensures Distinct(ids)
    ensures forall id :: id in ids <==> IsDue(records, id, now) && id !in excluded
    ensures forall id :: id in ids <==> Considered(records, excluded, id) && DueAt(records[id], now) <= now
    ensures next == None <==> forall id :: !Considered(records, excluded, id)
    ensures next.Some? ==> forall id :: Considered(records, excluded, id) ==> next.value <= DueAt(records[id], now)
    ensures next.Some? ==> exists id :: Considered(records, excluded, id) && next.value == DueAt(records[id], now)
  {
    hide DueAt, Considered, DueAmong, NextAmong, IsDue;
    ids, next := [], None;
    var all := Enumerate(records.Keys);
    NoneAmong(records, now, excluded);
    for k := 0 to |all|
      invariant DueAmong(records, now, excluded, all[..k], ids) && NextAmong(records, now, excluded, all[..k], next)
    {
      var id := all[k];
      assert id in records.Keys && id !in all[..k] && all[..k + 1] == all[..k] + [id];
      OneMore(records, now, excluded, all[..k], ids, next, id);
      if Considered(records, excluded, id) {
        var due := DueAt(records[id], now);
        ids := if due <= now then ids + [id] else ids;
        next := if next == None || due < next.value then Some(due) else next;
      }
    }
    assert all[..|all|] == all;
    Everything(records, now, excluded, all, ids, next);
    DueMeans(records, excluded, now);
  }

  /** The due ones among those seen, and the earliest deadline among them. */
  ghost predicate DueAmong(records: map<SubId, Timetable>, now: int, excluded: set<SubId>, seen: seq<SubId>, ids: seq<SubId>) {
    Distinct(ids) && forall id :: id in ids <==> id in seen && Considered(records, excluded, id) && DueAt(records[id], now) <= now
  }

  ghost predicate NextAmong(records: map<SubId, Timetable>, now: int, excluded: set<SubId>, seen: seq<SubId>, next: Option<int>) {
    && (forall id :: id in seen && Considered(records, excluded, id) ==> next.Some? && next.value <= DueAt(records[id], now))
    && (next.Some? ==> exists id :: id in seen && Considered(records, excluded, id) && next.value == DueAt(records[id], now))
  }

  lemma NoneAmong(records: map<SubId, Timetable>, now: int, excluded: set<SubId>)
    ensures DueAmong(records, now, excluded, [], []) && NextAmong(records, now, excluded, [], None)
  {
  }

  lemma OneMore(records: map<SubId, Timetable>, now: int, excluded: set<SubId>, seen: seq<SubId>, ids: seq<SubId>, next: Option<int>, id: SubId)
    requires DueAmong(records, now, excluded, seen, ids) && NextAmong(records, now, excluded, seen, next) && id !in seen && id in records
    ensures
      var due := DueAt(records[id], now);
      var ids' := if Considered(records, excluded, id) && due <= now then ids + [id] else ids;
      var next' := if Considered(records, excluded, id) && (next == None || due < next.value) then Some(due) else next;
      DueAmong(records, now, excluded, seen + [id], ids') && NextAmong(records, now, excluded, seen + [id], next')
  {
    hide DueAt;
    var due := DueAt(records[id], now);
    if Considered(records, excluded, id) && (next == None || due < next.value) {
      assert id in seen + [id] && Some(due).value == DueAt(records[id], now);
    } else if next.Some? {
      var least :| least in seen && Considered(records, excluded, least) && next.value == DueAt(records[least], now);
      assert least in seen + [id];
    }
  }

  lemma Everything(records: map<SubId, Timetable>, now: int, excluded: set<SubId>, all: seq<SubId>, ids: seq<SubId>, next: Option<int>)
    requires DueAmong(records, now, excluded, all, ids) && NextAmong(records, now, excluded, all, next) && forall id :: id in all <==> id in records.Keys
    ensures Distinct(ids)
    ensures forall id :: id in ids <==> Considered(records, excluded, id) && DueAt(records[id], now) <= now
    ensures next == None <==> forall id :: !Considered(records, excluded, id)
    ensures next.Some? ==> forall id :: Considered(records, excluded, id) ==> next.value <= DueAt(records[id], now)
    ensures next.Some? ==> exists id :: Considered(records, excluded, id) && next.value == DueAt(records[id], now)
  {
    hide DueAt;
  }

  ghost function DueSet(records: map<SubId, Timetable>, now: int): set<SubId> {
    set id | id in records.Keys && Considered(records, {}, id) && DueAt(records[id], now) <= now
  }

  lemma DueIsOffered(records: map<SubId, Timetable>, now: int, pending: set<SubId>, ids: seq<SubId>)
    requires forall id :: id in ids <==> Considered(records, pending, id) && DueAt(records[id], now) <= now
    ensures forall id :: id in DueSet(records, now) <==> Considered(records, {}, id) && DueAt(records[id], now) <= now
    ensures forall id :: id in DueSet(records, now) ==> id in pending || id in ids
    ensures forall id :: id in ids <==> id in DueSet(records, now) && id !in pending
  {
    hide DueAt;
  }

  /** Every job that somebody still has to deal with. */
  ghost predicate Tracked(pending: set<SubId>, resourcePending: bool, outstanding: seq<Job>) {
    && Distinct(outstanding)
    && (forall id :: id in pending <==> Subscription(id) in outstanding)
    && (resourcePending <==> Resources in outstanding)
  }

  lemma JobLeaves(pending: set<SubId>, resourcePending: bool, outstanding: seq<Job>, i: nat)
    requires Tracked(pending, resourcePending, outstanding) && i < |outstanding|
    ensures
      var job, rest := outstanding[i], outstanding[..i] + outstanding[i + 1..];
      Tracked(if job.Subscription? then pending - {job.id} else pending, resourcePending && job.Subscription?, rest)
  {
    var job, rest := outstanding[i], outstanding[..i] + outstanding[i + 1..];
    assert job !in rest;
    forall x ensures x in rest <==> x in outstanding && x != job {
      if x in outstanding && x != job {
        var k :| 0 <= k < |outstanding| && outstanding[k] == x;
        assert x == rest[if k < i then k else k - 1];
      }
    }
  }

  lemma SameJobs(pending: set<SubId>, resourcePending: bool, before: seq<Job>, after: seq<Job>)
    requires Tracked(pending, resourcePending, before) && multiset(before) == multiset(after)
    ensures Tracked(pending, resourcePending, after)
  {
    forall x ensures x in after <==> x in before {
      assert x in multiset(before) <==> x in multiset(after);
    }
    SameDistinct(before, after);
  }

  lemma JobTaken(queued: seq<Job>, running: seq<Job>, completed: seq<Job>)
    requires queued != []
    ensures multiset(queued[1..] + (running + [queued[0]]) + completed) == multiset(queued + running + completed)
  {
    assert queued == [queued[0]] + queued[1..];
  }

  lemma JobFinished(queued: seq<Job>, running: seq<Job>, completed: seq<Job>, i: nat)
    requires i < |running|
    ensures multiset(queued + (running[..i] + running[i + 1..]) + (completed + [running[i]])) == multiset(queued + running + completed)
  {
    assert running == running[..i] + [running[i]] + running[i + 1..];
  }

  datatype Event =
    | Replace(records: map<SubId, Timetable>)
    | Begin(now: int, resourcesNow: bool)
    | OfferNext
    | Take
    | Finish(i: nat)
    | Read

  class Scheduler {
    const workers: nat
    /** Records of the subscription store. */
    var records: map<SubId, Timetable>
    var pending: set<SubId>
    var resourcePending: bool
    /** The job channel, the jobs in workers' hands, and the completion channel. */
    var queued: seq<Job>
    var running: seq<Job>
    var completed: seq<Job>
    /** The owner's present pass: what is still to be offered, and whether an offer was
        refused. Between passes the owner waits, after a refusal without a timer. */
    var passing: bool
    var due: seq<SubId>
    var resourcesDue: bool
    var blocked: bool
    /** What was due when the pass began. */
    ghost var wanted: set<SubId>
    ghost var resourcesWanted: bool

    /** A subscription is pending exactly while one job for it is queued, running or completed
        but unread; the channels and workers are bounded. */
    ghost predicate Booked()
      reads this`pending, this`resourcePending, this`queued, this`running, this`completed
    {
      && workers > 0
      && Tracked(pending, resourcePending, queued + running + completed)
      && |queued| <= workers && |running| <= workers && |completed| <= workers
    }

    /** What the pass keeps: nothing still to be offered is pending, and unless an offer was
        refused everything else that was due is. */
    ghost predicate PassOk()
      reads this`pending, this`resourcePending, this`passing, this`due, this`resourcesDue, this`blocked, this`wanted, this`resourcesWanted
    {
      passing ==>
        && Distinct(due) && (forall id :: id in due ==> id !in pending)
        && (!blocked ==> (forall id :: id in wanted ==> id in pending || id in due) && (resourcesWanted ==> resourcePending || resourcesDue))
    }

    /** ... and an owner that was refused has a job outstanding, whose completion will wake it. */
    ghost predicate Valid()
      reads this
    {
      Booked() && (blocked ==> queued + running + completed != []) && PassOk()
    }

    constructor (workers: nat, records: map<SubId, Timetable>)
      requires workers > 0
      ensures Valid() && pending == {} && !resourcePending && this.workers == workers
    {
      this.workers, this.records := workers, records;
      pending, resourcePending, queued, running, completed := {}, false, [], [], [];
      passing, due, resourcesDue, blocked, wanted, resourcesWanted := false, [], false, false, {}, false;
    }

    /** The store's records changed: subscriptions came, went or were checked, also while
        their jobs are outstanding. */
    method Replace(next: map<SubId, Timetable>)
      requires Valid()
      modifies this`records
      ensures Valid() && records == next
    {
      records := next;
    }

    /** Offers one job to the channel without waiting. */
    method Offer(job: Job) returns (refused: bool)
      requires Booked() && job !in queued + running + completed
      modifies this`pending, this`resourcePending, this`queued
      ensures Booked() && queued != [] && (refused <==> |old(queued)| == workers)
      ensures queued == if refused then old(queued) else old(queued) + [job]
      ensures pending == if !refused && job.Subscription? then old(pending) + {job.id} else old(pending)
      ensures resourcePending == (old(resourcePending) || (!refused && job.Resources?))
    {
      if |queued| >= workers {
        return true;
      }
      ghost var before := queued + running + completed;
      ghost var after := queued + [job] + running + completed;
      forall x ensures x in after <==> x in before || x == job {
      }
      queued := queued + [job];
      if job.Subscription? {
        pending := pending + {job.id};
      } else {
        resourcePending := true;
      }
      JoinDistinct(before, job, after);
      refused := false;
    }

    /** The owner, woken, begins a pass over what is due. */
    method Begin(now: int, resourcesNow: bool)
      requires Valid()
      modifies this`passing, this`due, this`resourcesDue, this`blocked, this`wanted, this`resourcesWanted
      ensures Valid()
      ensures !old(passing) ==> passing && !blocked && resourcesWanted == resourcesNow
      ensures !old(passing) ==> forall id :: id in wanted <==> IsDue(records, id, now)
      ensures !old(passing) ==> (forall id :: id in due <==> id in wanted && id !in pending) && resourcesDue == (resourcesNow && !resourcePending)
      ensures old(passing) ==> passing && due == old(due) && blocked == old(blocked) && wanted == old(wanted) && resourcesWanted == old(resourcesWanted)
    {
      hide DueAt, Tracked, Considered, Booked, DueSet, IsDue;
      if passing {
        return;
      }
      var ids, _ := DueIDs(records, now, pending);
      DueIsOffered(records, now, pending, ids);
      DueMeans(records, {}, now);
      passing, due, resourcesDue, blocked := true, ids, resourcesNow && !resourcePending, false;
      wanted, resourcesWanted := DueSet(records, now), resourcesNow;
    }

    /** The owner's next offer, or the end of its pass. It never waits on a send, and workers
        may take jobs between two offers. A pass that ends without a refusal has made
        everything pending that was due when it began. */
    method OfferNext()
      requires Valid()
      modifies this`pending, this`resourcePending, this`queued, this`passing, this`due, this`resourcesDue, this`blocked
      ensures Valid() && old(queued) <= queued && old(pending) <= pending
      ensures old(passing) && !passing && !blocked ==> (forall id :: id in wanted ==> id in pending) && (resourcesWanted ==> resourcePending)
      ensures !old(passing) ==> !passing && queued == old(queued) && pending == old(pending) && blocked == old(blocked)
      ensures old(passing) && old(due) != [] ==> passing && due == old(due)[1..] && resourcesDue == old(resourcesDue)
      ensures old(passing) && old(due) != [] ==>
        if |old(queued)| < workers then queued == old(queued) + [Subscription(old(due)[0])] && blocked == old(blocked) else queued == old(queued) && blocked
      ensures old(passing && due == [] && resourcesDue && !resourcePending) ==>
        passing && if |old(queued)| < workers then queued == old(queued) + [Resources] && blocked == old(blocked) else queued == old(queued) && blocked
      ensures old(passing && due == [] && !(resourcesDue && !resourcePending)) ==> !passing && queued == old(queued) && blocked == old(blocked)
    {
      if !passing {
        return;
      }
      if due != [] {
        OfferDue();
      } else if resourcesDue && !resourcePending {
        var refused := Offer(Resources);
        blocked, resourcesDue := blocked || refused, false;
      } else {
        passing := false;
      }
    }

    method OfferDue()
      requires Valid() && passing && due != []
      modifies this`pending, this`resourcePending, this`queued, this`due, this`blocked
      ensures Valid() && old(queued) <= queued && old(pending) <= pending && due == old(due)[1..]
      ensures if |old(queued)| < workers then queued == old(queued) + [Subscription(old(due)[0])] && blocked == old(blocked) else queued == old(queued) && blocked
    {
      ghost var before := due;
      assert forall i :: 0 <= i < |before| - 1 ==> before[1..][i] == before[i + 1];
      assert due[0] in due;
      var refused := Offer(Subscription(due[0]));
      due, blocked := due[1..], blocked || refused;
      assert forall id :: id in before ==> id == before[0] || id in due;
    }

    /** A worker takes the oldest queued job. */
    method Take()
      requires Valid()
      modifies this`queued, this`running
      ensures Valid()
      ensures old(queued) != [] && |old(running)| < workers ==> queued == old(queued)[1..] && running == old(running) + [old(queued)[0]]
    {
      hide Tracked, PassOk;
      if queued != [] && |running| < workers {
        JobTaken(queued, running, completed);
        SameJobs(pending, resourcePending, queued + running + completed, queued[1..] + (running + [queued[0]]) + completed);
        queued, running := queued[1..], running + [queued[0]];
      }
    }

    /** A worker reports a job as done, if the completion channel has room. */
    method Finish(i: nat)
      requires Valid()
      modifies this`running, this`completed
      ensures Valid()
      ensures i < |old(running)| && |old(completed)| < workers ==>
        running == old(running)[..i] + old(running)[i + 1..] && completed == old(completed) + [old(running)[i]]
    {
      hide Tracked, PassOk;
      if i < |running| && |completed| < workers {
        JobFinished(queued, running, completed, i);
        SameJobs(pending, resourcePending, queued + running + completed, queued + (running[..i] + running[i + 1..]) + (completed + [running[i]]));
        running, completed := running[..i] + running[i + 1..], completed + [running[i]];
      }
    }

    /** The owner, waiting between passes, reads one completion. That wakes it, and the
        subscription may be scheduled again. */
    method Read()
      requires Valid()
      modifies this`pending, this`resourcePending, this`completed, this`blocked
      ensures Valid()
      ensures old(completed) != [] && !passing ==> completed == old(completed)[1..] && !blocked
      ensures old(completed) != [] && !passing && old(completed)[0].Subscription? ==> pending == old(pending) - {old(completed)[0].id} && resourcePending == old(resourcePending)
      ensures old(completed) != [] && !passing && old(completed)[0].Resources? ==> pending == old(pending) && !resourcePending
      ensures old(completed) == [] || passing ==> completed == old(completed) && pending == old(pending) && blocked == old(blocked)
    {
      if completed != [] && !passing {
        var job := completed[0];
        var at := |queued| + |running|;
        ghost var before := queued + running + completed;
        JobLeaves(pending, resourcePending, before, at);
        assert before[at] == job && before[..at] + before[at + 1..] == queued + running + completed[1..];
        completed, blocked := completed[1..], false;
        if job.Resources? {
          resourcePending := false;
        } else {
          pending := pending - {job.id};
        }
      }
    }

    /** Every interleaving of the owner's offers, the workers and changes of the records. */
    method Run(events: seq<Event>)
      requires Valid()
      modifies this
      ensures Valid()
    {
      hide Valid;
      for k := 0 to |events|
        invariant Valid()
      {
        match events[k]
        case Replace(next) => Replace(next);
        case Begin(now, resourcesNow) => Begin(now, resourcesNow);
        case OfferNext => OfferNext();
        case Take => Take();
        case Finish(i) => Finish(i);
        case Read => Read();
      }
    }
  }

  lemma JoinDistinct(before: seq<Job>, job: Job, after: seq<Job>)
    requires Distinct(before) && job !in before && multiset(after) == multiset(before) + multiset{job}
    ensures Distinct(after)
  {
    SameDistinct(before + [job], after);
  }
}
