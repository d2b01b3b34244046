/** The outbox publisher's loop over one claimed batch, and how it refines the protocol. */
module PublisherModel {
  import opened Prelude
  import opened Schema
  import opened QueueModel
  import opened Outbox
  import opened PostgresStore

  /** How one event fares: whether the queue took it, whether the client learned so, and when and how the store call after it went. */
  datatype Fate = Fate(taken: bool, reported: bool, at: Time, call: Call)

  class OutputQueue {
    var sent: set<Message>

    constructor ()
      ensures sent == {}
    {
      sent := {};
    }

    /** Success is only reported of what was taken; a failure may hide a delivery. */
    method Publish(m: Message, fate: Fate) returns (ok: bool)
      modifies this
      ensures sent == if fate.taken then old(sent) + {m} else old(sent)
      ensures ok <==> Reported(fate)
    {
      if fate.taken {
        sent := sent + {m};
      }
      ok := fate.taken && fate.reported;
    }
  }

  predicate Reported(f: Fate) {
    f.taken && f.reported
  }

  function MessageFor(o: OutboxRow): Message {
    Message(o.id, o.event)
  }

  /** What the queue took of the first `n` events. */
  function Taken(batch: seq<OutboxRow>, fates: seq<Fate>, n: nat): set<Message>
    requires n <= |batch| <= |fates|
  {
    set j | 0 <= j < n && fates[j].taken :: MessageFor(batch[j])
  }

  /** The outbox after one event has been marked or rescheduled. */
  function AfterOne(o: seq<OutboxRow>, event: OutboxRow, fate: Fate): (r: seq<OutboxRow>)
    ensures |r| == |o| && forall i | 0 <= i < |o| :: r[i].id == o[i].id && r[i].event == o[i].event
  {
    if Reported(fate) then MarkAll(o, event.id, fate.at) else RetryAll(o, event.id, Backoff(event.attempts + 1), fate.at)
  }

  /** The outbox after each of a batch's events. */
  function AfterBatch(o: seq<OutboxRow>, batch: seq<OutboxRow>, fates: seq<Fate>): (r: seq<OutboxRow>)
    requires |batch| <= |fates|
    ensures |r| == |o| && forall i | 0 <= i < |o| :: r[i].id == o[i].id && r[i].event == o[i].event
  {
    if batch == [] then o
    else
      var n := |batch| - 1;
      AfterOne(AfterBatch(o, batch[..n], fates), batch[n], fates[n])
  }

  lemma AfterNext(o: seq<OutboxRow>, batch: seq<OutboxRow>, fates: seq<Fate>, k: nat)
    requires k < |batch| <= |fates|
    ensures AfterBatch(o, batch[..k + 1], fates) == AfterOne(AfterBatch(o, batch[..k], fates), batch[k], fates[k])
  {
    assert batch[..k + 1][..k] == batch[..k];
  }

  /** An unpublished row after its event was handled. */
  predicate Handled(before: OutboxRow, after: OutboxRow, fate: Fate, attempts: int) {
    && after.id == before.id && after.event == before.event && after.claimed.None?
    && if Reported(fate) then
         after.published == Some(fate.at) && after.attempts == before.attempts
       else
         after.published.None? && after.attempts == before.attempts + 1 && after.nextAttempt == fate.at + Backoff(attempts + 1)
  }

  /** Each unpublished event of the batch ends marked or rescheduled by its own fate alone; published ones and all others
      are left as they were. */
  lemma {:induction false} BatchOutcome(o: seq<OutboxRow>, batch: seq<OutboxRow>, fates: seq<Fate>, i: nat)
    requires |batch| <= |fates| && i < |o| && IdsUnique(batch)
    ensures var r := AfterBatch(o, batch, fates);
            && (forall k | 0 <= k < |batch| && batch[k].id == o[i].id && o[i].published.None? ::
                  Handled(o[i], r[i], fates[k], batch[k].attempts))
            && ((forall k | 0 <= k < |batch| :: batch[k].id != o[i].id) || o[i].published.Some? ==> r[i] == o[i])
  {
    if batch != [] {
      var n := |batch| - 1;
      BatchOutcome(o, batch[..n], fates, i);
      if batch[n].id == o[i].id {
        forall k | 0 <= k < n ensures batch[..n][k].id != o[i].id {
          assert batch[k].id != batch[n].id;
        }
      } else {
        assert forall k | 0 <= k < n :: batch[..n][k] == batch[k];
      }
    }
  }

  class OutboxPublisher {
    const store: Store
    const queue: OutputQueue

    constructor (store: Store, queue: OutputQueue)
      ensures this.store == store && this.queue == queue
    {
      this.store := store;
      this.queue := queue;
    }

    /** Send one event, then mark it published or reschedule it. */
    method SendOne(event: OutboxRow, fate: Fate) returns (e: Option<Error>)
      modifies store`db, queue
      ensures e.None? <==> fate.call.Answered?
      ensures store.db == if fate.call.Refused? then old(store.db) else old(store.db).(outbox := AfterOne(old(store.db.outbox), event, fate))
      ensures queue.sent == if fate.taken then old(queue.sent) + {MessageFor(event)} else old(queue.sent)
    {
      var ok := queue.Publish(Message(event.id, event.event), fate);
      if !fate.call.Refused? {
        if ok {
          store.MarkOutboxPublished(event.id, fate.at);
        } else {
          store.RetryOutbox(event.id, Backoff(event.attempts + 1), fate.at);
        }
      }
      e := if fate.call.Answered? then None else Some(DatabaseError);
    }

    /** The loop over a claimed batch, up to the first store call that does not answer: `sends` events were handed to the
        queue, and `done` of them have been marked or rescheduled. */
    method SendAll(batch: seq<OutboxRow>, fates: seq<Fate>) returns (e: Option<Error>, ghost done: nat, ghost sends: nat)
      requires |batch| <= |fates|
      modifies store`db, queue
      ensures Handed(fates, |batch|, e, done, sends)
      ensures store.db == old(store.db).(outbox := AfterBatch(old(store.db.outbox), batch[..done], fates))
      ensures queue.sent == old(queue.sent) + Taken(batch, fates, sends)
    {
      ghost var before, sent, after := store.db, queue.sent, store.db.outbox;
      var k := 0;
      while k < |batch|
        invariant 0 <= k <= |batch| && forall j | 0 <= j < k :: fates[j].call.Answered?
        invariant store.db == before.(outbox := after) && after == AfterBatch(before.outbox, batch[..k], fates)
        invariant queue.sent == sent + Taken(batch, fates, k)
      {
        AfterNext(before.outbox, batch, fates, k);
        TakenNext(batch, fates, k);
        e := SendOne(batch[k], fates[k]);
        if e.Some? {
          return e, if fates[k].call.Lost? then k + 1 else k, k + 1;
        }
        after := AfterOne(after, batch[k], fates[k]);
        k := k + 1;
      }
      return None, k, k;
    }

    /** publish: claim up to twenty events, then send them one by one. With nobody else at work meanwhile, the call takes the
        protocol from any state `s` that shows the outbox and the queue, to one that shows them as they are left. */
    method Publish(now: Time, claim: Call, fates: seq<Fate>, ghost s: System, ghost self: nat)
      returns (e: Option<Error>, ghost picked: seq<nat>, ghost claimed: seq<OutboxRow>, ghost done: nat, ghost n: System)
      requires |fates| >= 20 && Ascending(now, fates) && IdsUnique(store.db.outbox)
      requires self in s.publishers && s.publishers[self] == Idle && s.clock <= now
      requires s.outbox == store.db.outbox && s.sent == queue.sent
      modifies store`db, queue
      ensures ClaimedAs(old(store.db.outbox), picked, claimed, now) && done <= |picked|
      ensures if claim.Refused? then picked == [] else EarliestFirst(old(store.db.outbox), picked, 20, now)
      ensures e.None? <==> claim.Answered? && forall j | 0 <= j < |picked| :: fates[j].call.Answered?
      ensures e.None? ==> done == |picked|
      ensures store.db == old(store.db).(outbox := AfterBatch(claimed, RowsAt(old(store.db.outbox), picked)[..done], fates))
      ensures MarkedWereSent(old(store.db.outbox), store.db.outbox, queue.sent)
      ensures Reaches(s, n) && n.outbox == store.db.outbox && n.sent == queue.sent && n.publishers == s.publishers
    {
      if claim.Refused? {
        e, picked, claimed, done := Some(DatabaseError), [], s.outbox, 0;
        n := PublishEnds(s, self, picked, claimed, fates, now, 0, 0);
        return;
      }
      var batch;
      batch, picked := store.ClaimOutbox(20, now);
      claimed := store.db.outbox;
      if claim.Lost? {
        e, done := Some(DatabaseError), 0;
        n := PublishEnds(s, self, picked, claimed, fates, now, 0, 0);
        return;
      }
      ghost var sends;
      e, done, sends := SendAll(batch, fates);
      n := PublishEnds(s, self, picked, claimed, fates, now, done, sends);
    }
  }

  /** How far a batch of `n` events came: all the way, or to the first store call that does not answer. */
  predicate Handed(fates: seq<Fate>, n: nat, e: Option<Error>, done: nat, sends: nat)
    requires n <= |fates|
  {
    && done <= sends <= n && (forall j | 0 <= j < sends - 1 :: fates[j].call.Answered?)
    && if e.None? then done == sends == n && (sends > 0 ==> fates[sends - 1].call.Answered?)
       else 0 < sends && !fates[sends - 1].call.Answered? && done == if fates[sends - 1].call.Lost? then sends else sends - 1
  }

  /** Every event marked published between the two has been taken by the queue. */
  ghost predicate MarkedWereSent(a: seq<OutboxRow>, b: seq<OutboxRow>, sent: set<Message>) {
    |a| == |b| && forall i | 0 <= i < |b| && b[i].published.Some? && a[i].published.None? :: MessageFor(b[i]) in sent
  }

  lemma TakenNext(batch: seq<OutboxRow>, fates: seq<Fate>, k: nat)
    requires k < |batch| <= |fates|
    ensures Taken(batch, fates, k + 1) == Taken(batch, fates, k) + if fates[k].taken then {MessageFor(batch[k])} else {}
  {
  }

  lemma BatchIds(a: seq<OutboxRow>, picked: seq<nat>)
    requires IdsUnique(a) && (forall k | 0 <= k < |picked| :: picked[k] < |a|)
    requires forall j, k | 0 <= j < k < |picked| :: picked[j] != picked[k]
    ensures IdsUnique(RowsAt(a, picked))
  {
    forall j, k | 0 <= j < k < |picked| ensures a[picked[j]].id != a[picked[k]].id {
      assert picked[j] != picked[k];
    }
  }

  /** Whatever the batch newly marked was taken by the queue. */
  lemma SentBeforeMarked(a: seq<OutboxRow>, picked: seq<nat>, claimed: seq<OutboxRow>, fates: seq<Fate>, now: Time, n: nat)
    requires IdsUnique(a) && ClaimedAs(a, picked, claimed, now) && n <= |picked| <= |fates|
    ensures MarkedWereSent(a, AfterBatch(claimed, RowsAt(a, picked)[..n], fates), Taken(RowsAt(a, picked), fates, n))
  {
    BatchIds(a, picked);
    var batch := RowsAt(a, picked);
    var done := batch[..n];
    var r := AfterBatch(claimed, done, fates);
    forall i | 0 <= i < |a| && r[i].published.Some? && a[i].published.None? ensures MessageFor(r[i]) in Taken(batch, fates, n) {
      BatchOutcome(claimed, done, fates, i);
      if k :| 0 <= k < |done| && done[k].id == claimed[i].id {
        assert batch[k].id == a[i].id && picked[k] == i;
      }
    }
  }

  /** What a call that came this far has done. */
  lemma PublishEnds(s: System, self: nat, picked: seq<nat>, claimed: seq<OutboxRow>, fates: seq<Fate>, now: Time, done: nat, sends: nat)
    returns (n: System)
    requires self in s.publishers && s.publishers[self] == Idle && s.clock <= now && Ascending(now, fates) && IdsUnique(s.outbox)
    requires ClaimedAs(s.outbox, picked, claimed, now) && done <= sends <= done + 1 && sends <= |picked| <= |fates|
    ensures MarkedWereSent(s.outbox, n.outbox, n.sent) && Reaches(s, n) && n.publishers == s.publishers
    ensures n.outbox == AfterBatch(claimed, RowsAt(s.outbox, picked)[..done], fates)
    ensures n.sent == s.sent + Taken(RowsAt(s.outbox, picked), fates, sends)
  {
    SentBeforeMarked(s.outbox, picked, claimed, fates, now, done);
    n := PublishIsProtocol(s, self, picked, claimed, fates, now, done, sends);
    assert Taken(RowsAt(s.outbox, picked), fates, done) <= Taken(RowsAt(s.outbox, picked), fates, sends);
  }

  // ---- the loop refines the protocol ----

  /** The instants of the store calls do not run backwards. */
  predicate Ascending(now: Time, fates: seq<Fate>) {
    (forall j | 0 <= j < |fates| :: now <= fates[j].at) && forall i, j | 0 <= i < j < |fates| :: fates[i].at <= fates[j].at
  }

  ghost predicate Path(run: seq<System>, s: System, n: System) {
    run != [] && run[0] == s && run[|run| - 1] == n && forall k: nat {:trigger StepAt(run, k)} | k < |run| - 1 :: StepAt(run, k)
  }

  /** Some steps of the protocol lead from `s` to `n`. */
  ghost predicate Reaches(s: System, n: System) {
    exists run :: Path(run, s, n)
  }

  lemma ReachesSelf(s: System)
    ensures Reaches(s, s)
  {
    assert Path([s], s, s);
  }

  lemma ReachesNext(s: System, m: System, n: System)
    requires Reaches(s, m) && Step(m, n)
    ensures Reaches(s, n)
  {
    var run :| Path(run, s, m);
    var longer := run + [n];
    forall k: nat | k < |longer| - 1 ensures StepAt(longer, k) {
      assert k < |run| - 1 ==> StepAt(run, k);
    }
    assert Path(longer, s, n);
  }

  lemma ReachesLater(s: System, m: System, at: Time)
    requires Reaches(s, m) && m.clock <= at
    ensures Reaches(s, m.(clock := at))
  {
    ReachesNext(s, m, m.(clock := at));
  }

  lemma ReachesByWork(s: System, m: System, n: System, self: nat)
    requires Reaches(s, m) && PublisherStep(m, n, self)
    ensures Reaches(s, n)
  {
    ReachesNext(s, m, n);
  }

  /** The protocol with the first `k` events handled. */
  function AfterEvents(s: System, self: nat, items: seq<Item>, batch: seq<OutboxRow>, fates: seq<Fate>, k: nat): System
    requires k <= |items| == |batch| <= |fates|
  {
    s.(outbox := AfterBatch(s.outbox, batch[..k], fates), sent := s.sent + Taken(batch, fates, k),
       publishers := s.publishers[self := if k == |items| then Idle else Busy(items[k..], ToSend)],
       clock := if k == 0 then s.clock else fates[k - 1].at)
  }

  /** The items in hand are the rows of the batch. */
  predicate InHand(items: seq<Item>, batch: seq<OutboxRow>) {
    |items| == |batch|
    && forall k | 0 <= k < |batch| :: items[k].id == batch[k].id && items[k].event == batch[k].event && items[k].attempts == batch[k].attempts
  }

  /** The protocol with the event after those in hand sent, or thought unsent. */
  function AfterSend(m: System, self: nat, items: seq<Item>, fate: Fate, k: nat): System
    requires k < |items|
  {
    m.(sent := if fate.taken then m.sent + {MessageOf(items[k])} else m.sent, clock := fate.at,
       publishers := m.publishers[self := Busy(items[k..], if Reported(fate) then Sent else Unsent)])
  }

  lemma SendReaches(s: System, m: System, self: nat, items: seq<Item>, fate: Fate, k: nat)
    requires Reaches(s, m) && k < |items| && self in m.publishers && m.publishers[self] == Busy(items[k..], ToSend) && m.clock <= fate.at
    ensures Reaches(s, AfterSend(m, self, items, fate, k))
  {
    ReachesLater(s, m, fate.at);
    var later := m.(clock := fate.at);
    assert SendStep(later, AfterSend(m, self, items, fate, k), self);
    ReachesByWork(s, later, AfterSend(m, self, items, fate, k), self);
  }

  lemma {:induction false} EventsReach(s: System, self: nat, items: seq<Item>, batch: seq<OutboxRow>, fates: seq<Fate>, k: nat)
    requires k <= |items| == |batch| <= |fates| && InHand(items, batch) && items != [] && Ascending(s.clock, fates)
    requires self in s.publishers && s.publishers[self] == Busy(items, ToSend)
    ensures Reaches(s, AfterEvents(s, self, items, batch, fates, k))
  {
    if k == 0 {
      assert items[0..] == items && s.publishers[self := s.publishers[self]] == s.publishers;
      assert AfterEvents(s, self, items, batch, fates, 0) == s;
      ReachesSelf(s);
    } else {
      var j := k - 1;
      var m, n := AfterEvents(s, self, items, batch, fates, j), AfterEvents(s, self, items, batch, fates, k);
      EventsReach(s, self, items, batch, fates, j);
      SendReaches(s, m, self, items, fates[j], j);
      EventStep(s, self, items, batch, fates, j);
      ReachesByWork(s, AfterSend(m, self, items, fates[j], j), n, self);
    }
  }

  /** Marking or rescheduling the event just sent. */
  lemma EventStep(s: System, self: nat, items: seq<Item>, batch: seq<OutboxRow>, fates: seq<Fate>, j: nat)
    requires j < |items| == |batch| <= |fates| && InHand(items, batch) && self in s.publishers
    ensures PublisherStep(AfterSend(AfterEvents(s, self, items, batch, fates, j), self, items, fates[j], j),
                          AfterEvents(s, self, items, batch, fates, j + 1), self)
  {
    var m := AfterSend(AfterEvents(s, self, items, batch, fates, j), self, items, fates[j], j);
    var n := AfterEvents(s, self, items, batch, fates, j + 1);
    TakenNext(batch, fates, j);
    AfterNext(s.outbox, batch, fates, j);
    assert items[j..][1..] == items[j + 1..];
    assert n.sent == m.sent;
    assert n.publishers == m.publishers[self := Next(m.publishers[self])];
    assert MarkStep(m, n, self) || RetryStep(m, n, self);
  }

  /** The protocol when the publisher has stopped after `sends` events, `done` of them marked or rescheduled. */
  function Stopped(s: System, batch: seq<OutboxRow>, claimed: seq<OutboxRow>, fates: seq<Fate>, done: nat, sends: nat, at: Time): System
    requires done <= sends <= |batch| <= |fates|
  {
    s.(outbox := AfterBatch(claimed, batch[..done], fates), sent := s.sent + Taken(batch, fates, sends), clock := at)
  }

  /** One call of publish, however it ends, is a run of the protocol's steps that leaves the publisher idle. */
  lemma PublishIsProtocol(s: System, self: nat, picked: seq<nat>, claimed: seq<OutboxRow>, fates: seq<Fate>, now: Time, done: nat, sends: nat)
    returns (n: System)
    requires self in s.publishers && s.publishers[self] == Idle && s.clock <= now && Ascending(now, fates)
    requires ClaimedAs(s.outbox, picked, claimed, now) && done <= sends <= done + 1 && sends <= |picked| <= |fates|
    ensures Reaches(s, n) && n == Stopped(s, RowsAt(s.outbox, picked), claimed, fates, done, sends, n.clock)
  {
    var later, batch, items := s.(clock := now), RowsAt(s.outbox, picked), Items(s.outbox, picked, now);
    ReachesSelf(s);
    ReachesLater(s, s, now);
    if picked == [] {
      assert claimed == s.outbox;
      n := later;
    } else {
      var c := later.(outbox := claimed, publishers := s.publishers[self := Busy(items, ToSend)]);
      assert ClaimOf(later, c, self, picked);
      ReachesByWork(s, later, c, self);
      n := BatchIsProtocol(c, self, items, batch, fates, done, sends);
      ReachesOn(s, c, n);
      assert s.publishers[self := Busy(items, ToSend)][self := Idle] == s.publishers;
    }
  }

  lemma {:induction false} ReachesOn(s: System, m: System, n: System)
    requires Reaches(s, m) && Reaches(m, n)
    ensures Reaches(s, n)
  {
    var run :| Path(run, m, n);
    var k := 0;
    while k < |run| - 1
      invariant 0 <= k < |run| && Reaches(s, run[k])
    {
      assert StepAt(run, k);
      ReachesNext(s, run[k], run[k + 1]);
      k := k + 1;
    }
  }

  lemma BatchIsProtocol(c: System, self: nat, items: seq<Item>, batch: seq<OutboxRow>, fates: seq<Fate>, done: nat, sends: nat) returns (n: System)
    requires self in c.publishers && items != [] && c.publishers[self] == Busy(items, ToSend) && InHand(items, batch)
    requires done <= sends <= done + 1 && sends <= |batch| <= |fates| && Ascending(c.clock, fates)
    ensures Reaches(c, n) && n == Stopped(c.(publishers := c.publishers[self := Idle]), batch, c.outbox, fates, done, sends, n.clock)
  {
    var m := AfterEvents(c, self, items, batch, fates, done);
    EventsReach(c, self, items, batch, fates, done);
    if sends > done {
      SendReaches(c, m, self, items, fates[done], done);
      TakenNext(batch, fates, done);
      m := AfterSend(m, self, items, fates[done], done);
    }
    n := m.(publishers := m.publishers[self := Idle]);
    assert StopStep(m, n, self);
    ReachesByWork(c, m, n, self);
  }
}
