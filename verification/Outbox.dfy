/** Publishing the outbox: leases, retries, many publishers, crashes. */
module Outbox {
  import opened Prelude
  import opened Domain
  import opened Schema
  import opened Writes
  import opened EventLog
  import opened QueueModel
  import Steps

  const LEASE := 30 * SECOND

  predicate Claimable(o: OutboxRow, now: Time) {
    o.published.None? && o.nextAttempt <= now && (o.claimed.None? || o.claimed.value < now)
  }

  function Claim(o: OutboxRow, now: Time): OutboxRow {
    o.(claimed := Some(now + LEASE))
  }

  /** MarkOutboxPublished on one row. */
  function Mark(o: OutboxRow, now: Time): OutboxRow {
    if o.published.Some? then o else o.(published := Some(now), claimed := None)
  }

  /** RetryOutbox on one row. */
  function Retry(o: OutboxRow, delay: int, now: Time): OutboxRow {
    if o.published.Some? then o else o.(attempts := o.attempts + 1, nextAttempt := now + delay, claimed := None)
  }

  function MarkAll(o: seq<OutboxRow>, id: Id, now: Time): (r: seq<OutboxRow>)
    ensures |r| == |o| && forall i | 0 <= i < |o| :: r[i] == if o[i].id == id then Mark(o[i], now) else o[i]
  {
    seq(|o|, i requires 0 <= i < |o| => if o[i].id == id then Mark(o[i], now) else o[i])
  }

  function RetryAll(o: seq<OutboxRow>, id: Id, delay: int, now: Time): (r: seq<OutboxRow>)
    ensures |r| == |o| && forall i | 0 <= i < |o| :: r[i] == if o[i].id == id then Retry(o[i], delay, now) else o[i]
  {
    seq(|o|, i requires 0 <= i < |o| => if o[i].id == id then Retry(o[i], delay, now) else o[i])
  }

  ghost predicate IdsUnique(o: seq<OutboxRow>) {
    forall i, j | 0 <= i < j < |o| :: o[i].id != o[j].id
  }

  // ---- ClaimOutbox ----

  /** `rows` are the picked rows of `a`, in picking order; `b` differs from `a` in their leases alone. */
  ghost predicate ClaimedAs(a: seq<OutboxRow>, picked: seq<nat>, b: seq<OutboxRow>, now: Time) {
    && |b| == |a|
    && (forall i | 0 <= i < |a| :: b[i] == if i in picked then Claim(a[i], now) else a[i])
    && (forall k | 0 <= k < |picked| :: picked[k] < |a| && Claimable(a[picked[k]], now))
    && (forall j, k | 0 <= j < k < |picked| :: picked[j] != picked[k])
  }

  /** The claim takes as many as it may, earliest first. */
  ghost predicate EarliestFirst(a: seq<OutboxRow>, picked: seq<nat>, limit: nat, now: Time) {
    && |picked| <= limit
    && (forall i, k | 0 <= i < |a| && i !in picked && Claimable(a[i], now) && 0 <= k < |picked| && picked[k] < |a| ::
          a[picked[k]].occurredAt <= a[i].occurredAt)
    && (|picked| < limit ==> forall i | 0 <= i < |a| && i !in picked :: !Claimable(a[i], now))
  }

  /** Not published, due, and under no lease that still runs. */
  predicate Ready(o: OutboxRow, now: Time) {
    o.published == None && o.nextAttempt <= now && !(o.claimed.Some? && now <= o.claimed.value)
  }

  /** A claim leases for thirty seconds exactly the rows it picks, all of them ready; while it could take more it leaves no
      ready row out, and it never passes over an earlier one. */
  lemma ClaimExact(a: seq<OutboxRow>, picked: seq<nat>, b: seq<OutboxRow>, limit: nat, now: Time)
    requires ClaimedAs(a, picked, b, now) && EarliestFirst(a, picked, limit, now)
    ensures |b| == |a| && |picked| <= limit && forall j, k | 0 <= j < k < |picked| :: picked[j] != picked[k]
    ensures forall k | 0 <= k < |picked| :: picked[k] < |a| && Ready(a[picked[k]], now)
    ensures forall i | 0 <= i < |a| :: b[i] == if i in picked then a[i].(claimed := Some(now + 30_000_000_000)) else a[i]
    ensures forall i | 0 <= i < |a| && Ready(a[i], now) && i !in picked ::
              |picked| == limit && forall k | 0 <= k < limit :: a[picked[k]].occurredAt <= a[i].occurredAt
  {
  }

  function RowsAt(a: seq<OutboxRow>, picked: seq<nat>): (r: seq<OutboxRow>)
    requires forall k | 0 <= k < |picked| :: picked[k] < |a|
    ensures |r| == |picked| && forall k | 0 <= k < |r| :: r[k] == a[picked[k]]
  {
    seq(|picked|, k requires 0 <= k < |picked| => a[picked[k]])
  }

  // ---- the protocol ----

  datatype Message = Message(id: Id, event: Event)

  /** A claimed event in a publisher's hands. `until` is when its lease ends; the publisher itself does not know. */
  datatype Item = Item(id: Id, event: Event, attempts: int, until: Time)

  datatype Phase = ToSend | Sent | Unsent

  datatype Publisher = Idle | Busy(todo: seq<Item>, phase: Phase)

  datatype System = System(outbox: seq<OutboxRow>, sent: set<Message>, publishers: map<nat, Publisher>, clock: Time)

  function MessageOf(i: Item): Message {
    Message(i.id, i.event)
  }

  predicate Handles(p: Publisher, phase: Phase) {
    p.Busy? && p.todo != [] && p.phase == phase
  }

  function Next(p: Publisher): Publisher
    requires p.Busy? && p.todo != []
  {
    if |p.todo| == 1 then Idle else Busy(p.todo[1..], ToSend)
  }

  function ItemOf(o: OutboxRow, now: Time): Item {
    Item(o.id, o.event, o.attempts, now + LEASE)
  }

  ghost predicate ClaimStep(s: System, n: System, self: nat) {
    exists picked :: ClaimOf(s, n, self, picked)
  }

  ghost predicate ClaimOf(s: System, n: System, self: nat, picked: seq<nat>) {
    && self in s.publishers && s.publishers[self] == Idle && picked != [] && ClaimedAs(s.outbox, picked, n.outbox, s.clock)
    && n == s.(outbox := n.outbox, publishers := s.publishers[self := Busy(Items(s.outbox, picked, s.clock), ToSend)])
  }

  function Items(a: seq<OutboxRow>, picked: seq<nat>, now: Time): (r: seq<Item>)
    requires forall k | 0 <= k < |picked| :: picked[k] < |a|
    ensures |r| == |picked| && forall k | 0 <= k < |r| :: r[k] == ItemOf(a[picked[k]], now)
  {
    seq(|picked|, k requires 0 <= k < |picked| => ItemOf(a[picked[k]], now))
  }

  /** A send that reports success has delivered; one that reports failure may have. */
  predicate SendStep(s: System, n: System, self: nat) {
    && self in s.publishers && Handles(s.publishers[self], ToSend)
    && var p := s.publishers[self];
       || n == s.(sent := s.sent + {MessageOf(p.todo[0])}, publishers := s.publishers[self := p.(phase := Sent)])
       || n == s.(publishers := s.publishers[self := p.(phase := Unsent)])
       || n == s.(sent := s.sent + {MessageOf(p.todo[0])}, publishers := s.publishers[self := p.(phase := Unsent)])
  }

  predicate MarkStep(s: System, n: System, self: nat) {
    && self in s.publishers && Handles(s.publishers[self], Sent)
    && n == s.(outbox := MarkAll(s.outbox, s.publishers[self].todo[0].id, s.clock),
               publishers := s.publishers[self := Next(s.publishers[self])])
  }

  predicate RetryStep(s: System, n: System, self: nat) {
    && self in s.publishers && Handles(s.publishers[self], Unsent)
    && var head := s.publishers[self].todo[0];
       n == s.(outbox := RetryAll(s.outbox, head.id, Backoff(head.attempts + 1), s.clock),
               publishers := s.publishers[self := Next(s.publishers[self])])
  }

  /** A crash, a cancelled context, or a store call that failed: the rest of the batch is dropped. */
  predicate StopStep(s: System, n: System, self: nat) {
    self in s.publishers && n == s.(publishers := s.publishers[self := Idle])
  }

  ghost predicate EnqueueStep(s: System, n: System, event: OutboxRow) {
    && n == s.(outbox := s.outbox + [event])
    && event.published.None? && event.claimed.None? && event.nextAttempt <= s.clock
    && forall i | 0 <= i < |s.outbox| :: s.outbox[i].id != event.id
  }

  ghost predicate PublisherStep(s: System, n: System, self: nat) {
    ClaimStep(s, n, self) || SendStep(s, n, self) || MarkStep(s, n, self) || RetryStep(s, n, self) || StopStep(s, n, self)
  }

  ghost predicate Step(s: System, n: System) {
    || (exists self :: PublisherStep(s, n, self))
    || (exists event :: EnqueueStep(s, n, event))
    || (n == s.(clock := n.clock) && s.clock <= n.clock)
  }

  ghost predicate Start(s: System) {
    s.outbox == [] && s.sent == {} && forall p | p in s.publishers :: s.publishers[p] == Idle
  }

  // ---- what holds in every reachable state ----

  /** The item is a stored event. */
  ghost predicate Known(o: seq<OutboxRow>, m: Message) {
    exists i | 0 <= i < |o| :: o[i].id == m.id && o[i].event == m.event
  }

  predicate RowFine(s: System, i: nat)
    requires i < |s.outbox|
  {
    var o := s.outbox[i];
    && (o.published.Some? ==> Message(o.id, o.event) in s.sent)
    && o.nextAttempt <= s.clock + 256 * SECOND && (o.claimed.Some? ==> o.claimed.value <= s.clock + LEASE)
  }

  ghost predicate HandsFine(s: System, p: Publisher) {
    p.Busy? ==>
      && (forall k | 0 <= k < |p.todo| :: Known(s.outbox, MessageOf(p.todo[k])) && p.todo[k].until <= s.clock + LEASE)
      && (p.phase == Sent && p.todo != [] ==> MessageOf(p.todo[0]) in s.sent)
  }

  ghost predicate Fine(s: System) {
    && IdsUnique(s.outbox)
    && (forall i: nat {:trigger RowFine(s, i)} | i < |s.outbox| :: RowFine(s, i))
    && (forall p {:trigger HandsFine(s, s.publishers[p])} | p in s.publishers :: HandsFine(s, s.publishers[p]))
  }

  lemma ClaimKeepsFine(s: System, n: System, self: nat)
    requires Fine(s) && ClaimStep(s, n, self)
    ensures Fine(n)
  {
    var picked :| ClaimOf(s, n, self, picked);
    forall i: nat | i < |n.outbox| ensures RowFine(n, i) {
      assert RowFine(s, i);
    }
    forall p | p in n.publishers ensures HandsFine(n, n.publishers[p]) {
      if p != self {
        assert HandsFine(s, s.publishers[p]);
        SameRowsKnown(s.outbox, n.outbox, s.publishers[p]);
      } else {
        forall k | 0 <= k < |picked| ensures Known(n.outbox, MessageOf(n.publishers[self].todo[k])) {
          assert n.outbox[picked[k]].id == s.outbox[picked[k]].id;
        }
      }
    }
  }

  lemma SameRowsKnown(a: seq<OutboxRow>, b: seq<OutboxRow>, p: Publisher)
    requires |a| <= |b| && forall i | 0 <= i < |a| :: b[i].id == a[i].id && b[i].event == a[i].event
    requires p.Busy? ==> forall k | 0 <= k < |p.todo| :: Known(a, MessageOf(p.todo[k]))
    ensures p.Busy? ==> forall k | 0 <= k < |p.todo| :: Known(b, MessageOf(p.todo[k]))
  {
    if p.Busy? {
      forall k | 0 <= k < |p.todo| ensures Known(b, MessageOf(p.todo[k])) {
        assert Known(a, MessageOf(p.todo[k]));
        var i :| 0 <= i < |a| && a[i].id == p.todo[k].id && a[i].event == p.todo[k].event;
        assert b[i].id == p.todo[k].id;
      }
    }
  }

  /** The one row an item names is the event it was claimed as. */
  lemma NamedRow(s: System, item: Item, i: nat)
    requires IdsUnique(s.outbox) && Known(s.outbox, MessageOf(item)) && i < |s.outbox| && s.outbox[i].id == item.id
    ensures s.outbox[i].event == item.event
  {
    var j :| 0 <= j < |s.outbox| && s.outbox[j].id == item.id && s.outbox[j].event == item.event;
    assert i == j;
  }

  lemma OthersFine(s: System, n: System, self: nat)
    requires Fine(s) && n.clock == s.clock && s.sent <= n.sent && self in s.publishers
    requires |s.outbox| <= |n.outbox| && forall i | 0 <= i < |s.outbox| :: n.outbox[i].id == s.outbox[i].id && n.outbox[i].event == s.outbox[i].event
    requires self in n.publishers && n.publishers == s.publishers[self := n.publishers[self]]
    requires HandsFine(n, n.publishers[self])
    ensures forall p | p in n.publishers :: HandsFine(n, n.publishers[p])
  {
    forall p | p in n.publishers ensures HandsFine(n, n.publishers[p]) {
      if p != self {
        assert HandsFine(s, s.publishers[p]);
        SameRowsKnown(s.outbox, n.outbox, s.publishers[p]);
      }
    }
  }

  lemma WorkKeepsFine(s: System, n: System, self: nat)
    requires Fine(s) && (SendStep(s, n, self) || MarkStep(s, n, self) || RetryStep(s, n, self) || StopStep(s, n, self))
    ensures Fine(n)
  {
    var p := s.publishers[self];
    assert HandsFine(s, p);
    SameRowsKnown(s.outbox, n.outbox, p);
    if RetryStep(s, n, self) {
      BackoffBounds(p.todo[0].attempts + 1, p.todo[0].attempts + 1);
    }
    forall i: nat | i < |n.outbox| ensures RowFine(n, i) {
      assert RowFine(s, i);
      if MarkStep(s, n, self) && s.outbox[i].id == p.todo[0].id {
        NamedRow(s, p.todo[0], i);
      }
    }
    OthersFine(s, n, self);
  }

  lemma StepKeepsFine(s: System, n: System)
    requires Fine(s) && Step(s, n)
    ensures Fine(n)
  {
    if self :| PublisherStep(s, n, self) {
      if ClaimStep(s, n, self) {
        ClaimKeepsFine(s, n, self);
      } else {
        WorkKeepsFine(s, n, self);
      }
    } else {
      forall i: nat | i < |n.outbox| ensures RowFine(n, i) {
        if i < |s.outbox| {
          assert RowFine(s, i);
        }
      }
      forall p | p in n.publishers ensures HandsFine(n, n.publishers[p]) {
        assert HandsFine(s, s.publishers[p]);
        SameRowsKnown(s.outbox, n.outbox, s.publishers[p]);
      }
    }
  }

  ghost predicate Run(run: seq<System>) {
    run != [] && Start(run[0]) && forall k: nat {:trigger StepAt(run, k)} | k < |run| - 1 :: StepAt(run, k)
  }

  ghost predicate StepAt(run: seq<System>, k: nat)
    requires k < |run| - 1
  {
    Step(run[k], run[k + 1])
  }

  lemma {:induction false} EveryRunFine(run: seq<System>, k: nat)
    requires Run(run) && k < |run|
    ensures Fine(run[k])
  {
    if k > 0 {
      EveryRunFine(run, k - 1);
      assert StepAt(run, k - 1);
      StepKeepsFine(run[k - 1], run[k]);
    }
  }

  // ---- what the invariant says of every run ----

  /** An event is marked published only after its own id and payload were sent. */
  lemma PublishedWasSent(run: seq<System>, k: nat, i: nat)
    requires Run(run) && k < |run| && i < |run[k].outbox| && run[k].outbox[i].published.Some?
    ensures Message(run[k].outbox[i].id, run[k].outbox[i].event) in run[k].sent
  {
    EveryRunFine(run, k);
    assert RowFine(run[k], i);
  }

  /** From any reachable state an unpublished event left alone can be claimed once 256 seconds have passed. */
  lemma ClaimableAgain(run: seq<System>, k: nat, i: nat, later: Time)
    requires Run(run) && k < |run| && i < |run[k].outbox| && run[k].outbox[i].published.None?
    requires later > run[k].clock + 256 * SECOND
    ensures Claimable(run[k].outbox[i], later)
  {
    EveryRunFine(run, k);
    assert RowFine(run[k], i);
  }

  predicate RowEvolves(a: OutboxRow, b: OutboxRow) {
    && b.id == a.id && b.event == a.event && b.aggregate == a.aggregate && b.occurredAt == a.occurredAt && b.causation == a.causation
    && (a.published.Some? ==> b == a)
  }

  lemma StepEvolvesRow(s: System, n: System, i: nat)
    requires Step(s, n) && i < |s.outbox|
    ensures i < |n.outbox| && RowEvolves(s.outbox[i], n.outbox[i]) && s.clock <= n.clock && s.sent <= n.sent
  {
  }

  /** A published event never changes again. */
  lemma {:induction false} RowsEvolve(run: seq<System>, j: nat, k: nat, i: nat)
    requires Run(run) && j <= k < |run| && i < |run[j].outbox|
    ensures i < |run[k].outbox| && RowEvolves(run[j].outbox[i], run[k].outbox[i])
  {
    if j < k {
      RowsEvolve(run, j, k - 1, i);
      assert StepAt(run, k - 1);
      StepEvolvesRow(run[k - 1], run[k], i);
    }
  }

  /** No claim ever takes a published event again. */
  lemma PublishedIsNeverClaimed(run: seq<System>, j: nat, k: nat, i: nat, self: nat, picked: seq<nat>)
    requires Run(run) && j <= k && k + 1 < |run| && i < |run[j].outbox| && run[j].outbox[i].published.Some?
    requires ClaimOf(run[k], run[k + 1], self, picked)
    ensures i < |run[k].outbox| && forall m | 0 <= m < |picked| :: picked[m] < |run[k].outbox| && run[k].outbox[picked[m]].id != run[j].outbox[i].id
  {
    RowsEvolve(run, j, k, i);
    EveryRunFine(run, k);
    var a := run[k].outbox;
    forall m | 0 <= m < |picked| ensures picked[m] != i && a[picked[m]].id != a[i].id {
      assert Claimable(a[picked[m]], run[k].clock);
      assert picked[m] < i ==> a[picked[m]].id != a[i].id;
      assert i < picked[m] ==> a[i].id != a[picked[m]].id;
    }
  }

  /** Publishing touches no event: to the rest of the system it is a delivery step. */
  lemma PublishingKeepsEvents(s: System, n: System, self: nat)
    requires PublisherStep(s, n, self)
    ensures SameEvents(s.outbox, n.outbox)
  {
  }

  /** To the publishers, what a store transaction adds to the outbox are arrivals, one after the other. */
  lemma StoredEventsArrive(s: System, tx: Id, row: TxRow, entry: Option<LedgerRow>, causation: string, env: Env, i: nat)
    requires env.began <= s.clock && env.balanceEventId != env.wagerEventId && i < |EventsOf(tx, row, entry, causation, env)|
    requires forall k | 0 <= k < |s.outbox| :: s.outbox[k].id != env.balanceEventId && s.outbox[k].id != env.wagerEventId
    ensures var events := EventsOf(tx, row, entry, causation, env);
            EnqueueStep(s.(outbox := s.outbox + events[..i]), s.(outbox := s.outbox + events[..i + 1]), events[i])
  {
    var events := EventsOf(tx, row, entry, causation, env);
    EventsOfWait(tx, row, entry, causation, env);
    assert events[i] in events;
    assert s.outbox + events[..i + 1] == s.outbox + events[..i] + [events[i]];
  }

  /** So are the events any step of the store adds, a wallet's creation included, whenever the publishers' clock has come
      to the instant they were stored. */
  lemma StepEventsArrive(a: Db, b: Db, s: System, i: nat)
    requires Steps.Sound(a) && Steps.Step(a, b) && |a.outbox| <= i < |b.outbox|
    requires s.outbox == b.outbox[..i] && b.outbox[i].occurredAt <= s.clock
    ensures EnqueueStep(s, s.(outbox := b.outbox[..i + 1]), b.outbox[i])
  {
    Steps.StepNews(a, b, i);
    NewsArrives(a, b, s, i);
  }

  lemma NewsArrives(a: Db, b: Db, s: System, i: nat)
    requires i < |b.outbox| && Steps.NewsAt(a, b, i) && s.outbox == b.outbox[..i] && b.outbox[i].occurredAt <= s.clock
    ensures EnqueueStep(s, s.(outbox := b.outbox[..i + 1]), b.outbox[i])
  {
    assert b.outbox[..i + 1] == b.outbox[..i] + [b.outbox[i]];
  }

  // ---- leases ----

  predicate Live(s: System, p: nat, item: Item) {
    p in s.publishers && s.publishers[p].Busy? && item in s.publishers[p].todo && s.clock <= item.until
  }

  /** Two publishers never hold one event under leases both still running. */
  ghost predicate Exclusive(s: System) {
    forall p, q, a, b | Live(s, p, a) && Live(s, q, b) && a.id == b.id :: p == q && a == b
  }

  /** The item's row cannot be claimed before the item's lease has ended. */
  predicate Shields(o: seq<OutboxRow>, item: Item, i: nat) {
    i < |o| && o[i].id == item.id && !Claimable(o[i], item.until)
  }

  ghost predicate LeaseAt(s: System, p: nat, item: Item) {
    Live(s, p, item) ==> exists i: nat :: Shields(s.outbox, item, i)
  }

  predicate Distinct(todo: seq<Item>) {
    forall i, j | 0 <= i < j < |todo| :: todo[i].id != todo[j].id
  }

  ghost predicate HandAt(s: System, p: nat)
    requires p in s.publishers
  {
    s.publishers[p].Busy? ==> Distinct(s.publishers[p].todo)
  }

  ghost predicate HandsDistinct(s: System) {
    forall p {:trigger HandAt(s, p)} | p in s.publishers :: HandAt(s, p)
  }

  ghost predicate LeasesHeld(s: System) {
    Exclusive(s) && HandsDistinct(s) && forall p, item {:trigger LeaseAt(s, p, item)} :: LeaseAt(s, p, item)
  }

  /** A retry comes within the lease of the event it is about. */
  predicate InTime(s: System, self: nat) {
    self in s.publishers && Handles(s.publishers[self], Unsent) && s.clock <= s.publishers[self].todo[0].until
  }

  /** How long the retry about to be made puts the event off. */
  function DelayOf(p: Publisher): int
    requires Handles(p, Unsent)
  {
    Backoff(p.todo[0].attempts + 1)
  }

  /** Someone else holds the unpublished event about to be retried, under a lease that runs until the retry's delay is over. */
  ghost predicate TakenOver(s: System, self: nat)
    requires self in s.publishers && Handles(s.publishers[self], Unsent)
  {
    exists q, b :: TakenBy(s, self, q, b)
  }

  ghost predicate TakenBy(s: System, self: nat, q: nat, b: Item)
    requires self in s.publishers && Handles(s.publishers[self], Unsent)
  {
    && q != self && Live(s, q, b) && b.id == s.publishers[self].todo[0].id && !PublishedId(s.outbox, b.id)
    && s.clock + DelayOf(s.publishers[self]) <= b.until
  }

  ghost predicate PublishedId(o: seq<OutboxRow>, id: Id) {
    exists i | 0 <= i < |o| :: o[i].id == id && o[i].published.Some?
  }

  /** A live lease makes its row unclaimable. */
  lemma LiveIsNotClaimable(s: System, p: nat, item: Item, i: nat)
    requires Fine(s) && LeasesHeld(s) && Live(s, p, item) && i < |s.outbox| && s.outbox[i].id == item.id
    ensures !Claimable(s.outbox[i], s.clock) && Shields(s.outbox, item, i)
  {
    assert LeaseAt(s, p, item);
    var j: nat :| Shields(s.outbox, item, j);
    assert i == j;
  }

  lemma ClaimLeaseAt(s: System, n: System, self: nat, picked: seq<nat>, p: nat, item: Item)
    requires Fine(s) && LeasesHeld(s) && ClaimOf(s, n, self, picked)
    ensures LeaseAt(n, p, item)
  {
    if Live(n, p, item) {
      if p == self {
        var k :| 0 <= k < |picked| && n.publishers[self].todo[k] == item;
        assert Shields(n.outbox, item, picked[k]);
      } else {
        assert Live(s, p, item) && LeaseAt(s, p, item);
        var i: nat :| Shields(s.outbox, item, i);
        LiveIsNotClaimable(s, p, item, i);
        assert Shields(n.outbox, item, i);
      }
    }
  }

  lemma ClaimKeepsLeases(s: System, n: System, self: nat)
    requires Fine(s) && LeasesHeld(s) && ClaimStep(s, n, self)
    ensures LeasesHeld(n)
  {
    var picked :| ClaimOf(s, n, self, picked);
    forall p, item ensures LeaseAt(n, p, item) {
      ClaimLeaseAt(s, n, self, picked, p, item);
    }
    forall p, q, a, b | Live(n, p, a) && Live(n, q, b) && a.id == b.id ensures p == q && a == b {
      ClaimExclusive(s, n, self, picked, p, q, a, b);
    }
    ClaimDistinct(s, picked);
    forall p | p in n.publishers ensures HandAt(n, p) {
      assert p != self ==> HandAt(s, p);
    }
  }

  lemma ClaimDistinct(s: System, picked: seq<nat>)
    requires IdsUnique(s.outbox) && (forall k | 0 <= k < |picked| :: picked[k] < |s.outbox|)
    requires forall j, k | 0 <= j < k < |picked| :: picked[j] != picked[k]
    ensures Distinct(Items(s.outbox, picked, s.clock))
  {
    forall j, k | 0 <= j < k < |picked| ensures s.outbox[picked[j]].id != s.outbox[picked[k]].id {
      assert picked[j] != picked[k];
    }
  }

  /** What another publisher holds under a running lease is not what was just claimed. */
  lemma ClaimedIsFree(s: System, n: System, self: nat, picked: seq<nat>, mine: Item, q: nat, b: Item)
    requires Fine(s) && LeasesHeld(s) && ClaimOf(s, n, self, picked) && mine in n.publishers[self].todo && q != self && Live(n, q, b)
    ensures mine.id != b.id
  {
    var k :| 0 <= k < |picked| && n.publishers[self].todo[k] == mine;
    assert Claimable(s.outbox[picked[k]], s.clock);
    assert Live(s, q, b);
    if mine.id == b.id {
      LiveIsNotClaimable(s, q, b, picked[k]);
    }
  }

  lemma ClaimExclusive(s: System, n: System, self: nat, picked: seq<nat>, p: nat, q: nat, a: Item, b: Item)
    requires Fine(s) && LeasesHeld(s) && ClaimOf(s, n, self, picked) && Live(n, p, a) && Live(n, q, b) && a.id == b.id
    ensures p == q && a == b
  {
    if p == self && q == self {
      ClaimDistinct(s, picked);
    } else if p == self {
      ClaimedIsFree(s, n, self, picked, a, q, b);
    } else if q == self {
      ClaimedIsFree(s, n, self, picked, b, p, a);
    } else {
      assert Live(s, p, a) && Live(s, q, b);
    }
  }

  /** Sends, marks, stops, arrivals and the passing of time never free a running lease. */
  lemma QuietKeepsLeases(s: System, n: System)
    requires Fine(s) && LeasesHeld(s)
    requires |s.outbox| <= |n.outbox| && s.clock <= n.clock
    requires forall i: nat, item: Item | i < |s.outbox| && Shields(s.outbox, item, i) :: Shields(n.outbox, item, i)
    requires forall p | p in n.publishers && n.publishers[p].Busy? ::
               p in s.publishers && s.publishers[p].Busy?
               && (n.publishers[p].todo == s.publishers[p].todo || (s.publishers[p].todo != [] && n.publishers[p].todo == s.publishers[p].todo[1..]))
    ensures LeasesHeld(n)
  {
    forall p, item | Live(n, p, item) ensures Live(s, p, item) {
    }
    forall p, item ensures LeaseAt(n, p, item) {
      if Live(n, p, item) {
        assert LeaseAt(s, p, item);
        var i: nat :| Shields(s.outbox, item, i);
        assert Shields(n.outbox, item, i);
      }
    }
    forall p | p in n.publishers ensures HandAt(n, p) {
      assert p in s.publishers ==> HandAt(s, p);
    }
  }

  /** A retry keeps the leases exactly when nobody else has taken the event over for longer than the delay. */
  lemma RetryKeepsLeasesIff(s: System, n: System, self: nat)
    requires Fine(s) && LeasesHeld(s) && RetryStep(s, n, self)
    ensures LeasesHeld(n) <==> !TakenOver(s, self)
  {
    if TakenOver(s, self) {
      var q, b :| TakenBy(s, self, q, b);
      RetryExposes(s, n, self, q, b);
    } else {
      RetryAloneKeepsLeases(s, n, self);
    }
  }

  /** The other's running lease no longer keeps its event from being claimed. */
  lemma RetryExposes(s: System, n: System, self: nat, q: nat, b: Item)
    requires RetryStep(s, n, self) && TakenBy(s, self, q, b)
    ensures Live(n, q, b) && !LeaseAt(n, q, b)
  {
    forall i: nat ensures !Shields(n.outbox, b, i) {
      assert i < |s.outbox| && s.outbox[i].id == b.id ==> s.outbox[i].published.None?;
    }
  }

  lemma RetryAloneKeepsLeases(s: System, n: System, self: nat)
    requires Fine(s) && LeasesHeld(s) && RetryStep(s, n, self) && !TakenOver(s, self)
    ensures LeasesHeld(n)
  {
    var head := s.publishers[self].todo[0];
    assert HandAt(s, self);
    forall p, item | Live(n, p, item) ensures Live(s, p, item) && (p == self ==> item.id != head.id) {
    }
    forall p, item ensures LeaseAt(n, p, item) {
      if Live(n, p, item) {
        assert LeaseAt(s, p, item);
        var i: nat :| Shields(s.outbox, item, i);
        if item.id == head.id && s.outbox[i].published.None? {
          NotPublishedId(s, i);
          assert p != self && Live(s, p, item) && !TakenBy(s, self, p, item);
          assert item.until < s.clock + DelayOf(s.publishers[self]);
        }
        assert Shields(n.outbox, item, i);
      }
    }
    forall p | p in n.publishers ensures HandAt(n, p) {
      assert HandAt(s, p);
    }
  }

  lemma NotPublishedId(s: System, i: nat)
    requires IdsUnique(s.outbox) && i < |s.outbox| && s.outbox[i].published.None?
    ensures !PublishedId(s.outbox, s.outbox[i].id)
  {
  }

  /** Within its lease a publisher is alone with the event. */
  lemma InTimeIsAlone(s: System, self: nat)
    requires LeasesHeld(s) && InTime(s, self)
    ensures forall q, b | q != self && Live(s, q, b) :: b.id != s.publishers[self].todo[0].id
    ensures !TakenOver(s, self)
  {
    assert Live(s, self, s.publishers[self].todo[0]);
  }

  /** What the row alone can tell: a retry of a published event, or one that does not bring the event's next claim
      forward, takes nothing from anybody. */
  lemma LateEnoughIsHarmless(s: System, self: nat, i: nat)
    requires Fine(s) && LeasesHeld(s) && self in s.publishers && Handles(s.publishers[self], Unsent)
    requires i < |s.outbox| && s.outbox[i].id == s.publishers[self].todo[0].id
    requires s.outbox[i].published.Some? || Claimable(s.outbox[i], s.clock + DelayOf(s.publishers[self]))
    ensures !TakenOver(s, self)
  {
    if q, b :| TakenBy(s, self, q, b) {
      LiveIsNotClaimable(s, q, b, i);
    }
  }

  /** When the row's lease is another publisher's and that one is still at work, the row tells exactly: the retry takes the
      event from it when the event is unpublished and the delay ends within the lease the row records. */
  lemma RowTellsTakenOver(s: System, self: nat, i: nat, q: nat, b: Item)
    requires Fine(s) && LeasesHeld(s) && self in s.publishers && Handles(s.publishers[self], Unsent)
    requires i < |s.outbox| && s.outbox[i].id == s.publishers[self].todo[0].id
    requires q != self && Live(s, q, b) && b.id == s.outbox[i].id && s.outbox[i].claimed == Some(b.until)
    ensures TakenOver(s, self) <==> s.outbox[i].published.None? && s.clock + DelayOf(s.publishers[self]) <= s.outbox[i].claimed.value
  {
    if s.outbox[i].published.None? {
      NotPublishedId(s, i);
      assert s.clock + DelayOf(s.publishers[self]) <= b.until ==> TakenBy(s, self, q, b);
    }
  }

  // ---- the leases are exactly what keeps exclusivity ----

  /** A step in which nobody retries. */
  ghost predicate CalmStep(s: System, n: System) {
    || (exists self :: ClaimStep(s, n, self) || SendStep(s, n, self) || MarkStep(s, n, self) || StopStep(s, n, self))
    || (exists event :: EnqueueStep(s, n, event))
    || (n == s.(clock := n.clock) && s.clock <= n.clock)
  }

  lemma CalmKeepsLeases(s: System, n: System)
    requires Fine(s) && LeasesHeld(s) && CalmStep(s, n)
    ensures Fine(n) && LeasesHeld(n)
  {
    if self :| ClaimStep(s, n, self) || SendStep(s, n, self) || MarkStep(s, n, self) || StopStep(s, n, self) {
      assert PublisherStep(s, n, self);
      StepKeepsFine(s, n);
      if ClaimStep(s, n, self) {
        ClaimKeepsLeases(s, n, self);
      } else {
        QuietKeepsLeases(s, n);
      }
    } else {
      StepKeepsFine(s, n);
      QuietKeepsLeases(s, n);
    }
  }

  ghost predicate CalmAt(run: seq<System>, k: nat)
    requires k + 1 < |run|
  {
    CalmStep(run[k], run[k + 1])
  }

  ghost predicate CalmRun(run: seq<System>, s: System) {
    run != [] && run[0] == s && forall k: nat {:trigger CalmAt(run, k)} | k + 1 < |run| :: CalmAt(run, k)
  }

  lemma {:induction false} CalmRunKeepsLeases(run: seq<System>, s: System, k: nat)
    requires CalmRun(run, s) && Fine(s) && LeasesHeld(s) && k < |run|
    ensures Fine(run[k]) && LeasesHeld(run[k])
  {
    if k > 0 {
      CalmRunKeepsLeases(run, s, k - 1);
      assert CalmAt(run, k - 1);
      CalmKeepsLeases(run[k - 1], run[k]);
    }
  }

  /** Two running leases cover the event. */
  ghost predicate TwiceLeased(s: System, id: Id) {
    exists p, q, a, b :: BothHold(s, id, p, q, a, b)
  }

  predicate BothHold(s: System, id: Id, p: nat, q: nat, a: Item, b: Item) {
    Live(s, p, a) && Live(s, q, b) && a.id == id == b.id && (p != q || a != b)
  }

  /** Some continuation without a retry puts the event under two running leases. */
  ghost predicate Breakable(s: System, id: Id) {
    exists run :: CalmRun(run, s) && TwiceLeased(run[|run| - 1], id)
  }

  /** Stop, wait for the lease's last instant, claim. */
  lemma ExposedBreaks(s: System, p: nat, a: Item, q: nat)
    requires Fine(s) && Live(s, p, a) && !LeaseAt(s, p, a) && q in s.publishers && q != p
    ensures Breakable(s, a.id)
  {
    assert HandsFine(s, s.publishers[p]);
    var k :| 0 <= k < |s.publishers[p].todo| && s.publishers[p].todo[k] == a;
    assert Known(s.outbox, MessageOf(s.publishers[p].todo[k]));
    var i: nat :| i < |s.outbox| && s.outbox[i].id == a.id;
    assert !Shields(s.outbox, a, i);
    var run := ClaimAtLast(s, q, i, a.until);
    assert BothHold(run[|run| - 1], a.id, p, q, a, ItemOf(s.outbox[i], a.until));
  }

  lemma ClaimAtLast(s: System, q: nat, i: nat, at: Time) returns (run: seq<System>)
    requires q in s.publishers && i < |s.outbox| && s.clock <= at && Claimable(s.outbox[i], at)
    ensures CalmRun(run, s) && run[|run| - 1] == ClaimOne(s.(publishers := s.publishers[q := Idle], clock := at), q, i)
  {
    var stopped := s.(publishers := s.publishers[q := Idle]);
    var waited := stopped.(clock := at);
    run := [s, stopped, waited, ClaimOne(waited, q, i)];
    assert StopStep(s, stopped, q);
    ClaimOneIsClaim(waited, q, i);
    forall k: nat | k + 1 < |run| ensures CalmAt(run, k) {
      assert k == 0 || k == 1 || k == 2;
    }
  }

  /** Publisher `q` claims the `i`-th event alone. */
  function ClaimOne(s: System, q: nat, i: nat): System
    requires i < |s.outbox|
  {
    s.(outbox := s.outbox[i := Claim(s.outbox[i], s.clock)], publishers := s.publishers[q := Busy([ItemOf(s.outbox[i], s.clock)], ToSend)])
  }

  lemma ClaimOneIsClaim(s: System, q: nat, i: nat)
    requires i < |s.outbox| && Claimable(s.outbox[i], s.clock) && q in s.publishers && s.publishers[q] == Idle
    ensures ClaimStep(s, ClaimOne(s, q, i), q)
  {
    var picked: seq<nat> := [i];
    assert Items(s.outbox, picked, s.clock) == [ItemOf(s.outbox[i], s.clock)];
    assert ClaimOf(s, ClaimOne(s, q, i), q, picked);
  }

  /** With two publishers or more, the leases hold exactly when no future without a retry puts an event under two. */
  lemma LeasesAreExact(s: System, one: nat, other: nat)
    requires Fine(s) && HandsDistinct(s) && one in s.publishers && other in s.publishers && one != other
    ensures LeasesHeld(s) <==> forall id :: !Breakable(s, id)
  {
    if LeasesHeld(s) {
      forall id ensures !Breakable(s, id) {
        HeldIsUnbreakable(s, id);
      }
    } else if !Exclusive(s) {
      var p, q, a, b :| Live(s, p, a) && Live(s, q, b) && a.id == b.id && !(p == q && a == b);
      assert BothHold(s, a.id, p, q, a, b);
      var run := [s];
      assert CalmRun(run, s) && run[|run| - 1] == s;
      assert Breakable(s, a.id);
    } else {
      var p, item :| !LeaseAt(s, p, item);
      ExposedBreaks(s, p, item, if p == one then other else one);
    }
  }

  lemma HeldIsUnbreakable(s: System, id: Id)
    requires Fine(s) && LeasesHeld(s)
    ensures !Breakable(s, id)
  {
    if run :| CalmRun(run, s) && TwiceLeased(run[|run| - 1], id) {
      CalmRunKeepsLeases(run, s, |run| - 1);
    }
  }

  /** After a retry, some future without another one puts the event under two running leases exactly when someone else had
      taken the event over for longer than the retry's delay; and otherwise no event at all is put under two. */
  lemma RetryBreaksIff(s: System, n: System, self: nat)
    requires Fine(s) && LeasesHeld(s) && RetryStep(s, n, self)
    ensures Breakable(n, s.publishers[self].todo[0].id) <==> TakenOver(s, self)
    ensures !TakenOver(s, self) ==> forall id :: !Breakable(n, id)
  {
    WorkKeepsFine(s, n, self);
    if TakenOver(s, self) {
      var q, b :| TakenBy(s, self, q, b);
      RetryExposes(s, n, self, q, b);
      ExposedBreaks(n, q, b, self);
    } else {
      RetryAloneKeepsLeases(s, n, self);
      forall id ensures !Breakable(n, id) {
        HeldIsUnbreakable(n, id);
      }
    }
  }

  // ---- whole runs ----

  /** Every retry of the step leaves the event to whoever has taken it over. */
  ghost predicate HarmlessStep(s: System, n: System) {
    Step(s, n) && forall self | RetryStep(s, n, self) :: !TakenOver(s, self)
  }

  lemma HarmlessKeepsLeases(s: System, n: System)
    requires Fine(s) && LeasesHeld(s) && HarmlessStep(s, n)
    ensures LeasesHeld(n)
  {
    if self :| RetryStep(s, n, self) {
      RetryKeepsLeasesIff(s, n, self);
    } else {
      assert CalmStep(s, n);
      CalmKeepsLeases(s, n);
    }
  }

  ghost predicate HarmlessAt(run: seq<System>, k: nat)
    requires k < |run| - 1
  {
    HarmlessStep(run[k], run[k + 1])
  }

  ghost predicate Harmless(run: seq<System>) {
    forall k: nat {:trigger HarmlessAt(run, k)} | k < |run| - 1 :: HarmlessAt(run, k)
  }

  /** When no retry takes an event from somebody, however late retries come, no event is ever under two running leases. */
  lemma {:induction false} HarmlessRunsAreExclusive(run: seq<System>, k: nat)
    requires Run(run) && k < |run| && Harmless(run)
    ensures LeasesHeld(run[k]) && Exclusive(run[k])
  {
    if k > 0 {
      HarmlessRunsAreExclusive(run, k - 1);
      EveryRunFine(run, k - 1);
      assert HarmlessAt(run, k - 1);
      HarmlessKeepsLeases(run[k - 1], run[k]);
    }
  }

  /** A step in which nobody retries past the end of its lease. Sending and marking may be as late as they like. */
  ghost predicate TimelyStep(s: System, n: System) {
    Step(s, n) && forall self | RetryStep(s, n, self) :: InTime(s, self)
  }

  lemma TimelyKeepsLeases(s: System, n: System)
    requires Fine(s) && LeasesHeld(s) && TimelyStep(s, n)
    ensures LeasesHeld(n)
  {
    forall self | RetryStep(s, n, self) ensures !TakenOver(s, self) {
      InTimeIsAlone(s, self);
    }
    HarmlessKeepsLeases(s, n);
  }

  ghost predicate TimelyAt(run: seq<System>, k: nat)
    requires k < |run| - 1
  {
    TimelyStep(run[k], run[k + 1])
  }

  ghost predicate Timely(run: seq<System>) {
    forall k: nat {:trigger TimelyAt(run, k)} | k < |run| - 1 :: TimelyAt(run, k)
  }

  /** When every retry comes within its lease, no event is ever under two running leases. */
  lemma {:induction false} TimelyRunsAreExclusive(run: seq<System>, k: nat)
    requires Run(run) && k < |run| && Timely(run)
    ensures LeasesHeld(run[k]) && Exclusive(run[k])
  {
    if k > 0 {
      TimelyRunsAreExclusive(run, k - 1);
      EveryRunFine(run, k - 1);
      assert TimelyAt(run, k - 1);
      TimelyKeepsLeases(run[k - 1], run[k]);
    }
  }

  // ---- a late retry ----

  function Sample(attempts: int, next: Time, claimed: Option<Time>): seq<OutboxRow> {
    [OutboxRow(1, 1, TxProcessed(1, "p", Bet), "", 0, attempts, next, None, claimed)]
  }

  function Held(until: Time): Item {
    Item(1, TxProcessed(1, "p", Bet), 0, until)
  }

  const NOBODY: map<nat, Publisher> := map[0 := Idle, 1 := Idle, 2 := Idle]

  function Second(): map<nat, Publisher> {
    NOBODY[0 := Busy([Held(30 * SECOND)], Unsent)][1 := Busy([Held(61 * SECOND)], ToSend)]
  }

  /** Publisher 0 claims and fails to send; its lease runs out and publisher 1 claims; publisher 0 retries late, which
      clears the lease of publisher 1; publisher 2 claims while publisher 1 still holds the event. */
  function LateState(k: nat): System {
    if k == 0 then System([], {}, NOBODY, 0)
    else if k == 1 then System(Sample(0, 0, None), {}, NOBODY, 0)
    else if k == 2 then System(Sample(0, 0, Some(30 * SECOND)), {}, NOBODY[0 := Busy([Held(30 * SECOND)], ToSend)], 0)
    else if k == 3 then System(Sample(0, 0, Some(30 * SECOND)), {}, NOBODY[0 := Busy([Held(30 * SECOND)], Unsent)], 0)
    else if k == 4 then System(Sample(0, 0, Some(30 * SECOND)), {}, NOBODY[0 := Busy([Held(30 * SECOND)], Unsent)], 31 * SECOND)
    else if k == 5 then System(Sample(0, 0, Some(61 * SECOND)), {}, Second(), 31 * SECOND)
    else if k == 6 then System(Sample(1, 32 * SECOND, None), {}, Second()[0 := Idle], 31 * SECOND)
    else if k == 7 then System(Sample(1, 32 * SECOND, None), {}, Second()[0 := Idle], 32 * SECOND)
    else System(Sample(1, 32 * SECOND, Some(62 * SECOND)), {},
                Second()[0 := Idle][2 := Busy([Item(1, TxProcessed(1, "p", Bet), 1, 62 * SECOND)], ToSend)], 32 * SECOND)
  }

  function LateRetry(): (r: seq<System>)
    ensures |r| == 9 && forall k: nat | k < 9 :: r[k] == LateState(k)
  {
    seq(9, k requires 0 <= k < 9 => LateState(k))
  }

  lemma ClaimSample(s: System, n: System, self: nat, attempts: int, next: Time, claimed: Option<Time>)
    requires s.outbox == Sample(attempts, next, claimed) && next <= s.clock && (claimed.Some? ==> claimed.value < s.clock)
    requires self in s.publishers && s.publishers[self] == Idle
    requires n == s.(outbox := Sample(attempts, next, Some(s.clock + LEASE)),
                     publishers := s.publishers[self := Busy([Item(1, TxProcessed(1, "p", Bet), attempts, s.clock + LEASE)], ToSend)])
    ensures Step(s, n)
  {
    var picked: seq<nat> := [0];
    assert Items(s.outbox, picked, s.clock) == [Item(1, TxProcessed(1, "p", Bet), attempts, s.clock + LEASE)];
    assert ClaimOf(s, n, self, picked);
    assert PublisherStep(s, n, self);
  }

  lemma LateStep(k: nat)
    requires k < 8
    ensures Step(LateState(k), LateState(k + 1))
  {
    var s, n := LateState(k), LateState(k + 1);
    if k == 0 {
      assert EnqueueStep(s, n, Sample(0, 0, None)[0]);
    } else if k == 1 {
      ClaimSample(s, n, 0, 0, 0, None);
    } else if k == 2 {
      assert SendStep(s, n, 0) && PublisherStep(s, n, 0);
    } else if k == 4 {
      ClaimSample(s, n, 1, 0, 0, Some(30 * SECOND));
    } else if k == 5 {
      RetrySample(s, n);
    } else if k == 7 {
      ClaimSample(s, n, 2, 1, 32 * SECOND, None);
    }
  }

  /** Without the condition exclusivity fails: a run with one retry past its lease puts one event under two running leases. */
  lemma LateRetryBreaksExclusivity()
    ensures Run(LateRetry()) && !Exclusive(LateRetry()[8])
  {
    var r := LateRetry();
    forall k: nat | k < |r| - 1 ensures StepAt(r, k) {
      LateStep(k);
    }
    var last := LateState(8);
    assert Live(last, 1, Held(61 * SECOND)) && Live(last, 2, Item(1, TxProcessed(1, "p", Bet), 1, 62 * SECOND));
  }

  lemma RetrySample(s: System, n: System)
    requires s.outbox == Sample(0, 0, Some(61 * SECOND)) && s.clock == 31 * SECOND
    requires 0 in s.publishers && s.publishers[0] == Busy([Held(30 * SECOND)], Unsent)
    requires n == s.(outbox := Sample(1, 32 * SECOND, None), publishers := s.publishers[0 := Idle])
    ensures Step(s, n)
  {
    assert Shl(0) == 1;
    assert RetryAll(s.outbox, 1, Backoff(1), s.clock) == n.outbox;
    assert RetryStep(s, n, 0) && PublisherStep(s, n, 0);
  }
}
