/** The input consumer's handling of one received message, call by call. */
module ConsumerModel {
  import opened Prelude
  import opened Decision
  import opened Schema
  import opened Writes
  import opened Preservation
  import opened QueueModel
  import opened Steps
  import opened Calls
  import opened UseCases
  import opened Handling
  import Delivery

  /** Whether the context was cancelled meanwhile, and how each remote call fares. */
  datatype Faults = Faults(cancelled: bool, handling: Call, failure: Call, deadLetter: Call, deletion: Call)

  class InputQueue {
    var messages: map<nat, Incoming>
    var dead: set<Incoming>

    constructor ()
      ensures messages == map[] && dead == {}
    {
      messages, dead := map[], {};
    }

    method Remove(slot: nat, call: Call)
      modifies `messages
      ensures messages == if call.Refused? then old(messages) else old(messages) - {slot}
    {
      if !call.Refused? {
        messages := messages - {slot};
      }
    }

    method SendToDeadLetter(m: Incoming, call: Call) returns (ok: bool)
      modifies `dead
      ensures ok <==> call.Answered?
      ensures dead == if call.Refused? then old(dead) else old(dead) + {m}
    {
      if !call.Refused? {
        dead := dead + {m};
      }
      ok := call.Answered?;
    }
  }

  class InputConsumer {
    const queue: InputQueue
    const wager: Wager

    constructor (queue: InputQueue, wager: Wager)
      ensures this.queue == queue && this.wager == wager
    {
      this.queue := queue;
      this.wager := wager;
    }

    /** handle: one call is one processing step of the protocol. */
    method Handle(m: Incoming, env: Env, call: Call) returns (o: Outcome)
      requires EnvOk(wager.store.db, env)
      modifies wager.store
      ensures Attempted(old(wager.store.db), m, wager.store.db, o)
      ensures call.Answered? ==> Processing(old(wager.store.db), m, wager.store.db, o)
      ensures o != Done && !call.Lost? ==> wager.store.db == old(wager.store.db)
      ensures !(m.content.Envelope? && m.content.message != "" && m.content.kind == "WagerTransactionRequested" && m.content.data.Some?) ==>
                o == Permanent && wager.store.db == old(wager.store.db)
      ensures call.Answered? && m.content.Envelope? && m.content.message != "" && m.content.kind == "WagerTransactionRequested"
              && m.content.data.Some? && Admissible(m.content.data.value) && !Admits(old(wager.store.db), m.content.message, m.text) ==>
                o == Denied(Conflict)
      ensures o == Done ==>
                && Admits(old(wager.store.db), m.content.message, m.text)
                && Finishes(old(wager.store.db), wager.store.db, m.content.message, m.text)
      ensures Sound(old(wager.store.db)) && m.content.Envelope? ==>
                forall i | |old(wager.store.db.outbox)| <= i < |wager.store.db.outbox| :: wager.store.db.outbox[i].causation == m.content.message
      ensures Sound(old(wager.store.db)) ==>
                forall other | EnvOk(old(wager.store.db), other) && Uses(env) !! Uses(other) :: EnvOk(wager.store.db, other)
    {
      if m.content.Garbage? || m.content.message == "" || m.content.kind != REQUESTED || m.content.data.None? {
        return Permanent;
      }
      if call.Refused? && Admissible(m.content.data.value) {
        return Denied(DatabaseError);
      }
      ghost var a := wager.store.db;
      var r;
      ghost var p;
      r, p := wager.ProcessInbox(KeyOf(m), m.text, m.content.data.value, env);
      o := if r.Ok? then Done else Denied(r.error);
      if Admissible(m.content.data.value) && Recorded(a, KeyOf(m), m.text) == m.text {
        assert ProcessedAs(a, m, m.content.data.value, env, p, r, wager.store.db);
      }
      assert Processing(a, m, wager.store.db, o);
      if Sound(a) {
        ProcessingExact(a, m, wager.store.db, o);
      }
      if Sound(a) && wager.store.db != a {
        forall other | EnvOk(a, other) && Uses(env) !! Uses(other) ensures EnvOk(wager.store.db, other) {
          OtherIdsStay(a, m.content.data.value, ByRules, KeyOf(m).message, env, p, r, wager.store.db.(inbox := a.inbox), other);
        }
      }
      if call.Lost? && r.Ok? {
        o := Denied(DatabaseError);
      }
    }

    /** recordPermanentFailure */
    method RecordPermanentFailure(m: Incoming, env: Env, call: Call) returns (ok: bool)
      requires EnvOk(wager.store.db, env)
      modifies wager.store
      ensures FailureAttempted(old(wager.store.db), m, wager.store.db, ok)
      ensures call.Answered? ==> RecordingFailure(old(wager.store.db), m, wager.store.db, ok)
      ensures !call.Answered? ==> !ok
    {
      if m.content.Garbage? || m.content.kind != REQUESTED || m.content.data.None? || call.Refused? {
        return false;
      }
      ghost var a := wager.store.db;
      var r;
      ghost var p;
      r, p := wager.Fail(m.content.data.value, EXHAUSTED, env);
      ok := r.Ok?;
      if Failable(m.content.data.value, EXHAUSTED) {
        assert FailedAs(a, m.content.data.value, env, p, r, wager.store.db);
      }
      assert RecordingFailure(a, m, wager.store.db, ok);
      ok := ok && !call.Lost?;
    }

    /** One message of a received batch: what becomes of it follows from handle's answer `o`, which left the tables at `mid`,
        and from whether its failure was then `recorded`. If it leaves the queue, its operation has a committed row or it is
        in the dead-letter queue; from the fifth receive on it leaves whatever the store does; no other message is touched. */
    method Consume(slot: nat, m: Incoming, receives: nat, env: Env, failureEnv: Env, faults: Faults)
      returns (ghost o: Outcome, ghost mid: Db, ghost recorded: bool)
      requires Sound(wager.store.db) && EnvOk(wager.store.db, env) && EnvOk(wager.store.db, failureEnv) && Uses(env) !! Uses(failureEnv)
      requires slot in queue.messages && queue.messages[slot] == m
      modifies wager.store, queue
      ensures Sound(wager.store.db)
      ensures slot !in queue.messages ==>
                m in queue.dead || (DecodedForFailure(m).Some? && Accounted(wager.store.db, DecodedForFailure(m).value))
      ensures Attempted(old(wager.store.db), m, mid, o)
      ensures Consumed(slot, m, receives, faults, o, mid, recorded, wager.store.db, old(queue.messages), old(queue.dead), queue.messages, queue.dead)
      ensures !faults.cancelled && faults.deadLetter.Answered? && !faults.deletion.Refused? && receives >= 5 ==> slot !in queue.messages
    {
      ghost var a := wager.store.db;
      var outcome := Handle(m, env, faults.handling);
      o, mid, recorded := outcome, wager.store.db, false;
      AttemptSteps(a, m, mid, o);
      match ActionFor(outcome, receives, faults.cancelled)
      case Delete =>
        queue.Remove(slot, faults.deletion);
      case TryFailure =>
        recorded := GiveUp(slot, m, failureEnv, faults);
      case DeadLetter =>
        Bury(slot, m, faults);
      case Release =>
      case RetryLater(_) =>
    }

    /** Record the failure and delete the message, or else bury it. */
    method GiveUp(slot: nat, m: Incoming, env: Env, faults: Faults) returns (ghost recorded: bool)
      requires Sound(wager.store.db) && EnvOk(wager.store.db, env)
      modifies wager.store, queue
      ensures Sound(wager.store.db) && FailureAttempted(old(wager.store.db), m, wager.store.db, recorded)
      ensures if recorded then Removed(slot, faults, old(queue.messages), old(queue.dead), queue.messages, queue.dead)
              else Buried(slot, m, faults, old(queue.messages), old(queue.dead), queue.messages, queue.dead)
      ensures queue.messages != old(queue.messages) ==>
                m in queue.dead || (DecodedForFailure(m).Some? && Accounted(wager.store.db, DecodedForFailure(m).value))
    {
      ghost var a := wager.store.db;
      var ok := RecordPermanentFailure(m, env, faults.failure);
      recorded := ok;
      FailureAttemptSteps(a, m, wager.store.db, ok);
      if ok {
        queue.Remove(slot, faults.deletion);
      } else {
        Bury(slot, m, faults);
      }
    }

    /** Delete only what the dead-letter queue is known to have taken. */
    method Bury(slot: nat, m: Incoming, faults: Faults)
      modifies queue
      ensures Buried(slot, m, faults, old(queue.messages), old(queue.dead), queue.messages, queue.dead)
    {
      var buried := queue.SendToDeadLetter(m, faults.deadLetter);
      if buried {
        queue.Remove(slot, faults.deletion);
      }
    }
  }

  /** Deleted, if the queue did delete it. */
  predicate Removed(slot: nat, faults: Faults, messages: map<nat, Incoming>, dead: set<Incoming>, left: map<nat, Incoming>, kept: set<Incoming>) {
    kept == dead && left == if faults.deletion.Refused? then messages else messages - {slot}
  }

  /** Sent to the dead-letter queue, and deleted once that has answered. */
  predicate Buried(slot: nat, m: Incoming, faults: Faults, messages: map<nat, Incoming>, dead: set<Incoming>,
                   left: map<nat, Incoming>, kept: set<Incoming>) {
    && kept == (if faults.deadLetter.Refused? then dead else dead + {m})
    && left == (if faults.deadLetter.Answered? && !faults.deletion.Refused? then messages - {slot} else messages)
  }

  /** What follows handle's answer: `after` are the tables in the end, `left` and `kept` the two queues. */
  ghost predicate Consumed(slot: nat, m: Incoming, receives: nat, faults: Faults, o: Outcome, mid: Db, recorded: bool, after: Db,
                           messages: map<nat, Incoming>, dead: set<Incoming>, left: map<nat, Incoming>, kept: set<Incoming>) {
    match ActionFor(o, receives, faults.cancelled)
    case Delete => after == mid && Removed(slot, faults, messages, dead, left, kept)
    case TryFailure =>
      && FailureAttempted(mid, m, after, recorded)
      && if recorded then Removed(slot, faults, messages, dead, left, kept) else Buried(slot, m, faults, messages, dead, left, kept)
    case DeadLetter => after == mid && Buried(slot, m, faults, messages, dead, left, kept)
    case Release => after == mid && left == messages && kept == dead
    case RetryLater(_) => after == mid && left == messages && kept == dead
  }

  // ---- one call refines the protocol ----

  ghost predicate Path(run: seq<Delivery.System>, s: Delivery.System, n: Delivery.System) {
    run != [] && run[0] == s && run[|run| - 1] == n && forall k: nat {:trigger Delivery.StepAt(run, k)} | k + 1 < |run| :: Delivery.StepAt(run, k)
  }

  ghost predicate Leads(s: Delivery.System, n: Delivery.System) {
    exists run :: Path(run, s, n)
  }

  lemma LeadsOn(s: Delivery.System, m: Delivery.System, n: Delivery.System, w: nat)
    requires Leads(s, m) && Delivery.WorkerStep(m, n, w)
    ensures Leads(s, n)
  {
    var run :| Path(run, s, m);
    var longer := run + [n];
    assert Delivery.SystemStep(m, n);
    forall k: nat | k + 1 < |longer| ensures Delivery.StepAt(longer, k) {
      assert k + 1 < |run| ==> Delivery.StepAt(run, k);
    }
    assert Path(longer, s, n);
  }

  /** The protocol with consumer `w` as given. */
  function As(s: Delivery.System, w: nat, worker: Delivery.Worker): Delivery.System {
    s.(workers := s.workers[w := worker])
  }

  lemma HandleLeads(s: Delivery.System, w: nat, slot: nat, m: Incoming, receives: nat, o: Outcome, mid: Db, cancelled: bool) returns (n: Delivery.System)
    requires w in s.workers && s.workers[w] == Delivery.Idle && slot in s.queue && s.queue[slot].m == m && s.queue[slot].receives + 1 == receives
    requires Attempted(s.db, m, mid, o)
    ensures n == s.(db := mid, queue := s.queue[slot := Delivery.Queued(m, receives)], workers := n.workers)
    ensures n.workers == s.workers[w := match ActionFor(o, receives, cancelled)
                                        case Delete => Delivery.Deleting(slot, m)
                                        case TryFailure => Delivery.Failing(slot, m)
                                        case DeadLetter => Delivery.DeadLettering(slot, m)
                                        case Release => Delivery.Idle
                                        case RetryLater(_) => Delivery.Idle]
    ensures Leads(s, n)
  {
    var received := As(s.(queue := s.queue[slot := Delivery.Queued(m, receives)]), w, Delivery.Holding(slot, m, receives));
    var answered := As(received.(db := mid), w, Delivery.Answered(slot, m, receives, o));
    n := As(answered, w, match ActionFor(o, receives, cancelled)
                         case Delete => Delivery.Deleting(slot, m)
                         case TryFailure => Delivery.Failing(slot, m)
                         case DeadLetter => Delivery.DeadLettering(slot, m)
                         case Release => Delivery.Idle
                         case RetryLater(_) => Delivery.Idle);
    assert Path([s], s, s);
    assert Delivery.ReceiveStep(s, received, w, slot);
    LeadsOn(s, s, received, w);
    assert Delivery.HandleStep(received, answered, w, o);
    LeadsOn(s, received, answered, w);
    assert Delivery.RouteStep(answered, n, w, cancelled);
    LeadsOn(s, answered, n, w);
  }

  lemma DeletionLeads(s: Delivery.System, m: Delivery.System, w: nat, slot: nat, body: Incoming, gone: bool) returns (n: Delivery.System)
    requires Leads(s, m) && w in s.workers && s.workers[w] == Delivery.Idle && m.workers == s.workers[w := Delivery.Deleting(slot, body)]
    ensures Leads(s, n) && n.db == m.db && n.dead == m.dead && n.workers == s.workers
    ensures n.queue == if gone then m.queue - {slot} else m.queue
  {
    n := m.(workers := s.workers, queue := if gone then m.queue - {slot} else m.queue,
            deleted := if gone && slot in m.queue then m.deleted + {m.queue[slot].m} else m.deleted);
    assert m.workers[w := Delivery.Idle] == s.workers;
    assert Delivery.DeleteStep(m, n, w, gone);
    LeadsOn(s, m, n, w);
  }

  lemma BurialLeads(s: Delivery.System, m: Delivery.System, w: nat, slot: nat, body: Incoming, faults: Faults) returns (n: Delivery.System)
    requires Leads(s, m) && w in s.workers && s.workers[w] == Delivery.Idle && m.workers == s.workers[w := Delivery.DeadLettering(slot, body)]
    ensures Leads(s, n) && n.db == m.db && n.workers == s.workers
    ensures n.dead == if faults.deadLetter.Refused? then m.dead else m.dead + {body}
    ensures n.queue == if faults.deadLetter.Answered? && !faults.deletion.Refused? then m.queue - {slot} else m.queue
  {
    var ok := faults.deadLetter.Answered?;
    var next := if ok then Delivery.Deleting(slot, body) else Delivery.Idle;
    var sent := m.(workers := s.workers[w := next], dead := if faults.deadLetter.Refused? then m.dead else m.dead + {body});
    assert m.workers[w := next] == s.workers[w := next];
    assert Delivery.DeadLetterStep(m, sent, w, ok);
    LeadsOn(s, m, sent, w);
    if ok {
      n := DeletionLeads(s, sent, w, slot, body, !faults.deletion.Refused?);
    } else {
      n := sent;
      assert s.workers[w := Delivery.Idle] == s.workers;
    }
  }

  lemma FailureLeads(s: Delivery.System, m: Delivery.System, w: nat, slot: nat, body: Incoming, after: Db, recorded: bool, faults: Faults)
    returns (n: Delivery.System)
    requires Leads(s, m) && w in s.workers && s.workers[w] == Delivery.Idle && m.workers == s.workers[w := Delivery.Failing(slot, body)]
    requires FailureAttempted(m.db, body, after, recorded)
    ensures Leads(s, n) && n.db == after && n.workers == s.workers
    ensures n.dead == if recorded || faults.deadLetter.Refused? then m.dead else m.dead + {body}
    ensures n.queue == if (recorded || faults.deadLetter.Answered?) && !faults.deletion.Refused? then m.queue - {slot} else m.queue
  {
    var next := if recorded then Delivery.Deleting(slot, body) else Delivery.DeadLettering(slot, body);
    var tried := m.(db := after, workers := s.workers[w := next]);
    assert m.workers[w := next] == s.workers[w := next];
    assert Delivery.FailStep(m, tried, w, recorded);
    LeadsOn(s, m, tried, w);
    if recorded {
      n := DeletionLeads(s, tried, w, slot, body, !faults.deletion.Refused?);
    } else {
      n := BurialLeads(s, tried, w, slot, body, faults);
    }
  }

  /** The queue of the protocol without its counters. */
  function Messages(queue: map<nat, Delivery.Queued>): map<nat, Incoming> {
    map slot | slot in queue :: queue[slot].m
  }

  /** With nobody else at work meanwhile, a call of Consume, however its calls fare, is a run of the protocol's steps that
      leaves the consumer idle and the tables and both queues as the call left them. */
  lemma ConsumeIsProtocol(s: Delivery.System, w: nat, slot: nat, m: Incoming, receives: nat, faults: Faults, o: Outcome, mid: Db, recorded: bool,
                          after: Db, left: map<nat, Incoming>, kept: set<Incoming>) returns (n: Delivery.System)
    requires w in s.workers && s.workers[w] == Delivery.Idle && slot in s.queue && s.queue[slot].m == m && s.queue[slot].receives + 1 == receives
    requires Attempted(s.db, m, mid, o)
    requires Consumed(slot, m, receives, faults, o, mid, recorded, after, Messages(s.queue), s.dead, left, kept)
    ensures Leads(s, n) && n.db == after && n.dead == kept && Messages(n.queue) == left && n.workers == s.workers
  {
    var routed := HandleLeads(s, w, slot, m, receives, o, mid, faults.cancelled);
    SameMessages(s.queue, routed.queue, slot);
    match ActionFor(o, receives, faults.cancelled)
    case Delete =>
      n := DeletionLeads(s, routed, w, slot, m, !faults.deletion.Refused?);
    case TryFailure =>
      n := FailureLeads(s, routed, w, slot, m, after, recorded, faults);
    case DeadLetter =>
      n := BurialLeads(s, routed, w, slot, m, faults);
    case Release =>
      n := routed;
      assert s.workers[w := Delivery.Idle] == s.workers;
    case RetryLater(_) =>
      n := routed;
      assert s.workers[w := Delivery.Idle] == s.workers;
  }

  lemma SameMessages(a: map<nat, Delivery.Queued>, b: map<nat, Delivery.Queued>, slot: nat)
    requires slot in a && slot in b && b == a[slot := b[slot]] && b[slot].m == a[slot].m
    ensures Messages(b) == Messages(a) && Messages(b - {slot}) == Messages(a) - {slot}
  {
  }
}
