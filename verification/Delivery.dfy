/** The input queue's consumers: at-least-once delivery, crashes between commit and delete, and the dead-letter queue. */
module Delivery {
  import opened Prelude
  import opened Decision
  import opened Schema
  import opened Integrity
  import opened Invariant
  import opened Idempotency
  import opened Steps
  import opened Handling
  import Audit

  datatype Queued = Queued(m: Incoming, receives: nat)

  datatype Worker =
    | Idle
    | Holding(slot: nat, m: Incoming, receives: nat)
    | Answered(slot: nat, m: Incoming, receives: nat, outcome: Outcome)
    | Failing(slot: nat, m: Incoming)
    | DeadLettering(slot: nat, m: Incoming)
    | Deleting(slot: nat, m: Incoming)

  /** `deleted` remembers what has left the input queue. Slots are never reused; any message still in the queue may be
      received at any time, as after a lost visibility timeout. */
  datatype System = System(db: Db, queue: map<nat, Queued>, next: nat, dead: set<Incoming>, deleted: set<Incoming>, workers: map<nat, Worker>)

  predicate To(s: System, n: System, w: nat, was: Worker, now: Worker) {
    w in s.workers && s.workers[w] == was && w in n.workers && n.workers == s.workers[w := now]
  }

  predicate ArriveStep(s: System, n: System, m: Incoming) {
    n == s.(queue := s.queue[s.next := Queued(m, 0)], next := s.next + 1)
  }

  predicate ReceiveStep(s: System, n: System, w: nat, slot: nat) {
    && slot in s.queue
    && var q := s.queue[slot];
       && To(s, n, w, Idle, Holding(slot, q.m, q.receives + 1))
       && n == s.(queue := s.queue[slot := Queued(q.m, q.receives + 1)], workers := n.workers)
  }

  /** handle, among whatever else is at work on the tables. */
  ghost predicate HandleStep(s: System, n: System, w: nat, o: Outcome) {
    && w in s.workers && s.workers[w].Holding?
    && var h := s.workers[w];
       && To(s, n, w, h, Answered(h.slot, h.m, h.receives, o)) && n == s.(db := n.db, workers := n.workers)
       && Attempted(s.db, h.m, n.db, o)
  }

  predicate RouteStep(s: System, n: System, w: nat, cancelled: bool) {
    && w in s.workers && s.workers[w].Answered?
    && var h := s.workers[w];
       && n == s.(workers := n.workers)
       && To(s, n, w, h, match ActionFor(h.outcome, h.receives, cancelled)
                         case Delete => Deleting(h.slot, h.m)
                         case TryFailure => Failing(h.slot, h.m)
                         case DeadLetter => DeadLettering(h.slot, h.m)
                         case Release => Idle
                         case RetryLater(_) => Idle)
  }

  /** recordPermanentFailure; when it does not succeed the message goes to the dead-letter queue. */
  ghost predicate FailStep(s: System, n: System, w: nat, ok: bool) {
    && w in s.workers && s.workers[w].Failing?
    && var h := s.workers[w];
       && To(s, n, w, h, if ok then Deleting(h.slot, h.m) else DeadLettering(h.slot, h.m)) && n == s.(db := n.db, workers := n.workers)
       && FailureAttempted(s.db, h.m, n.db, ok)
  }

  predicate DeadLetterStep(s: System, n: System, w: nat, ok: bool) {
    && w in s.workers && s.workers[w].DeadLettering?
    && var h := s.workers[w];
       && To(s, n, w, h, if ok then Deleting(h.slot, h.m) else Idle) && n == s.(dead := n.dead, workers := n.workers)
       && (n.dead == s.dead + {h.m} || (!ok && n.dead == s.dead))
  }

  predicate DeleteStep(s: System, n: System, w: nat, gone: bool) {
    && w in s.workers && s.workers[w].Deleting?
    && var h := s.workers[w];
       && To(s, n, w, h, Idle)
       && n == s.(workers := n.workers,
                  queue := if gone then s.queue - {h.slot} else s.queue,
                  deleted := if gone && h.slot in s.queue then s.deleted + {s.queue[h.slot].m} else s.deleted)
  }

  predicate CrashStep(s: System, n: System, w: nat) {
    w in s.workers && n == s.(workers := s.workers[w := Idle])
  }

  ghost predicate WorkerStep(s: System, n: System, w: nat) {
    || (exists slot :: ReceiveStep(s, n, w, slot)) || (exists o :: HandleStep(s, n, w, o))
    || (exists cancelled :: RouteStep(s, n, w, cancelled)) || (exists ok :: FailStep(s, n, w, ok))
    || (exists ok :: DeadLetterStep(s, n, w, ok)) || (exists gone :: DeleteStep(s, n, w, gone)) || CrashStep(s, n, w)
  }

  /** A worker's step, an arrival, or a step of anyone else at the tables. Nobody else writes the inbox. */
  ghost predicate SystemStep(s: System, n: System) {
    || (exists w :: WorkerStep(s, n, w))
    || (exists m :: ArriveStep(s, n, m))
    || (n == s.(db := n.db) && Step(s.db, n.db) && n.db.inbox == s.db.inbox)
  }

  // ---- what holds in every reachable state ----

  /** The message may go: its operation has a row, or a copy is in the dead-letter queue. */
  ghost predicate Safe(s: System, m: Incoming) {
    m in s.dead || (DecodedForFailure(m).Some? && Accounted(s.db, DecodedForFailure(m).value))
  }

  ghost predicate SlotFits(s: System, slot: nat, m: Incoming) {
    slot < s.next && (slot in s.queue ==> s.queue[slot].m == m)
  }

  ghost predicate WorkerFine(s: System, w: Worker) {
    match w
    case Idle => true
    case Holding(slot, m, _) => SlotFits(s, slot, m)
    case Answered(slot, m, _, o) => SlotFits(s, slot, m) && (o == Done ==> Safe(s, m))
    case Failing(slot, m) => SlotFits(s, slot, m)
    case DeadLettering(slot, m) => SlotFits(s, slot, m)
    case Deleting(slot, m) => SlotFits(s, slot, m) && Safe(s, m)
  }

  ghost predicate AllFine(s: System) {
    && Sound(s.db)
    && (forall slot | slot in s.queue :: slot < s.next)
    && (forall m {:trigger Safe(s, m)} | m in s.deleted :: Safe(s, m))
    && (forall w {:trigger WorkerFine(s, s.workers[w])} | w in s.workers :: WorkerFine(s, s.workers[w]))
  }

  /** What every step leaves alone or only adds to. */
  ghost predicate Onward(s: System, n: System) {
    && (n.db == s.db || Steps2(s.db, n.db)) && s.next <= n.next && s.dead <= n.dead
    && (forall slot | slot in n.queue && slot < s.next :: slot in s.queue && n.queue[slot].m == s.queue[slot].m)
  }

  lemma SafeStays(s: System, n: System, m: Incoming)
    requires Sound(s.db) && Onward(s, n) && Safe(s, m)
    ensures Safe(n, m)
  {
    if m !in s.dead && n.db != s.db {
      AccountedStays2(s.db, n.db, DecodedForFailure(m).value);
    }
  }

  lemma WorkerStaysFine(s: System, n: System, w: Worker)
    requires Sound(s.db) && Onward(s, n) && WorkerFine(s, w)
    ensures WorkerFine(n, w)
  {
    match w
    case Answered(slot, m, _, o) =>
      if o == Done {
        SafeStays(s, n, m);
      }
    case Deleting(slot, m) => SafeStays(s, n, m);
    case _ =>
  }

  lemma StepIsOnward(s: System, n: System, w: nat)
    requires AllFine(s) && WorkerStep(s, n, w)
    ensures Onward(s, n) && Sound(n.db) && (forall slot | slot in n.queue :: slot < n.next)
  {
    assert WorkerFine(s, s.workers[w]);
    if o :| HandleStep(s, n, w, o) {
      AttemptSteps(s.db, s.workers[w].m, n.db, o);
    } else if ok :| FailStep(s, n, w, ok) {
      FailureAttemptSteps(s.db, s.workers[w].m, n.db, ok);
    }
  }

  lemma HandlePromise(s: System, n: System, w: nat, o: Outcome)
    requires AllFine(s) && HandleStep(s, n, w, o)
    ensures w in n.workers && WorkerFine(n, n.workers[w])
  {
    assert WorkerFine(s, s.workers[w]);
    if o == Done {
      AttemptSteps(s.db, s.workers[w].m, n.db, Done);
    }
  }

  lemma FailPromise(s: System, n: System, w: nat, ok: bool)
    requires AllFine(s) && FailStep(s, n, w, ok)
    ensures w in n.workers && WorkerFine(n, n.workers[w])
  {
    assert WorkerFine(s, s.workers[w]);
    if ok {
      FailureAttemptSteps(s.db, s.workers[w].m, n.db, true);
    }
  }

  /** The stepping worker's new promise is kept. */
  lemma OwnPromise(s: System, n: System, w: nat)
    requires AllFine(s) && WorkerStep(s, n, w)
    ensures w in n.workers && WorkerFine(n, n.workers[w])
  {
    if o :| HandleStep(s, n, w, o) {
      HandlePromise(s, n, w, o);
    } else if ok :| FailStep(s, n, w, ok) {
      FailPromise(s, n, w, ok);
    } else {
      assert WorkerFine(s, s.workers[w]);
    }
  }

  lemma WorkerStepFine(s: System, n: System, w: nat)
    requires AllFine(s) && WorkerStep(s, n, w)
    ensures AllFine(n)
  {
    StepIsOnward(s, n, w);
    OwnPromise(s, n, w);
    forall x | x in n.workers ensures WorkerFine(n, n.workers[x]) {
      if x != w {
        assert WorkerFine(s, s.workers[x]);
        WorkerStaysFine(s, n, s.workers[x]);
      }
    }
    forall m | m in n.deleted ensures Safe(n, m) {
      DeletedStaySafe(s, n, w, m);
    }
  }

  lemma DeletedStaySafe(s: System, n: System, w: nat, m: Incoming)
    requires AllFine(s) && WorkerStep(s, n, w) && Onward(s, n) && m in n.deleted
    ensures Safe(n, m)
  {
    if m !in s.deleted {
      assert WorkerFine(s, s.workers[w]);
      assert Safe(s, m);
    }
    SafeStays(s, n, m);
  }

  lemma SystemStepFine(s: System, n: System)
    requires AllFine(s) && SystemStep(s, n)
    ensures AllFine(n)
  {
    if w :| WorkerStep(s, n, w) {
      WorkerStepFine(s, n, w);
    } else {
      if n == s.(db := n.db) && Step(s.db, n.db) {
        StepKeepsSound(s.db, n.db);
        assert StepOrNone(s.db, n.db) && StepOrNone(n.db, n.db);
      }
      forall x | x in n.workers ensures WorkerFine(n, n.workers[x]) {
        assert WorkerFine(s, s.workers[x]);
        WorkerStaysFine(s, n, s.workers[x]);
      }
      forall m | m in n.deleted ensures Safe(n, m) {
        SafeStays(s, n, m);
      }
    }
  }

  ghost predicate StepAt(run: seq<System>, k: nat)
    requires k + 1 < |run|
  {
    SystemStep(run[k], run[k + 1])
  }

  ghost predicate Start(s: System) {
    s.db == EmptyDb && s.queue == map[] && s.deleted == {} && forall w | w in s.workers :: s.workers[w] == Idle
  }

  lemma StartFine(s: System)
    requires Start(s)
    ensures AllFine(s)
  {
    EmptySound();
  }

  ghost predicate SystemRun(run: seq<System>) {
    && run != [] && Start(run[0])
    && forall k: nat {:trigger StepAt(run, k)} | k + 1 < |run| :: StepAt(run, k)
  }

  lemma RunStepFine(run: seq<System>, k: nat)
    requires SystemRun(run) && k + 1 < |run| && AllFine(run[k])
    ensures AllFine(run[k + 1])
  {
    assert StepAt(run, k);
    SystemStepFine(run[k], run[k + 1]);
  }

  lemma {:induction false} EveryRunFine(run: seq<System>, k: nat)
    requires SystemRun(run) && k < |run|
    ensures AllFine(run[k])
  {
    if k == 0 {
      StartFine(run[0]);
    } else {
      EveryRunFine(run, k - 1);
      RunStepFine(run, k - 1);
    }
  }

  /** Over every run, with redelivery, crashes, cancellation and failed deletes: a message has left the input only if its
      operation has a committed row or a copy of it is in the dead-letter queue. */
  lemma NothingIsLost(run: seq<System>, k: nat, m: Incoming)
    requires SystemRun(run) && k < |run| && m in run[k].deleted
    ensures m in run[k].dead || (DecodedForFailure(m).Some? && Accounted(run[k].db, DecodedForFailure(m).value))
  {
    EveryRunFine(run, k);
    assert Safe(run[k], m);
  }

  /** And however often it was delivered, an operation has one row and moved money at most once. */
  lemma EffectAtMostOnce(run: seq<System>, k: nat, op: Operation, i: nat, j: nat)
    requires SystemRun(run) && k < |run| && i < |run[k].db.ledger| && j < |run[k].db.ledger|
    requires var db := run[k].db;
             && db.ledger[i].tx in db.txs && IsOp(db.txs[db.ledger[i].tx], op)
             && db.ledger[j].tx in db.txs && IsOp(db.txs[db.ledger[j].tx], op)
    ensures i == j
  {
    EveryRunFine(run, k);
    var db := run[k].db;
    assert RowAt(db, db.ledger[i].tx) && RowAt(db, db.ledger[j].tx);
    Audit.OneMovementPerOperation(db, op, i, j);
  }

  lemma StoodOver(a: Db, b: Db, t: Id)
    requires Sound(a) && StepOrNone(a, b) && t in a.txs && a.txs[t].status.Terminal()
    ensures Sound(b) && t in b.txs && b.txs[t] == a.txs[t]
  {
    if Step(a, b) {
      StepEvolves(a, b, t);
      StepKeepsSound(a, b);
    }
  }

  /** No step of any worker, and in particular no recording of a failure, changes a row already settled. */
  lemma SettledRowsStand(s: System, n: System, t: Id)
    requires AllFine(s) && SystemStep(s, n) && t in s.db.txs && s.db.txs[t].status.Terminal()
    ensures t in n.db.txs && n.db.txs[t] == s.db.txs[t]
  {
    if w :| WorkerStep(s, n, w) {
      StepIsOnward(s, n, w);
    } else {
      assert StepOrNone(s.db, n.db) && StepOrNone(n.db, n.db);
    }
    if n.db != s.db {
      var mid :| StepOrNone(s.db, mid) && StepOrNone(mid, n.db);
      StoodOver(s.db, mid, t);
      StoodOver(mid, n.db, t);
    }
  }

  // ---- one body for each message id ----

  /** A handling of `m` that had an effect, whether or not its consumer learned so. */
  ghost predicate Effective(s: System, n: System, m: Incoming) {
    exists w, o :: HandleStep(s, n, w, o) && s.workers[w].m == m && (o == Done || n.db != s.db)
  }

  lemma EffectiveRemembers(s: System, n: System, m: Incoming)
    requires AllFine(s) && Effective(s, n, m)
    ensures m.content.Envelope? && Admits(s.db, m.content.message, m.text) && Remembers(n.db, m.content.message, m.text)
  {
    var w, o :| HandleStep(s, n, w, o) && s.workers[w].m == m && (o == Done || n.db != s.db);
    EffectRemembers(s.db, m, n.db, o);
  }

  lemma StepRemembers(s: System, n: System, message: string, body: string)
    requires AllFine(s) && SystemStep(s, n) && Remembers(s.db, message, body)
    ensures Remembers(n.db, message, body)
  {
    if n.db != s.db {
      if w, o :| HandleStep(s, n, w, o) {
        EffectRemembers(s.db, s.workers[w].m, n.db, o);
      } else if w, ok :| FailStep(s, n, w, ok) {
        FailureForgetsNothing(s.db, s.workers[w].m, n.db, ok);
      }
    }
  }

  lemma RunStepRemembers(run: seq<System>, k: nat, message: string, body: string)
    requires SystemRun(run) && k + 1 < |run| && Remembers(run[k].db, message, body)
    ensures Remembers(run[k + 1].db, message, body)
  {
    EveryRunFine(run, k);
    assert StepAt(run, k);
    StepRemembers(run[k], run[k + 1], message, body);
  }

  lemma {:induction false} RunRemembers(run: seq<System>, j: nat, k: nat, message: string, body: string)
    requires SystemRun(run) && j <= k < |run| && Remembers(run[j].db, message, body)
    ensures Remembers(run[k].db, message, body)
  {
    if j < k {
      RunRemembers(run, j, k - 1, message, body);
      RunStepRemembers(run, k - 1, message, body);
    }
  }

  /** Over every run, two messages of one id are never both handled to an effect unless they have one body. */
  lemma OneBodyPerId(run: seq<System>, j: nat, k: nat, first: Incoming, second: Incoming)
    requires SystemRun(run) && j < k && k + 1 < |run|
    requires Effective(run[j], run[j + 1], first) && Effective(run[k], run[k + 1], second)
    ensures first.content.Envelope? && second.content.Envelope?
    ensures first.content.message == second.content.message ==> first.text == second.text
  {
    EveryRunFine(run, j);
    EveryRunFine(run, k);
    EffectiveRemembers(run[j], run[j + 1], first);
    EffectiveRemembers(run[k], run[k + 1], second);
    RunRemembers(run, j + 1, k, first.content.message, first.text);
  }
}
