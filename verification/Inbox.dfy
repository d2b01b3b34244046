/** Consumers' transactions interleaved statement by statement with everyone else's, under the inbox row lock, and how
    every such run is a run of the delivery protocol. */
module InboxThreads {
  import opened Prelude
  import opened MoneyModel
  import opened Domain
  import opened Decision
  import opened Schema
  import opened Writes
  import opened Invariant
  import opened Preservation
  import opened Idempotency
  import opened Steps
  import opened Calls
  import opened UseCases
  import opened Handling
  import opened Threads
  import opened Concurrency
  import Delivery

  /** What a consumer's transaction holds of the inbox: the lock on its message's row, whose payload it found its own;
      and the reply, once executeTx has found the operation stored. */
  datatype Claim = Claim(m: Incoming, answer: Option<Reply>)

  /** Consumer `t` runs its transactions as thread `t`; the other threads are API calls and resolvers. */
  datatype Whole = Whole(delivery: Delivery.System, threads: map<nat, Thread>, clock: Time, claims: map<nat, Claim>)

  function SysOf(s: Whole): Sys {
    Sys(s.delivery.db, s.threads, s.clock)
  }

  function Completing(db: Db, m: Incoming): Db {
    db.(inbox := db.inbox[KeyOf(m) := InboxRow(m.text, true)])
  }

  /** The thread is in executeTx for the message's operation. */
  predicate WorksOn(t: Thread, m: Incoming) {
    Decoded(m).Some?
    && match t
       case Begun(op, decider, causation, _) => op == Decoded(m).value && decider == ByRules && causation == KeyOf(m).message
       case Holding(work, _, _, _) => work == Submitting(Decoded(m).value, ByRules, KeyOf(m).message)
       case _ => false
  }

  predicate Receives(s: Whole, t: nat, m: Incoming) {
    t in s.delivery.workers && s.delivery.workers[t].Holding? && s.delivery.workers[t].m == m
  }

  // ---- steps ----

  /** INSERT ... ON CONFLICT DO NOTHING, then SELECT ... FOR UPDATE: both wait for whoever holds the row. */
  predicate ClaimStep(s: Whole, n: Whole, t: nat, m: Incoming) {
    && t in s.threads && s.threads[t].Begun? && WorksOn(s.threads[t], m) && Admissible(Decoded(m).value)
    && t !in s.claims && Receives(s, t, m)
    && (forall u | u in s.claims :: KeyOf(s.claims[u].m) != KeyOf(m))
    && Recorded(s.delivery.db, KeyOf(m), m.text) == m.text
    && n == s.(claims := s.claims[t := Claim(m, None)])
  }

  /** The reply from the stored row `r.tx` that is the operation itself. */
  predicate AnswerHolds(db: Db, op: Operation, snap: WalletRow, r: Reply) {
    && r.tx in db.txs && IsOp(db.txs[r.tx], op) && db.txs[r.tx].result.Some?
    && r == Reply(r.tx, db.txs[r.tx].status, Money(db.txs[r.tx].result.value, snap.currency), Text(db.txs[r.tx].failure), true)
  }

  /** executeTx's identity query finds the operation stored. */
  predicate FoundStep(s: Whole, n: Whole, t: nat, r: Reply) {
    && t in s.claims && t in s.threads && s.threads[t].Holding? && s.threads[t].stage.Locked?
    && AnswerHolds(s.delivery.db, OpIn(s.threads[t].work), s.threads[t].snap, r)
    && n == s.(claims := s.claims[t := s.claims[t].(answer := Some(r))])
  }

  /** The transaction of a consumer ends: what it held is released, and the consumer goes on as `next`. */
  predicate Ends(s: Whole, n: Whole, t: nat, next: Delivery.Worker) {
    n == s.(delivery := s.delivery.(db := n.delivery.db, workers := s.delivery.workers[t := next]),
            threads := if t in s.threads then s.threads[t := Idle] else s.threads, claims := s.claims - {t})
  }

  /** What the consumer makes of a commit whose answer may be lost. */
  function Heard(w: Delivery.Worker, lost: bool): Delivery.Worker
    requires w.Holding?
  {
    Delivery.Answered(w.slot, w.m, w.receives, if lost then Denied(DatabaseError) else Done)
  }

  /** The operation's write and the message's completion commit together. */
  ghost predicate CommitStep(s: Whole, n: Whole, t: nat, lost: bool) {
    && t in s.claims && t in s.threads && s.threads[t].Holding? && s.threads[t].stage.Ready? && Receives(s, t, s.claims[t].m)
    && var batch := Batch(true, s.threads[t].stage.write);
       && Accepted(s.delivery.db, batch) && n.delivery.db == Completing(Final(s.delivery.db, batch), s.claims[t].m)
       && Ends(s, n, t, Heard(s.delivery.workers[t], lost))
  }

  /** A replay commits the message's completion alone. */
  predicate ReplayStep(s: Whole, n: Whole, t: nat, lost: bool) {
    && t in s.claims && s.claims[t].answer.Some? && Receives(s, t, s.claims[t].m)
    && n.delivery.db == Completing(s.delivery.db, s.claims[t].m)
    && Ends(s, n, t, Heard(s.delivery.workers[t], lost))
  }

  /** recordPermanentFailure's transaction commits a FAILED row. */
  ghost predicate FailureStep(s: Whole, n: Whole, t: nat, lost: bool) {
    && t in s.threads && t !in s.claims && s.threads[t].Holding? && s.threads[t].stage.Ready?
    && t in s.delivery.workers && s.delivery.workers[t].Failing?
    && var w, th := s.delivery.workers[t], s.threads[t];
       && DecodedForFailure(w.m).Some? && Failable(DecodedForFailure(w.m).value, EXHAUSTED)
       && th.work == Submitting(DecodedForFailure(w.m).value, FailWith(EXHAUSTED), "")
       && Accepted(s.delivery.db, Batch(true, th.stage.write)) && n.delivery.db == Final(s.delivery.db, Batch(true, th.stage.write))
       && Ends(s, n, t, if lost then Delivery.DeadLettering(w.slot, w.m) else Delivery.Deleting(w.slot, w.m))
  }

  /** A consumer's step that writes no table, a crash included: whatever transaction it had is rolled back. */
  ghost predicate QueueStep(s: Whole, n: Whole, t: nat) {
    && Delivery.WorkerStep(s.delivery, n.delivery, t) && n.delivery.db == s.delivery.db
    && !(t in s.delivery.workers && s.delivery.workers[t].Holding? && n.delivery.workers[t].Answered? && n.delivery.workers[t].outcome == Done)
    && n == s.(delivery := n.delivery, threads := if t in s.threads then s.threads[t := Idle] else s.threads, claims := s.claims - {t})
  }

  ghost predicate ArriveStep(s: Whole, n: Whole) {
    n == s.(delivery := n.delivery) && exists m :: Delivery.ArriveStep(s.delivery, n.delivery, m)
  }

  /** Anything else: statements of any thread, commits of the others, wallet creations, event delivery, time. */
  ghost predicate TableStep(s: Whole, n: Whole) {
    && SysStep(SysOf(s), SysOf(n)) && n.delivery == s.delivery.(db := n.delivery.db) && n.delivery.db.inbox == s.delivery.db.inbox
    && (forall t | t in s.claims && t in s.threads && t in n.threads && n.threads[t] != s.threads[t] :: n.delivery.db == s.delivery.db)
    && n.claims == map t | t in s.claims && t in n.threads && n.threads[t] != Idle :: s.claims[t]
  }

  ghost predicate WholeStep(s: Whole, n: Whole) {
    || TableStep(s, n) || ArriveStep(s, n)
    || (exists t, m :: ClaimStep(s, n, t, m)) || (exists t, r :: FoundStep(s, n, t, r))
    || (exists t, lost :: CommitStep(s, n, t, lost)) || (exists t, lost :: ReplayStep(s, n, t, lost))
    || (exists t, lost :: FailureStep(s, n, t, lost)) || (exists t :: QueueStep(s, n, t))
  }

  // ---- what holds in every reachable state ----

  ghost predicate ClaimOk(s: Whole, t: nat)
    requires t in s.claims
  {
    var c := s.claims[t];
    && t in s.threads && WorksOn(s.threads[t], c.m) && Admissible(Decoded(c.m).value) && Receives(s, t, c.m)
    && Recorded(s.delivery.db, KeyOf(c.m), c.m.text) == c.m.text
    && (c.answer.Some? ==>
          && s.threads[t].Holding? && s.threads[t].stage.Locked?
          && AnswerHolds(s.delivery.db, Decoded(c.m).value, s.threads[t].snap, c.answer.value))
  }

  /** No two transactions hold the row of one message. */
  ghost predicate ClaimsApart(claims: map<nat, Claim>) {
    forall t, u | t in claims && u in claims && t != u :: KeyOf(claims[t].m) != KeyOf(claims[u].m)
  }

  ghost predicate WholeOk(s: Whole) {
    SysOk(SysOf(s)) && ClaimsApart(s.claims) && forall t {:trigger ClaimOk(s, t)} | t in s.claims :: ClaimOk(s, t)
  }

  /** What a wallet's lock holder has seen of it stays so through any step of the others. */
  lemma StepElsewhere(s: Sys, n: Sys, t: nat)
    requires SysOk(s) && SysStep(s, n) && t in s.threads && s.threads[t].Holding? && t in n.threads && n.threads[t] == s.threads[t]
    ensures Elsewhere(s.db, n.db, WalletOf(s.threads[t]))
  {
    if self :| ThreadStep(s, n, self) && n.db != s.db {
      ReadyCommits(s, self);
      assert Apart(s.threads[self], s.threads[t]);
      WriteElsewhere(s.db, ModeOf(s.threads[self].work), s.threads[self].stage.write, WalletOf(s.threads[t]));
    } else if CreateStep(s, n) {
      assert ThreadOk(s.db, s.clock, s.threads[t]);
      var w, env :| OpenOk(s.db, w, env) && n.db == Opened(s.db, w, env);
      OpenElsewhere(s.db, w, env, WalletOf(s.threads[t]));
    }
  }

  lemma AnswerIsKnown(db: Db, op: Operation, snap: WalletRow, r: Reply)
    requires RowsOk(db) && AnswerHolds(db, op, snap, r)
    ensures SameOp(db.txs[r.tx], op) && Known(db.txs, op)
  {
    assert RowAt(db, r.tx);
  }

  /** A claim carries over when its transaction, its consumer, its inbox row and its wallet are left alone. */
  lemma ClaimCarries(s: Whole, n: Whole, t: nat)
    requires t in s.claims && ClaimOk(s, t) && t in n.claims && n.claims[t] == s.claims[t]
    requires t in n.threads && n.threads[t] == s.threads[t] && Receives(n, t, s.claims[t].m)
    requires Recorded(n.delivery.db, KeyOf(s.claims[t].m), s.claims[t].m.text) == s.claims[t].m.text
    requires s.threads[t].Holding? ==> Elsewhere(s.delivery.db, n.delivery.db, WalletOf(s.threads[t]))
    ensures ClaimOk(n, t)
  {
  }

  /** A claim whose own transaction went one statement further. */
  lemma ClaimAdvances(s: Whole, n: Whole, t: nat)
    requires SysOk(SysOf(s)) && t in s.claims && ClaimOk(s, t) && t in n.claims && n.claims[t] == s.claims[t]
    requires n.delivery == s.delivery && t in n.threads && n.threads[t] != Idle && n.threads[t] != s.threads[t]
    requires Local(SysOf(s), t, s.threads[t], n.threads[t])
    ensures ClaimOk(n, t)
  {
    var c := s.claims[t];
    if c.answer.Some? {
      AnswerIsKnown(s.delivery.db, Decoded(c.m).value, s.threads[t].snap, c.answer.value);
    }
  }

  /** Only the stepping thread changes. */
  lemma OneThreadMoves(s: Sys, n: Sys, t: nat)
    requires SysStep(s, n) && t in s.threads && t in n.threads && n.threads[t] != s.threads[t] && n.threads[t] != Idle && n.db == s.db
    ensures Local(s, t, s.threads[t], n.threads[t])
  {
  }

  lemma TableKeepsOk(s: Whole, n: Whole)
    requires WholeOk(s) && TableStep(s, n)
    ensures WholeOk(n)
  {
    SysStepSerial(SysOf(s), SysOf(n));
    forall t | t in n.claims ensures ClaimOk(n, t) {
      assert ClaimOk(s, t);
      if n.threads[t] == s.threads[t] {
        if s.threads[t].Holding? {
          StepElsewhere(SysOf(s), SysOf(n), t);
        }
        ClaimCarries(s, n, t);
      } else {
        OneThreadMoves(SysOf(s), SysOf(n), t);
        ClaimAdvances(s, n, t);
      }
    }
  }

  /** The other claims when one transaction ends, its effect on the tables done by `mid` but for its own inbox row. */
  lemma OthersCarry(s: Whole, n: Whole, t: nat, mid: Sys)
    requires WholeOk(s) && SysStep(SysOf(s), mid) && n.threads == mid.threads && n.claims == s.claims - {t}
    requires forall u | u in s.threads && u != t :: u in mid.threads && mid.threads[u] == s.threads[u]
    requires forall u | u in s.delivery.workers && u != t :: u in n.delivery.workers && n.delivery.workers[u] == s.delivery.workers[u]
    requires mid.db.inbox == s.delivery.db.inbox
    requires n.delivery.db == mid.db || (t in s.claims && n.delivery.db == Completing(mid.db, s.claims[t].m))
    ensures ClaimsApart(n.claims) && forall u | u in n.claims :: ClaimOk(n, u)
  {
    forall u | u in n.claims ensures ClaimOk(n, u) {
      assert ClaimOk(s, u);
      if s.threads[u].Holding? {
        StepElsewhere(SysOf(s), mid, u);
      }
      ClaimCarries(s, n, u);
    }
  }

  lemma EndingIsSysStep(s: Whole, mid: Sys, t: nat)
    requires t in s.threads && mid == SysOf(s).(db := mid.db, threads := s.threads[t := Idle])
    requires mid.db == s.delivery.db || Commit(s.delivery.db, s.threads[t], mid.db)
    ensures SysStep(SysOf(s), mid)
  {
    assert ThreadStep(SysOf(s), mid, t);
  }

  /** A transaction that commits, short of its own inbox row. */
  lemma CommitEnds(s: Whole, mid: Sys, t: nat)
    requires SysOk(SysOf(s)) && ReadyThread(SysOf(s), t) && s.threads[t].work.Submitting?
    requires Accepted(s.delivery.db, Batch(true, s.threads[t].stage.write))
    requires mid == Sys(Final(s.delivery.db, Batch(true, s.threads[t].stage.write)), s.threads[t := Idle], s.clock)
    ensures SysStep(SysOf(s), mid) && SysOk(mid) && mid.db.inbox == s.delivery.db.inbox
  {
    EndingIsSysStep(s, mid, t);
    SysStepSerial(SysOf(s), mid);
    ReadyCommits(SysOf(s), t);
  }

  lemma InboxWritten(mid: Sys, n: Sys)
    requires SysOk(mid) && n == mid.(db := mid.db.(inbox := n.db.inbox))
    ensures SysOk(n)
  {
    assert DeliveryStep(mid.db, n.db);
    SysStepSerial(mid, n);
  }

  lemma CommitKeepsOk(s: Whole, n: Whole, t: nat, lost: bool)
    requires WholeOk(s) && CommitStep(s, n, t, lost)
    ensures WholeOk(n)
  {
    assert ClaimOk(s, t);
    var mid := Sys(Final(s.delivery.db, Batch(true, s.threads[t].stage.write)), s.threads[t := Idle], s.clock);
    CommitEnds(s, mid, t);
    InboxWritten(mid, SysOf(n));
    OthersCarry(s, n, t, mid);
  }

  lemma ReplayKeepsOk(s: Whole, n: Whole, t: nat, lost: bool)
    requires WholeOk(s) && ReplayStep(s, n, t, lost)
    ensures WholeOk(n)
  {
    assert ClaimOk(s, t);
    var mid := Sys(s.delivery.db, s.threads[t := Idle], s.clock);
    EndingIsSysStep(s, mid, t);
    SysStepSerial(SysOf(s), mid);
    InboxWritten(mid, SysOf(n));
    OthersCarry(s, n, t, mid);
  }

  lemma FailureKeepsOk(s: Whole, n: Whole, t: nat, lost: bool)
    requires WholeOk(s) && FailureStep(s, n, t, lost)
    ensures WholeOk(n)
  {
    CommitEnds(s, SysOf(n), t);
    OthersCarry(s, n, t, SysOf(n));
  }

  lemma OtherConsumersStay(s: Delivery.System, n: Delivery.System, t: nat)
    requires Delivery.WorkerStep(s, n, t)
    ensures forall u | u in s.workers && u != t :: u in n.workers && n.workers[u] == s.workers[u]
  {
  }

  lemma QueueKeepsOk(s: Whole, n: Whole, t: nat)
    requires WholeOk(s) && QueueStep(s, n, t)
    ensures WholeOk(n)
  {
    OtherConsumersStay(s.delivery, n.delivery, t);
    if t in s.threads {
      EndingIsSysStep(s, SysOf(n), t);
    } else {
      assert SysOf(n) == SysOf(s).(clock := s.clock);
    }
    SysStepSerial(SysOf(s), SysOf(n));
    OthersCarry(s, n, t, SysOf(n));
  }

  lemma ClaimKeepsOk(s: Whole, n: Whole, t: nat, m: Incoming)
    requires WholeOk(s) && ClaimStep(s, n, t, m)
    ensures WholeOk(n)
  {
    forall u | u in n.claims ensures ClaimOk(n, u) {
      assert u != t ==> ClaimOk(s, u);
    }
  }

  lemma FoundKeepsOk(s: Whole, n: Whole, t: nat, r: Reply)
    requires WholeOk(s) && FoundStep(s, n, t, r)
    ensures WholeOk(n)
  {
    forall u | u in n.claims ensures ClaimOk(n, u) {
      assert ClaimOk(s, u);
    }
  }

  lemma ArriveKeepsOk(s: Whole, n: Whole)
    requires WholeOk(s) && ArriveStep(s, n)
    ensures WholeOk(n)
  {
    forall u | u in n.claims ensures ClaimOk(n, u) {
      assert ClaimOk(s, u);
    }
  }

  // ---- every step is one of the delivery protocol, or none ----

  lemma {:induction false} Above(ids: set<Id>) returns (top: Id)
    ensures top > 0 && forall i | i in ids :: i < top
  {
    top := 1;
    if ids != {} {
      var x :| x in ids;
      var rest := Above(ids - {x});
      top := if rest > x then rest else x + 1;
      forall i | i in ids ensures i < top {
        assert i != x ==> i in ids - {x};
      }
    }
  }

  /** There are always identifiers left. */
  lemma UnusedIds(db: Db) returns (env: Env)
    ensures EnvOk(db, env)
  {
    var ledger := set i | 0 <= i < |db.ledger| :: db.ledger[i].id;
    var outbox := set i | 0 <= i < |db.outbox| :: db.outbox[i].id;
    var top := Above(db.txs.Keys + ledger + outbox);
    env := Env(top, top, top, top + 1, 1, 1);
    forall i | 0 <= i < |db.ledger| ensures db.ledger[i].id != env.entryId {
      assert db.ledger[i].id in ledger;
    }
    forall i | 0 <= i < |db.outbox| ensures db.outbox[i].id < top {
      assert db.outbox[i].id in outbox;
    }
  }

  /** A thread ready to commit for the message, its write accepted and sound. */
  ghost predicate Committing(db: Db, th: Thread, decider: Decider, op: Operation, causation: string) {
    && th.Holding? && th.stage.Ready? && th.work == Submitting(op, decider, causation) && op.money.Valid() && EnvOk(db, th.stage.env)
    && var w := th.stage.write;
       && Prepared(th.work, th.snap, th.stage.view, th.stage.env) == Some(w)
       && Accepted(db, Batch(true, w)) && SoundWrite(db, Fresh, w) && Final(db, Batch(true, w)) == Record(db, w)
  }

  lemma ReadyIsCommitting(s: Sys, t: nat, op: Operation, decider: Decider, causation: string)
    requires SysOk(s) && ReadyThread(s, t) && s.threads[t].work == Submitting(op, decider, causation)
    requires Accepted(s.db, Batch(true, s.threads[t].stage.write))
    ensures Committing(s.db, s.threads[t], decider, op, causation)
  {
    assert ThreadOk(s.db, s.clock, s.threads[t]);
    ReadyCommits(s, t);
  }

  lemma AloneIsProcessing(db: Db, m: Incoming, th: Thread)
    requires Decoded(m).Some? && Admissible(Decoded(m).value) && Recorded(db, KeyOf(m), m.text) == m.text
    requires Committing(db, th, ByRules, Decoded(m).value, KeyOf(m).message) && Alone(db, th, Do(th.stage.write, ReplyOf(th.stage.write)))
    ensures Processing(db, m, Completing(Record(db, th.stage.write), m), Done)
  {
    var w, n := th.stage.write, Completing(Record(db, th.stage.write), m);
    assert n.(inbox := db.inbox) == Record(db, w);
    assert ProcessedAs(db, m, Decoded(m).value, th.stage.env, Do(w, ReplyOf(w)), Ok(ReplyOf(w)), n);
  }

  lemma ForeignIsEarlier(db: Db, m: Incoming, th: Thread)
    requires Decoded(m).Some? && Committing(db, th, ByRules, Decoded(m).value, KeyOf(m).message)
    requires var w := th.stage.write; w.entry.None? && (w.row.status == PendingReference || w.row.status == Rejected)
    requires Recorded(db, KeyOf(m), m.text) == m.text
    ensures SeenEarlier(db, m, Completing(Record(db, th.stage.write), m))
  {
    DraftIsOp(Decoded(m).value, th.snap, th.stage.view, ByRules, KeyOf(m).message, th.stage.env);
    assert EarlierWrite(db, m, Decoded(m).value, th.stage.write, Completing(Record(db, th.stage.write), m));
  }

  /** The commit is the message processed alone at that instant, or it saw its reference earlier. */
  lemma CommitIsProcessing(s: Whole, n: Whole, t: nat, lost: bool)
    requires WholeOk(s) && CommitStep(s, n, t, lost)
    ensures var m := s.claims[t].m;
            Processing(s.delivery.db, m, n.delivery.db, Done) || SeenEarlier(s.delivery.db, m, n.delivery.db)
  {
    assert ClaimOk(s, t);
    var m, th := s.claims[t].m, s.threads[t];
    ReadyIsCommitting(SysOf(s), t, Decoded(m).value, ByRules, KeyOf(m).message);
    CommitIsSerial(SysOf(s), t);
    if Alone(s.delivery.db, th, Do(th.stage.write, ReplyOf(th.stage.write))) {
      AloneIsProcessing(s.delivery.db, m, th);
    } else {
      ForeignIsEarlier(s.delivery.db, m, th);
    }
  }

  lemma ReplayIsProcessing(s: Whole, n: Whole, t: nat, lost: bool)
    requires WholeOk(s) && ReplayStep(s, n, t, lost)
    ensures Processing(s.delivery.db, s.claims[t].m, n.delivery.db, Done)
  {
    assert ClaimOk(s, t);
    var db, m, th, r := s.delivery.db, s.claims[t].m, s.threads[t], s.claims[t].answer.value;
    var op := Decoded(m).value;
    assert ThreadOk(db, s.clock, th);
    AnswerIsKnown(db, op, th.snap, r);
    RowHash(db, r.tx, op);
    assert WalletOk(op.wallet, db.wallets[op.wallet]);
    assert PlannedFrom(db, op, CanonicalOf(op), r.tx, Replay(r));
    var env := UnusedIds(db);
    assert ProcessedAs(db, m, op, env, Replay(r), Ok(r), n.delivery.db);
  }

  lemma FailureFails(op: Operation, code: string, causation: string, snap: WalletRow, view: Option<Reference>, env: Env)
    requires Prepared(Submitting(op, FailWith(code), causation), snap, view, env).Some?
    ensures Prepared(Submitting(op, FailWith(code), causation), snap, view, env).value.row.status == Failed
  {
  }

  lemma AloneIsRecording(db: Db, m: Incoming, th: Thread)
    requires DecodedForFailure(m).Some? && Failable(DecodedForFailure(m).value, EXHAUSTED)
    requires Committing(db, th, FailWith(EXHAUSTED), DecodedForFailure(m).value, "") && Alone(db, th, Do(th.stage.write, ReplyOf(th.stage.write)))
    ensures RecordingFailure(db, m, Record(db, th.stage.write), true)
  {
    var w := th.stage.write;
    assert FailedAs(db, DecodedForFailure(m).value, th.stage.env, Do(w, ReplyOf(w)), Ok(ReplyOf(w)), Record(db, w));
  }

  lemma FailureIsRecording(s: Whole, n: Whole, t: nat, lost: bool)
    requires WholeOk(s) && FailureStep(s, n, t, lost)
    ensures RecordingFailure(s.delivery.db, s.delivery.workers[t].m, n.delivery.db, true)
  {
    var m, th := s.delivery.workers[t].m, s.threads[t];
    ReadyIsCommitting(SysOf(s), t, DecodedForFailure(m).value, FailWith(EXHAUSTED), "");
    CommitIsSerial(SysOf(s), t);
    FailureFails(DecodedForFailure(m).value, EXHAUSTED, "", th.snap, th.stage.view, th.stage.env);
    AloneIsRecording(s.delivery.db, m, th);
  }

  lemma EndIsHandled(s: Whole, n: Whole, t: nat, m: Incoming, lost: bool)
    requires Receives(s, t, m) && Ends(s, n, t, Heard(s.delivery.workers[t], lost))
    requires Processing(s.delivery.db, m, n.delivery.db, Done) || SeenEarlier(s.delivery.db, m, n.delivery.db)
    ensures Delivery.SystemStep(s.delivery, n.delivery)
  {
    assert Attempted(s.delivery.db, m, n.delivery.db, if lost then Denied(DatabaseError) else Done);
    assert Delivery.HandleStep(s.delivery, n.delivery, t, if lost then Denied(DatabaseError) else Done);
    assert Delivery.WorkerStep(s.delivery, n.delivery, t);
  }

  lemma CommitIsHandled(s: Whole, n: Whole, t: nat, lost: bool)
    requires WholeOk(s) && (CommitStep(s, n, t, lost) || ReplayStep(s, n, t, lost))
    ensures Delivery.SystemStep(s.delivery, n.delivery)
  {
    if CommitStep(s, n, t, lost) {
      CommitIsProcessing(s, n, t, lost);
    } else {
      ReplayIsProcessing(s, n, t, lost);
    }
    EndIsHandled(s, n, t, s.claims[t].m, lost);
  }

  lemma FailureIsHandled(s: Whole, n: Whole, t: nat, lost: bool)
    requires WholeOk(s) && FailureStep(s, n, t, lost)
    ensures Delivery.SystemStep(s.delivery, n.delivery)
  {
    FailureIsRecording(s, n, t, lost);
    assert Delivery.FailStep(s.delivery, n.delivery, t, !lost);
    assert Delivery.WorkerStep(s.delivery, n.delivery, t);
  }

  /** Every step keeps what has been read and locked, and is one atomic step of the delivery protocol or none. */
  lemma WholeStepRefines(s: Whole, n: Whole)
    requires WholeOk(s) && WholeStep(s, n)
    ensures WholeOk(n) && (n.delivery == s.delivery || Delivery.SystemStep(s.delivery, n.delivery))
  {
    if TableStep(s, n) {
      TableKeepsOk(s, n);
      SysStepSerial(SysOf(s), SysOf(n));
    } else if ArriveStep(s, n) {
      ArriveKeepsOk(s, n);
    } else if t, m :| ClaimStep(s, n, t, m) {
      ClaimKeepsOk(s, n, t, m);
    } else if t, r :| FoundStep(s, n, t, r) {
      FoundKeepsOk(s, n, t, r);
    } else if t, lost :| CommitStep(s, n, t, lost) {
      CommitKeepsOk(s, n, t, lost);
      CommitIsHandled(s, n, t, lost);
    } else if t, lost :| ReplayStep(s, n, t, lost) {
      ReplayKeepsOk(s, n, t, lost);
      CommitIsHandled(s, n, t, lost);
    } else if t, lost :| FailureStep(s, n, t, lost) {
      FailureKeepsOk(s, n, t, lost);
      FailureIsHandled(s, n, t, lost);
    } else {
      var t :| QueueStep(s, n, t);
      QueueKeepsOk(s, n, t);
    }
  }

  // ---- whole runs ----

  ghost predicate WholeStart(s: Whole) {
    Delivery.Start(s.delivery) && s.threads == map[] && s.claims == map[] && s.clock > 0
  }

  ghost predicate WholeStepAt(run: seq<Whole>, k: nat)
    requires k + 1 < |run|
  {
    WholeStep(run[k], run[k + 1])
  }

  ghost predicate WholeRun(run: seq<Whole>) {
    run != [] && WholeStart(run[0]) && forall k: nat {:trigger WholeStepAt(run, k)} | k + 1 < |run| :: WholeStepAt(run, k)
  }

  lemma WholeStartOk(s: Whole)
    requires WholeStart(s)
    ensures WholeOk(s)
  {
    EmptySound();
  }

  lemma DeliveryRunExtends(run: seq<Delivery.System>, next: Delivery.System)
    requires Delivery.SystemRun(run) && Delivery.SystemStep(run[|run| - 1], next)
    ensures Delivery.SystemRun(run + [next])
  {
    var longer := run + [next];
    forall k: nat | k + 1 < |longer| ensures Delivery.StepAt(longer, k) {
      assert k + 1 < |run| ==> Delivery.StepAt(run, k);
    }
  }

  /** The queues, consumers and committed tables of any interleaving, stutters removed, are a run of the delivery protocol. */
  lemma {:induction false} InterleavingIsDelivery(run: seq<Whole>, k: nat) returns (atomic: seq<Delivery.System>)
    requires WholeRun(run) && k < |run|
    ensures WholeOk(run[k])
    ensures Delivery.SystemRun(atomic) && atomic[|atomic| - 1] == run[k].delivery
  {
    if k == 0 {
      WholeStartOk(run[0]);
      atomic := [run[0].delivery];
    } else {
      atomic := InterleavingIsDelivery(run, k - 1);
      assert WholeStepAt(run, k - 1);
      WholeStepRefines(run[k - 1], run[k]);
      if run[k].delivery != run[k - 1].delivery {
        DeliveryRunExtends(atomic, run[k].delivery);
        atomic := atomic + [run[k].delivery];
      }
    }
  }

  /** So no interleaving of consumers, API calls and resolvers loses a message, or moves money twice for one operation. */
  lemma NothingIsLostInterleaved(run: seq<Whole>, k: nat, m: Incoming)
    requires WholeRun(run) && k < |run| && m in run[k].delivery.deleted
    ensures m in run[k].delivery.dead || (DecodedForFailure(m).Some? && Accounted(run[k].delivery.db, DecodedForFailure(m).value))
  {
    var atomic := InterleavingIsDelivery(run, k);
    Delivery.NothingIsLost(atomic, |atomic| - 1, m);
  }

  lemma EffectAtMostOnceInterleaved(run: seq<Whole>, k: nat, op: Operation, i: nat, j: nat)
    requires WholeRun(run) && k < |run| && i < |run[k].delivery.db.ledger| && j < |run[k].delivery.db.ledger|
    requires var db := run[k].delivery.db;
             && db.ledger[i].tx in db.txs && IsOp(db.txs[db.ledger[i].tx], op)
             && db.ledger[j].tx in db.txs && IsOp(db.txs[db.ledger[j].tx], op)
    ensures i == j
  {
    var atomic := InterleavingIsDelivery(run, k);
    Delivery.EffectAtMostOnce(atomic, |atomic| - 1, op, i, j);
  }

  /** A consumer's commit of `m`, replays included. */
  ghost predicate Commits(s: Whole, n: Whole, m: Incoming) {
    exists t, lost :: (CommitStep(s, n, t, lost) || ReplayStep(s, n, t, lost)) && s.claims[t].m == m
  }

  lemma CommitRemembers(s: Whole, n: Whole, m: Incoming)
    requires WholeOk(s) && Commits(s, n, m)
    ensures m.content.Envelope? && Admits(s.delivery.db, m.content.message, m.text) && Remembers(n.delivery.db, m.content.message, m.text)
  {
    var t, lost :| (CommitStep(s, n, t, lost) || ReplayStep(s, n, t, lost)) && s.claims[t].m == m;
    assert ClaimOk(s, t);
  }

  lemma WholeStepRemembers(s: Whole, n: Whole, message: string, body: string)
    requires WholeOk(s) && Delivery.AllFine(s.delivery) && WholeStep(s, n) && Remembers(s.delivery.db, message, body)
    ensures Remembers(n.delivery.db, message, body)
  {
    WholeStepRefines(s, n);
    if n.delivery != s.delivery {
      Delivery.StepRemembers(s.delivery, n.delivery, message, body);
    }
  }

  lemma WholeRunStepRemembers(run: seq<Whole>, k: nat, message: string, body: string)
    requires WholeRun(run) && k + 1 < |run| && Remembers(run[k].delivery.db, message, body)
    ensures Remembers(run[k + 1].delivery.db, message, body)
  {
    var atomic := InterleavingIsDelivery(run, k);
    Delivery.EveryRunFine(atomic, |atomic| - 1);
    assert WholeStepAt(run, k);
    WholeStepRemembers(run[k], run[k + 1], message, body);
  }

  lemma {:induction false} WholeRunRemembers(run: seq<Whole>, j: nat, k: nat, message: string, body: string)
    requires WholeRun(run) && j <= k < |run| && Remembers(run[j].delivery.db, message, body)
    ensures Remembers(run[k].delivery.db, message, body)
  {
    if j < k {
      WholeRunRemembers(run, j, k - 1, message, body);
      WholeRunStepRemembers(run, k - 1, message, body);
    }
  }

  /** In every interleaving, two messages of one id are never both committed unless they have one body. */
  lemma OneBodyPerIdInterleaved(run: seq<Whole>, j: nat, k: nat, first: Incoming, second: Incoming)
    requires WholeRun(run) && j < k && k + 1 < |run| && Commits(run[j], run[j + 1], first) && Commits(run[k], run[k + 1], second)
    ensures first.content.Envelope? && second.content.Envelope?
    ensures first.content.message == second.content.message ==> first.text == second.text
  {
    var atomic := InterleavingIsDelivery(run, j);
    var later := InterleavingIsDelivery(run, k);
    CommitRemembers(run[j], run[j + 1], first);
    CommitRemembers(run[k], run[k + 1], second);
    WholeRunRemembers(run, j + 1, k, first.content.message, first.text);
  }

  // ---- every message that can be handled alone can be handled so ----

  ghost predicate WholePath(run: seq<Whole>, s: Whole, n: Whole) {
    run != [] && run[0] == s && run[|run| - 1] == n && forall k: nat {:trigger WholeStepAt(run, k)} | k + 1 < |run| :: WholeStepAt(run, k)
  }

  ghost predicate WholeLeads(s: Whole, n: Whole) {
    exists run :: WholePath(run, s, n)
  }

  lemma WholeLeadsOn(s: Whole, m: Whole, n: Whole)
    requires WholeLeads(s, m) && WholeStep(m, n)
    ensures WholeLeads(s, n)
  {
    var run :| WholePath(run, s, m);
    var longer := run + [n];
    forall k: nat | k + 1 < |longer| ensures WholeStepAt(longer, k) {
      assert k + 1 < |run| ==> WholeStepAt(run, k);
    }
    assert WholePath(longer, s, n);
  }

  function Put(s: Whole, t: nat, th: Thread, claims: map<nat, Claim>): Whole {
    s.(threads := s.threads[t := th], claims := claims)
  }

  /** One more statement of the transaction, which keeps what it holds. */
  lemma StatementLeads(s: Whole, t: nat, a: Thread, b: Thread, claims: map<nat, Claim>)
    requires t in s.threads && WholeLeads(s, Put(s, t, a, claims)) && b != Idle
    requires forall u | u in claims :: u in s.threads && (u != t ==> s.threads[u] != Idle)
    requires Local(With(SysOf(s), t, a), t, a, b)
    ensures WholeLeads(s, Put(s, t, b, claims))
  {
    var m, n := Put(s, t, a, claims), Put(s, t, b, claims);
    assert s.threads[t := a][t := b] == s.threads[t := b];
    assert ThreadStep(SysOf(m), SysOf(n), t);
    assert n.claims == map u | u in m.claims && u in n.threads && n.threads[u] != Idle :: m.claims[u];
    assert TableStep(m, n);
    WholeLeadsOn(s, m, n);
  }

  /** The consumer holds the message, its transaction has not begun, and nobody is in its way. */
  ghost predicate MayHandle(s: Whole, t: nat, m: Incoming, op: Operation, env: Env) {
    && WholeOk(s) && Receives(s, t, m) && t !in s.claims && (forall u | u in s.claims :: KeyOf(s.claims[u].m) != KeyOf(m))
    && Decoded(m) == Some(op) && Admissible(op) && Recorded(s.delivery.db, KeyOf(m), m.text) == m.text
    && Undisturbed(SysOf(s), t, op.wallet, env) && op.wallet in s.delivery.db.wallets
  }

  lemma ClaimantsWork(s: Whole)
    requires WholeOk(s)
    ensures forall u | u in s.claims :: u in s.threads && s.threads[u] != Idle
  {
    forall u | u in s.claims ensures u in s.threads && s.threads[u] != Idle {
      assert ClaimOk(s, u);
    }
  }

  lemma ClaimLeads(s: Whole, t: nat, m: Incoming, op: Operation, env: Env)
    requires MayHandle(s, t, m, op, env)
    ensures WholeLeads(s, Put(s, t, Begun(op, ByRules, KeyOf(m).message, s.clock), s.claims[t := Claim(m, None)]))
  {
    var begun := Begun(op, ByRules, KeyOf(m).message, s.clock);
    ClaimantsWork(s);
    assert WholePath([s], s, s);
    assert Put(s, t, Idle, s.claims) == s;
    StatementLeads(s, t, Idle, begun, s.claims);
    var held, claimed := Put(s, t, begun, s.claims), Put(s, t, begun, s.claims[t := Claim(m, None)]);
    assert ClaimStep(held, claimed, t, m);
    WholeLeadsOn(s, held, claimed);
  }

  /** From the lock to the reference as the queries return it. */
  lemma ReadsLead(s: Whole, t: nat, th: Thread, claims: map<nat, Claim>, view: Option<Reference>)
    requires t in s.threads && th.Holding? && th.stage.Locked? && WholeLeads(s, Put(s, t, th, claims))
    requires forall u | u in claims :: u in s.threads && (u != t ==> s.threads[u] != Idle)
    requires th.work.Submitting? && !Known(s.delivery.db.txs, th.work.op) && Reads(s.delivery.db.txs, th.work.op, view)
    ensures WholeLeads(s, Put(s, t, th.(stage := Viewed(view)), claims))
  {
    StatementLeads(s, t, th, th.(stage := Searched), claims);
    if th.work.op.refExternal == "" {
      StatementLeads(s, t, th.(stage := Searched), th.(stage := Viewed(view)), claims);
    } else {
      StatementLeads(s, t, th.(stage := Searched), th.(stage := Named(view)), claims);
      StatementLeads(s, t, th.(stage := Named(view)), th.(stage := Viewed(view)), claims);
    }
  }

  lemma DecisionLeads(s: Whole, t: nat, th: Thread, claims: map<nat, Claim>, view: Option<Reference>, env: Env, write: Write)
    requires t in s.threads && th.Holding? && th.stage == Viewed(view) && WholeLeads(s, Put(s, t, th, claims))
    requires forall u | u in claims :: u in s.threads && (u != t ==> s.threads[u] != Idle)
    requires Prepared(th.work, th.snap, view, env) == Some(write)
    requires env.began == th.began && env.now == s.clock && EnvOk(s.delivery.db, env) && IdsFree(SysOf(s), t, env)
    ensures WholeLeads(s, Put(s, t, th.(stage := Ready(view, env, write)), claims))
  {
    StatementLeads(s, t, th, th.(stage := Ready(view, env, write)), claims);
  }

  lemma StatementsLead(s: Whole, t: nat, m: Incoming, op: Operation, env: Env, view: Option<Reference>, write: Write)
    requires MayHandle(s, t, m, op, env) && !Known(s.delivery.db.txs, op) && Reads(s.delivery.db.txs, op, view)
    requires Prepared(Submitting(op, ByRules, KeyOf(m).message), s.delivery.db.wallets[op.wallet], view, env) == Some(write)
    ensures WholeLeads(s, Put(s, t, Holding(Submitting(op, ByRules, KeyOf(m).message), s.delivery.db.wallets[op.wallet], s.clock, Ready(view, env, write)),
                              s.claims[t := Claim(m, None)]))
  {
    ClaimLeads(s, t, m, op, env);
    var claims := s.claims[t := Claim(m, None)];
    ClaimantsWork(s);
    var th := Holding(Submitting(op, ByRules, KeyOf(m).message), s.delivery.db.wallets[op.wallet], s.clock, Locked);
    StatementLeads(s, t, Begun(op, ByRules, KeyOf(m).message, s.clock), th, claims);
    ReadsLead(s, t, th, claims, view);
    DecisionLeads(s, t, th.(stage := Viewed(view)), claims, view, env, write);
  }

  /** What ProcessInbox would write alone for the message, its consumer can write statement by statement, and be answered. */
  lemma MessageCanRun(s: Whole, t: nat, m: Incoming, op: Operation, env: Env, p: Plan)
    requires MayHandle(s, t, m, op, env) && p.Do? && Planned(s.delivery.db, op, CanonicalOf(op), ByRules, KeyOf(m).message, env, p)
    ensures WholeLeads(s, s.(delivery := s.delivery.(db := Completing(Record(s.delivery.db, p.write), m),
                                                     workers := s.delivery.workers[t := Heard(s.delivery.workers[t], false)])))
  {
    var view := PlanIsPrepared(s.delivery.db, op, ByRules, KeyOf(m).message, env, p);
    PlanIsStep(s.delivery.db, op, ByRules, KeyOf(m).message, env, p);
    StatementsLead(s, t, m, op, env, view, p.write);
    var th := Holding(Submitting(op, ByRules, KeyOf(m).message), s.delivery.db.wallets[op.wallet], s.clock, Ready(view, env, p.write));
    HandledLeads(s, t, m, th);
  }

  lemma HandledLeads(s: Whole, t: nat, m: Incoming, th: Thread)
    requires Receives(s, t, m) && t !in s.claims && t in s.threads && s.threads[t] == Idle && th.Holding? && th.stage.Ready?
    requires WholeLeads(s, Put(s, t, th, s.claims[t := Claim(m, None)]))
    requires Accepted(s.delivery.db, Batch(true, th.stage.write)) && Final(s.delivery.db, Batch(true, th.stage.write)) == Record(s.delivery.db, th.stage.write)
    ensures WholeLeads(s, s.(delivery := s.delivery.(db := Completing(Record(s.delivery.db, th.stage.write), m),
                                                     workers := s.delivery.workers[t := Heard(s.delivery.workers[t], false)])))
  {
    var ready := Put(s, t, th, s.claims[t := Claim(m, None)]);
    var n := s.(delivery := s.delivery.(db := Completing(Record(s.delivery.db, th.stage.write), m),
                                        workers := s.delivery.workers[t := Heard(s.delivery.workers[t], false)]));
    assert s.threads[t := th][t := Idle] == s.threads;
    assert s.claims[t := Claim(m, None)] - {t} == s.claims;
    assert CommitStep(ready, n, t, false);
    WholeLeadsOn(s, ready, n);
  }
}
