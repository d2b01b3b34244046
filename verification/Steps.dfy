/** The atomic steps of the whole system and what holds in every state they reach. */
module Steps {
  import opened Prelude
  import opened Domain
  import opened Decision
  import opened Schema
  import opened Integrity
  import opened Writes
  import opened Invariant
  import opened Preservation
  import opened Resolver
  import opened Economics
  import opened EventLog

  /** Everything that holds of a stored state. */
  ghost predicate Sound(db: Db) {
    Inv(db) && Meaningful(db) && LogOk(db)
  }

  ghost predicate SoundWrite(db: Db, mode: Mode, w: Write) {
    && mode != Open && WriteOk(db, mode, w) && EventsFit(mode, w) && LeftInOrder(mode, w)
    && (mode == Settle ==> w.row.status != Failed)
    && (mode == Settle && w.row.status == PendingReference ==> w.row.result == db.txs[w.id].result)
  }

  ghost predicate OpenStep(a: Db, b: Db) {
    exists w, env :: OpenOk(a, w, env) && b == Opened(a, w, env)
  }

  ghost predicate WriteStep(a: Db, b: Db) {
    exists mode, w :: SoundWrite(a, mode, w) && b == Record(a, w)
  }

  /** Inbox bookkeeping and event delivery touch no financial table and no event. */
  ghost predicate DeliveryStep(a: Db, b: Db) {
    b == a.(inbox := b.inbox, outbox := b.outbox) && SameEvents(a.outbox, b.outbox)
  }

  ghost predicate Step(a: Db, b: Db) {
    OpenStep(a, b) || WriteStep(a, b) || DeliveryStep(a, b)
  }

  lemma EmptySound()
    ensures Sound(EmptyDb)
  {
  }

  lemma OpenKeepsSound(db: Db, w: WalletVal, env: Env)
    requires Sound(db) && OpenOk(db, w, env)
    ensures Sound(Opened(db, w, env)) && Grown(db, Opened(db, w, env))
  {
    OpenKeepsInv(db, w, env);
    if w.balance.minor > 0 {
      OpeningWriteOk(db, w, env);
      WriteKeepsMeaning(db, Open, OpeningWrite(w, env));
      OpeningFits(w, env);
      WriteKeepsLog(db, Open, OpeningWrite(w, env));
    } else {
      ZeroOpenKeepsLog(db, w.id, WalletRowOf(w));
      NoHistoryWithoutWallet(db, w.id);
      var after := Opened(db, w, env);
      forall x | x in after.wallets ensures BalanceMeans(after, x) {
        if x != w.id {
          assert BalanceMeans(db, x);
        }
      }
    }
  }

  lemma WriteKeepsSound(db: Db, mode: Mode, w: Write)
    requires Sound(db) && SoundWrite(db, mode, w)
    ensures Sound(Record(db, w)) && Grown(db, Record(db, w))
  {
    RecordKeepsInv(db, mode, w);
    WriteKeepsMeaning(db, mode, w);
    WriteKeepsLog(db, mode, w);
  }

  lemma DeliveryKeepsIntact(a: Db, b: Db)
    requires Intact(a) && b == a.(inbox := b.inbox, outbox := b.outbox)
    ensures Intact(b)
  {
    forall i | 0 <= i < |b.ledger| ensures EntrySound(b, i) {
      assert EntrySound(a, i);
    }
    forall w | w in b.wallets ensures ChainAt(b, w) {
      assert ChainAt(a, w);
    }
  }

  lemma DeliveryKeepsRows(a: Db, b: Db)
    requires RowsOk(a) && RefsOk(a) && EntriesComplete(a) && b == a.(inbox := b.inbox, outbox := b.outbox)
    ensures RowsOk(b) && RefsOk(b) && EntriesComplete(b)
  {
    forall t | t in b.txs ensures RowAt(b, t) && RefAt(b, t) && EntryPresent(b, t) {
      assert RowAt(a, t) && RefAt(a, t) && EntryPresent(a, t);
    }
  }

  lemma DeliveryKeepsWallets(a: Db, b: Db)
    requires WalletsOk(a) && Meaningful(a) && b == a.(inbox := b.inbox, outbox := b.outbox)
    ensures WalletsOk(b) && Meaningful(b)
  {
    forall w | w in b.wallets ensures BalanceMeans(b, w) && WalletOk(w, b.wallets[w]) {
      assert BalanceMeans(a, w) && WalletOk(w, a.wallets[w]);
    }
  }

  lemma DeliveryKeepsSound(a: Db, b: Db)
    requires Sound(a) && DeliveryStep(a, b)
    ensures Sound(b) && Grown(a, b)
  {
    DeliveryKeepsIntact(a, b);
    DeliveryKeepsRows(a, b);
    DeliveryKeepsWallets(a, b);
    DeliveryKeepsLog(a, b.outbox);
    LogIgnoresInbox(a.(outbox := b.outbox), b);
  }

  lemma LogIgnoresInbox(a: Db, b: Db)
    requires LogOk(a) && b == a.(inbox := b.inbox)
    ensures LogOk(b)
  {
    forall i | 0 <= i < |b.ledger| ensures BalanceEventAt(b, i) {
      assert BalanceEventAt(a, i);
    }
    forall t ensures CountsAt(b, t) {
      assert CountsAt(a, t);
    }
    forall i | 0 <= i < |b.outbox| ensures Truthful(b.txs, b.outbox[i].event) {
      assert Truthful(a.txs, a.outbox[i].event);
    }
  }

  lemma StepKeepsSound(a: Db, b: Db)
    requires Sound(a) && Step(a, b)
    ensures Sound(b) && Grown(a, b)
  {
    if OpenStep(a, b) {
      var w, env :| OpenOk(a, w, env) && b == Opened(a, w, env);
      OpenKeepsSound(a, w, env);
    } else if WriteStep(a, b) {
      var mode, w :| SoundWrite(a, mode, w) && b == Record(a, w);
      WriteKeepsSound(a, mode, w);
    } else {
      DeliveryKeepsSound(a, b);
    }
  }

  /** A run of the system from the empty database. */
  ghost predicate Run(run: seq<Db>) {
    |run| > 0 && run[0] == EmptyDb && forall k: nat {:trigger StepAt(run, k)} | 0 < k < |run| :: StepAt(run, k)
  }

  /** The k-th state comes from the one before by a step. */
  ghost predicate StepAt(run: seq<Db>, k: nat)
    requires 0 < k < |run|
  {
    Step(run[k - 1], run[k])
  }

  lemma {:induction false} EveryRunSound(run: seq<Db>, k: nat)
    requires Run(run) && k < |run|
    ensures Sound(run[k])
  {
    if k == 0 {
      EmptySound();
    } else {
      EveryRunSound(run, k - 1);
      assert StepAt(run, k);
      StepKeepsSound(run[k - 1], run[k]);
    }
  }

  // ---- row lifecycle ----

  /** A stored row keeps its identity; a pending one stays or becomes processed or rejected; a final one never changes. */
  predicate Evolves(a: TxRow, b: TxRow) {
    && SameTxIdentity(a, b)
    && (a.status.Terminal() ==> b == a)
    && (a.status == PendingReference ==> b.status == PendingReference || b.status == Processed || b.status == Rejected)
  }

  lemma EvolvesOn(a: TxRow, b: TxRow, c: TxRow)
    requires Evolves(a, b) && Evolves(b, c)
    ensures Evolves(a, c)
  {
  }

  lemma WriteEvolves(db: Db, mode: Mode, w: Write, t: Id)
    requires TargetOk(db, mode, w) && w.row.status != Pending && (mode == Settle ==> w.row.status != Failed) && t in db.txs
    ensures t in Record(db, w).txs && Evolves(db.txs[t], Record(db, w).txs[t])
  {
  }

  lemma StepEvolves(a: Db, b: Db, t: Id)
    requires Sound(a) && Step(a, b) && t in a.txs
    ensures t in b.txs && Evolves(a.txs[t], b.txs[t]) && a.txs[t].status != Pending && ValidTx(DataOf(t, b.txs[t]))
  {
    StepKeepsSound(a, b);
    assert RowAt(a, t);
    StepKeepsRow(a, b, t);
    assert RowAt(b, t);
  }

  lemma StepKeepsRow(a: Db, b: Db, t: Id)
    requires Step(a, b) && t in a.txs
    ensures t in b.txs && Evolves(a.txs[t], b.txs[t])
  {
    if OpenStep(a, b) {
      var w, env :| OpenOk(a, w, env) && b == Opened(a, w, env);
    } else if WriteStep(a, b) {
      var mode, w :| SoundWrite(a, mode, w) && b == Record(a, w);
      WriteEvolves(a, mode, w, t);
    }
  }

  lemma {:induction false} RowsEvolve(run: seq<Db>, j: nat, k: nat, t: Id)
    requires Run(run) && j <= k < |run| && t in run[j].txs
    ensures t in run[k].txs && Evolves(run[j].txs[t], run[k].txs[t])
  {
    if j < k {
      RowsEvolve(run, j, k - 1, t);
      EveryRunSound(run, k - 1);
      assert StepAt(run, k);
      StepEvolves(run[k - 1], run[k], t);
      EvolvesOn(run[j].txs[t], run[k - 1].txs[t], run[k].txs[t]);
    }
  }

  ghost predicate EverPending(run: seq<Db>, k: nat, t: Id)
    requires k < |run|
  {
    exists j | 0 <= j <= k :: PendingRow(run[j], t)
  }

  lemma WritePendingCount(db: Db, mode: Mode, w: Write, t: Id)
    requires TargetOk(db, mode, w) && EventsFit(mode, w)
    ensures PendingCount(Record(db, w).outbox, t)
         == PendingCount(db.outbox, t) + (if PendingRow(Record(db, w), t) && t !in db.txs then 1 else 0)
  {
    assert AnnouncedAt(mode, w, t);
    LogSplit(db.outbox, w.events, t);
  }

  lemma PendingCountStep(a: Db, b: Db, t: Id)
    requires Step(a, b)
    ensures PendingCount(b.outbox, t) == PendingCount(a.outbox, t) + (if PendingRow(b, t) && t !in a.txs then 1 else 0)
  {
    if OpenStep(a, b) {
      var w, env :| OpenOk(a, w, env) && b == Opened(a, w, env);
      if w.balance.minor > 0 {
        OpeningFits(w, env);
        WritePendingCount(a, Open, OpeningWrite(w, env), t);
      }
    } else if WriteStep(a, b) {
      var mode, w :| SoundWrite(a, mode, w) && b == Record(a, w);
      WritePendingCount(a, mode, w, t);
    } else {
      SameEventsSameLog(a.outbox, b.outbox, t);
    }
  }

  lemma EverPendingStays(run: seq<Db>, k: nat, t: Id)
    requires Run(run) && k < |run| && EverPending(run, k, t)
    ensures t in run[k].txs
  {
    var j :| 0 <= j <= k && PendingRow(run[j], t);
    RowsEvolve(run, j, k, t);
  }

  /** A row pending now was pending before, or did not exist before. */
  lemma PendingBefore(a: Db, b: Db, t: Id)
    requires Sound(a) && Step(a, b) && t in a.txs && PendingRow(b, t)
    ensures PendingRow(a, t)
  {
    StepEvolves(a, b, t);
  }

  lemma EverPendingStep(run: seq<Db>, k: nat, t: Id)
    requires Run(run) && 0 < k < |run|
    ensures EverPending(run, k, t) <==> EverPending(run, k - 1, t) || PendingRow(run[k], t)
    ensures EverPending(run, k - 1, t) ==> t in run[k - 1].txs
    ensures PendingRow(run[k], t) && t in run[k - 1].txs ==> EverPending(run, k - 1, t)
  {
    if EverPending(run, k - 1, t) {
      EverPendingStays(run, k - 1, t);
    }
    if PendingRow(run[k], t) && t in run[k - 1].txs {
      EveryRunSound(run, k - 1);
      assert StepAt(run, k);
      PendingBefore(run[k - 1], run[k], t);
    }
  }

  /** A row has a pending announcement exactly when it was ever pending, and then exactly one. */
  lemma {:induction false} PendingAnnouncedIffEverPending(run: seq<Db>, k: nat, t: Id)
    requires Run(run) && k < |run|
    ensures PendingCount(run[k].outbox, t) == if EverPending(run, k, t) then 1 else 0
  {
    if k > 0 {
      PendingAnnouncedIffEverPending(run, k - 1, t);
      EverPendingStep(run, k, t);
      assert StepAt(run, k);
      PendingCountStep(run[k - 1], run[k], t);
    }
  }

  // ---- the application's transactions are such steps ----

  lemma CompletedEvents(mode: Mode, id: Id, row: TxRow, snap: WalletRow, d: Decision, w: WalletVal, causation: string, env: Env)
    requires mode != Open && (mode == Settle ==> row.status != PendingReference)
    requires Completed(id, row, snap, d, w, causation, env).Ok?
    requires row.result == Some(w.balance.minor) && (d.direction.None? ==> w.balance.minor == snap.balance)
    ensures EventsFit(mode, Completed(id, row, snap, d, w, causation, env).value)
    ensures LeftInOrder(mode, Completed(id, row, snap, d, w, causation, env).value)
  {
    var o := Completed(id, row, snap, d, w, causation, env).value;
    EventsOfFit(mode, id, row, o.wallet, o.entry, causation, env);
    EventsOfWait(id, row, o.entry, causation, env);
    forall e | e in o.events ensures e.event.tx == id {
      assert e in BalanceEvents(row, o.entry, causation, env) || e in WagerEvents(id, row, causation, env);
    }
  }

  /** executeTx's write, from any reads that fit, is a sound step whose statements all commit. */
  lemma DraftIsStep(db: Db, op: Operation, hash: Canonical, view: Option<Reference>, decider: Decider, causation: string, env: Env)
    requires Sound(db) && EnvOk(db, env) && op.wallet in db.wallets && ViewFits(db, op, view)
    requires op.money.Valid() && hash == CanonicalOf(op)
    requires forall o | o in db.txs :: !SameOp(db.txs[o], op)
    requires Draft(op, hash, db.wallets[op.wallet], view, decider, causation, env).Ok?
    ensures var w := Draft(op, hash, db.wallets[op.wallet], view, decider, causation, env).value;
            && SoundWrite(db, Fresh, w) && Accepted(db, Batch(true, w)) && Final(db, Batch(true, w)) == Record(db, w)
  {
    var w := Draft(op, hash, db.wallets[op.wallet], view, decider, causation, env).value;
    DraftSound(db, op, hash, view, decider, causation, env);
    var (d, after) := DecideBy(decider, op, ToWallet(op.wallet, db.wallets[op.wallet]), view, env.now);
    DecideMoves(op, ToWallet(op.wallet, db.wallets[op.wallet]), view, env.now);
    CompletedEvents(Fresh, env.txId, NewRow(op, hash, d, after, env), db.wallets[op.wallet], d, after, causation, env);
    WriteCommits(db, Fresh, w);
  }

  /** A resolver visit is a sound step whose statements all commit. */
  lemma VisitIsStep(db: Db, id: Id, view: Option<Reference>, env: Env)
    requires Sound(db) && VisitReady(db, id, view, env)
    ensures var t := db.txs[id];
            && t.wallet in db.wallets && t.attempts >= 0
            && var s := Resolution(id, t, db.wallets[t.wallet], view, env);
               && !s.Broken?
               && var w := WriteOf(id, db.wallets[t.wallet], s);
                  SoundWrite(db, Settle, w) && Accepted(db, Batch(false, w)) && Final(db, Batch(false, w)) == Record(db, w)
  {
    ResolutionSound(db, id, view, env);
    var t := db.txs[id];
    var s := Resolution(id, t, db.wallets[t.wallet], view, env);
    var w := WriteOf(id, db.wallets[t.wallet], s);
    WriteCommits(db, Settle, w);
    VisitEvents(db, id, view, env);
  }

  lemma VisitEvents(db: Db, id: Id, view: Option<Reference>, env: Env)
    requires RowsOk(db) && PendingRow(db, id) && db.txs[id].wallet in db.wallets && db.txs[id].attempts >= 0
    requires !Resolution(id, db.txs[id], db.wallets[db.txs[id].wallet], view, env).Broken?
    ensures var t := db.txs[id];
            var w := WriteOf(id, db.wallets[t.wallet], Resolution(id, t, db.wallets[t.wallet], view, env));
            && EventsFit(Settle, w) && LeftInOrder(Settle, w) && w.row.status != Failed
            && (w.row.status == PendingReference ==> w.row.result == t.result)
  {
    var t := db.txs[id];
    var snap := db.wallets[t.wallet];
    PendingOperation(db, id);
    match Resolution(id, t, snap, view, env)
    case Postponed(row) =>
      PostponeFits(id, row, snap);
    case Settled(w) =>
      var (decided, after) := Decide(OpOf(t), ToWallet(t.wallet, snap), view, env.now);
      var d := if decided.status == PendingReference then Reject(REFERENCE_NOT_FOUND) else decided;
      DecideMoves(OpOf(t), ToWallet(t.wallet, snap), view, env.now);
      CompletedEvents(Settle, id, SettledRow(t, d, after, env.now), snap, d, after, "", env);
  }

  // ---- what a step adds to the outbox ----

  lemma WriteNews(db: Db, mode: Mode, w: Write, i: nat)
    requires NewEventIds(db, w.events) && LeftInOrder(mode, w) && |db.outbox| <= i < |Record(db, w).outbox|
    ensures NewsAt(db, Record(db, w), i)
  {
    assert Record(db, w).outbox[i] == w.events[i - |db.outbox|];
  }

  /** The event is new, of a stored row and its wallet, and waits to be sent as nobody has touched it yet. */
  ghost predicate NewsAt(a: Db, b: Db, i: nat)
    requires i < |b.outbox|
  {
    var e := b.outbox[i];
    && e.event.tx in b.txs && e.aggregate == b.txs[e.event.tx].wallet
    && e.attempts == 0 && e.published.None? && e.claimed.None? && e.nextAttempt == e.occurredAt
    && forall j | 0 <= j < i :: b.outbox[j].id != e.id
  }

  /** Whichever path wrote it, a wallet's creation included, every event a step adds waits to be sent, and none is lost. */
  lemma StepNews(a: Db, b: Db, i: nat)
    requires Sound(a) && Step(a, b) && i < |b.outbox|
    ensures |a.outbox| <= |b.outbox| && (|b.outbox| > |a.outbox| ==> b.outbox[..|a.outbox|] == a.outbox)
    ensures i >= |a.outbox| ==> NewsAt(a, b, i)
    ensures i < |a.outbox| ==> b.outbox[i].id == a.outbox[i].id && b.outbox[i].event == a.outbox[i].event
  {
    if OpenStep(a, b) {
      var w, env :| OpenOk(a, w, env) && b == Opened(a, w, env);
      if w.balance.minor > 0 && i >= |a.outbox| {
        OpeningFits(w, env);
        WriteNews(a, Open, OpeningWrite(w, env), i);
      }
    } else if WriteStep(a, b) {
      var mode, w :| SoundWrite(a, mode, w) && b == Record(a, w);
      if i >= |a.outbox| {
        WriteNews(a, mode, w, i);
      }
    }
  }
}
