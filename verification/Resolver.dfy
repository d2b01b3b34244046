/** The pending-reference resolver: its writes are sound, its visits are bounded, its patience is long enough. */
module Resolver {
  import opened Prelude
  import opened MoneyModel
  import opened Domain
  import opened Decision
  import opened Schema
  import opened Writes
  import opened Invariant
  import opened Preservation

  predicate PendingRow(db: Db, id: Id) {
    id in db.txs && db.txs[id].status == PendingReference
  }

  /** The row's scheduled visit has come when the resolver's transaction begins. */
  predicate Due(db: Db, id: Id, began: Time) {
    PendingRow(db, id) && db.txs[id].nextAttempt.Some? && db.txs[id].nextAttempt.value <= began
  }

  function WriteOf(id: Id, snap: WalletRow, s: Settlement): Write
    requires !s.Broken?
  {
    match s
    case Postponed(row) => Write(id, row, snap, None, [])
    case Settled(w) => w
  }

  /** The identifiers a settling transaction takes fresh; it keeps the row's own id. */
  ghost predicate SettleEnvOk(db: Db, env: Env) {
    && env.entryId != NIL && NewEntryId(db, env.entryId) && env.balanceEventId != env.wagerEventId
    && (forall i | 0 <= i < |db.outbox| :: db.outbox[i].id != env.balanceEventId && db.outbox[i].id != env.wagerEventId)
    && 0 < env.began <= env.now
  }

  /** A stored pending row, read back, is the operation that was submitted. */
  lemma PendingOperation(db: Db, id: Id)
    requires RowsOk(db) && PendingRow(db, id)
    ensures var t, op := db.txs[id], OpOf(db.txs[id]);
            && t.provider == Some(op.provider) && t.external == Some(op.external) && t.key == Some(op.key) && t.round == Some(op.round)
            && t.refExternal == Nullable(op.refExternal) && op.refExternal != ""
            && ValidOperation(op.kind, op.money, op.refExternal) && NeedsReference(op) && op.kind != Loss && op.kind != Bet
            && t.wallet in db.wallets && t.player == db.wallets[t.wallet].player && t.currency == db.wallets[t.wallet].currency
            && 0 <= t.attempts < MAX_ATTEMPTS
  {
    assert RowAt(db, id);
  }

  lemma PostponeSound(db: Db, id: Id, now: Time)
    requires Inv(db) && PendingRow(db, id) && db.txs[id].attempts + 1 < MAX_ATTEMPTS
    requires 0 < now && db.txs[id].updatedAt <= now && db.txs[id].nextAttempt.Some? && db.txs[id].nextAttempt.value <= now
    ensures var t := db.txs[id];
            t.wallet in db.wallets && t.attempts >= 0 && WriteOk(db, Settle, Write(id, Postpone(t, now), db.wallets[t.wallet], None, []))
  {
    var t := db.txs[id];
    PendingOperation(db, id);
    assert RowAt(db, id);
    assert WalletOk(t.wallet, db.wallets[t.wallet]);
    assert db.wallets[t.wallet := db.wallets[t.wallet]] == db.wallets;
    assert DataOf(id, Postpone(t, now)) == DataOf(id, t).(updatedAt := now);
  }

  /** The settled row passes every check a later read makes. */
  lemma SettledRowOk(db: Db, id: Id, d: Decision, w: WalletVal, now: Time, wallets: map<Id, WalletRow>)
    requires RowsOk(db) && PendingRow(db, id) && 0 < now && db.txs[id].updatedAt <= now
    requires var t := db.txs[id];
             t.wallet in wallets && wallets[t.wallet].currency == t.currency && wallets[t.wallet].player == t.player
    requires w.balance.currency == db.txs[id].currency && w.balance.minor >= 0
    requires d.status == Rejected || d.status == Processed
    requires d.status == Rejected <==> d.failure != ""
    requires d.ref != NIL ==> d.status == Processed
    requires d.failure == REFERENCE_NOT_FOUND ==> now >= db.txs[id].createdAt + Waited(9)
    ensures RowOk(wallets, id, SettledRow(db.txs[id], d, w, now))
  {
    assert RowAt(db, id);
    var t := db.txs[id];
    var data := DataOf(id, SettledRow(t, d, w, now));
    assert data == DataOf(id, t).(status := d.status, failure := d.failure, ref := d.ref, result := Money(w.balance.minor, t.currency), updatedAt := now);
  }

  ghost predicate VisitReady(db: Db, id: Id, view: Option<Reference>, env: Env) {
    && Inv(db) && SettleEnvOk(db, env) && Due(db, id, env.began)
    && ViewFits(db, OpOf(db.txs[id]), view) && db.txs[id].updatedAt <= env.now
  }

  /** The verdict a visit writes: an unsettled reference is given up on at the last attempt. */
  function Verdict(t: TxRow, snap: WalletRow, view: Option<Reference>, now: Time): Decision {
    var decided := Decide(OpOf(t), ToWallet(t.wallet, snap), view, now).0;
    if decided.status == PendingReference then Reject(REFERENCE_NOT_FOUND) else decided
  }

  predicate Postpones(t: TxRow, snap: WalletRow, view: Option<Reference>, now: Time) {
    Decide(OpOf(t), ToWallet(t.wallet, snap), view, now).0.status == PendingReference && t.attempts + 1 < MAX_ATTEMPTS
  }

  function WalletAfter(t: TxRow, snap: WalletRow, view: Option<Reference>, now: Time): WalletVal {
    Decide(OpOf(t), ToWallet(t.wallet, snap), view, now).1
  }

  function Settling(id: Id, t: TxRow, snap: WalletRow, view: Option<Reference>, env: Env): Result<Write> {
    var d, w := Verdict(t, snap, view, env.now), WalletAfter(t, snap, view, env.now);
    Completed(id, SettledRow(t, d, w, env.now), snap, d, w, "", env)
  }

  /** A visit either postpones or completes its verdict; no other outcome exists. */
  lemma ResolutionCases(id: Id, t: TxRow, snap: WalletRow, view: Option<Reference>, env: Env)
    requires t.attempts >= 0
    ensures Resolution(id, t, snap, view, env)
         == if Postpones(t, snap, view, env.now) then Postponed(Postpone(t, env.now))
            else match Settling(id, t, snap, view, env) case Err(e) => Broken(e) case Ok(w) => Settled(w)
    ensures Verdict(t, snap, view, env.now).status == Processed || Verdict(t, snap, view, env.now).status == Rejected
  {
  }

  /** A visit never breaks: it postpones the row or settles it, and either way the write is sound. */
  lemma ResolutionSound(db: Db, id: Id, view: Option<Reference>, env: Env)
    requires VisitReady(db, id, view, env)
    ensures var t := db.txs[id];
            && t.wallet in db.wallets && t.attempts >= 0
            && var s := Resolution(id, t, db.wallets[t.wallet], view, env);
               !s.Broken? && WriteOk(db, Settle, WriteOf(id, db.wallets[t.wallet], s))
  {
    var t := db.txs[id];
    PendingOperation(db, id);
    ResolutionCases(id, t, db.wallets[t.wallet], view, env);
    if Postpones(t, db.wallets[t.wallet], view, env.now) {
      PostponeSound(db, id, env.now);
    } else {
      SettlementSound(db, id, view, env);
    }
  }

  /** Facts about a verdict that its row and its movement rest on. */
  lemma VerdictFacts(db: Db, id: Id, view: Option<Reference>, env: Env)
    requires VisitReady(db, id, view, env) && db.txs[id].wallet in db.wallets
    ensures var t := db.txs[id];
            var snap, op := db.wallets[t.wallet], OpOf(t);
            var d, w := Verdict(t, snap, view, env.now), WalletAfter(t, snap, view, env.now);
            && (d == Decide(op, ToWallet(t.wallet, snap), view, env.now).0
                || (d == Reject(REFERENCE_NOT_FOUND) && w == ToWallet(t.wallet, snap)))
            && (d.status == Rejected <==> d.failure != "") && (d.ref != NIL ==> d.status == Processed)
            && w.balance.currency == t.currency && w.balance.minor >= 0
            && (d.status == Processed ==> d.direction.Some?) && (d.direction.Some? ==> d.status == Processed)
  {
    var t := db.txs[id];
    PendingOperation(db, id);
    assert WalletOk(t.wallet, db.wallets[t.wallet]);
    DecideMoves(OpOf(t), ToWallet(t.wallet, db.wallets[t.wallet]), view, env.now);
  }

  lemma NotFoundIsLate(db: Db, id: Id, view: Option<Reference>, env: Env)
    requires VisitReady(db, id, view, env) && db.txs[id].wallet in db.wallets
    requires !Postpones(db.txs[id], db.wallets[db.txs[id].wallet], view, env.now)
    requires Verdict(db.txs[id], db.wallets[db.txs[id].wallet], view, env.now).failure == REFERENCE_NOT_FOUND
    ensures env.now >= db.txs[id].createdAt + Waited(9)
  {
    assert RowAt(db, id);
  }

  lemma SettlementSound(db: Db, id: Id, view: Option<Reference>, env: Env)
    requires VisitReady(db, id, view, env) && db.txs[id].wallet in db.wallets
    requires !Postpones(db.txs[id], db.wallets[db.txs[id].wallet], view, env.now)
    ensures var s := Settling(id, db.txs[id], db.wallets[db.txs[id].wallet], view, env); s.Ok? && WriteOk(db, Settle, s.value)
  {
    var t := db.txs[id];
    PendingOperation(db, id);
    var op, snap := OpOf(t), db.wallets[t.wallet];
    var wallet := ToWallet(t.wallet, snap);
    assert WalletOk(t.wallet, snap);
    VerdictFacts(db, id, view, env);
    var d, w := Verdict(t, snap, view, env.now), WalletAfter(t, snap, view, env.now);
    var row := SettledRow(t, d, w, env.now);
    if d.status == Processed {
      ProcessedIsGrounded(db, op, wallet, view, env.now, row);
    }
    SettlingCompletes(db, id, view, env);
    CompletedSound(db, Settle, id, row, d, w, op, view, "", env);
    var o := Settling(id, t, snap, view, env).value;
    if d.failure == REFERENCE_NOT_FOUND {
      NotFoundIsLate(db, id, view, env);
    }
    SettledRowOk(db, id, d, w, env.now, db.wallets[t.wallet := o.wallet]);
    SettleEventsFresh(db, id, row, o.entry, env);
  }

  lemma SettlingCompletes(db: Db, id: Id, view: Option<Reference>, env: Env)
    requires VisitReady(db, id, view, env) && db.txs[id].wallet in db.wallets
    ensures Settling(id, db.txs[id], db.wallets[db.txs[id].wallet], view, env).Ok?
  {
    var t := db.txs[id];
    PendingOperation(db, id);
    assert RowAt(db, id);
    EntryAccepted(OpOf(t), ToWallet(t.wallet, db.wallets[t.wallet]), view, env.now, env.entryId, id);
  }

  lemma SettleEventsFresh(db: Db, tx: Id, row: TxRow, entry: Option<LedgerRow>, env: Env)
    requires SettleEnvOk(db, env)
    ensures NewEventIds(db, EventsOf(tx, row, entry, "", env))
  {
  }

  // ---- progress ----

  /** Unsuccessful visits a row may still take. */
  function Left(t: TxRow): int {
    if t.status == PendingReference then MAX_ATTEMPTS - t.attempts else 0
  }

  ghost function TotalLeft(txs: map<Id, TxRow>, ids: set<Id>): int {
    if ids == {} then 0 else
      var x :| x in ids;
      (if x in txs then Left(txs[x]) else 0) + TotalLeft(txs, ids - {x})
  }

  lemma {:induction false} TotalLeftOf(txs: map<Id, TxRow>, ids: set<Id>, y: Id)
    requires y in ids
    ensures TotalLeft(txs, ids) == (if y in txs then Left(txs[y]) else 0) + TotalLeft(txs, ids - {y})
  {
    var x :| x in ids && TotalLeft(txs, ids) == (if x in txs then Left(txs[x]) else 0) + TotalLeft(txs, ids - {x});
    if x != y {
      TotalLeftOf(txs, ids - {x}, y);
      TotalLeftOf(txs, ids - {y}, x);
      assert ids - {x} - {y} == ids - {y} - {x};
    }
  }

  lemma {:induction false} TotalLeftSame(a: map<Id, TxRow>, b: map<Id, TxRow>, ids: set<Id>)
    requires forall x | x in ids :: (x in a <==> x in b) && (x in a ==> a[x] == b[x])
    ensures TotalLeft(a, ids) == TotalLeft(b, ids)
  {
    if ids != {} {
      var x :| x in ids;
      TotalLeftOf(a, ids, x);
      TotalLeftOf(b, ids, x);
      TotalLeftSame(a, b, ids - {x});
    }
  }

  /** The visits all pending rows may still take together. */
  ghost function Measure(db: Db): int {
    TotalLeft(db.txs, db.txs.Keys)
  }

  /** One resolver visit: some due row, resolved against what was read about its reference. */
  ghost predicate Visit(before: Db, after: Db, id: Id, view: Option<Reference>, env: Env) {
    && VisitReady(before, id, view, env)
    && var t := before.txs[id];
       && t.wallet in before.wallets && t.attempts >= 0
       && var s := Resolution(id, t, before.wallets[t.wallet], view, env);
          !s.Broken? && after == Record(before, WriteOf(id, before.wallets[t.wallet], s))
  }

  /** A visit makes its row terminal or uses up one of its attempts; nothing else changes status. */
  lemma VisitProgress(before: Db, after: Db, id: Id, view: Option<Reference>, env: Env)
    requires Visit(before, after, id, view, env)
    ensures Inv(after) && Measure(after) < Measure(before)
    ensures id in after.txs && (after.txs[id].status.Terminal() || after.txs[id].attempts == before.txs[id].attempts + 1)
  {
    ResolutionSound(before, id, view, env);
    var t := before.txs[id];
    var s := Resolution(id, t, before.wallets[t.wallet], view, env);
    RecordKeepsInv(before, Settle, WriteOf(id, before.wallets[t.wallet], s));
    ResolutionShape(before, id, view, env);
    OneRowMeasure(before.txs, after.txs, id);
  }

  /** A visit writes the row it picked and no other, and that row has fewer visits left. */
  lemma ResolutionShape(db: Db, id: Id, view: Option<Reference>, env: Env)
    requires VisitReady(db, id, view, env) && db.txs[id].wallet in db.wallets && db.txs[id].attempts >= 0
    requires !Resolution(id, db.txs[id], db.wallets[db.txs[id].wallet], view, env).Broken?
    ensures var t := db.txs[id];
            var w := WriteOf(id, db.wallets[t.wallet], Resolution(id, t, db.wallets[t.wallet], view, env));
            && w.id == id && Left(w.row) < Left(t)
            && (w.row.status.Terminal() || w.row.attempts == t.attempts + 1)
  {
    PendingOperation(db, id);
  }

  lemma OneRowMeasure(a: map<Id, TxRow>, b: map<Id, TxRow>, id: Id)
    requires id in a && id in b && b == a[id := b[id]] && Left(b[id]) < Left(a[id])
    ensures TotalLeft(b, b.Keys) < TotalLeft(a, a.Keys)
  {
    assert b.Keys == a.Keys;
    TotalLeftOf(a, a.Keys, id);
    TotalLeftOf(b, a.Keys, id);
    TotalLeftSame(a, b, a.Keys - {id});
  }

  // ---- patience ----

  /** One second and the nine delays of retryDelay: 1, 2, 4, 8, 16, 32, 64, 128 and again 128. */
  lemma PatienceInSeconds()
    ensures Waited(9) == 384 * SECOND
  {
    assert Shl(0) == 1 && Shl(1) == 2 && Shl(2) == 4 && Shl(3) == 8 && Shl(4) == 16 && Shl(5) == 32 && Shl(6) == 64 && Shl(7) == 128;
    assert Waited(3) == SECOND * 8;
    assert Waited(6) == SECOND * 64;
    assert Waited(9) == SECOND * 384;
  }

  /** A stored rejection for a reference that never came is at least 384 s after the acceptance. */
  lemma ExhaustionIsPatient(db: Db, id: Id)
    requires RowsOk(db) && id in db.txs && db.txs[id].status == Rejected && db.txs[id].failure == Some(REFERENCE_NOT_FOUND)
    ensures db.txs[id].updatedAt - db.txs[id].createdAt >= 384 * SECOND
  {
    assert RowAt(db, id);
    PatienceInSeconds();
  }
}
