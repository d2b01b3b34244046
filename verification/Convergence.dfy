/** Early and on-time references converge: the resolver's duplicate code path decides as executeTx does. */
module Convergence {
  import opened Prelude
  import opened Domain
  import opened Decision
  import opened Schema
  import opened Writes
  import opened Invariant
  import opened Resolver
  import opened Idempotency

  // ---- resolving is submitting late ----

  /** Reading the reference beside the pending row or without it leads to the same decision. */
  lemma SameDecision(db: Db, id: Id, view: Option<Reference>, fresh_: Option<Reference>, now: Time)
    requires Inv(db) && PendingRow(db, id)
    requires var op := OpOf(db.txs[id]);
             ReadsReference(db.txs, op.provider, op.refExternal, view) && ReadsReference(db.txs - {id}, op.provider, op.refExternal, fresh_)
    ensures forall w :: Decide(OpOf(db.txs[id]), w, view, now) == Decide(OpOf(db.txs[id]), w, fresh_, now)
  {
    PendingOperation(db, id);
    var op, without := OpOf(db.txs[id]), db.txs - {id};
    if view.Some? && view.value.id != id {
      var v := view.value.id;
      assert v in without;
      IdentityIsUnique(db, v, fresh_.value.id);
      ReversedWithout(db.txs, id, v);
    } else if view.Some? && fresh_.Some? {
      IdentityIsUnique(db, id, fresh_.value.id);
    }
  }

  lemma ReversedWithout(txs: map<Id, TxRow>, id: Id, t: Id)
    requires id in txs && !ProcessedReversal(txs[id])
    ensures Reversed(txs - {id}, t) <==> Reversed(txs, t)
  {
    if Reversed(txs, t) {
      var r :| r in txs && ProcessedReversal(txs[r]) && txs[r].ref == Some(t);
      assert r in txs - {id};
    }
  }

  /** A stored pending operation, submitted afresh, passes construction and transition. */
  lemma FreshIsConstructed(db: Db, id: Id, view: Option<Reference>, env: Env)
    requires RowsOk(db) && WalletsOk(db) && PendingRow(db, id) && env.txId == id && env.now > 0
    requires db.txs[id].wallet in db.wallets
    ensures var t := db.txs[id];
            var op := OpOf(t);
            && op.money.Valid()
            && var (d, w) := Decide(op, ToWallet(t.wallet, db.wallets[t.wallet]), view, env.now);
               && NewTx(NewData(op, CanonicalOf(op), env)).Ok?
               && Transitioned(NewTx(NewData(op, CanonicalOf(op), env)).value, d.status, d.failure, w.balance, d.ref, env.now).Ok?
  {
    assert RowAt(db, id);
    PendingOperation(db, id);
    assert WalletOk(db.txs[id].wallet, db.wallets[db.txs[id].wallet]);
    DecideMoves(OpOf(db.txs[id]), ToWallet(db.txs[id].wallet, db.wallets[db.txs[id].wallet]), view, env.now);
  }

  /** What two writes of one operation share, whichever path wrote them. */
  predicate SameOutcome(a: Write, b: Write) {
    && a.id == b.id && a.wallet == b.wallet && a.entry == b.entry && a.events == b.events
    && a.row.status == b.row.status && a.row.failure == b.row.failure && a.row.ref == b.row.ref && a.row.result == b.row.result
  }

  lemma CompletedSame(id: Id, a: TxRow, b: TxRow, snap: WalletRow, d: Decision, w: WalletVal, env: Env)
    requires SameTxIdentity(a, b.(createdAt := a.createdAt)) && a.status == b.status && a.failure == b.failure && a.ref == b.ref && a.result == b.result
    ensures var x, y := Completed(id, a, snap, d, w, "", env), Completed(id, b, snap, d, w, "", env);
            x.Ok? == y.Ok? && (x.Ok? ==> SameOutcome(x.value, y.value))
  {
  }

  lemma DraftCompletes(op: Operation, hash: Canonical, snap: WalletRow, view: Option<Reference>, decider: Decider, causation: string, env: Env)
    requires var (d, w) := DecideBy(decider, op, ToWallet(op.wallet, snap), view, env.now);
             NewTx(NewData(op, hash, env)).Ok?
             && Transitioned(NewTx(NewData(op, hash, env)).value, d.status, d.failure, w.balance, d.ref, env.now).Ok?
    ensures var (d, w) := DecideBy(decider, op, ToWallet(op.wallet, snap), view, env.now);
            Draft(op, hash, snap, view, decider, causation, env) == Completed(env.txId, NewRow(op, hash, d, w, env), snap, d, w, causation, env)
  {
  }

  lemma CompletedPlain(id: Id, row: TxRow, snap: WalletRow, d: Decision, w: WalletVal, env: Env)
    requires d.direction.None?
    ensures var c := Completed(id, row, snap, d, w, "", env); c.Ok? && c.value.row == row && c.value.entry.None?
  {
  }

  /** The settled row and the freshly inserted row carry the same outcome and identity. */
  lemma RowsAgree(db: Db, id: Id, d: Decision, w: WalletVal, env: Env)
    requires RowsOk(db) && PendingRow(db, id) && d.status != PendingReference
    ensures var t := db.txs[id];
            && OpOf(t).money.Valid()
            && var a, b := SettledRow(t, d, w, env.now), NewRow(OpOf(t), CanonicalOf(OpOf(t)), d, w, env);
               && SameTxIdentity(a, b.(createdAt := a.createdAt)) && a.status == b.status && a.failure == b.failure && a.ref == b.ref && a.result == b.result
  {
    assert RowAt(db, id);
    PendingOperation(db, id);
  }

  /** The visit and the submission, compared. */
  ghost predicate Agree(t: TxRow, s: Settlement, f: Result<Write>) {
    && f.Ok? && !s.Broken?
    && if f.value.row.status == PendingReference then
         s.Postponed? || (s.write.row.status == Rejected && s.write.row.failure == Some(REFERENCE_NOT_FOUND) && t.attempts == MAX_ATTEMPTS - 1)
       else
         s.Settled? && SameOutcome(s.write, f.value)
  }

  /** Giving up apart, a visit writes exactly what submitting the operation in that state would write:
      status, failure code, reference, result, wallet row, ledger entry and events. */
  lemma ResolutionMatchesSubmission(db: Db, id: Id, view: Option<Reference>, fresh_: Option<Reference>, env: Env)
    requires VisitReady(db, id, view, env) && env.txId == id
    requires var op := OpOf(db.txs[id]);
             ReadsReference(db.txs, op.provider, op.refExternal, view) && ReadsReference(db.txs - {id}, op.provider, op.refExternal, fresh_)
    ensures var t := db.txs[id];
            && t.wallet in db.wallets && t.attempts >= 0 && OpOf(t).money.Valid()
            && Agree(t, Resolution(id, t, db.wallets[t.wallet], view, env),
                     Draft(OpOf(t), CanonicalOf(OpOf(t)), db.wallets[t.wallet], fresh_, ByRules, "", env))
  {
    var t := db.txs[id];
    PendingOperation(db, id);
    SameDecision(db, id, view, fresh_, env.now);
    ResolutionSound(db, id, view, env);
    FreshIsConstructed(db, id, fresh_, env);
    if Decide(OpOf(t), ToWallet(t.wallet, db.wallets[t.wallet]), fresh_, env.now).0.status == PendingReference {
      AwaitsMatch(db, id, view, fresh_, env);
    } else {
      VerdictsMatch(db, id, view, fresh_, env);
    }
  }

  /** `fresh_` leads to the decision `view` leads to, and the fresh row passes construction. */
  ghost predicate Comparable(db: Db, id: Id, view: Option<Reference>, fresh_: Option<Reference>, env: Env) {
    && RowsOk(db) && PendingRow(db, id) && db.txs[id].wallet in db.wallets && db.txs[id].attempts >= 0 && env.txId == id
    && var t, op, w := db.txs[id], OpOf(db.txs[id]), ToWallet(db.txs[id].wallet, db.wallets[db.txs[id].wallet]);
       && Decide(op, w, view, env.now) == Decide(op, w, fresh_, env.now) && op.money.Valid()
       && var (d, after) := Decide(op, w, fresh_, env.now);
          NewTx(NewData(op, CanonicalOf(op), env)).Ok?
          && Transitioned(NewTx(NewData(op, CanonicalOf(op), env)).value, d.status, d.failure, after.balance, d.ref, env.now).Ok?
  }

  lemma VerdictsMatch(db: Db, id: Id, view: Option<Reference>, fresh_: Option<Reference>, env: Env)
    requires Comparable(db, id, view, fresh_, env)
    requires !Resolution(id, db.txs[id], db.wallets[db.txs[id].wallet], view, env).Broken?
    requires var t := db.txs[id]; Decide(OpOf(t), ToWallet(t.wallet, db.wallets[t.wallet]), fresh_, env.now).0.status != PendingReference
    ensures var t := db.txs[id];
            Agree(t, Resolution(id, t, db.wallets[t.wallet], view, env),
                  Draft(OpOf(t), CanonicalOf(OpOf(t)), db.wallets[t.wallet], fresh_, ByRules, "", env))
  {
    var t := db.txs[id];
    var op, snap := OpOf(t), db.wallets[t.wallet];
    ResolutionCases(id, t, snap, view, env);
    DraftCompletes(op, CanonicalOf(op), snap, fresh_, ByRules, "", env);
    var (d, w) := Decide(op, ToWallet(t.wallet, snap), fresh_, env.now);
    RowsAgree(db, id, d, w, env);
    CompletedSame(id, SettledRow(t, d, w, env.now), NewRow(op, CanonicalOf(op), d, w, env), snap, d, w, env);
  }

  lemma AwaitsMatch(db: Db, id: Id, view: Option<Reference>, fresh_: Option<Reference>, env: Env)
    requires Comparable(db, id, view, fresh_, env)
    requires !Resolution(id, db.txs[id], db.wallets[db.txs[id].wallet], view, env).Broken?
    requires var t := db.txs[id]; Decide(OpOf(t), ToWallet(t.wallet, db.wallets[t.wallet]), fresh_, env.now).0.status == PendingReference
    ensures var t := db.txs[id];
            Agree(t, Resolution(id, t, db.wallets[t.wallet], view, env),
                  Draft(OpOf(t), CanonicalOf(OpOf(t)), db.wallets[t.wallet], fresh_, ByRules, "", env))
  {
    var t := db.txs[id];
    var op, snap := OpOf(t), db.wallets[t.wallet];
    DraftCompletes(op, CanonicalOf(op), snap, fresh_, ByRules, "", env);
    var (d, w) := Decide(op, ToWallet(t.wallet, snap), fresh_, env.now);
    AwaitsAgree(db, id, view, env);
    CompletedPlain(env.txId, NewRow(op, CanonicalOf(op), d, w, env), snap, d, w, env);
  }

  lemma AwaitsAgree(db: Db, id: Id, view: Option<Reference>, env: Env)
    requires RowsOk(db) && PendingRow(db, id) && db.txs[id].wallet in db.wallets && db.txs[id].attempts >= 0
    requires Decide(OpOf(db.txs[id]), ToWallet(db.txs[id].wallet, db.wallets[db.txs[id].wallet]), view, env.now).0.status == PendingReference
    ensures var t := db.txs[id];
            var s := Resolution(id, t, db.wallets[t.wallet], view, env);
            s.Postponed? || (s.Settled? && s.write.row.status == Rejected && s.write.row.failure == Some(REFERENCE_NOT_FOUND) && t.attempts == MAX_ATTEMPTS - 1)
  {
    PendingOperation(db, id);
  }
}
