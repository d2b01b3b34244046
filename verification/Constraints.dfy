/** The declared constraints as properties of the stored tables, and that a statement is let through exactly when it leaves
    them true and what is protected untouched. */
module Constraints {
  import opened Prelude
  import opened Domain
  import opened Schema
  import opened Integrity

  // ---- what the migrations declare ----

  predicate WalletTidy(db: Db, i: Id)
    requires i in db.wallets
  {
    && db.wallets[i].balance >= 0 && db.wallets[i].version >= 1
    && forall j | j in db.wallets && j != i :: db.wallets[j].player != db.wallets[i].player || db.wallets[j].currency != db.wallets[i].currency
  }

  /** CHECKs and foreign keys of one wager row. */
  predicate TxTidy(db: Db, i: Id)
    requires i in db.txs
  {
    var t := db.txs[i];
    && t.wallet in db.wallets && (t.ref.Some? ==> t.ref.value in db.txs)
    && (t.provider.None? <==> t.kind == Opening) && (t.external.None? <==> t.kind == Opening) && (t.key.None? <==> t.kind == Opening)
    && (t.hash.None? <==> t.kind == Opening) && (t.round.None? <==> t.kind == Opening) && (t.game.None? <==> t.kind == Opening)
    && t.amount >= 0 && (t.kind == Loss ==> t.amount == 0) && (t.kind != Loss && t.kind != Opening ==> t.amount > 0)
  }

  /** The four unique indexes on wager rows. */
  predicate Compatible(a: TxRow, b: TxRow) {
    && !(a.provider.Some? && a.provider == b.provider && a.external.Some? && a.external == b.external)
    && !(a.provider.Some? && a.provider == b.provider && a.key.Some? && a.key == b.key)
    && !(a.kind == Opening && b.kind == Opening && a.wallet == b.wallet)
    && !(a.status == Processed && b.status == Processed && a.kind in {Refund, Rollback} && b.kind in {Refund, Rollback}
         && a.ref.Some? && a.ref == b.ref)
  }

  predicate EntryTidy(db: Db, k: nat)
    requires k < |db.ledger|
  {
    var e := db.ledger[k];
    && e.wallet in db.wallets && e.tx in db.txs && e.amount > 0 && e.before >= 0 && e.after >= 0 && e.version >= 1
    && e.after == (if e.direction == Credit then e.before + e.amount else e.before - e.amount)
  }

  predicate EntriesApart(a: LedgerRow, b: LedgerRow) {
    a.id != b.id && !(a.wallet == b.wallet && a.tx == b.tx) && !(a.wallet == b.wallet && a.version == b.version)
  }

  ghost predicate Tidy(db: Db) {
    && (forall i {:trigger WalletTidy(db, i)} | i in db.wallets :: WalletTidy(db, i))
    && (forall i {:trigger TxTidy(db, i)} | i in db.txs :: TxTidy(db, i))
    && (forall i, j {:trigger Compatible(db.txs[i], db.txs[j])} | i in db.txs && j in db.txs && i != j :: Compatible(db.txs[i], db.txs[j]))
    && (forall k: nat {:trigger EntryTidy(db, k)} | k < |db.ledger| :: EntryTidy(db, k))
    && (forall j, k {:trigger EntriesApart(db.ledger[j], db.ledger[k])} | 0 <= j < k < |db.ledger| :: EntriesApart(db.ledger[j], db.ledger[k]))
  }

  /** The columns of a wager row that no update may change. */
  predicate SameStatement(a: TxRow, b: TxRow) {
    b == a.(status := b.status, failure := b.failure, ref := b.ref, result := b.result,
            attempts := b.attempts, nextAttempt := b.nextAttempt, updatedAt := b.updatedAt)
  }

  /** A wallet's identity stands, and its version counts the changes of its balance. */
  predicate SameWallet(a: WalletRow, b: WalletRow) {
    && b.player == a.player && b.currency == a.currency && b.createdAt == a.createdAt
    && b.version == if b.balance == a.balance then a.version else a.version + 1
  }

  // ---- one statement ----

  lemma ClashExact(a: TxRow, b: TxRow)
    ensures Clash(a, b) <==> !Compatible(a, b)
  {
  }

  lemma TxFitsExact(db: Db, id: Id, t: TxRow)
    requires Tidy(db)
    ensures var after := db.(txs := db.txs[id := t]);
            && (TxFits(db, id, t) ==> TxTidy(after, id) && forall j | j in db.txs && j != id :: Compatible(db.txs[j], t) && Compatible(t, db.txs[j]))
            && (TxTidy(after, id) && (forall j | j in db.txs && j != id :: Compatible(db.txs[j], t)) ==> TxFits(db, id, t))
  {
  }

  lemma TxStaysTidy(db: Db, id: Id, t: TxRow, i: Id)
    requires i in db.txs && TxTidy(db, i) && i != id
    ensures TxTidy(db.(txs := db.txs[id := t]), i)
  {
  }

  lemma EntryStaysTidy(a: Db, b: Db, k: nat)
    requires k < |a.ledger| && EntryTidy(a, k) && a.ledger <= b.ledger && a.wallets.Keys <= b.wallets.Keys && a.txs.Keys <= b.txs.Keys
    ensures EntryTidy(b, k)
  {
  }

  /** Writing a wager row keeps the tables tidy exactly when the row fits. */
  lemma TxWriteExact(db: Db, id: Id, t: TxRow)
    requires Tidy(db)
    ensures TxFits(db, id, t) <==> Tidy(db.(txs := db.txs[id := t]))
  {
    var after := db.(txs := db.txs[id := t]);
    TxFitsExact(db, id, t);
    if TxFits(db, id, t) {
      forall i | i in after.wallets ensures WalletTidy(after, i) {
        assert WalletTidy(db, i);
      }
      forall i | i in after.txs ensures TxTidy(after, i) {
        if i != id {
          TxStaysTidy(db, id, t, i);
        }
      }
      forall i, j | i in after.txs && j in after.txs && i != j ensures Compatible(after.txs[i], after.txs[j]) {
        if i != id && j != id {
          assert Compatible(db.txs[i], db.txs[j]);
        }
      }
      forall k: nat | k < |after.ledger| ensures EntryTidy(after, k) {
        EntryStaysTidy(db, after, k);
      }
      forall j, k | 0 <= j < k < |after.ledger| ensures EntriesApart(after.ledger[j], after.ledger[k]) {
        assert EntriesApart(db.ledger[j], db.ledger[k]);
      }
    }
    if Tidy(after) {
      assert TxTidy(after, id);
      forall j | j in db.txs && j != id ensures Compatible(db.txs[j], t) {
        assert Compatible(after.txs[j], after.txs[id]);
      }
    }
  }

  /** Writing a wallet row keeps them so exactly when its CHECKs hold and nobody else has its player and currency. */
  lemma WalletWriteExact(db: Db, id: Id, w: WalletRow)
    requires Tidy(db)
    ensures var after := db.(wallets := db.wallets[id := w]);
            Tidy(after) <==> WalletCheck(w) && forall o | o in db.wallets && o != id :: !(db.wallets[o].player == w.player && db.wallets[o].currency == w.currency)
  {
    var after := db.(wallets := db.wallets[id := w]);
    if WalletCheck(w) && forall o | o in db.wallets && o != id :: !(db.wallets[o].player == w.player && db.wallets[o].currency == w.currency) {
      forall i | i in after.wallets ensures WalletTidy(after, i) {
        if i != id {
          assert WalletTidy(db, i);
        }
      }
      forall i | i in after.txs ensures TxTidy(after, i) {
        assert TxTidy(db, i);
      }
      forall i, j | i in after.txs && j in after.txs && i != j ensures Compatible(after.txs[i], after.txs[j]) {
        assert Compatible(db.txs[i], db.txs[j]);
      }
      forall k: nat | k < |after.ledger| ensures EntryTidy(after, k) {
        EntryStaysTidy(db, after, k);
      }
      forall j, k | 0 <= j < k < |after.ledger| ensures EntriesApart(after.ledger[j], after.ledger[k]) {
        assert EntriesApart(db.ledger[j], db.ledger[k]);
      }
    }
    if Tidy(after) {
      assert WalletTidy(after, id);
      forall o | o in db.wallets && o != id ensures !(db.wallets[o].player == w.player && db.wallets[o].currency == w.currency) {
        assert o in after.wallets && after.wallets[o] == db.wallets[o];
      }
    }
  }

  /** And an entry exactly when its CHECK, foreign keys and unique indexes hold. */
  lemma EntryWriteExact(db: Db, e: LedgerRow)
    requires Tidy(db)
    ensures Allowed(db, InsertLedger(e)) <==> Tidy(db.(ledger := db.ledger + [e]))
  {
    var after := db.(ledger := db.ledger + [e]);
    var n := |db.ledger|;
    assert after.ledger[n] == e;
    if Allowed(db, InsertLedger(e)) {
      forall i | i in after.wallets ensures WalletTidy(after, i) {
        assert WalletTidy(db, i);
      }
      forall i | i in after.txs ensures TxTidy(after, i) {
        assert TxTidy(db, i);
      }
      forall i, j | i in after.txs && j in after.txs && i != j ensures Compatible(after.txs[i], after.txs[j]) {
        assert Compatible(db.txs[i], db.txs[j]);
      }
      forall k: nat | k < |after.ledger| ensures EntryTidy(after, k) {
        if k < n {
          EntryStaysTidy(db, after, k);
        }
      }
      forall j, k | 0 <= j < k < |after.ledger| ensures EntriesApart(after.ledger[j], after.ledger[k]) {
        if k < n {
          assert EntriesApart(db.ledger[j], db.ledger[k]);
        } else {
          assert !LedgerClash(db.ledger[j], e);
        }
      }
    }
    if Tidy(after) {
      assert EntryTidy(after, n);
      forall i | 0 <= i < n ensures !LedgerClash(db.ledger[i], e) {
        assert EntriesApart(after.ledger[i], after.ledger[n]);
      }
    }
  }

  lemma OtherWriteExact(a: Db, b: Db)
    requires Tidy(a) && b == a.(inbox := b.inbox, outbox := b.outbox)
    ensures Tidy(b)
  {
    forall i | i in b.wallets ensures WalletTidy(b, i) {
      assert WalletTidy(a, i);
    }
    forall i | i in b.txs ensures TxTidy(b, i) {
      assert TxTidy(a, i);
    }
    forall i, j | i in b.txs && j in b.txs && i != j ensures Compatible(b.txs[i], b.txs[j]) {
      assert Compatible(a.txs[i], a.txs[j]);
    }
    forall k: nat | k < |b.ledger| ensures EntryTidy(b, k) {
      EntryStaysTidy(a, b, k);
    }
    forall j, k | 0 <= j < k < |b.ledger| ensures EntriesApart(b.ledger[j], b.ledger[k]) {
      assert EntriesApart(a.ledger[j], a.ledger[k]);
    }
  }

  /** From tidy tables a statement is let through exactly when it leaves them tidy and touches nothing protected: a row is
      not inserted twice, a final wager row and the statement of any other stand, a wallet keeps its identity and counts its
      changes, entries are never changed, and no financial row is deleted. */
  lemma AllowedExact(db: Db, c: Change)
    requires Tidy(db)
    ensures Allowed(db, c) <==>
            && Tidy(Apply(db, c))
            && match c
               case InsertWallet(i, w) => i !in db.wallets
               case UpdateWallet(i, w) => i in db.wallets && SameWallet(db.wallets[i], w)
               case InsertTx(i, t) => i !in db.txs
               case UpdateTx(i, t) =>
                 i in db.txs && db.txs[i].status != Processed && db.txs[i].status != Rejected && db.txs[i].status != Failed
                 && SameStatement(db.txs[i], t)
               case AddEvent(e) => forall k | 0 <= k < |db.outbox| :: db.outbox[k].id != e.id
               case DeleteWallet(_) => false
               case DeleteTx(_) => false
               case UpdateLedger(_, _) => false
               case DeleteLedger(_) => false
               case _ => true
  {
    match c
    case InsertWallet(i, w) => WalletWriteExact(db, i, w);
    case UpdateWallet(i, w) => UpdateWalletExact(db, i, w);
    case InsertTx(i, t) => TxWriteExact(db, i, t);
    case UpdateTx(i, t) => TxWriteExact(db, i, t);
    case InsertLedger(e) => EntryWriteExact(db, e);
    case AddEvent(e) => OtherWriteExact(db, Apply(db, c));
    case WriteOutbox(_) => OtherWriteExact(db, Apply(db, c));
    case WriteInbox(_) => OtherWriteExact(db, Apply(db, c));
    case _ =>
  }

  lemma UpdateWalletExact(db: Db, i: Id, w: WalletRow)
    requires Tidy(db)
    ensures Allowed(db, UpdateWallet(i, w)) <==> Tidy(db.(wallets := db.wallets[i := w])) && i in db.wallets && SameWallet(db.wallets[i], w)
  {
    WalletWriteExact(db, i, w);
    if i in db.wallets && SameWallet(db.wallets[i], w) {
      assert WalletTidy(db, i);
    }
  }

  // ---- batches and runs ----

  lemma {:induction false} BatchKeepsTidy(db: Db, b: seq<Change>, k: nat)
    requires Tidy(db) && Immediate(db, b) && k <= |b|
    ensures Tidy(State(db, b, k))
  {
    if k > 0 {
      BatchKeepsTidy(db, b, k - 1);
      assert AllowedAt(db, b, k - 1);
      AllowedExact(State(db, b, k - 1), b[k - 1]);
    }
  }

  /** After any run of any clients' committed transactions every declared constraint holds of what is stored. */
  lemma {:induction false} EveryCommittedRunTidy(run: seq<Db>, batches: seq<seq<Change>>)
    requires CommittedRun(run, batches)
    ensures Tidy(run[|batches|])
  {
    var n := |batches|;
    if n > 0 {
      EveryCommittedRunTidy(run[..n], batches[..n - 1]);
      BatchKeepsTidy(run[n - 1], batches[n - 1], |batches[n - 1]|);
    }
  }

  // ---- the deferred triggers, told from the final tables ----

  /** The entry is of a processed transaction of its wallet, for its amount, in its currency and direction. */
  lemma EntryTransactionExact(e: LedgerRow, final: Db)
    requires e.wallet in final.wallets
    ensures LedgerTxOk(e, final) <==>
            && e.tx in final.txs
            && var t := final.txs[e.tx];
               && t.status == Processed && t.wallet == e.wallet && t.amount == e.amount && t.currency == final.wallets[e.wallet].currency
               && match t.kind
                  case Opening => e.direction == Credit
                  case Bet => e.direction == Debit
                  case Win => e.direction == Credit
                  case Refund => e.direction == Credit
                  case Rollback =>
                    t.ref.Some? && t.ref.value in final.txs
                    && ((final.txs[t.ref.value].kind == Bet && e.direction == Credit)
                        || (final.txs[t.ref.value].kind in {Win, Refund} && e.direction == Debit))
                  case Loss => false
  {
  }

  /** Lookups by wallet and version find the one entry there is. */
  lemma LookupExact(l: seq<LedgerRow>, w: Id, v: int, k: nat)
    requires k < |l| && l[k].wallet == w && l[k].version == v
    requires forall j | 0 <= j < |l| && l[j].wallet == w && l[j].version == v :: j == k
    ensures EntryAt(l, w, v) == Some(l[k])
  {
    if k < |l| - 1 {
      LookupExact(l[..|l| - 1], w, v, k);
    }
  }

  predicate AtVersion(e: LedgerRow, w: Id, v: int) {
    e.wallet == w && e.version == v
  }

  lemma LookupInTidy(db: Db, w: Id, v: int)
    requires Tidy(db)
    ensures EntryAt(db.ledger, w, v).None? <==> forall l | l in db.ledger :: !AtVersion(l, w, v)
    ensures forall l | l in db.ledger && AtVersion(l, w, v) :: EntryAt(db.ledger, w, v) == Some(l)
  {
    forall l | l in db.ledger && AtVersion(l, w, v) ensures EntryAt(db.ledger, w, v) == Some(l) {
      var k :| 0 <= k < |db.ledger| && db.ledger[k] == l;
      forall j | 0 <= j < |db.ledger| && db.ledger[j].wallet == w && db.ledger[j].version == v ensures j == k {
        assert j < k ==> EntriesApart(db.ledger[j], db.ledger[k]);
        assert k < j ==> EntriesApart(db.ledger[k], db.ledger[j]);
      }
      LookupExact(db.ledger, w, v, k);
    }
  }

  /** An inserted entry leaves its wallet where it says, and starts where the entry one version earlier ended; the first one
      starts from zero, at version 1 for an opening's credit and at version 2 otherwise. */
  lemma EntryChainExact(e: LedgerRow, final: Db)
    requires Tidy(final)
    ensures LedgerChainOk(e, final) <==>
            && e.wallet in final.wallets && final.wallets[e.wallet].version == e.version && final.wallets[e.wallet].balance == e.after
            && if e.version == 1 then
                 e.before == 0 && e.direction == Credit
                 && e.tx in final.txs && final.txs[e.tx].kind == Opening && final.txs[e.tx].wallet == e.wallet
               else if exists l | l in final.ledger :: AtVersion(l, e.wallet, e.version - 1) then
                 forall l | l in final.ledger && AtVersion(l, e.wallet, e.version - 1) :: l.after == e.before
               else e.version == 2 && e.before == 0
  {
    LookupInTidy(final, e.wallet, e.version - 1);
  }

  /** An inserted wallet is at version 1, empty or opened by a credit from zero; one whose balance changed has the entry of
      its version, from the old balance to the new. */
  lemma WalletChainExact(id: Id, w: WalletRow, final: Db)
    requires Tidy(final)
    ensures WalletInsertOk(id, w, final) <==>
            && w.version == 1
            && if exists l | l in final.ledger :: AtVersion(l, id, 1) then
                 forall l | l in final.ledger && AtVersion(l, id, 1) :: l.before == 0 && l.after == w.balance && l.direction == Credit
               else w.balance == 0
    ensures forall old_: WalletRow :: WalletUpdateOk(id, old_, w, final) <==>
              w.balance == old_.balance
              || exists l | l in final.ledger :: AtVersion(l, id, w.version) && l.before == old_.balance && l.after == w.balance
  {
    LookupInTidy(final, id, 1);
    LookupInTidy(final, id, w.version);
  }
}
