/** What a balance means: the opening amount plus effective wins minus effective bets. */
module Economics {
  import opened Prelude
  import opened Domain
  import opened Schema
  import opened Integrity
  import opened Writes
  import opened Invariant
  import opened Preservation

  ghost predicate Reverses(txs: map<Id, TxRow>, r: Id, t: Id) {
    r in txs && ProcessedReversal(txs[r]) && txs[r].ref == Some(t)
  }

  function Rank(kind: Kind): nat {
    match kind
    case Rollback => 0
    case Refund => 1
    case _ => 2
  }

  /** A processed transaction counts unless a reversal that itself counts names it. */
  ghost predicate Effective(txs: map<Id, TxRow>, t: Id)
    decreases if t in txs then Rank(txs[t].kind) else 0
  {
    t in txs && txs[t].status == Processed
    && forall r | Reverses(txs, r, t) && Rank(txs[r].kind) < Rank(txs[t].kind) :: !Effective(txs, r)
  }

  /** What a transaction contributes to its wallet's balance. Reversals contribute nothing of their own. */
  ghost function Effect(txs: map<Id, TxRow>, t: Id): int {
    if !Effective(txs, t) then 0
    else match txs[t].kind
         case Opening => txs[t].amount
         case Win => txs[t].amount
         case Bet => Signed(Debit, txs[t].amount)
         case _ => 0
  }

  ghost function Worth(txs: map<Id, TxRow>, h: seq<LedgerRow>): int {
    if h == [] then 0 else Worth(txs, h[..|h| - 1]) + Effect(txs, h[|h| - 1].tx)
  }

  ghost predicate BalanceMeans(db: Db, w: Id)
    requires w in db.wallets
  {
    db.wallets[w].balance == Worth(db.txs, History(db.ledger, w))
  }

  ghost predicate Meaningful(db: Db) {
    forall w {:trigger BalanceMeans(db, w)} | w in db.wallets :: BalanceMeans(db, w)
  }

  // ---- reversal chains are at most two long ----

  ghost predicate GroundedAt(txs: map<Id, TxRow>, t: Id)
    requires t in txs
  {
    txs[t].status == Processed ==> Grounded(txs, txs[t])
  }

  ghost predicate AllGrounded(txs: map<Id, TxRow>) {
    forall t {:trigger GroundedAt(txs, t)} | t in txs :: GroundedAt(txs, t)
  }

  lemma RefsGround(db: Db)
    requires RefsOk(db)
    ensures AllGrounded(db.txs)
  {
    forall t | t in db.txs ensures GroundedAt(db.txs, t) {
      assert RefAt(db, t);
    }
  }

  /** A reversal names a processed row of higher rank, so it is never reversed by its own kind of depth. */
  lemma ReversalRank(txs: map<Id, TxRow>, r: Id, t: Id)
    requires AllGrounded(txs) && Reverses(txs, r, t)
    ensures t in txs && txs[t].status == Processed && Rank(txs[r].kind) < Rank(txs[t].kind)
    ensures txs[t].wallet == txs[r].wallet && txs[t].amount == txs[r].amount && txs[t].kind != Opening
  {
    assert GroundedAt(txs, r);
  }

  /** No chain of three reversals exists: a rollback of a refund ends it. */
  lemma DepthAtMostTwo(txs: map<Id, TxRow>, a: Id, b: Id, c: Id, d: Id)
    requires AllGrounded(txs) && Reverses(txs, b, a) && Reverses(txs, c, b)
    ensures !Reverses(txs, d, c) && txs[b].kind == Refund && txs[c].kind == Rollback && a in txs && txs[a].kind == Bet
  {
    ReversalRank(txs, b, a);
    ReversalRank(txs, c, b);
    assert GroundedAt(txs, b);
    if Reverses(txs, d, c) {
      ReversalRank(txs, d, c);
    }
  }

  lemma ReversedBy(txs: map<Id, TxRow>, t: Id)
    ensures Reversed(txs, t) <==> exists r :: Reverses(txs, r, t)
  {
    if Reversed(txs, t) {
      var r :| r in txs && ProcessedReversal(txs[r]) && txs[r].ref == Some(t);
      assert Reverses(txs, r, t);
    }
  }

  lemma EffectiveRollback(txs: map<Id, TxRow>, k: Id)
    requires k in txs && txs[k].kind == Rollback
    ensures Effective(txs, k) <==> txs[k].status == Processed
  {
  }

  lemma EffectiveReversal(txs: map<Id, TxRow>, r: Id)
    requires AllGrounded(txs) && r in txs && IsReversal(txs[r].kind)
    ensures Effective(txs, r) <==> txs[r].status == Processed && !Reversed(txs, r)
  {
    ReversedBy(txs, r);
    forall k | Reverses(txs, k, r) ensures txs[r].kind == Refund && Effective(txs, k) && Rank(txs[k].kind) < Rank(txs[r].kind) {
      ReversalRank(txs, k, r);
      EffectiveRollback(txs, k);
    }
  }

  /** A root counts exactly when every reversal of it has been reversed. */
  lemma EffectiveRoot(txs: map<Id, TxRow>, x: Id)
    requires AllGrounded(txs) && x in txs && !IsReversal(txs[x].kind)
    ensures Effective(txs, x) <==> txs[x].status == Processed && forall r | Reverses(txs, r, x) :: Reversed(txs, r)
  {
    forall r | Reverses(txs, r, x) ensures Effective(txs, r) <==> !Reversed(txs, r) {
      EffectiveReversal(txs, r);
    }
    forall r | Reverses(txs, r, x) ensures Rank(txs[r].kind) < Rank(txs[x].kind) {
      ReversalRank(txs, r, x);
    }
  }

  // ---- the chains themselves ----

  lemma BetThenRefund(txs: map<Id, TxRow>, bet: Id, refund: Id)
    requires AllGrounded(txs) && Reverses(txs, refund, bet) && !Reversed(txs, refund)
    requires bet in txs && txs[bet].kind == Bet
    ensures Effect(txs, bet) + Effect(txs, refund) == 0
  {
    EffectiveRoot(txs, bet);
  }

  lemma BetRefundRollback(txs: map<Id, TxRow>, bet: Id, refund: Id, rollback: Id)
    requires AllGrounded(txs) && Reverses(txs, refund, bet) && Reverses(txs, rollback, refund)
    requires forall r | Reverses(txs, r, bet) :: r == refund
    ensures bet in txs && Effect(txs, bet) + Effect(txs, refund) + Effect(txs, rollback) == Signed(Debit, txs[bet].amount)
  {
    DepthAtMostTwo(txs, bet, refund, rollback, rollback);
    ReversalRank(txs, refund, bet);
    ReversalRank(txs, rollback, refund);
    assert Reversed(txs, refund);
    EffectiveRoot(txs, bet);
    EffectiveReversal(txs, refund);
  }

  // ---- one write ----

  /** The row whose contribution a new reversal changes: the bet behind a refund it rolls back, else what it names. */
  function Target(txs: map<Id, TxRow>, row: TxRow): Option<Id> {
    if !ProcessedReversal(row) || row.ref.None? || row.ref.value !in txs then None
    else if txs[row.ref.value].kind == Refund then txs[row.ref.value].ref
    else row.ref
  }

  ghost predicate SingleReversal(txs: map<Id, TxRow>) {
    forall a, b, t | Reverses(txs, a, t) && Reverses(txs, b, t) :: a == b
  }

  ghost predicate Replaces(txs: map<Id, TxRow>, id: Id, row: TxRow) {
    && SingleReversal(txs) && AllGrounded(txs) && AllGrounded(txs[id := row])
    && (id in txs ==> txs[id].status == PendingReference && txs[id].kind == row.kind)
    && (ProcessedReversal(row) ==> row.ref.Some? && !Reversed(txs, row.ref.value))
    && (row.status == Processed ==> Grounded(txs, row))
  }

  lemma ReversesAfter(txs: map<Id, TxRow>, id: Id, row: TxRow, r: Id, t: Id)
    requires Replaces(txs, id, row)
    ensures Reverses(txs[id := row], r, t) <==> Reverses(txs, r, t) || (r == id && ProcessedReversal(row) && row.ref == Some(t))
  {
  }

  lemma ReversedAfter(txs: map<Id, TxRow>, id: Id, row: TxRow, t: Id)
    requires Replaces(txs, id, row)
    ensures Reversed(txs[id := row], t) <==> Reversed(txs, t) || (ProcessedReversal(row) && row.ref == Some(t))
  {
    var after := txs[id := row];
    if Reversed(txs, t) {
      var r :| r in txs && ProcessedReversal(txs[r]) && txs[r].ref == Some(t);
      assert after[r] == txs[r];
    }
    if ProcessedReversal(row) && row.ref == Some(t) {
      assert id in after && after[id] == row;
    }
    if Reversed(after, t) {
      var r :| r in after && ProcessedReversal(after[r]) && after[r].ref == Some(t);
      assert r != id ==> r in txs && txs[r] == after[r];
    }
  }

  lemma OthersKeepEffect(txs: map<Id, TxRow>, id: Id, row: TxRow, x: Id)
    requires Replaces(txs, id, row) && x != id && Target(txs, row) != Some(x)
    ensures Effect(txs[id := row], x) == Effect(txs, x)
  {
    var after := txs[id := row];
    if x in txs && !IsReversal(txs[x].kind) {
      EffectiveRoot(txs, x);
      EffectiveRoot(after, x);
      forall r ensures Reverses(after, r, x) <==> Reverses(txs, r, x) {
        ReversesAfter(txs, id, row, r, x);
      }
      forall r | Reverses(txs, r, x) ensures Reversed(after, r) <==> Reversed(txs, r) {
        ReversedAfter(txs, id, row, r);
        ReversalRank(txs, r, x);
      }
    }
  }

  /** The target's contribution moves by exactly what the reversal moves the balance. */
  lemma TargetEffect(txs: map<Id, TxRow>, id: Id, row: TxRow)
    requires Replaces(txs, id, row) && ProcessedReversal(row) && ExpectedDirection(txs, row).Some?
    ensures var x := Target(txs, row);
            && x.Some? && x.value != id && x.value in txs && txs[x.value].wallet == row.wallet && Moves(txs[x.value])
            && Effect(txs[id := row], x.value) == Effect(txs, x.value) + Signed(ExpectedDirection(txs, row).value, row.amount)
  {
    var after, t := txs[id := row], row.ref.value;
    assert GroundedAt(txs, t);
    var x := Target(txs, row).value;
    assert GroundedAt(txs, x);
    EffectiveRoot(txs, x);
    EffectiveRoot(after, x);
    ReversedBy(txs, t);
    ReversesAfter(txs, id, row, id, t);
    ReversedAfter(txs, id, row, id);
    ReversedBy(txs, id);
    forall r ensures !Reverses(txs, r, id) {
      if Reverses(txs, r, id) {
        ReversalRank(txs, r, id);
      }
    }
    assert txs[t].kind == Refund ==> Reverses(txs, t, x);
    forall r | Reverses(after, r, x) ensures r == t || r == id {
      ReversesAfter(txs, id, row, r, x);
    }
    if txs[t].kind == Refund {
      ReversesAfter(txs, id, row, id, x);
      ReversedAfter(txs, id, row, t);
    }
  }

  // ---- sums over a history ----

  ghost predicate Distinct(h: seq<LedgerRow>) {
    forall i, j | 0 <= i < j < |h| :: h[i].tx != h[j].tx
  }

  lemma {:induction false} WorthSame(a: map<Id, TxRow>, b: map<Id, TxRow>, h: seq<LedgerRow>)
    requires forall e | e in h :: Effect(a, e.tx) == Effect(b, e.tx)
    ensures Worth(a, h) == Worth(b, h)
  {
    if h != [] {
      assert h[|h| - 1] in h;
      WorthSame(a, b, h[..|h| - 1]);
    }
  }

  /** When one transaction's effect changes and it occurs once, the sum changes by that. */
  lemma {:induction false} WorthChanges(a: map<Id, TxRow>, b: map<Id, TxRow>, h: seq<LedgerRow>, k: nat, delta: int)
    requires k < |h| && Distinct(h) && Effect(b, h[k].tx) == Effect(a, h[k].tx) + delta
    requires forall i | 0 <= i < |h| && i != k :: Effect(a, h[i].tx) == Effect(b, h[i].tx)
    ensures Worth(b, h) == Worth(a, h) + delta
  {
    var p := h[..|h| - 1];
    if k == |h| - 1 {
      forall e | e in p ensures Effect(a, e.tx) == Effect(b, e.tx) {
        var i :| 0 <= i < |p| && p[i] == e;
        assert h[i] == e;
      }
      WorthSame(a, b, p);
    } else {
      WorthChanges(a, b, p, k, delta);
    }
  }

  lemma HistoryDistinct(db: Db, w: Id)
    requires Intact(db)
    ensures Distinct(History(db.ledger, w))
  {
    HistoryDistinctOn(db, w, |db.ledger|);
    assert db.ledger[..|db.ledger|] == db.ledger;
  }

  lemma {:induction false} HistoryDistinctOn(db: Db, w: Id, n: nat)
    requires KeysUnique(db) && n <= |db.ledger|
    ensures Distinct(History(db.ledger[..n], w))
  {
    if n > 0 {
      HistoryDistinctOn(db, w, n - 1);
      var l, p := db.ledger[..n], History(db.ledger[..n - 1], w);
      assert l[..|l| - 1] == db.ledger[..n - 1];
      forall i | 0 <= i < |p| && db.ledger[n - 1].wallet == w ensures p[i].tx != db.ledger[n - 1].tx {
        var j :| 0 <= j < n - 1 && db.ledger[..n - 1][j] == p[i];
        assert !LedgerClash(db.ledger[j], db.ledger[n - 1]);
      }
    }
  }

  /** Every entry of a history belongs to a processed row of that wallet. */
  lemma HistoryRow(db: Db, w: Id, i: nat)
    requires EntriesSound(db) && i < |History(db.ledger, w)|
    ensures var t := History(db.ledger, w)[i].tx; t in db.txs && db.txs[t].status == Processed && db.txs[t].wallet == w
  {
    var j :| 0 <= j < |db.ledger| && db.ledger[j] == History(db.ledger, w)[i];
    assert EntrySound(db, j);
  }

  /** A moving row's entry is in its wallet's history. */
  lemma RowHistory(db: Db, t: Id) returns (i: nat)
    requires EntriesSound(db) && EntriesComplete(db) && t in db.txs && Moves(db.txs[t])
    ensures i < |History(db.ledger, db.txs[t].wallet)| && History(db.ledger, db.txs[t].wallet)[i].tx == t
  {
    assert EntryPresent(db, t);
    var j :| 0 <= j < |db.ledger| && db.ledger[j].tx == t;
    assert EntrySound(db, j);
    HistoryHas(db.ledger, db.txs[t].wallet, j);
    i :| 0 <= i < |History(db.ledger, db.txs[t].wallet)| && History(db.ledger, db.txs[t].wallet)[i] == db.ledger[j];
  }

  // ---- a write keeps the meaning ----

  lemma KeysSingleReversal(db: Db)
    requires KeysUnique(db)
    ensures SingleReversal(db.txs)
  {
    forall a, b, t | Reverses(db.txs, a, t) && Reverses(db.txs, b, t) ensures a == b {
      assert a != b ==> !Clash(db.txs[a], db.txs[b]);
    }
  }

  lemma WriteReplaces(db: Db, mode: Mode, w: Write)
    requires Inv(db) && WriteOk(db, mode, w)
    ensures Replaces(db.txs, w.id, w.row)
  {
    RefsGround(db);
    KeysSingleReversal(db);
    var after := db.txs[w.id := w.row];
    forall t | t in after ensures GroundedAt(after, t) {
      if t != w.id {
        assert GroundedAt(db.txs, t);
      }
    }
  }

  lemma OldEffects(db: Db, mode: Mode, w: Write, x: Id)
    requires Inv(db) && WriteOk(db, mode, w)
    ensures var h, after := History(db.ledger, x), Record(db, w).txs;
            && Replaces(db.txs, w.id, w.row) && Distinct(h)
            && forall i | 0 <= i < |h| && Target(db.txs, w.row) != Some(h[i].tx) :: Effect(after, h[i].tx) == Effect(db.txs, h[i].tx)
  {
    var h, after := History(db.ledger, x), Record(db, w).txs;
    WriteReplaces(db, mode, w);
    HistoryDistinct(db, x);
    forall i | 0 <= i < |h| && Target(db.txs, w.row) != Some(h[i].tx) ensures Effect(after, h[i].tx) == Effect(db.txs, h[i].tx) {
      HistoryRow(db, x, i);
      OthersKeepEffect(db.txs, w.id, w.row, h[i].tx);
    }
  }

  /** Old entries: the wallet's own sum moves by the reversal, every other wallet's stays. */
  lemma WorthOfOld(db: Db, mode: Mode, w: Write, x: Id)
    requires Inv(db) && WriteOk(db, mode, w)
    ensures var h := History(db.ledger, x);
            Worth(Record(db, w).txs, h) == Worth(db.txs, h)
              + (if ProcessedReversal(w.row) && x == w.row.wallet then Signed(w.entry.value.direction, w.row.amount) else 0)
  {
    var h, after := History(db.ledger, x), Record(db, w).txs;
    OldEffects(db, mode, w, x);
    if ProcessedReversal(w.row) {
      TargetEffect(db.txs, w.id, w.row);
      var t := Target(db.txs, w.row).value;
      if x == w.row.wallet {
        var k := RowHistory(db, t);
        WorthChanges(db.txs, after, h, k, Signed(w.entry.value.direction, w.row.amount));
      } else {
        NotInHistory(db, x, t);
        WorthSame(db.txs, after, h);
      }
    } else {
      WorthSame(db.txs, after, h);
    }
  }

  lemma NotInHistory(db: Db, x: Id, t: Id)
    requires EntriesSound(db) && t in db.txs && db.txs[t].wallet != x
    ensures forall e | e in History(db.ledger, x) :: e.tx != t
  {
    forall e | e in History(db.ledger, x) ensures e.tx != t {
      var i :| 0 <= i < |History(db.ledger, x)| && History(db.ledger, x)[i] == e;
      HistoryRow(db, x, i);
    }
  }

  /** The new row contributes its own movement, unless it is a reversal. */
  lemma EffectOfNew(db: Db, mode: Mode, w: Write)
    requires Inv(db) && WriteOk(db, mode, w) && w.entry.Some?
    ensures Effect(Record(db, w).txs, w.id)
         == if ProcessedReversal(w.row) then 0 else Signed(w.entry.value.direction, w.row.amount)
  {
    var after := Record(db, w).txs;
    WriteReplaces(db, mode, w);
    if !IsReversal(w.row.kind) {
      forall r ensures !Reverses(after, r, w.id) {
        ReversesAfter(db.txs, w.id, w.row, r, w.id);
        if Reverses(db.txs, r, w.id) {
          ReversalRank(db.txs, r, w.id);
        }
      }
      EffectiveRoot(after, w.id);
    }
  }

  lemma HistoryAfter(db: Db, w: Write, x: Id)
    requires w.entry.Some? ==> w.entry.value.wallet == w.row.wallet
    ensures History(Record(db, w).ledger, x)
         == History(db.ledger, x) + (if w.entry.Some? && x == w.row.wallet then [w.entry.value] else [])
  {
    LedgerAfter(db, w);
    HistorySplit(db.ledger, Added(w), x);
    if w.entry.Some? && x == w.row.wallet {
      HistoryOne(Added(w), x, 0);
    } else {
      HistoryNone(Added(w), x);
    }
  }

  lemma WorthSnoc(txs: map<Id, TxRow>, h: seq<LedgerRow>, e: LedgerRow)
    ensures Worth(txs, h + [e]) == Worth(txs, h) + Effect(txs, e.tx)
  {
    assert (h + [e])[..|h|] == h;
  }

  /** The wallet that moved: its old entries' change and the new entry's effect make up the movement. */
  lemma MovedKeepsMeaning(db: Db, mode: Mode, w: Write)
    requires Inv(db) && Meaningful(db) && WriteOk(db, mode, w) && w.entry.Some?
    ensures BalanceMeans(Record(db, w), w.row.wallet)
  {
    var x := w.row.wallet;
    var h := History(db.ledger, x);
    HistoryAfter(db, w, x);
    WorthOfOld(db, mode, w, x);
    EffectOfNew(db, mode, w);
    WorthSnoc(Record(db, w).txs, h, w.entry.value);
    if x in db.wallets {
      assert BalanceMeans(db, x);
    } else {
      NoHistoryWithoutWallet(db, x);
    }
  }

  lemma OtherKeepsMeaning(db: Db, mode: Mode, w: Write, x: Id)
    requires Inv(db) && Meaningful(db) && WriteOk(db, mode, w) && x in db.wallets && (w.entry.Some? ==> x != w.row.wallet)
    ensures BalanceMeans(Record(db, w), x)
  {
    HistoryAfter(db, w, x);
    assert History(db.ledger, x) + [] == History(db.ledger, x);
    WorthOfOld(db, mode, w, x);
    assert BalanceMeans(db, x);
  }

  /** Every write keeps what balances mean. */
  lemma WriteKeepsMeaning(db: Db, mode: Mode, w: Write)
    requires Inv(db) && Meaningful(db) && WriteOk(db, mode, w)
    ensures Meaningful(Record(db, w))
  {
    var after := Record(db, w);
    forall x | x in after.wallets ensures BalanceMeans(after, x) {
      if w.entry.Some? && x == w.row.wallet {
        MovedKeepsMeaning(db, mode, w);
      } else {
        OtherKeepsMeaning(db, mode, w, x);
      }
    }
  }

  // ---- the same sum over the whole table ----

  ghost function Total(txs: map<Id, TxRow>, ids: set<Id>): int {
    if ids == {} then 0 else
      var t :| t in ids;
      Effect(txs, t) + Total(txs, ids - {t})
  }

  lemma {:induction false} TotalOf(txs: map<Id, TxRow>, ids: set<Id>, t: Id)
    requires t in ids
    ensures Total(txs, ids) == Effect(txs, t) + Total(txs, ids - {t})
  {
    var x :| x in ids && Total(txs, ids) == Effect(txs, x) + Total(txs, ids - {x});
    if x != t {
      TotalOf(txs, ids - {x}, t);
      TotalOf(txs, ids - {t}, x);
      assert ids - {x} - {t} == ids - {t} - {x};
    }
  }

  lemma {:induction false} TotalZero(txs: map<Id, TxRow>, ids: set<Id>)
    requires forall t | t in ids :: Effect(txs, t) == 0
    ensures Total(txs, ids) == 0
  {
    if ids != {} {
      var t :| t in ids;
      TotalOf(txs, ids, t);
      TotalZero(txs, ids - {t});
    }
  }

  lemma {:induction false} TotalIsWorth(txs: map<Id, TxRow>, ids: set<Id>, h: seq<LedgerRow>)
    requires Distinct(h) && forall e | e in h :: e.tx in ids
    requires forall t | t in ids && (forall e | e in h :: e.tx != t) :: Effect(txs, t) == 0
    ensures Total(txs, ids) == Worth(txs, h)
  {
    if h == [] {
      TotalZero(txs, ids);
    } else {
      var p, last := h[..|h| - 1], h[|h| - 1];
      assert last in h;
      TotalOf(txs, ids, last.tx);
      forall e | e in p ensures e.tx in ids - {last.tx} {
        var i :| 0 <= i < |p| && p[i] == e;
        assert h[i] == e && e in h;
      }
      forall t | t in ids - {last.tx} && (forall e | e in p :: e.tx != t) ensures Effect(txs, t) == 0 {
        forall e | e in h ensures e.tx != t {
          assert e in p || e == last;
        }
      }
      TotalIsWorth(txs, ids - {last.tx}, p);
    }
  }

  lemma HistoryIsOwn(db: Db, w: Id, e: LedgerRow)
    requires EntriesSound(db) && e in History(db.ledger, w)
    ensures e.tx in db.txs && db.txs[e.tx].wallet == w
  {
    var i :| 0 <= i < |History(db.ledger, w)| && History(db.ledger, w)[i] == e;
    HistoryRow(db, w, i);
  }

  /** A row of the wallet without an entry contributes nothing. */
  lemma NoEntryNoEffect(db: Db, w: Id, t: Id)
    requires EntriesSound(db) && EntriesComplete(db) && t in db.txs && db.txs[t].wallet == w
    requires forall e | e in History(db.ledger, w) :: e.tx != t
    ensures Effect(db.txs, t) == 0
  {
    if Moves(db.txs[t]) {
      var _ := RowHistory(db, t);
    }
  }

  /** A wallet's balance is the sum, over all its transactions, of what each effectively contributes. */
  lemma BalanceIsEffectiveTotal(db: Db, w: Id, ids: set<Id>)
    requires Inv(db) && Meaningful(db) && w in db.wallets
    requires ids == set t | t in db.txs && db.txs[t].wallet == w
    ensures db.wallets[w].balance == Total(db.txs, ids)
  {
    var h := History(db.ledger, w);
    assert BalanceMeans(db, w);
    HistoryDistinct(db, w);
    forall e | e in h ensures e.tx in ids {
      HistoryIsOwn(db, w, e);
    }
    forall t | t in ids && (forall e | e in h :: e.tx != t) ensures Effect(db.txs, t) == 0 {
      NoEntryNoEffect(db, w, t);
    }
    TotalIsWorth(db.txs, ids, h);
  }
}
