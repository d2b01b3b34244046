/** What an auditor can rely on in every reachable state. */
module Audit {
  import opened Prelude
  import opened Domain
  import opened Decision
  import opened Schema
  import opened Integrity
  import opened Writes
  import opened Invariant
  import opened Preservation
  import opened Economics
  import opened EventLog
  import opened Idempotency
  import opened Steps
  import opened Paging
  import opened Threads
  import opened Concurrency

  /** A stored row moves money exactly when it is processed with a positive amount. */
  lemma MovingRows(db: Db, t: Id)
    requires RowsOk(db) && t in db.txs
    ensures Moves(db.txs[t]) <==> db.txs[t].status == Processed && db.txs[t].amount > 0
  {
    assert RowAt(db, t);
  }

  /** Every entry belongs to a moving row, and states its wallet and amount. */
  lemma EntryHasRow(db: Db, i: nat)
    requires Inv(db) && i < |db.ledger|
    ensures var e := db.ledger[i];
            e.tx in db.txs && Moves(db.txs[e.tx]) && db.txs[e.tx].wallet == e.wallet && db.txs[e.tx].amount == e.amount
  {
    assert EntrySound(db, i);
  }

  /** Processed rows of positive amount and ledger entries correspond one to one; every other row has no entry. */
  lemma EntriesMatchRows(db: Db, t: Id)
    requires Inv(db) && t in db.txs
    ensures db.txs[t].status == Processed && db.txs[t].amount > 0 <==> exists i :: EntryOf(db, i, t)
    ensures forall i, j | EntryOf(db, i, t) && EntryOf(db, j, t) :: i == j
  {
    MovingRows(db, t);
    assert EntryPresent(db, t);
    if Moves(db.txs[t]) {
      var i :| 0 <= i < |db.ledger| && db.ledger[i].tx == t;
      assert EntryOf(db, i, t);
    }
    if i :| EntryOf(db, i, t) {
      EntryHasRow(db, i);
    }
    forall i, j | EntryOf(db, i, t) && EntryOf(db, j, t) ensures i == j {
      EntryHasRow(db, i);
      EntryHasRow(db, j);
      assert i < j ==> !LedgerClash(db.ledger[i], db.ledger[j]);
      assert j < i ==> !LedgerClash(db.ledger[j], db.ledger[i]);
    }
  }

  predicate EntryOf(db: Db, i: int, t: Id) {
    0 <= i < |db.ledger| && db.ledger[i].tx == t
  }

  /** However often and by whatever path an operation was submitted, it moved money at most once. */
  lemma OneMovementPerOperation(db: Db, op: Operation, i: nat, j: nat)
    requires Inv(db) && i < |db.ledger| && j < |db.ledger|
    requires db.ledger[i].tx in db.txs && db.ledger[j].tx in db.txs
    requires SameOp(db.txs[db.ledger[i].tx], op) && IsOp(db.txs[db.ledger[i].tx], op)
    requires SameOp(db.txs[db.ledger[j].tx], op) && IsOp(db.txs[db.ledger[j].tx], op)
    ensures i == j
  {
    var a, b := db.ledger[i].tx, db.ledger[j].tx;
    assert RowAt(db, a) && RowAt(db, b);
    IdentityIsUnique(db, a, b);
    EntriesMatchRows(db, a);
    assert EntryOf(db, i, a) && EntryOf(db, j, a);
  }

  // ---- where a wallet's history starts ----

  /** The entry is of version 1 exactly when it is an opening's. */
  predicate OpeningAt(db: Db, i: nat)
    requires i < |db.ledger|
  {
    db.ledger[i].tx in db.txs && (db.ledger[i].version == 1 <==> db.txs[db.ledger[i].tx].kind == Opening)
  }

  ghost predicate OpeningsFirst(db: Db) {
    forall i {:trigger OpeningAt(db, i)} | 0 <= i < |db.ledger| :: OpeningAt(db, i)
  }

  lemma OldOpeningStays(a: Db, b: Db, i: nat)
    requires OpeningsFirst(a) && Grown(a, b) && i < |a.ledger|
    ensures OpeningAt(b, i)
  {
    assert OpeningAt(a, i) && a.ledger[i] == b.ledger[i];
  }

  /** No write but a wallet's creation is of version 1, and no other is an opening. */
  lemma WriteIsNoOpening(db: Db, mode: Mode, w: Write)
    requires Inv(db) && WriteOk(db, mode, w) && mode != Open
    ensures w.row.kind != Opening && (w.entry.Some? ==> w.entry.value.tx == w.id && w.entry.value.version > 1)
  {
    if mode == Settle {
      assert RowAt(db, w.id);
    }
    assert WalletOk(w.row.wallet, db.wallets[w.row.wallet]);
  }

  lemma RecordAddsInOrder(db: Db, w: Write, i: nat)
    requires |db.ledger| <= i < |Record(db, w).ledger| && w.entry.value.tx == w.id
    requires w.entry.value.version == 1 <==> w.row.kind == Opening
    ensures OpeningAt(Record(db, w), i)
  {
  }

  /** Each entry a step adds is as asked. */
  lemma StepAddsInOrder(a: Db, b: Db, i: nat)
    requires Inv(a) && Step(a, b) && |a.ledger| <= i < |b.ledger|
    ensures OpeningAt(b, i)
  {
    if w, env :| OpenOk(a, w, env) && b == Opened(a, w, env) {
      RecordAddsInOrder(a, OpeningWrite(w, env), i);
    } else {
      var mode, w :| SoundWrite(a, mode, w) && b == Record(a, w);
      WriteIsNoOpening(a, mode, w);
      RecordAddsInOrder(a, w, i);
    }
  }

  lemma StepKeepsOpeningsFirst(a: Db, b: Db)
    requires Sound(a) && Step(a, b) && OpeningsFirst(a)
    ensures OpeningsFirst(b)
  {
    StepKeepsSound(a, b);
    forall i | 0 <= i < |b.ledger| ensures OpeningAt(b, i) {
      if i < |a.ledger| {
        OldOpeningStays(a, b, i);
      } else {
        StepAddsInOrder(a, b, i);
      }
    }
  }

  lemma {:induction false} EveryRunOpensFirst(run: seq<Db>, k: nat)
    requires Run(run) && k < |run|
    ensures OpeningsFirst(run[k])
  {
    if k > 0 {
      EveryRunOpensFirst(run, k - 1);
      EveryRunSound(run, k - 1);
      assert StepAt(run, k);
      StepKeepsOpeningsFirst(run[k - 1], run[k]);
    }
  }

  predicate OpeningOf(db: Db, t: Id, w: Id) {
    t in db.txs && db.txs[t].kind == Opening && db.txs[t].wallet == w
  }

  /** An opening is the wallet's first entry, credits its whole amount from zero, and takes version 1. */
  lemma OpeningComesFirst(db: Db, t: Id, w: Id)
    requires Inv(db) && OpeningsFirst(db) && w in db.wallets && OpeningOf(db, t, w)
    ensures var h := History(db.ledger, w);
            h != [] && h[0].tx == t && h[0].version == 1 && h[0].before == 0 && h[0].after == db.txs[t].amount > 0
  {
    assert RowAt(db, t);
    EntriesMatchRows(db, t);
    var i: nat :| EntryOf(db, i, t);
    EntryHasRow(db, i);
    assert OpeningAt(db, i) && EntrySound(db, i) && ChainAt(db, w);
    HistoryHas(db.ledger, w, i);
    var h := History(db.ledger, w);
    var j :| 0 <= j < |h| && h[j] == db.ledger[i];
    assert h[j].version == h[0].version + j;
  }

  /** A history of version 1 starts with the wallet's opening. */
  lemma FirstIsOpening(db: Db, w: Id)
    requires Inv(db) && OpeningsFirst(db) && History(db.ledger, w) != [] && History(db.ledger, w)[0].version == 1
    ensures OpeningOf(db, History(db.ledger, w)[0].tx, w)
  {
    var first := History(db.ledger, w)[0];
    var i: nat :| i < |db.ledger| && db.ledger[i] == first;
    EntryHasRow(db, i);
    assert OpeningAt(db, i);
  }

  /** In any state any run reaches, a wallet has one entry for each of its versions exactly when it was opened with money,
      and one less otherwise: versions start at 1 with the opening's credit of its whole amount, or at 2. */
  lemma VersionsStartAtOpening(run: seq<Db>, k: nat, w: Id)
    requires Run(run) && k < |run| && w in run[k].wallets
    ensures var db := run[k];
            var h, v := History(db.ledger, w), db.wallets[w].version;
            && |h| == (if exists t :: OpeningOf(db, t, w) then v else v - 1)
            && (h != [] ==> h[0].version == if exists t :: OpeningOf(db, t, w) then 1 else 2)
            && (forall t | OpeningOf(db, t, w) ::
                  h != [] && h[0].tx == t && h[0].before == 0 && h[0].after == db.txs[t].amount > 0)
  {
    var db := run[k];
    EveryRunSound(run, k);
    EveryRunOpensFirst(run, k);
    assert ChainAt(db, w);
    forall t | OpeningOf(db, t, w)
      ensures var h := History(db.ledger, w);
              h != [] && h[0].tx == t && h[0].version == 1 && h[0].before == 0 && h[0].after == db.txs[t].amount > 0
    {
      OpeningComesFirst(db, t, w);
    }
    var h := History(db.ledger, w);
    if h != [] {
      assert h[|h| - 1].version == h[0].version + (|h| - 1);
      if h[0].version == 1 {
        FirstIsOpening(db, w);
      }
    }
  }

  /** Nobody opens a stored wallet again. */
  lemma StepAddsNoOpening(a: Db, b: Db, t: Id, w: Id)
    requires Inv(a) && Step(a, b) && w in a.wallets
    ensures w in b.wallets && (OpeningOf(b, t, w) <==> OpeningOf(a, t, w))
  {
    if v, env :| OpenOk(a, v, env) && b == Opened(a, v, env) {
      assert v.id != w && env.txId !in a.txs;
    } else if mode, write :| SoundWrite(a, mode, write) && b == Record(a, write) {
      WriteIsNoOpening(a, mode, write);
      WriteKeepsOpening(a, mode, write, t, w);
    }
  }

  lemma WriteKeepsOpening(db: Db, mode: Mode, write: Write, t: Id, w: Id)
    requires TargetOk(db, mode, write) && mode != Open && write.row.kind != Opening
    ensures OpeningOf(Record(db, write), t, w) <==> OpeningOf(db, t, w)
  {
  }

  /** A wallet comes with an opening exactly when its balance is positive. */
  lemma CreationOpens(a: Db, b: Db, w: Id)
    requires Sound(a) && Step(a, b) && w !in a.wallets && w in b.wallets
    ensures (exists t :: OpeningOf(b, t, w)) <==> b.wallets[w].balance > 0
  {
    var v, env :| OpenOk(a, v, env) && b == Opened(a, v, env);
    assert v.id == w && b.wallets[w].balance == v.balance.minor;
    if v.balance.minor > 0 {
      assert OpeningOf(b, env.txId, w);
    }
    forall t | t in a.txs ensures a.txs[t].wallet != w {
      assert RowAt(a, t);
    }
  }

  /** A wallet has an opening, ever after its creation, exactly when it was created with a positive balance. */
  lemma {:induction false} OpenedWithMoneyIff(run: seq<Db>, k: nat, m: nat, w: Id)
    requires Run(run) && 0 < k <= m < |run| && w !in run[k - 1].wallets && w in run[k].wallets
    ensures w in run[m].wallets
    ensures (exists t :: OpeningOf(run[m], t, w)) <==> run[k].wallets[w].balance > 0
  {
    EveryRunSound(run, m - 1);
    assert StepAt(run, m);
    if m == k {
      CreationOpens(run[k - 1], run[k], w);
    } else {
      OpenedWithMoneyIff(run, k, m - 1, w);
      var a, b := run[m - 1], run[m];
      forall t ensures OpeningOf(b, t, w) <==> OpeningOf(a, t, w) {
        StepAddsNoOpening(a, b, t, w);
      }
    }
  }

  lemma LedgerIdsDistinct(db: Db)
    requires Intact(db)
    ensures DistinctIds(db.ledger)
  {
    forall i, j | 0 <= i < j < |db.ledger| ensures db.ledger[i].id != db.ledger[j].id {
      assert !LedgerClash(db.ledger[i], db.ledger[j]);
    }
  }

  /** In any state any run reaches, paging a wallet from the start returns its whole history once and in order,
      the history accounts for the stored balance, and its versions have no gap. */
  lemma EveryLedgerIsAuditable(run: seq<Db>, k: nat, w: Id, limit: nat)
    requires Run(run) && k < |run| && w in run[k].wallets && limit >= 1
    ensures var s, h := Ordered(run[k].ledger, w), History(run[k].ledger, w);
            && Placed(s, None) && Walk(s, None, limit) == s && |s| == |h|
            && (forall e :: e in s <==> e in run[k].ledger && e.wallet == w)
            && Net(h) == run[k].wallets[w].balance
            && (forall i | 0 <= i < |h| :: h[i].version == run[k].wallets[w].version - (|h| - 1 - i))
  {
    EveryRunSound(run, k);
    LedgerIdsDistinct(run[k]);
    PagesAreTheLedger(run[k].ledger, w, limit);
    OrderedIsHistory(run[k].ledger, w);
    Conserved(run[k], w);
    assert ChainAt(run[k], w);
  }

  /** In any state any run reaches, the i-th balance event tells the i-th ledger entry, in its wallet's currency. */
  lemma EveryMovementIsAnnounced(run: seq<Db>, k: nat, i: nat)
    requires Run(run) && k < |run| && i < |run[k].ledger|
    ensures var db := run[k];
            && |Balances(db.outbox)| == |db.ledger| && db.ledger[i].wallet in db.wallets && Balances(db.outbox)[i].BalanceChanged?
            && var e, l, currency := Balances(db.outbox)[i], db.ledger[i], db.wallets[db.ledger[i].wallet].currency;
               && e.wallet == l.wallet && e.tx == l.tx && e.direction == l.direction && e.version == l.version
               && e.money.minor == l.amount && e.before.minor == l.before && e.after.minor == l.after
               && e.money.currency == e.before.currency == e.after.currency == currency
  {
    EveryRunSound(run, k);
    assert BalanceEventAt(run[k], i);
  }

  /** In any state any run reaches, a wallet's balance is what its effective transactions add up to, and folding its
      balance events gives the same balance and version. */
  lemma EveryBalanceIsExplained(run: seq<Db>, k: nat, w: Id, ids: set<Id>)
    requires Run(run) && k < |run| && w in run[k].wallets
    requires ids == set t | t in run[k].txs && run[k].txs[t].wallet == w
    ensures run[k].wallets[w].balance == Total(run[k].txs, ids)
    ensures Fold(Balances(run[k].outbox), w) == Rebuilt(run[k].wallets[w].balance, run[k].wallets[w].version)
  {
    EveryRunSound(run, k);
    BalanceIsEffectiveTotal(run[k], w, ids);
    EventsRebuildWallets(run[k], w);
  }

  /** The same in any state any interleaving of threads reaches. */
  lemma EveryInterleavingIsExplained(run: seq<Sys>, k: nat, w: Id, ids: set<Id>)
    requires SysRun(run) && k < |run| && w in run[k].db.wallets
    requires ids == set t | t in run[k].db.txs && run[k].db.txs[t].wallet == w
    ensures var db := run[k].db;
            && db.wallets[w].balance == Total(db.txs, ids) == Net(History(db.ledger, w))
            && Fold(Balances(db.outbox), w) == Rebuilt(db.wallets[w].balance, db.wallets[w].version)
  {
    var serial := InterleavingIsSerial(run, k);
    EveryBalanceIsExplained(serial, |serial| - 1, w, ids);
    EveryInterleavingSound(run, k);
    Conserved(run[k].db, w);
  }
}
