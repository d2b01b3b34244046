/** References form a forest: what a processed row builds on was processed before it, and no cycle is ever processed. */
module Reversals {
  import opened Prelude
  import opened Domain
  import opened Schema
  import opened Integrity
  import opened Invariant
  import opened Economics

  /** An entry's place in its wallet's history, and that the history up to it is the whole history's beginning. */
  lemma HistoryPlace(l: seq<LedgerRow>, j: nat)
    requires j < |l|
    ensures var p, h := History(l[..j], l[j].wallet), History(l, l[j].wallet);
            |p| < |h| && h[|p|] == l[j] && h[..|p|] == p
  {
    var w := l[j].wallet;
    assert l[..j] + l[j..] == l && l[j..] == [l[j]] + l[j + 1..];
    HistorySplit(l[..j], l[j..], w);
    HistorySplit([l[j]], l[j + 1..], w);
    HistoryOne([l[j]], w, 0);
  }

  /** Along the ledger, a wallet's versions rise. */
  lemma VersionsRise(db: Db, i: nat, j: nat)
    requires Intact(db) && i < j < |db.ledger| && db.ledger[i].wallet == db.ledger[j].wallet
    ensures db.ledger[i].version < db.ledger[j].version
  {
    var l, w := db.ledger, db.ledger[i].wallet;
    assert EntrySound(db, i);
    assert ChainAt(db, w);
    HistoryPlace(l, j);
    var p, h := History(l[..j], w), History(l, w);
    HistoryHas(l[..j], w, i);
    var k :| 0 <= k < |p| && p[k] == l[i];
    assert h[k] == h[..|p|][k];
  }

  /** A processed reversal undoes one processed row: same provider, wallet, player and round, the exact
      amount, a kind it may reverse, and an entry at an earlier version. */
  lemma ReversalsAreGrounded(db: Db, r: Id) returns (i: nat, j: nat)
    requires Inv(db) && r in db.txs && ProcessedReversal(db.txs[r])
    ensures var t := db.txs[r];
            && t.ref.Some? && t.ref.value in db.txs && t.ref.value != r
            && var p := db.txs[t.ref.value];
               && p.status == Processed && p.provider == t.provider && p.wallet == t.wallet && p.player == t.player
               && p.round == t.round && p.amount == t.amount && p.currency == t.currency && p.external == t.refExternal
               && (t.kind == Refund ==> p.kind == Bet) && (t.kind == Rollback ==> p.kind in {Bet, Win, Refund})
    ensures i < j < |db.ledger| && db.ledger[i].tx == db.txs[r].ref.value && db.ledger[j].tx == r
    ensures db.ledger[i].version < db.ledger[j].version
  {
    assert RefAt(db, r);
    i, j :| 0 <= i < j < |db.ledger| && db.ledger[i].tx == db.txs[r].ref.value && db.ledger[j].tx == r;
    assert EntrySound(db, i) && EntrySound(db, j);
    VersionsRise(db, i, j);
  }

  lemma NoDoubleReversal(db: Db, a: Id, b: Id)
    requires Inv(db) && a in db.txs && b in db.txs && ProcessedReversal(db.txs[a]) && ProcessedReversal(db.txs[b])
    requires db.txs[a].ref == db.txs[b].ref
    ensures a == b
  {
    assert RefAt(db, a);
    assert a != b ==> !Clash(db.txs[a], db.txs[b]);
  }

  /** `a` names `b` by provider and external id. */
  predicate NamesRow(txs: map<Id, TxRow>, a: Id, b: Id) {
    a in txs && b in txs && txs[a].refExternal.Some? && txs[b].provider == txs[a].provider && txs[b].external == txs[a].refExternal
  }

  /** A processed row that names another one rests on exactly that one, processed and of higher rank. */
  lemma ProcessedNames(db: Db, a: Id, b: Id)
    requires Inv(db) && NamesRow(db.txs, a, b) && db.txs[a].status == Processed
    ensures db.txs[a].ref == Some(b) && db.txs[b].status == Processed
    ensures Rank(db.txs[a].kind) < Rank(db.txs[b].kind) || (db.txs[a].kind == Win && db.txs[b].kind == Bet)
  {
    assert RowAt(db, a) && RefAt(db, a);
    var c := db.txs[a].ref.value;
    assert b != c ==> !Clash(db.txs[b], db.txs[c]);
    assert RowAt(db, b);
  }

  lemma BetNamesNothing(db: Db, a: Id, b: Id)
    requires RowsOk(db) && a in db.txs && db.txs[a].kind == Bet
    ensures !NamesRow(db.txs, a, b)
  {
    assert RowAt(db, a);
  }

  ghost predicate NamingCycle(txs: map<Id, TxRow>, c: seq<Id>) {
    |c| > 0 && (forall k | 0 <= k < |c| - 1 :: NamesRow(txs, c[k], c[k + 1])) && NamesRow(txs, c[|c| - 1], c[0])
  }

  function After(c: seq<Id>, k: nat): nat
    requires k < |c|
  {
    if k == |c| - 1 then 0 else k + 1
  }

  lemma CycleStep(txs: map<Id, TxRow>, c: seq<Id>, k: nat)
    requires NamingCycle(txs, c) && k < |c|
    ensures NamesRow(txs, c[k], c[After(c, k)])
  {
  }

  /** No row of a naming cycle, however long, is processed. A row that names itself is the shortest. */
  lemma CyclesNeverProcess(db: Db, c: seq<Id>, k: nat)
    requires Inv(db) && NamingCycle(db.txs, c) && k < |c|
    ensures c[k] in db.txs && db.txs[c[k]].status != Processed
  {
    var k1 := After(c, k);
    var k2 := After(c, k1);
    var k3 := After(c, k2);
    CycleStep(db.txs, c, k);
    CycleStep(db.txs, c, k1);
    CycleStep(db.txs, c, k2);
    CycleStep(db.txs, c, k3);
    if db.txs[c[k]].status == Processed {
      ProcessedNames(db, c[k], c[k1]);
      ProcessedNames(db, c[k1], c[k2]);
      ProcessedNames(db, c[k2], c[k3]);
      if db.txs[c[k1]].kind == Bet {
        BetNamesNothing(db, c[k1], c[k2]);
      } else if db.txs[c[k2]].kind == Bet {
        BetNamesNothing(db, c[k2], c[k3]);
      } else {
        BetNamesNothing(db, c[k3], c[After(c, k3)]);
      }
    }
  }
}
