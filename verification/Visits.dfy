/** How often the resolver can visit: a bound over every run, whatever else happens between its visits. */
module Visits {
  import opened Prelude
  import opened Domain
  import opened Decision
  import opened Schema
  import opened Writes
  import opened Invariant
  import opened Preservation
  import opened Resolver
  import opened Steps

  /** What one step of a mixed run was: a visit to a row, or anything else. */
  datatype Mark = VisitTo(id: Id) | Other

  /** A step that is no visit: a wallet created, a new operation written, messages or events delivered. */
  ghost predicate OtherStep(a: Db, b: Db) {
    OpenStep(a, b) || (exists w :: SoundWrite(a, Fresh, w) && b == Record(a, w)) || DeliveryStep(a, b)
  }

  ghost predicate MarkedStep(a: Db, b: Db, mark: Mark) {
    match mark
    case VisitTo(id) => exists view, env :: Visit(a, b, id, view, env)
    case Other => OtherStep(a, b)
  }

  ghost predicate MarkedAt(run: seq<Db>, marks: seq<Mark>, k: nat)
    requires k < |marks| && |run| == |marks| + 1
  {
    MarkedStep(run[k], run[k + 1], marks[k])
  }

  /** Submissions, creations and deliveries interleaved with visits in any order, from any sound state. */
  ghost predicate MixedRun(run: seq<Db>, marks: seq<Mark>) {
    && |run| == |marks| + 1 && Sound(run[0])
    && forall k: nat {:trigger MarkedAt(run, marks, k)} | k < |marks| :: MarkedAt(run, marks, k)
  }

  /** The visits among `marks` to rows of `ids`. */
  function VisitsTo(marks: seq<Mark>, ids: set<Id>): nat {
    if marks == [] then 0
    else
      var n := |marks| - 1;
      VisitsTo(marks[..n], ids) + (if marks[n].VisitTo? && marks[n].id in ids then 1 else 0)
  }

  /** The visits a row may still take, a row not stored yet counting in full. */
  function Budget(txs: map<Id, TxRow>, id: Id): int {
    if id in txs then Left(txs[id]) else MAX_ATTEMPTS
  }

  ghost function TotalBudget(txs: map<Id, TxRow>, ids: set<Id>): int {
    if ids == {} then 0 else
      var x :| x in ids;
      Budget(txs, x) + TotalBudget(txs, ids - {x})
  }

  lemma {:induction false} TotalBudgetOf(txs: map<Id, TxRow>, ids: set<Id>, y: Id)
    requires y in ids
    ensures TotalBudget(txs, ids) == Budget(txs, y) + TotalBudget(txs, ids - {y})
  {
    var x :| x in ids && TotalBudget(txs, ids) == Budget(txs, x) + TotalBudget(txs, ids - {x});
    if x != y {
      TotalBudgetOf(txs, ids - {x}, y);
      TotalBudgetOf(txs, ids - {y}, x);
      assert ids - {x} - {y} == ids - {y} - {x};
    }
  }

  lemma {:induction false} BudgetsFall(a: map<Id, TxRow>, b: map<Id, TxRow>, ids: set<Id>)
    requires forall x | x in ids :: Budget(b, x) <= Budget(a, x)
    ensures TotalBudget(b, ids) <= TotalBudget(a, ids)
  {
    if ids != {} {
      var x :| x in ids;
      TotalBudgetOf(a, ids, x);
      TotalBudgetOf(b, ids, x);
      BudgetsFall(a, b, ids - {x});
    }
  }

  lemma BudgetSpent(a: map<Id, TxRow>, b: map<Id, TxRow>, ids: set<Id>, id: Id)
    requires id in ids && Budget(b, id) < Budget(a, id) && forall x | x in ids :: Budget(b, x) <= Budget(a, x)
    ensures TotalBudget(b, ids) < TotalBudget(a, ids)
  {
    TotalBudgetOf(a, ids, id);
    TotalBudgetOf(b, ids, id);
    BudgetsFall(a, b, ids - {id});
  }

  lemma {:induction false} TotalBudgetBounds(db: Db, ids: set<Id>)
    requires RowsOk(db)
    ensures 0 <= TotalBudget(db.txs, ids) <= MAX_ATTEMPTS * |ids|
  {
    if ids != {} {
      var x :| x in ids;
      TotalBudgetOf(db.txs, ids, x);
      assert x in db.txs ==> RowAt(db, x);
      TotalBudgetBounds(db, ids - {x});
    }
  }

  /** A visit spends at least one of its row's visits and touches no other row. */
  lemma VisitSpends(a: Db, b: Db, id: Id, view: Option<Reference>, env: Env)
    requires Sound(a) && Visit(a, b, id, view, env)
    ensures Sound(b) && id in a.txs && Budget(b.txs, id) < Budget(a.txs, id)
    ensures forall x | x != id :: Budget(b.txs, x) == Budget(a.txs, x)
  {
    VisitIsStep(a, id, view, env);
    ResolutionShape(a, id, view, env);
    WriteKeepsSound(a, Settle, WriteOf(id, a.wallets[a.txs[id].wallet], Resolution(id, a.txs[id], a.wallets[a.txs[id].wallet], view, env)));
  }

  lemma FreshSpendsNothing(a: Db, w: Write, x: Id)
    requires RowsOk(a) && RowsOk(Record(a, w)) && SoundWrite(a, Fresh, w)
    ensures Budget(Record(a, w).txs, x) <= Budget(a.txs, x)
  {
    assert RowAt(Record(a, w), w.id);
  }

  lemma OpenSpendsNothing(a: Db, w: WalletVal, env: Env, x: Id)
    requires OpenOk(a, w, env)
    ensures Budget(Opened(a, w, env).txs, x) <= Budget(a.txs, x)
  {
  }

  /** Nothing else gives any row more visits than it had. */
  lemma OtherSpendsNothing(a: Db, b: Db)
    requires Sound(a) && OtherStep(a, b)
    ensures Sound(b) && forall x :: Budget(b.txs, x) <= Budget(a.txs, x)
  {
    if w :| SoundWrite(a, Fresh, w) && b == Record(a, w) {
      WriteKeepsSound(a, Fresh, w);
      forall x ensures Budget(b.txs, x) <= Budget(a.txs, x) {
        FreshSpendsNothing(a, w, x);
      }
    } else if OpenStep(a, b) {
      var w, env :| OpenOk(a, w, env) && b == Opened(a, w, env);
      OpenKeepsSound(a, w, env);
      forall x ensures Budget(b.txs, x) <= Budget(a.txs, x) {
        OpenSpendsNothing(a, w, env, x);
      }
    } else {
      DeliveryKeepsSound(a, b);
    }
  }

  lemma {:induction false} RunSpendsBudget(run: seq<Db>, marks: seq<Mark>, ids: set<Id>)
    requires MixedRun(run, marks)
    ensures Sound(run[|marks|]) && TotalBudget(run[|marks|].txs, ids) + VisitsTo(marks, ids) <= TotalBudget(run[0].txs, ids)
  {
    if marks != [] {
      var n := |marks| - 1;
      MixedPrefix(run, marks);
      RunSpendsBudget(run[..n + 1], marks[..n], ids);
      assert MarkedAt(run, marks, n);
      StepSpendsBudget(run[n], run[n + 1], marks[n], ids);
    }
  }

  lemma MixedPrefix(run: seq<Db>, marks: seq<Mark>)
    requires MixedRun(run, marks) && marks != []
    ensures MixedRun(run[..|marks|], marks[..|marks| - 1])
  {
    var shorter, fewer := run[..|marks|], marks[..|marks| - 1];
    forall k: nat | k < |fewer| ensures MarkedAt(shorter, fewer, k) {
      assert MarkedAt(run, marks, k);
    }
  }

  lemma StepSpendsBudget(a: Db, b: Db, mark: Mark, ids: set<Id>)
    requires Sound(a) && MarkedStep(a, b, mark)
    ensures Sound(b) && TotalBudget(b.txs, ids) + (if mark.VisitTo? && mark.id in ids then 1 else 0) <= TotalBudget(a.txs, ids)
  {
    match mark
    case VisitTo(id) =>
      var view, env :| Visit(a, b, id, view, env);
      VisitSpends(a, b, id, view, env);
      if id in ids {
        BudgetSpent(a.txs, b.txs, ids, id);
      } else {
        BudgetsFall(a.txs, b.txs, ids);
      }
    case Other =>
      OtherSpendsNothing(a, b);
      BudgetsFall(a.txs, b.txs, ids);
  }

  /** Any `n` rows, stored already or accepted later, take at most `10 n` visits together, whatever is submitted, created or
      delivered between the visits, in whatever order they come and whatever references turn up. */
  lemma VisitsBounded(run: seq<Db>, marks: seq<Mark>, ids: set<Id>)
    requires MixedRun(run, marks)
    ensures VisitsTo(marks, ids) <= MAX_ATTEMPTS * |ids|
  {
    RunSpendsBudget(run, marks, ids);
    TotalBudgetBounds(run[0], ids);
    TotalBudgetBounds(run[|marks|], ids);
  }

  /** A row that is final is never visited. */
  lemma SettledIsNotVisited(run: seq<Db>, marks: seq<Mark>, id: Id)
    requires MixedRun(run, marks) && id in run[0].txs && run[0].txs[id].status.Terminal()
    ensures VisitsTo(marks, {id}) == 0
  {
    RunSpendsBudget(run, marks, {id});
    TotalBudgetOf(run[0].txs, {id}, id);
    assert {id} - {id} == {};
    TotalBudgetBounds(run[|marks|], {id});
  }

  /** The rows pending now take at most ten visits each over any future. */
  lemma PendingVisitsBounded(run: seq<Db>, marks: seq<Mark>, pending: set<Id>)
    requires MixedRun(run, marks) && pending == set x | x in run[0].txs && run[0].txs[x].status == PendingReference
    ensures VisitsTo(marks, run[0].txs.Keys) <= MAX_ATTEMPTS * |pending|
  {
    RunSpendsBudget(run, marks, run[0].txs.Keys);
    TotalBudgetBounds(run[|marks|], run[0].txs.Keys);
    OnlyPendingCount(run[0], run[0].txs.Keys, pending);
  }

  lemma {:induction false} OnlyPendingCount(db: Db, ids: set<Id>, pending: set<Id>)
    requires RowsOk(db) && ids <= db.txs.Keys && pending == set x | x in ids && db.txs[x].status == PendingReference
    ensures TotalBudget(db.txs, ids) <= MAX_ATTEMPTS * |pending|
  {
    if ids != {} {
      var x :| x in ids;
      TotalBudgetOf(db.txs, ids, x);
      assert RowAt(db, x);
      OnlyPendingCount(db, ids - {x}, pending - {x});
      assert x in pending ==> |pending - {x}| == |pending| - 1;
      assert x !in pending ==> pending - {x} == pending;
    }
  }
}
