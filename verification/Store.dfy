/** The store's operations, statement by statement, each in one database transaction. */
module PostgresStore {
  import opened Prelude
  import opened MoneyModel
  import opened Domain
  import opened Decision
  import opened Schema
  import opened Integrity
  import opened Writes
  import opened Invariant
  import opened Preservation
  import opened Resolver
  import opened Idempotency
  import opened Steps
  import opened Paging
  import opened Statements
  import opened Calls
  import Outbox

  datatype Reconciliation = Reconciliation(stored: Money, calculated: Money, difference: Money, consistent: bool, checked: nat)

  class Store {
    /** The committed tables, and the statements of the open transaction. */
    var db: Db
    var statements: seq<Change>

    constructor ()
      ensures db == EmptyDb && statements == []
    {
      db, statements := EmptyDb, [];
    }

    /** What the open transaction sees: the committed tables and its own statements. */
    function Work(): Db
      reads this
    {
      Final(db, statements)
    }

    ghost predicate Running()
      reads this
    {
      Immediate(db, statements)
    }

    method Begin()
      modifies `statements
      ensures statements == [] && Work() == db && Running()
    {
      statements := [];
    }

    method Exec(c: Change) returns (e: Option<SqlError>)
      requires Running()
      modifies `statements
      ensures Running()
      ensures e.None? ==> statements == old(statements) + [c] && Work() == Apply(old(Work()), c) && Allowed(old(Work()), c)
      ensures e.Some? ==> !Allowed(old(Work()), c) && e.value == SqlErrorOf(old(Work()), c) && Doomed(db, old(statements) + [c])
    {
      ImmediateSnoc(db, statements, c);
      if Allowed(Work(), c) {
        statements := statements + [c];
        e := None;
      } else {
        FailureIsFinal(db, statements, c);
        e := Some(SqlErrorOf(Work(), c));
      }
    }

    /** The deferred triggers run in statement order; the first to raise rolls everything back. */
    method Commit() returns (e: Option<Error>)
      requires Running()
      modifies this
      ensures if Accepted(old(db), old(statements)) then e.None? && db == old(Work()) else e == Some(DatabaseError) && db == old(db)
    {
      var k := 0;
      while k < |statements|
        invariant 0 <= k <= |statements| && db == old(db) && statements == old(statements)
        invariant forall i | 0 <= i < k :: DeferredAt(db, statements, i)
      {
        if !DeferredAt(db, statements, k) {
          return Some(DatabaseError);
        }
        k := k + 1;
      }
      db, statements := Work(), [];
      e := None;
    }

    // ---- reads ----

    /** The two reference queries. */
    method ReadReference(provider: string, external: string) returns (r: Result<Option<Reference>>)
      ensures r.Ok? ==> ReadsReference(Work().txs, provider, external, r.value) && (r.value.Some? ==> r.value.value.money.Valid())
      ensures r.Err? ==>
                r.error == InvalidMoney
                && exists view :: ReadsReference(Work().txs, provider, external, view) && view.Some? && !view.value.money.Valid()
    {
      var txs := Work().txs;
      if i :| i in txs && Names(txs[i], provider, external) {
        var money := MoneyFromMinor(txs[i].amount, txs[i].currency);
        var view := View(i, txs[i], Reversed(txs, i));
        if money.Err? {
          assert ReadsReference(txs, provider, external, Some(view));
          return Err(money.error);
        }
        r := Ok(Some(view));
      } else {
        r := Ok(None);
      }
    }

    // ---- writes ----

    /** insertLedger and addBalanceEvent. */
    method RecordMovement(row: TxRow, tx: Id, d: Decision, wallet: Wallet, causation: string, env: Env) returns (e: Option<Error>, ghost entry: LedgerRow)
      requires Running() && d.direction.Some?
      requires Domain.NewEntry(env.entryId, row.wallet, tx, d.direction.value, Money(row.amount, row.currency), d.before, wallet.balance, env.now).Ok?
      modifies `statements
      ensures entry == LedgerRow(env.entryId, row.wallet, tx, d.direction.value, row.amount, d.before.minor, wallet.balance.minor, wallet.version, env.now)
      ensures Running()
      ensures var more := [InsertLedger(entry)] + AddEvents(BalanceEvents(row, Some(entry), causation, env));
              if e.None? then statements == old(statements) + more
              else e.value == DatabaseError && Doomed(db, old(statements) + more)
    {
      var money := Money(row.amount, row.currency);
      var built := Domain.NewEntry(env.entryId, row.wallet, tx, d.direction.value, money, d.before, wallet.balance, env.now).value;
      var stored := LedgerRow(built.id, built.wallet, built.tx, built.direction, built.money.minor, built.before.minor, built.after.minor,
                              wallet.version, built.createdAt);
      entry := stored;
      var event := Outgoing(env.balanceEventId, row.wallet,
                            BalanceChanged(row.wallet, tx, d.direction.value, money, Money(d.before.minor, row.currency),
                                           Money(wallet.balance.minor, row.currency), wallet.version), causation, env.began);
      ghost var was := statements;
      ghost var more := [InsertLedger(entry)] + AddEvents(BalanceEvents(row, Some(entry), causation, env));
      assert more == [InsertLedger(stored), AddEvent(event)];
      var failed := Exec(InsertLedger(stored));
      if failed.Some? {
        DoomedExtends(db, was + [InsertLedger(stored)], [AddEvent(event)]);
        assert was + more == was + [InsertLedger(stored)] + [AddEvent(event)];
        return Some(DatabaseError), entry;
      }
      failed := Exec(AddEvent(event));
      assert was + more == was + [InsertLedger(stored)] + [AddEvent(event)];
      e := if failed.Some? then Some(DatabaseError) else None;
    }

    /** addWagerEvent; a failed transaction announces nothing. */
    method AnnounceStatus(tx: Id, row: TxRow, causation: string, env: Env) returns (e: Option<Error>)
      requires Running()
      modifies `statements
      ensures Running()
      ensures var more := AddEvents(WagerEvents(tx, row, causation, env));
              if e.None? then statements == old(statements) + more
              else e.value == DatabaseError && Doomed(db, old(statements) + more)
    {
      e := None;
      match WagerEvent(tx, Text(row.provider), row.kind, row.status, Text(row.failure))
      case None =>
        assert statements == statements + [];
      case Some(event) =>
        var outgoing := Outgoing(env.wagerEventId, row.wallet, event, causation, env.began);
        assert AddEvents(WagerEvents(tx, row, causation, env)) == [AddEvent(outgoing)];
        var failed := Exec(AddEvent(outgoing));
        e := if failed.Some? then Some(DatabaseError) else None;
    }

    /** What follows the wager row's statement: the wallet, its entry, and the events. */
    method Complete(id: Id, row: TxRow, snap: WalletRow, d: Decision, wallet: Wallet, causation: string, env: Env)
      returns (e: Option<Error>, ghost w: Write)
      requires Running()
      requires d.direction.Some? ==>
                 Domain.NewEntry(env.entryId, row.wallet, id, d.direction.value, Money(row.amount, row.currency), d.before, wallet.balance, env.now).Ok?
      modifies `statements
      ensures Running() && Completed(id, row, snap, d, wallet.Val(), causation, env) == Ok(w)
      ensures var more := MoveStatements(w) + AddEvents(w.events);
              if e.None? then statements == old(statements) + more
              else e.value == DatabaseError && Doomed(db, old(statements) + more)
    {
      ghost var was := statements;
      w := Completed(id, row, snap, d, wallet.Val(), causation, env).value;
      ghost var last := AddEvents(WagerEvents(id, row, causation, env));
      if d.direction.Some? {
        var next := snap.(balance := wallet.balance.minor, version := wallet.version, updatedAt := env.now);
        ghost var rest := [InsertLedger(w.entry.value)] + AddEvents(BalanceEvents(row, w.entry, causation, env));
        assert MoveStatements(w) + AddEvents(w.events) == [UpdateWallet(row.wallet, next)] + rest + last;
        var failed := Exec(UpdateWallet(row.wallet, next));
        if failed.Some? {
          DoomedExtends(db, was + [UpdateWallet(row.wallet, next)], rest + last);
          assert was + (MoveStatements(w) + AddEvents(w.events)) == was + [UpdateWallet(row.wallet, next)] + (rest + last);
          return Some(DatabaseError), w;
        }
        ghost var entry;
        e, entry := RecordMovement(row, id, d, wallet, causation, env);
        assert Some(entry) == w.entry;
        if e.Some? {
          DoomedExtends(db, was + [UpdateWallet(row.wallet, next)] + rest, last);
          assert was + (MoveStatements(w) + AddEvents(w.events)) == was + [UpdateWallet(row.wallet, next)] + rest + last;
          return e, w;
        }
        assert was + (MoveStatements(w) + AddEvents(w.events)) == statements + last;
      } else {
        assert MoveStatements(w) + AddEvents(w.events) == last;
      }
      e := AnnounceStatus(id, row, causation, env);
    }

    /** The wallet row, locked and rehydrated. */
    method LoadWallet(id: Id) returns (r: Result<WalletRow>)
      ensures r.Ok? ==> id in Work().wallets && r.value == Work().wallets[id] && ToWallet(id, r.value).Valid()
      ensures r == Err(NotFound) <==> id !in Work().wallets
      ensures id in Work().wallets ==>
                (r == Err(InvalidMoney) <==> !ValidCurrency(Work().wallets[id].currency))
                && (r == Err(InvalidWallet) <==> ValidCurrency(Work().wallets[id].currency) && !ToWallet(id, Work().wallets[id]).Valid())
                && (r.Err? ==> r.error == InvalidMoney || r.error == InvalidWallet)
    {
      var wallets := Work().wallets;
      if id !in wallets {
        return Err(NotFound);
      }
      var stored := MoneyFromMinor(wallets[id].balance, wallets[id].currency);
      if stored.Err? {
        return Err(stored.error);
      }
      if !ToWallet(id, wallets[id]).Valid() {
        return Err(InvalidWallet);
      }
      r := Ok(wallets[id]);
    }

    /** The decide callback, on a wallet object rehydrated from the snapshot. */
    method RunDecider(op: Operation, snap: WalletRow, view: Option<Reference>, decider: Decider, now: Time) returns (d: Decision, wallet: Wallet)
      ensures fresh(wallet) && (d, wallet.Val()) == DecideBy(decider, op, ToWallet(op.wallet, snap), view, now)
    {
      wallet := new Wallet(ToWallet(op.wallet, snap));
      match decider {
        case ByRules => d := DecideInPlace(op, wallet, view, now);
        case FailWith(code) => d := Decision(Failed, code, None, NO_MONEY, NIL);
      }
    }

    /** NewWagerTransaction and Transition. */
    method BuildRow(op: Operation, hash: Canonical, d: Decision, wallet: Wallet, env: Env) returns (r: Result<TxRow>)
      ensures match NewTx(NewData(op, hash, env))
              case Err(e) => r == Err(e)
              case Ok(data) =>
                match Transitioned(data, d.status, d.failure, wallet.balance, d.ref, env.now)
                case Err(e) => r == Err(e)
                case Ok(_) => r == Ok(NewRow(op, hash, d, wallet.Val(), env))
    {
      var built := NewTx(NewData(op, hash, env));
      if built.Err? {
        return Err(built.error);
      }
      var transaction := new WagerTransaction(built.value);
      var refused := transaction.Transition(d.status, d.failure, wallet.balance, d.ref, env.now);
      if refused.Some? {
        return Err(refused.value);
      }
      r := Ok(NewRow(op, hash, d, wallet.Val(), env));
    }

    /** The wager row's INSERT, its unique violation classified, and what follows it. */
    method InsertRow(id: Id, row: TxRow, snap: WalletRow, d: Decision, wallet: Wallet, causation: string, env: Env)
      returns (e: Option<Error>, ghost w: Write)
      requires Running()
      requires d.direction.Some? ==>
                 Domain.NewEntry(env.entryId, row.wallet, id, d.direction.value, Money(row.amount, row.currency), d.before, wallet.balance, env.now).Ok?
      modifies `statements
      ensures Running() && Completed(id, row, snap, d, wallet.Val(), causation, env) == Ok(w)
      ensures if e.None? then statements == old(statements) + Batch(true, w)
              else Doomed(db, old(statements) + Batch(true, w)) && (BreaksUnique(old(Work()), InsertTx(id, row)) ==> e.value == Conflict)
    {
      ghost var was := statements;
      w := Completed(id, row, snap, d, wallet.Val(), causation, env).value;
      InsertComesFirst(db, was, w);
      var failed := Exec(InsertTx(id, row));
      if failed.Some? {
        return Some(Classify(failed.value)), w;
      }
      ghost var again;
      e, again := Complete(id, row, snap, d, wallet, causation, env);
    }

    /** executeTx once no stored row shares the identity. */
    method ExecuteNew(op: Operation, hash: Canonical, snap: WalletRow, view: Option<Reference>, decider: Decider, causation: string, env: Env)
      returns (r: Result<Reply>)
      requires Running() && IdsGiven(env)
      modifies `statements
      ensures Running() && Queued(db, old(statements), FreshPlan(op, hash, snap, view, decider, causation, env), r, statements)
    {
      FreshPlanCases(op, hash, snap, view, decider, causation, env);
      var d, wallet := RunDecider(op, snap, view, decider, env.now);
      var built := BuildRow(op, hash, d, wallet, env);
      if built.Err? {
        return Err(built.error);
      }
      var e;
      ghost var w;
      e, w := InsertRow(env.txId, built.value, snap, d, wallet, causation, env);
      r := if e.Some? then Err(e.value) else Ok(Reply(env.txId, d.status, wallet.balance, d.failure, false));
    }

    /** executeTx */
    method ExecuteTx(op: Operation, hash: Canonical, decider: Decider, causation: string, env: Env) returns (r: Result<Reply>, ghost p: Plan)
      requires Running() && IdsGiven(env)
      modifies `statements
      ensures Running() && Planned(old(Work()), op, hash, decider, causation, env, p)
      ensures Queued(db, old(statements), p, r, statements)
    {
      var at := Work();
      var loaded := LoadWallet(op.wallet);
      if loaded.Err? {
        return Err(loaded.error), Stop(loaded.error);
      }
      var snap := loaded.value;
      if id :| id in at.txs && SameOp(at.txs[id], op) {
        p := Answer(id, at.txs[id], op, hash, snap.currency);
        assert PlannedFrom(at, op, hash, id, p);
        var existing := at.txs[id];
        if existing.result.None? {
          return Err(DatabaseError), p;
        }
        if existing.hash != Some(hash) || existing.key != Some(op.key) {
          return Err(Conflict), p;
        }
        return Ok(Reply(id, existing.status, Money(existing.result.value, snap.currency), Text(existing.failure), true)), p;
      }
      var view := None;
      if op.refExternal != "" {
        var read := ReadReference(op.provider, op.refExternal);
        if read.Err? {
          ghost var bad :| ReadsReference(at.txs, op.provider, op.refExternal, bad) && bad.Some? && !bad.value.money.Valid();
          assert PlannedOn(at, op, hash, bad, decider, causation, env, Stop(InvalidMoney));
          return Err(read.error), Stop(InvalidMoney);
        }
        view := read.value;
      }
      p := FreshPlan(op, hash, snap, view, decider, causation, env);
      assert PlannedOn(at, op, hash, view, decider, causation, env, p);
      r := ExecuteNew(op, hash, snap, view, decider, causation, env);
    }

    /** Commit on success; the deferred rollback otherwise. */
    method Finish(queued: Result<Reply>, ghost p: Plan) returns (r: Result<Reply>)
      requires Running() && Queued(db, [], p, queued, statements)
      modifies this
      ensures Executed(old(db), p, r, db)
    {
      r := queued;
      if r.Ok? {
        ghost var b := statements;
        var e := Commit();
        if e.Some? {
          QueuedThenRefused(db, p, queued, b);
          return Err(e.value);
        }
      }
      QueuedThenCommitted(old(db), p, queued, old(statements));
    }

    /** Execute */
    method Execute(op: Operation, hash: Canonical, decider: Decider, env: Env) returns (r: Result<Reply>, ghost p: Plan)
      requires IdsGiven(env)
      modifies this
      ensures Planned(old(db), op, hash, decider, "", env, p) && Executed(old(db), p, r, db)
      ensures SoundCall(old(db), op, hash, env) ==> Sound(db) && (p.Do? ==> r == Ok(p.reply) && db == Record(old(db), p.write))
    {
      Begin();
      r, p := ExecuteTx(op, hash, decider, "", env);
      r := Finish(r, p);
      if SoundCall(old(db), op, hash, env) {
        SoundExecution(old(db), op, decider, "", env, p, r, db);
      }
    }

    // ---- wallet creation ----

    /** Statements one after another, up to the first that fails. */
    method ExecInTurn(cs: seq<Change>) returns (e: Option<Error>)
      requires Running()
      modifies `statements
      ensures Running()
      ensures if e.None? then statements == old(statements) + cs else e.value == DatabaseError && Doomed(db, old(statements) + cs)
    {
      var k := 0;
      while k < |cs|
        invariant 0 <= k <= |cs| && Running() && statements == old(statements) + cs[..k]
      {
        ghost var was := statements;
        var failed := Exec(cs[k]);
        if failed.Some? {
          DoomedExtends(db, was + [cs[k]], cs[k + 1..]);
          assert old(statements) + cs == was + [cs[k]] + cs[k + 1..];
          return Some(DatabaseError);
        }
        k := k + 1;
      }
      assert cs[..k] == cs;
      e := None;
    }

    /** CreateWallet */
    method CreateWallet(w: WalletVal, env: Env) returns (e: Option<Error>)
      requires w.Valid() && IdsGiven(env)
      modifies this
      ensures e.None? <==> Accepted(old(db), OpenBatch(w, env))
      ensures db == if e.None? then Final(old(db), OpenBatch(w, env)) else old(db)
      ensures w.id in old(db).wallets
              || (exists o | o in old(db).wallets :: old(db).wallets[o].player == w.player && old(db).wallets[o].currency == w.balance.currency) ==>
                e == Some(Conflict) && db == old(db)
      ensures Sound(old(db)) && OpenOk(old(db), w, env) ==> e.None? && db == Opened(old(db), w, env) && Sound(db)
    {
      Begin();
      ghost var a := db;
      ghost var b := OpenBatch(w, env);
      assert b[0] == InsertWallet(w.id, WalletRowOf(w)) && statements + [b[0]] == [b[0]];
      if Sound(a) && OpenOk(a, w, env) {
        OpenCommits(a, w, env);
        OpenKeepsSound(a, w, env);
      }
      var failed := Exec(InsertWallet(w.id, WalletRowOf(w)));
      assert failed.Some? ==> !Immediate(a, b) by {
        if failed.Some? {
          DoomedExtends(a, [b[0]], b[1..]);
          assert b == [b[0]] + b[1..];
          DoomedExtends(a, b, []);
        }
      }
      if failed.Some? {
        return Some(Classify(failed.value));
      }
      AllowedBreaksNothing(a, b[0]);
      if w.balance.IsPositive() {
        var opening := NewOpeningTx(env.txId, w.id, w.player, w.balance, w.createdAt);
        if opening.Err? {
          assert false;
        }
        var entry := Domain.NewEntry(env.entryId, w.id, env.txId, Credit, w.balance, Money(0, w.balance.currency), w.balance, w.createdAt);
        if entry.Err? {
          assert false;
        }
        var o := OpeningWrite(w, env);
        assert b == statements + ([InsertTx(o.id, o.row), InsertLedger(o.entry.value)] + AddEvents(o.events));
        e := ExecInTurn([InsertTx(o.id, o.row), InsertLedger(o.entry.value)] + AddEvents(o.events));
        if e.Some? {
          DoomedExtends(a, b, []);
          return;
        }
      }
      assert statements == b;
      e := Commit();
    }

    // ---- the resolver ----

    /** SELECT ... ORDER BY next_attempt_at, id FOR UPDATE SKIP LOCKED LIMIT 1 */
    method PickDue(locked: set<Id>, began: Time) returns (pick: Option<Id>)
      ensures Picks(Work(), locked, began, pick)
    {
      var at := Work();
      var todo := at.txs.Keys - locked;
      pick := None;
      while todo != {}
        invariant todo <= at.txs.Keys - locked
        invariant pick.Some? ==> Due(at, pick.value, began) && pick.value !in locked
        invariant forall i | i in at.txs && i !in locked && i !in todo && Due(at, i, began) :: pick.Some? && Before(at, pick.value, i)
        decreases |todo|
      {
        var i :| i in todo;
        todo := todo - {i};
        if Due(at, i, began) && (pick.None? || !Before(at, pick.value, i)) {
          pick := Some(i);
        }
      }
    }

    /** The visit's decision and its statements, on the row and wallet it has read. */
    method WriteVisit(id: Id, t: TxRow, snap: WalletRow, view: Option<Reference>, env: Env) returns (e: Option<Error>)
      requires Running() && statements == [] && t.attempts >= 0
      modifies `statements
      ensures Running()
      ensures var s := Resolution(id, t, snap, view, env);
              if e.None? then !s.Broken? && statements == Batch(false, WriteOf(id, snap, s))
              else s.Broken? || Doomed(db, Batch(false, WriteOf(id, snap, s)))
    {
      ghost var s := Resolution(id, t, snap, view, env);
      ResolutionCases(id, t, snap, view, env);
      var d, wallet := RunDecider(OpOf(t), snap, view, ByRules, env.now);
      if d.status == PendingReference {
        if t.attempts + 1 < MAX_ATTEMPTS {
          var failed := Exec(UpdateTx(id, Postpone(t, env.now)));
          assert Batch(false, WriteOf(id, snap, s)) == [] + [UpdateTx(id, Postpone(t, env.now))];
          return if failed.Some? then Some(DatabaseError) else None;
        }
        d := Reject(REFERENCE_NOT_FOUND);
      }
      var state := new TransactionState(PendingReference);
      var refused := state.Transition(d.status);
      if refused.Some? {
        assert false;
      }
      e := SettleRow(id, SettledRow(t, d, wallet.Val(), env.now), snap, d, wallet, env);
    }

    method SettleRow(id: Id, row: TxRow, snap: WalletRow, d: Decision, wallet: Wallet, env: Env) returns (e: Option<Error>)
      requires Running() && statements == []
      modifies `statements
      ensures Running()
      ensures var w := Completed(id, row, snap, d, wallet.Val(), "", env);
              if e.None? then w.Ok? && statements == Batch(false, w.value) else w.Err? || Doomed(db, Batch(false, w.value))
    {
      if d.direction.Some? {
        var entry := Domain.NewEntry(env.entryId, row.wallet, id, d.direction.value, Money(row.amount, row.currency), d.before, wallet.balance, env.now);
        if entry.Err? {
          return Some(entry.error);
        }
      }
      var failed := Exec(UpdateTx(id, row));
      ghost var w := Completed(id, row, snap, d, wallet.Val(), "", env).value;
      ghost var rest := MoveStatements(w) + AddEvents(w.events);
      assert Batch(false, w) == [] + [UpdateTx(id, row)] + rest;
      if failed.Some? {
        DoomedExtends(db, [] + [UpdateTx(id, row)], rest);
        return Some(DatabaseError);
      }
      ghost var again;
      e, again := Complete(id, row, snap, d, wallet, "", env);
    }

    /** The visit to the row it picked. */
    method Visit(id: Id, t: TxRow, env: Env) returns (e: Option<Error>, ghost view: Option<Reference>)
      requires Running() && statements == [] && id in db.txs && t == db.txs[id]
      modifies this
      ensures if e.None? then Resolved(old(db), id, view, env, db) else db == old(db) && Unresolvable(old(db), id, env)
    {
      view := None;
      if t.external.None? || t.provider.None? || t.key.None? || t.round.None? || t.game.None? || t.refExternal.None? || t.attempts < 0 {
        return Some(DatabaseError), view;
      }
      var money := MoneyFromMinor(t.amount, t.currency);
      if money.Err? {
        return Some(money.error), view;
      }
      var loaded := LoadWallet(t.wallet);
      if loaded.Err? {
        return Some(if loaded.error == NotFound then DatabaseError else loaded.error), view;
      }
      var snap := loaded.value;
      var read := ReadReference(t.provider.value, t.refExternal.value);
      if read.Err? {
        ghost var bad :| ReadsReference(db.txs, t.provider.value, t.refExternal.value, bad) && bad.Some? && !bad.value.money.Valid();
        assert ReadsFor(db, id, bad);
        return Some(read.error), view;
      }
      view := read.value;
      assert ReadsFor(db, id, view);
      e := WriteVisit(id, t, snap, read.value, env);
      ghost var s := VisitOutcome(db, id, view, env);
      if e.Some? {
        if !s.Broken? {
          DoomedExtends(db, Batch(false, WriteOf(id, snap, s)), []);
        }
        return e, view;
      }
      e := Commit();
    }

    /** ResolvePendingReference, other resolvers holding the rows in `locked`. */
    method ResolvePendingReference(locked: set<Id>, env: Env) returns (r: Result<bool>, ghost pick: Option<Id>, ghost view: Option<Reference>)
      modifies this
      ensures Picks(old(db), locked, env.began, pick)
      ensures pick.None? ==> r == Ok(false) && db == old(db)
      ensures pick.Some? ==> Waits(old(db), pick.value, env.began) && pick.value !in locked
      ensures forall i | Waits(old(db), i, env.began) && i !in locked ::
                pick.Some? && (i == pick.value || DueBefore(old(db), pick.value, i))
      ensures pick.Some? ==>
                if r.Ok? then r.value && Resolved(old(db), pick.value, view, env, db)
                else db == old(db) && Unresolvable(old(db), pick.value, env)
      ensures pick.Some? && SoundVisit(old(db), pick.value, env) ==> r.Ok? && Sound(db)
    {
      Begin();
      ghost var a := db;
      view := None;
      var picked := PickDue(locked, env.began);
      pick := picked;
      if picked.None? {
        var ended := Commit();
        return Ok(false), pick, view;
      }
      var e;
      e, view := Visit(picked.value, db.txs[picked.value], env);
      r := if e.Some? then Err(e.value) else Ok(true);
      if SoundVisit(a, picked.value, env) {
        SoundVisitResolves(a, picked.value, env);
        if e.None? {
          ResolvedKeepsSound(a, picked.value, view, env, db);
        }
      }
    }

    // ---- the inbox ----

    /** The message is inserted unless it is known; the payload then on record must be this one. */
    method RecordMessage(key: InboxKey, payload: string) returns (inbox: map<InboxKey, InboxRow>)
      modifies `statements
      ensures Running() && statements == [WriteInbox(inbox)] && Work() == db.(inbox := inbox)
      ensures inbox == if key in db.inbox then db.inbox else db.inbox[key := InboxRow(payload, false)]
    {
      Begin();
      inbox := if key in db.inbox then db.inbox else db.inbox[key := InboxRow(payload, false)];
      var ignored := Exec(WriteInbox(inbox));
      if ignored.Some? {
        assert false;
      }
    }

    /** ExecuteInbox: the message is recorded, deduplicated by consumer and id, and completed with the operation. */
    method ExecuteInbox(key: InboxKey, payload: string, op: Operation, hash: Canonical, decider: Decider, env: Env)
      returns (r: Result<Reply>, ghost p: Plan)
      requires IdsGiven(env)
      modifies this
      ensures Recorded(old(db), key, payload) != payload ==> r == Err(Conflict) && db == old(db)
      ensures Recorded(old(db), key, payload) == payload ==>
                && Planned(old(db), op, hash, decider, key.message, env, p)
                && Executed(old(db), p, r, db.(inbox := old(db).inbox))
                && db.inbox == if r.Ok? then old(db).inbox[key := InboxRow(payload, true)] else old(db).inbox
    {
      var inbox := RecordMessage(key, payload);
      if inbox[key].payload != payload {
        p := Stop(Conflict);
        return Err(Conflict), p;
      }
      r, p := ExecuteRecorded(key, inbox, op, hash, decider, env);
    }

    /** The operation of a message on record, and the message's completion. */
    method ExecuteRecorded(key: InboxKey, inbox: map<InboxKey, InboxRow>, op: Operation, hash: Canonical, decider: Decider, env: Env)
      returns (r: Result<Reply>, ghost p: Plan)
      requires IdsGiven(env) && Running() && statements == [WriteInbox(inbox)] && Work() == db.(inbox := inbox)
      requires key in inbox && inbox - {key} == db.inbox - {key}
      modifies this
      ensures Planned(old(db), op, hash, decider, key.message, env, p) && Executed(old(db), p, r, db.(inbox := old(db).inbox))
      ensures db.inbox == if r.Ok? then inbox[key := InboxRow(inbox[key].payload, true)] else old(db).inbox
    {
      r, p := ExecuteTx(op, hash, decider, key.message, env);
      PlannedIgnoresInbox(db, inbox, op, hash, decider, key.message, env, p);
      r := FinishInbox(r, p, key, inbox);
    }

    /** Complete the message and commit. */
    method FinishInbox(queued: Result<Reply>, ghost p: Plan, key: InboxKey, inbox: map<InboxKey, InboxRow>) returns (r: Result<Reply>)
      requires Running() && Queued(db, [WriteInbox(inbox)], p, queued, statements)
      requires key in inbox && inbox - {key} == db.inbox - {key}
      modifies this
      ensures Executed(old(db), p, r, db.(inbox := old(db).inbox))
      ensures db.inbox == if r.Ok? then inbox[key := InboxRow(inbox[key].payload, true)] else old(db).inbox
    {
      ghost var a := db;
      r := queued;
      if r.Err? {
        InboxFailed(a, inbox, p, queued, statements);
        return;
      }
      ghost var b := statements;
      ghost var post := [];
      if !inbox[key].completed {
        var done := inbox[key := inbox[key].(completed := true)];
        post := [WriteInbox(done)];
        var ignored := Exec(WriteInbox(done));
        if ignored.Some? {
          assert false;
        }
      }
      assert statements == b + post;
      InboxDone(a, inbox, p, queued, b, post);
      var e := Commit();
      if e.Some? {
        r := Err(e.value);
      }
    }

    // ---- queries ----

    /** ListLedger: `limit + 1` rows are fetched, and the extra one only tells that there are more. */
    method ListLedger(w: Id, cursor: Option<Cursor>, limit: nat) returns (r: Result<Page>)
      requires limit >= 1
      ensures r == Err(NotFound) <==> w !in db.wallets
      ensures w in db.wallets && ValidCurrency(db.wallets[w].currency) ==> r == Ok(PageOf(Ordered(db.ledger, w), cursor, limit))
    {
      if w !in db.wallets {
        return Err(NotFound);
      }
      var rows := Take(Remaining(Ordered(db.ledger, w), cursor), limit + 1);
      var entries := [];
      for k := 0 to |rows|
        invariant entries == rows[..k]
      {
        var money := MoneyFromMinor(rows[k].amount, db.wallets[w].currency);
        if money.Err? {
          return Err(money.error);
        }
        entries := entries + [rows[k]];
      }
      assert rows[..|rows|] == rows;
      if |entries| > limit {
        var last := entries[limit - 1];
        assert entries[..limit] == Remaining(Ordered(db.ledger, w), cursor)[..limit];
        return Ok(Page(entries[..limit], Some(Cursor(last.createdAt, last.id))));
      }
      r := Ok(Page(entries, None));
    }

    method SumLedger(w: Id) returns (sum: int, count: nat)
      ensures sum == Net(History(db.ledger, w)) && count == |History(db.ledger, w)|
    {
      var l := db.ledger;
      sum, count := 0, 0;
      for k := 0 to |l|
        invariant sum == Net(History(l[..k], w)) && count == |History(l[..k], w)|
      {
        HistoryNext(l, w, k);
        if l[k].wallet == w {
          sum := if l[k].direction == Credit then sum + l[k].amount else sum - l[k].amount;
          count := count + 1;
        }
      }
      assert l[..|l|] == l;
    }

    /** ReconcileWallet: the ledger is summed afresh and compared with the stored balance. */
    method ReconcileWallet(w: Id) returns (r: Result<Reconciliation>)
      ensures r == Err(NotFound) <==> w !in db.wallets
      ensures w in db.wallets && r.Ok? ==>
                && r.value.stored == Money(db.wallets[w].balance, db.wallets[w].currency)
                && r.value.calculated.minor == Net(History(db.ledger, w))
                && r.value.difference.minor == db.wallets[w].balance - Net(History(db.ledger, w))
                && (r.value.consistent <==> db.wallets[w].balance == Net(History(db.ledger, w)))
                && r.value.checked == |History(db.ledger, w)|
      ensures w in db.wallets && Sound(db) ==> r.Ok? && r.value.consistent && r.value.difference.minor == 0
    {
      if w !in db.wallets {
        return Err(NotFound);
      }
      var row := db.wallets[w];
      var sum, count := SumLedger(w);
      if Sound(db) {
        SoundReconciles(db, w);
      }
      if !(MIN_INT64 <= sum <= MAX_INT64) {
        return Err(DatabaseError);
      }
      var stored := MoneyFromMinor(row.balance, row.currency);
      if stored.Err? {
        return Err(stored.error);
      }
      var calculated := MoneyFromMinor(sum, row.currency);
      if calculated.Err? {
        assert false;
      }
      var difference := stored.value.Sub(calculated.value);
      if difference.Err? {
        return Err(difference.error);
      }
      r := Ok(Reconciliation(stored.value, calculated.value, difference.value, difference.value.IsZero(), count));
    }

    /** GetTransaction: scanTransaction re-validates the stored row. */
    method GetTransaction(id: Id) returns (r: Result<TxData>)
      ensures r == Err(NotFound) <==> id !in db.txs
      ensures r.Ok? ==> ReadsBack(id, db.txs[id], r.value) && ValidTx(r.value)
      ensures id in db.txs && RowsOk(db) ==> r.Ok?
    {
      if id !in db.txs {
        return Err(NotFound);
      }
      var t := db.txs[id];
      if RowsOk(db) {
        assert RowAt(db, id);
      }
      var money := MoneyFromMinor(t.amount, t.currency);
      if money.Err? {
        return Err(money.error);
      }
      var data := DataOf(id, t);
      if !ValidTx(data) {
        return Err(InvalidTransaction);
      }
      r := Ok(data);
    }

    // ---- the outbox ----

    /** The claimable row of least occurrence among those not yet picked. */
    method PickEvent(picked: seq<nat>, now: Time) returns (best: Option<nat>)
      ensures best.Some? ==> best.value < |db.outbox| && best.value !in picked && Outbox.Claimable(db.outbox[best.value], now)
      ensures forall i | 0 <= i < |db.outbox| && i !in picked && Outbox.Claimable(db.outbox[i], now) ::
                best.Some? && db.outbox[best.value].occurredAt <= db.outbox[i].occurredAt
    {
      best := None;
      for k := 0 to |db.outbox|
        invariant best.Some? ==> best.value < k && best.value !in picked && Outbox.Claimable(db.outbox[best.value], now)
        invariant forall i | 0 <= i < k && i !in picked && Outbox.Claimable(db.outbox[i], now) ::
                    best.Some? && db.outbox[best.value].occurredAt <= db.outbox[i].occurredAt
      {
        if k !in picked && Outbox.Claimable(db.outbox[k], now)
           && (best.None? || db.outbox[k].occurredAt < db.outbox[best.value].occurredAt) {
          best := Some(k);
        }
      }
    }

    /** ClaimOutbox: the earliest claimable events, at most `limit`, each leased for thirty seconds. */
    method ClaimOutbox(limit: nat, now: Time) returns (batch: seq<OutboxRow>, ghost picked: seq<nat>)
      modifies `db
      ensures Outbox.ClaimedAs(old(db.outbox), picked, db.outbox, now)
      ensures Outbox.EarliestFirst(old(db.outbox), picked, limit, now)
      ensures batch == Outbox.RowsAt(old(db.outbox), picked) && db == old(db).(outbox := db.outbox)
    {
      var a := db.outbox;
      var chosen: seq<nat> := [];
      var best: Option<nat> := Some(0);
      while |chosen| < limit && best.Some?
        invariant db == old(db) && |chosen| <= limit
        invariant forall k | 0 <= k < |chosen| :: chosen[k] < |a| && Outbox.Claimable(a[chosen[k]], now)
        invariant forall j, k | 0 <= j < k < |chosen| :: chosen[j] != chosen[k]
        invariant forall i, k | 0 <= i < |a| && i !in chosen && Outbox.Claimable(a[i], now) && 0 <= k < |chosen| ::
                    a[chosen[k]].occurredAt <= a[i].occurredAt
        invariant best.None? ==> forall i | 0 <= i < |a| && i !in chosen :: !Outbox.Claimable(a[i], now)
        decreases limit - |chosen|, if best.Some? then 1 else 0
      {
        best := PickEvent(chosen, now);
        if best.Some? {
          chosen := chosen + [best.value];
        }
      }
      batch := Outbox.RowsAt(a, chosen);
      picked := chosen;
      db := db.(outbox := seq(|a|, i requires 0 <= i < |a| => if i in chosen then Outbox.Claim(a[i], now) else a[i]));
    }

    method MarkOutboxPublished(id: Id, now: Time)
      modifies `db
      ensures db == old(db).(outbox := Outbox.MarkAll(old(db.outbox), id, now))
      ensures forall i | 0 <= i < |db.outbox| && db.outbox[i].id == id && old(db).outbox[i].published.None? ::
                db.outbox[i].published == Some(now) && db.outbox[i].claimed.None?
      ensures forall i | 0 <= i < |db.outbox| && (db.outbox[i].id != id || old(db).outbox[i].published.Some?) :: db.outbox[i] == old(db).outbox[i]
    {
      db := db.(outbox := Outbox.MarkAll(db.outbox, id, now));
    }

    method RetryOutbox(id: Id, delay: int, now: Time)
      modifies `db
      ensures db == old(db).(outbox := Outbox.RetryAll(old(db.outbox), id, delay, now))
      ensures forall i | 0 <= i < |db.outbox| && db.outbox[i].id == id && db.outbox[i].published.None? ::
                && db.outbox[i].nextAttempt == now + delay && db.outbox[i].attempts == old(db).outbox[i].attempts + 1
                && db.outbox[i].claimed.None?
      ensures forall i | 0 <= i < |db.outbox| && (db.outbox[i].id != id || old(db).outbox[i].published.Some?) :: db.outbox[i] == old(db).outbox[i]
    {
      db := db.(outbox := Outbox.RetryAll(db.outbox, id, delay, now));
    }
  }

  lemma SoundReconciles(db: Db, w: Id)
    requires Sound(db) && w in db.wallets
    ensures Net(History(db.ledger, w)) == db.wallets[w].balance && ValidCurrency(db.wallets[w].currency)
  {
    Conserved(db, w);
    assert WalletOk(w, db.wallets[w]);
  }

  lemma HistoryNext(l: seq<LedgerRow>, w: Id, k: nat)
    requires k < |l|
    ensures Net(History(l[..k + 1], w)) == Net(History(l[..k], w)) + (if l[k].wallet == w then Signed(l[k].direction, l[k].amount) else 0)
    ensures |History(l[..k + 1], w)| == |History(l[..k], w)| + (if l[k].wallet == w then 1 else 0)
  {
    assert l[..k + 1][..k] == l[..k];
    var h := History(l[..k], w);
    assert (h + [l[k]])[..|h|] == h;
    assert h + [] == h;
  }
}
