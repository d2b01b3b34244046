/** What becomes of a submission, told from the stored rows alone: which reference serves, which verdict follows, and what
    every table then holds. */
module Acceptance {
  import opened Prelude
  import opened MoneyModel
  import opened Domain
  import opened Decision
  import opened Schema
  import opened Integrity
  import opened Writes
  import opened Invariant
  import opened Preservation
  import opened Idempotency
  import opened Steps
  import opened UseCases
  import opened Calls
  import opened EventLog

  // ---- the rules, over rows ----

  /** The row is the one the operation refers to. */
  predicate Bears(t: TxRow, op: Operation) {
    t.provider == Some(op.provider) && t.external == Some(op.refExternal)
  }

  predicate Undoes(t: TxRow, id: Id) {
    t.status == Processed && (t.kind == Refund || t.kind == Rollback) && t.ref == Some(id)
  }

  ghost predicate Undone(txs: map<Id, TxRow>, id: Id) {
    exists r | r in txs :: Undoes(txs[r], id)
  }

  /** The operation may build on the row. */
  ghost predicate Serves(txs: map<Id, TxRow>, id: Id, op: Operation)
    requires id in txs
  {
    var t := txs[id];
    && t.status == Processed && t.wallet == op.wallet && t.player == op.player && t.round == Some(op.round) && t.currency == op.money.currency
    && match op.kind
       case Win => t.kind == Bet
       case Refund => t.kind == Bet && t.amount == op.money.minor && !Undone(txs, id)
       case Rollback => (t.kind == Bet || t.kind == Win || t.kind == Refund) && t.amount == op.money.minor && !Undone(txs, id)
       case _ => false
  }

  /** A verdict: the status and code the row gets, the row it rests on, and by how much the balance changes. */
  datatype Ending = Ending(status: Status, failure: Option<string>, ref: Option<Id>, change: int)

  function Refuse(code: string): Ending {
    Ending(Rejected, Some(code), None, 0)
  }

  /** A wallet that no movement can be made on: its last one lies ahead of the clock, or its version is the last there is. */
  predicate Stuck(w: WalletRow, now: Time) {
    now < w.updatedAt || w.version == 0x7FFF_FFFF_FFFF_FFFF
  }

  function Paid(w: WalletRow, amount: int, ref: Option<Id>, now: Time): Ending {
    if Stuck(w, now) || w.balance + amount > 0x7FFF_FFFF_FFFF_FFFF then Refuse("AMOUNT_OVERFLOW") else Ending(Processed, None, ref, amount)
  }

  function Taken(w: WalletRow, amount: int, ref: Option<Id>, short: string, now: Time): Ending {
    if Stuck(w, now) then Refuse("AMOUNT_OVERFLOW")
    else if w.balance < amount then Refuse(short)
    else Ending(Processed, None, ref, -amount)
  }

  /** An operation that needs its reference: it waits while no row bears the name or the one that does is not final. */
  ghost predicate RuledByReference(db: Db, op: Operation, now: Time, e: Ending)
    requires op.wallet in db.wallets
  {
    if forall i | i in db.txs && Bears(db.txs[i], op) :: db.txs[i].status == Pending || db.txs[i].status == PendingReference then
      e == Ending(PendingReference, None, None, 0)
    else
      exists i | i in db.txs && Bears(db.txs[i], op) :: RuledByRow(db, op, i, now, e)
  }

  ghost predicate RuledByRow(db: Db, op: Operation, i: Id, now: Time, e: Ending)
    requires op.wallet in db.wallets && i in db.txs
  {
    var w := db.wallets[op.wallet];
    if !Serves(db.txs, i, op) then e == Refuse("INVALID_REFERENCE")
    else if op.kind == Rollback && db.txs[i].kind != Bet then e == Taken(w, op.money.minor, Some(i), "REVERSAL_INSUFFICIENT_FUNDS", now)
    else e == Paid(w, op.money.minor, Some(i), now)
  }

  /** The verdict on a valid operation in the wallet's currency. */
  ghost predicate Ruled(db: Db, op: Operation, now: Time, e: Ending)
    requires op.wallet in db.wallets
  {
    var w := db.wallets[op.wallet];
    if w.player != op.player then e == Refuse("WALLET_MISMATCH")
    else match op.kind
         case Bet => e == Taken(w, op.money.minor, None, "INSUFFICIENT_FUNDS", now)
         case Win => if op.refExternal == "" then e == Paid(w, op.money.minor, None, now) else RuledByReference(db, op, now, e)
         case Loss => e == Ending(Processed, None, None, 0)
         case Refund => RuledByReference(db, op, now, e)
         case Rollback => RuledByReference(db, op, now, e)
         case Opening => false
  }

  /** The rules leave exactly one verdict. */
  lemma RuledOnce(db: Db, op: Operation, now: Time, a: Ending, b: Ending)
    requires KeysUnique(db) && op.wallet in db.wallets && Ruled(db, op, now, a) && Ruled(db, op, now, b)
    ensures a == b
  {
    if a != b {
      var i :| i in db.txs && Bears(db.txs[i], op) && RuledByRow(db, op, i, now, a);
      var j :| j in db.txs && Bears(db.txs[j], op) && RuledByRow(db, op, j, now, b);
      IdentityIsUnique(db, i, j);
    }
  }

  /** The text has a character that is not Unicode white space. */
  predicate Says(text: string) {
    exists i | 0 <= i < |text| :: Prints(text[i] as int)
  }

  /** The code point is none of Unicode's white space. */
  predicate Prints(code: int) {
    && !(9 <= code <= 13) && code != 32 && code != 133 && code != 160 && code != 5760 && !(8192 <= code <= 8202)
    && code != 8232 && code != 8233 && code != 8239 && code != 8287 && code != 12288
  }

  lemma SaysExact(text: string)
    ensures Says(text) <==> !Blank(text)
  {
    if Says(text) {
      var i :| 0 <= i < |text| && Prints(text[i] as int);
      assert text[i] in text && !IsSpace(text[i]);
    }
    if !Blank(text) {
      var c :| c in text && !IsSpace(c);
      var i :| 0 <= i < |text| && text[i] == c;
      assert Prints(text[i] as int);
    }
  }

  /** Three capital letters. */
  predicate IsCode(code: string) {
    |code| == 3 && forall i | 0 <= i < 3 :: 'A' <= code[i] <= 'Z'
  }

  lemma CodeExact(code: string)
    ensures ValidCurrency(code) <==> IsCode(code) && code in IsoCodes
  {
    forall i | 0 <= i < |code| ensures code[i] in code {
    }
    if IsCode(code) {
      forall c | c in code ensures 'A' <= c <= 'Z' {
        var i :| 0 <= i < 3 && code[i] == c;
      }
    }
  }

  /** What the use case lets through: five texts that say something, two identifiers, a valid currency, and for each kind
      the amounts and the reference it may have. */
  lemma AdmissibleExact(op: Operation)
    ensures Admissible(op) <==>
            && Says(op.provider) && Says(op.external) && Says(op.key) && Says(op.round) && Says(op.game)
            && op.player != 0 && op.wallet != 0
            && IsCode(op.money.currency) && op.money.currency in IsoCodes
            && match op.kind
               case Bet => op.money.minor > 0 && op.refExternal == ""
               case Win => op.money.minor > 0
               case Loss => op.money.minor == 0 && op.refExternal == ""
               case Refund => op.money.minor > 0 && op.refExternal != ""
               case Rollback => op.money.minor > 0 && op.refExternal != ""
               case Opening => false
  {
    CodeExact(op.money.currency);
    SaysExact(op.provider);
    SaysExact(op.external);
    SaysExact(op.key);
    SaysExact(op.round);
    SaysExact(op.game);
  }

  /** What Fail lets through leaves the round and the game to the row's own construction. */
  lemma FailableExact(op: Operation, code: string)
    ensures Failable(op, code) <==>
            && Says(code) && Says(op.provider) && Says(op.external) && Says(op.key) && op.player != 0 && op.wallet != 0
            && ValidOperation(op.kind, op.money, op.refExternal)
  {
    SaysExact(code);
    SaysExact(op.provider);
    SaysExact(op.external);
    SaysExact(op.key);
  }

  /** The wallets that rehydrate. */
  lemma WalletExact(w: WalletVal)
    ensures w.Valid() <==>
            && w.id != 0 && w.player != 0 && IsCode(w.balance.currency) && w.balance.currency in IsoCodes
            && w.balance.minor >= 0 && w.version >= 1 && w.createdAt != 0 && w.updatedAt != 0 && w.createdAt <= w.updatedAt
  {
    CodeExact(w.balance.currency);
  }

  /** The transactions that rehydrate: real identifiers and instants, an amount that is not negative, a result in the same
      currency from the first transition on, a code exactly with REJECTED and FAILED; an opening is processed, positive, its
      own result, and nothing else; any other is an operation the use case would let through. */
  lemma TransactionExact(d: TxData)
    ensures ValidTx(d) <==>
            && d.id != 0 && d.wallet != 0 && d.player != 0 && ValidCurrency(d.money.currency) && d.money.minor >= 0
            && d.createdAt != 0 && d.updatedAt != 0 && d.createdAt <= d.updatedAt
            && (ValidCurrency(d.result.currency) ==> d.result.currency == d.money.currency && d.result.minor >= 0)
            && (ValidCurrency(d.result.currency) || d.status == Pending)
            && (if d.status == Rejected || d.status == Failed then d.failure != "" else d.failure == "")
            && if d.kind == Opening then
                 && d.money.minor > 0 && d.status == Processed && d.result == d.money && d.hash.None? && d.ref == 0
                 && d.provider == d.external == d.key == d.round == d.game == d.refExternal == ""
               else
                 && d.hash.Some? && Says(d.provider) && Says(d.external) && Says(d.key) && Says(d.round) && Says(d.game)
                 && ValidOperation(d.kind, d.money, d.refExternal)
  {
    SaysExact(d.provider);
    SaysExact(d.external);
    SaysExact(d.key);
    SaysExact(d.round);
    SaysExact(d.game);
  }

  // ---- what the tables then hold ----

  /** The stored row states the operation, column by column. */
  predicate States(t: TxRow, op: Operation) {
    && t.external == Some(op.external) && t.provider == Some(op.provider) && t.key == Some(op.key)
    && t.wallet == op.wallet && t.player == op.player && t.round == Some(op.round) && t.game == Some(op.game)
    && t.kind == op.kind && t.amount == op.money.minor && t.currency == op.money.currency
    && t.refExternal == (if op.refExternal == "" then None else Some(op.refExternal))
  }

  /** The row carries the verdict and the balance it left. */
  predicate Concludes(t: TxRow, e: Ending, before: int) {
    && t.status == e.status && t.failure == e.failure && t.ref == e.ref
    && t.result.Some? && t.result.value == before + e.change
  }

  /** The wallet moved by the verdict's change, in one entry of the row's, or not at all. */
  predicate MovedAs(was: WalletRow, w: Write, wallet: Id, e: Ending, entryId: Id, now: Time) {
    if e.change == 0 then w.entry.None? && w.wallet == was
    else
      && w.wallet == was.(balance := w.wallet.balance, version := w.wallet.version, updatedAt := now)
      && w.wallet.balance == was.balance + e.change && w.wallet.version == was.version + 1
      && w.entry.Some?
      && var l := w.entry.value;
         && l.id == entryId && l.wallet == wallet && l.tx == w.id && l.createdAt == now
         && l.direction == (if e.change > 0 then Credit else Debit) && l.amount == (if e.change > 0 then e.change else -e.change)
         && l.before == was.balance && l.after == was.balance + e.change && l.version == was.version + 1
  }

  /** What the verdict is announced as. A recorded failure is not announced. */
  function NewsOf(tx: Id, op: Operation, e: Ending): Option<Event> {
    match e.status
    case Processed => Some(TxProcessed(tx, op.provider, op.kind))
    case Rejected => Some(TxRejected(tx, op.provider, op.kind, if e.failure.Some? then e.failure.value else ""))
    case PendingReference => Some(TxPendingReference(tx, op.provider, op.kind))
    case _ => None
  }

  /** The balance event tells the entry. */
  predicate TellsEntry(event: Event, l: LedgerRow, currency: string) {
    && event.BalanceChanged? && event.wallet == l.wallet && event.tx == l.tx && event.direction == l.direction && event.version == l.version
    && event.money.minor == l.amount && event.before.minor == l.before && event.after.minor == l.after
    && event.money.currency == event.before.currency == event.after.currency == currency
  }

  /** The write's events: first its entry's, if it has one, then its status's, if that is announced; all of one cause. */
  predicate Tells(w: Write, op: Operation, e: Ending, causation: string, env: Env) {
    var news, moved := NewsOf(w.id, op, e), if w.entry.Some? then 1 else 0;
    && |w.events| == moved + (if news.Some? then 1 else 0)
    && (moved == 1 ==> w.events[0].id == env.balanceEventId && TellsEntry(w.events[0].event, w.entry.value, op.money.currency))
    && (news.Some? ==> w.events[moved].id == env.wagerEventId && w.events[moved].event == news.value)
    && forall ev | ev in w.events :: ev.causation == causation && ev.occurredAt == env.began
  }

  predicate Plainly(d: Decision, w: WalletVal, was: WalletVal, e: Ending, now: Time) {
    && d.status == e.status && Nullable(d.failure) == e.failure && NonNil(d.ref) == e.ref
    && w.balance.minor == was.balance.minor + e.change && w.balance.currency == was.balance.currency
    && (if e.change == 0 then d.direction.None? && w == was
        else d.direction == Some(if e.change > 0 then Credit else Debit) && d.before == was.balance
             && w == was.(balance := w.balance, version := w.version, updatedAt := now) && w.version == was.version + 1)
  }

  lemma NamedRow(db: Db, op: Operation, i: Id)
    requires RowsOk(db) && i in db.txs && Bears(db.txs[i], op)
    ensures Names(db.txs[i], op.provider, op.refExternal) && (db.txs[i].round == Some(op.round) <==> Text(db.txs[i].round) == op.round)
    ensures db.txs[i].kind != Opening && i != NIL
  {
    assert RowAt(db, i);
  }

  lemma UndoneIsReversed(txs: map<Id, TxRow>, id: Id)
    ensures Undone(txs, id) <==> Reversed(txs, id)
  {
    if Undone(txs, id) {
      var r :| r in txs && Undoes(txs[r], id);
      assert ProcessedReversal(txs[r]);
    }
    if Reversed(txs, id) {
      var r :| r in txs && ProcessedReversal(txs[r]) && txs[r].ref == Some(id);
      assert Undoes(txs[r], id);
    }
  }

  /** The decision on what the queries returned, with the row they returned. */
  lemma DecidedOnRow(db: Db, op: Operation, i: Id, now: Time) returns (e: Ending)
    requires RowsOk(db) && WalletsOk(db) && op.wallet in db.wallets && i in db.txs && Bears(db.txs[i], op) && now != 0
    requires db.wallets[op.wallet].player == op.player && db.wallets[op.wallet].currency == op.money.currency
    requires ValidOperation(op.kind, op.money, op.refExternal) && op.refExternal != ""
    requires db.txs[i].status != Pending && db.txs[i].status != PendingReference
    ensures RuledByRow(db, op, i, now, e)
    ensures var was := ToWallet(op.wallet, db.wallets[op.wallet]);
            var (d, w) := Decide(op, was, Some(View(i, db.txs[i], Reversed(db.txs, i))), now); Plainly(d, w, was, e, now)
  {
    NamedRow(db, op, i);
    UndoneIsReversed(db.txs, i);
    assert WalletOk(op.wallet, db.wallets[op.wallet]);
    var w := db.wallets[op.wallet];
    e := if !Serves(db.txs, i, op) then Refuse("INVALID_REFERENCE")
         else if op.kind == Rollback && db.txs[i].kind != Bet then Taken(w, op.money.minor, Some(i), "REVERSAL_INSUFFICIENT_FUNDS", now)
         else Paid(w, op.money.minor, Some(i), now);
  }

  /** The decision follows the rules, whichever rows the reference queries returned. */
  lemma DecidedByRules(db: Db, op: Operation, view: Option<Reference>, now: Time) returns (e: Ending)
    requires RowsOk(db) && WalletsOk(db) && op.wallet in db.wallets && Reads(db.txs, op, view) && now != 0
    requires db.wallets[op.wallet].currency == op.money.currency && ValidOperation(op.kind, op.money, op.refExternal)
    requires KeysUnique(db)
    ensures Ruled(db, op, now, e)
    ensures var was := ToWallet(op.wallet, db.wallets[op.wallet]); var (d, w) := Decide(op, was, view, now); Plainly(d, w, was, e, now)
  {
    var w := db.wallets[op.wallet];
    assert WalletOk(op.wallet, w);
    if w.player != op.player {
      e := Refuse("WALLET_MISMATCH");
    } else if op.kind == Loss {
      e := Ending(Processed, None, None, 0);
    } else if op.kind == Bet {
      e := Taken(w, op.money.minor, None, "INSUFFICIENT_FUNDS", now);
    } else if op.refExternal == "" {
      e := Paid(w, op.money.minor, None, now);
    } else {
      e := DecidedByReference(db, op, view, now);
    }
  }

  lemma DecidedByReference(db: Db, op: Operation, view: Option<Reference>, now: Time) returns (e: Ending)
    requires RowsOk(db) && WalletsOk(db) && op.wallet in db.wallets && op.refExternal != "" && now != 0
    requires ReadsReference(db.txs, op.provider, op.refExternal, view) && KeysUnique(db)
    requires db.wallets[op.wallet].player == op.player && db.wallets[op.wallet].currency == op.money.currency
    requires ValidOperation(op.kind, op.money, op.refExternal)
    ensures RuledByReference(db, op, now, e)
    ensures var was := ToWallet(op.wallet, db.wallets[op.wallet]); var (d, w) := Decide(op, was, view, now); Plainly(d, w, was, e, now)
  {
    if view.Some? {
      var i := view.value.id;
      assert Bears(db.txs[i], op);
      forall j | j in db.txs && Bears(db.txs[j], op) ensures j == i {
        IdentityIsUnique(db, i, j);
      }
      if db.txs[i].status == Pending || db.txs[i].status == PendingReference {
        e := Ending(PendingReference, None, None, 0);
      } else {
        e := DecidedOnRow(db, op, i, now);
      }
    } else {
      forall j | j in db.txs ensures !Bears(db.txs[j], op) {
        assert !Names(db.txs[j], op.provider, op.refExternal);
      }
      e := Ending(PendingReference, None, None, 0);
    }
  }

  /** What a committed write leaves in the tables, table by table. */
  predicate Leaves(a: Db, w: Write, b: Db) {
    && b.txs == a.txs[w.id := w.row] && b.inbox == a.inbox && b.outbox == a.outbox + w.events
    && b.wallets == (if w.entry.Some? then a.wallets[w.row.wallet := w.wallet] else a.wallets)
    && b.ledger == (if w.entry.Some? then a.ledger + [w.entry.value] else a.ledger)
  }

  // ---- submissions ----

  /** Some stored row of the provider has the operation's key or external id. */
  ghost predicate IdentityTaken(db: Db, op: Operation) {
    exists i | i in db.txs :: SharesIdentity(db.txs[i], op)
  }

  predicate SharesIdentity(t: TxRow, op: Operation) {
    t.provider == Some(op.provider) && (t.key == Some(op.key) || t.external == Some(op.external))
  }

  /** Everything a submission writes, told without saying how it is computed. */
  ghost predicate Accepts(db: Db, op: Operation, e: Ending, causation: string, env: Env, w: Write)
    requires op.wallet in db.wallets && op.money.Valid()
  {
    && w.id == env.txId && States(w.row, op) && w.row.hash == Some(CanonicalOf(op))
    && Concludes(w.row, e, db.wallets[op.wallet].balance) && w.row.attempts == 0
    && w.row.nextAttempt == (if e.status == PendingReference then Some(env.now + 1_000_000_000) else None)
    && w.row.createdAt == w.row.updatedAt == env.began
    && MovedAs(db.wallets[op.wallet], w, op.wallet, e, env.entryId, env.now)
    && Tells(w, op, e, causation, env)
  }

  /** Construction and transition let the verdict through. */
  lemma RowCarriesVerdict(op: Operation, snap: WalletRow, d: Decision, w: WalletVal, e: Ending, env: Env)
    requires Admissible(op) && snap.currency == op.money.currency && 0 < env.now && env.txId != NIL && env.entryId != NIL
    requires Plainly(d, w, ToWallet(op.wallet, snap), e, env.now) && w.balance.minor >= 0 && w.balance.Valid()
    requires d.status == Rejected || d.status == Failed <==> d.failure != ""
    requires d.status != Pending && (d.ref != NIL ==> d.status == Processed)
    ensures NewTx(NewData(op, CanonicalOf(op), env)).Ok?
    ensures Transitioned(NewTx(NewData(op, CanonicalOf(op), env)).value, d.status, d.failure, w.balance, d.ref, env.now).Ok?
    ensures var row := NewRow(op, CanonicalOf(op), d, w, env);
            && States(row, op) && Concludes(row, e, snap.balance) && row.hash == Some(CanonicalOf(op)) && row.attempts == 0
            && row.nextAttempt == (if e.status == PendingReference then Some(env.now + 1_000_000_000) else None)
            && row.createdAt == row.updatedAt == env.began
  {
    RowIsBuilt(op, CanonicalOf(op), env);
  }

  /** What follows the row carries the verdict's change. */
  lemma RowIsCompleted(op: Operation, id: Id, row: TxRow, snap: WalletRow, d: Decision, w: WalletVal, e: Ending, causation: string, env: Env)
    requires Plainly(d, w, ToWallet(op.wallet, snap), e, env.now) && States(row, op) && row.status == e.status && row.failure == e.failure
    requires e.change == 0 || e.change == op.money.minor || e.change + op.money.minor == 0
    requires op.money.minor >= 0 && Completed(id, row, snap, d, w, causation, env).Ok?
    ensures var o := Completed(id, row, snap, d, w, causation, env).value;
            && o.id == id && o.row == row && MovedAs(snap, o, op.wallet, e, env.entryId, env.now)
            && Tells(o, op, e, causation, env)
  {
    var o := Completed(id, row, snap, d, w, causation, env).value;
    EventsOfWait(id, row, o.entry, causation, env);
  }

  lemma DraftAccepts(op: Operation, snap: WalletRow, view: Option<Reference>, decider: Decider, e: Ending, causation: string, env: Env)
    requires Admissible(op) && snap.currency == op.money.currency && ToWallet(op.wallet, snap).Valid()
    requires 0 < env.began <= env.now && env.txId != NIL && env.entryId != NIL
    requires decider.FailWith? ==> decider.code != ""
    requires var was := ToWallet(op.wallet, snap); var (d, w) := DecideBy(decider, op, was, view, env.now); Plainly(d, w, was, e, env.now)
    requires e.change == 0 || e.change == op.money.minor || e.change + op.money.minor == 0
    ensures Draft(op, CanonicalOf(op), snap, view, decider, causation, env).Ok?
    ensures var w := Draft(op, CanonicalOf(op), snap, view, decider, causation, env).value;
            Accepts(Db(map[op.wallet := snap], map[], [], map[], []), op, e, causation, env, w)
  {
    var was := ToWallet(op.wallet, snap);
    var (d, w) := DecideBy(decider, op, was, view, env.now);
    DecideMoves(op, was, view, env.now);
    RowCarriesVerdict(op, snap, d, w, e, env);
    EntryAccepted(op, was, view, env.now, env.entryId, env.txId);
    RowIsCompleted(op, env.txId, NewRow(op, CanonicalOf(op), d, w, env), snap, d, w, e, causation, env);
  }

  lemma RuledChange(db: Db, op: Operation, now: Time, e: Ending)
    requires op.wallet in db.wallets && Ruled(db, op, now, e)
    ensures e.change == 0 || e.change == op.money.minor || e.change + op.money.minor == 0
    ensures e.status == PendingReference ==> e == Ending(PendingReference, None, None, 0)
  {
    if e != Ending(PendingReference, None, None, 0) && RuledByReference(db, op, now, e) {
      var i :| i in db.txs && Bears(db.txs[i], op) && RuledByRow(db, op, i, now, e);
    }
  }

  lemma KnownIsTaken(db: Db, op: Operation)
    ensures Known(db.txs, op) <==> IdentityTaken(db, op)
  {
    if Known(db.txs, op) {
      var i :| i in db.txs && SameOp(db.txs[i], op);
      assert SharesIdentity(db.txs[i], op);
    }
    if IdentityTaken(db, op) {
      var i :| i in db.txs && SharesIdentity(db.txs[i], op);
      assert SameOp(db.txs[i], op);
    }
  }

  /** A new, admissible operation in its wallet's currency is always taken down, and exactly as the rules say: a reference
      that serves is accepted, one that does not is refused, and the row, the wallet, its entry and the reply all tell it. */
  lemma SubmissionExact(db: Db, op: Operation, causation: string, env: Env, p: Plan) returns (e: Ending)
    requires Sound(db) && EnvOk(db, env) && Admissible(op) && op.wallet in db.wallets && !IdentityTaken(db, op)
    requires db.wallets[op.wallet].currency == op.money.currency
    requires Planned(db, op, CanonicalOf(op), ByRules, causation, env, p)
    ensures Ruled(db, op, env.now, e)
    ensures p.Do? && Accepts(db, op, e, causation, env, p.write)
    ensures p.reply.tx == env.txId && p.reply.status == e.status && p.reply.failure == Text(e.failure) && !p.reply.replay
    ensures p.reply.balance.minor == db.wallets[op.wallet].balance + e.change && p.reply.balance.currency == op.money.currency
  {
    KnownIsTaken(db, op);
    var snap := db.wallets[op.wallet];
    assert WalletOk(op.wallet, snap);
    var view :| PlannedOn(db, op, CanonicalOf(op), view, ByRules, causation, env, p);
    if op.refExternal != "" {
      ReadFits(db, op, view);
    }
    FitViewMoney(db, op, view);
    e := DecidedByRules(db, op, view, env.now);
    RuledChange(db, op, env.now, e);
    DraftAccepts(op, snap, view, ByRules, e, causation, env);
  }

  /** And the call that ran to its end has left exactly that, and answered it. */
  lemma ExecutionExact(db: Db, op: Operation, causation: string, env: Env, p: Plan, r: Result<Reply>, after: Db) returns (e: Ending)
    requires Sound(db) && EnvOk(db, env) && Admissible(op) && op.wallet in db.wallets && !IdentityTaken(db, op)
    requires db.wallets[op.wallet].currency == op.money.currency
    requires Planned(db, op, CanonicalOf(op), ByRules, causation, env, p) && Executed(db, p, r, after)
    ensures Ruled(db, op, env.now, e)
    ensures p.Do? && Accepts(db, op, e, causation, env, p.write) && Leaves(db, p.write, after)
    ensures r.Ok? && r.value.tx == env.txId && r.value.status == e.status && r.value.failure == Text(e.failure) && !r.value.replay
    ensures r.value.balance.minor == db.wallets[op.wallet].balance + e.change && r.value.balance.currency == op.money.currency
  {
    e := SubmissionExact(db, op, causation, env, p);
    SoundExecution(db, op, ByRules, causation, env, p, r, after);
  }

  /** A failure that is recorded says so, moves nothing and announces nothing. */
  lemma FailureExact(db: Db, op: Operation, code: string, causation: string, env: Env, p: Plan)
    requires Sound(db) && EnvOk(db, env) && Admissible(op) && op.wallet in db.wallets && !IdentityTaken(db, op)
    requires db.wallets[op.wallet].currency == op.money.currency && code != ""
    requires Planned(db, op, CanonicalOf(op), FailWith(code), causation, env, p)
    ensures p.Do? && Accepts(db, op, Ending(Failed, Some(code), None, 0), causation, env, p.write) && p.write.events == []
    ensures p.reply == Reply(env.txId, Failed, Money(db.wallets[op.wallet].balance, op.money.currency), code, false)
  {
    KnownIsTaken(db, op);
    var snap := db.wallets[op.wallet];
    assert WalletOk(op.wallet, snap);
    var view :| PlannedOn(db, op, CanonicalOf(op), view, FailWith(code), causation, env, p);
    if op.refExternal != "" {
      ReadFits(db, op, view);
    }
    FitViewMoney(db, op, view);
    DraftAccepts(op, snap, view, FailWith(code), Ending(Failed, Some(code), None, 0), causation, env);
  }

  /** With the identity taken, an operation is answered from the stored row exactly when that row states this operation. */
  lemma RepeatExact(db: Db, op: Operation, decider: Decider, causation: string, env: Env, p: Plan, i: Id)
    requires Sound(db) && op.money.Valid() && op.wallet in db.wallets && i in db.txs && SharesIdentity(db.txs[i], op)
    requires Planned(db, op, CanonicalOf(op), decider, causation, env, p)
    ensures States(db.txs[i], op) ==>
              && p.Replay? && p.reply.tx == i && p.reply.status == db.txs[i].status && p.reply.failure == Text(db.txs[i].failure) && p.reply.replay
              && db.txs[i].result == Some(p.reply.balance.minor) && p.reply.balance.currency == op.money.currency
    ensures p == Stop(Conflict) <==> forall o | o in db.txs && SharesIdentity(db.txs[o], op) :: !States(db.txs[o], op)
  {
    KnownIsTaken(db, op);
    forall o | o in db.txs && SharesIdentity(db.txs[o], op) ensures SameOp(db.txs[o], op) && (States(db.txs[o], op) <==> IsOp(db.txs[o], op)) {
      StatesIsOp(db, o, op);
    }
    ConflictExactly(db, op, decider, causation, env, p);
    if States(db.txs[i], op) {
      RepeatReplays(db, op, decider, causation, env, p, i);
      assert RowAt(db, i);
    }
  }

  lemma StatesIsOp(db: Db, i: Id, op: Operation)
    requires RowsOk(db) && i in db.txs && SharesIdentity(db.txs[i], op)
    ensures SameOp(db.txs[i], op) && (States(db.txs[i], op) <==> IsOp(db.txs[i], op))
  {
    assert RowAt(db, i);
  }

  /** The other operations leave nothing: no such wallet, or a currency that is not the wallet's. */
  lemma RefusalExact(db: Db, op: Operation, decider: Decider, causation: string, env: Env, p: Plan)
    requires Sound(db) && EnvOk(db, env) && Admissible(op) && !IdentityTaken(db, op) && (decider.FailWith? ==> decider.code != "")
    requires Planned(db, op, CanonicalOf(op), decider, causation, env, p)
    ensures op.wallet !in db.wallets <==> p == Stop(NotFound)
    ensures op.wallet in db.wallets && db.wallets[op.wallet].currency != op.money.currency <==> p == Stop(InvalidTransaction)
  {
    if op.wallet in db.wallets {
      KnownIsTaken(db, op);
      assert WalletOk(op.wallet, db.wallets[op.wallet]);
      var view :| PlannedOn(db, op, CanonicalOf(op), view, decider, causation, env, p);
      if op.refExternal != "" {
        ReadFits(db, op, view);
      }
      FitViewMoney(db, op, view);
      RowIsLeftIff(op, CanonicalOf(op), db.wallets[op.wallet], view, decider, causation, env);
    }
  }

  // ---- creations ----

  /** The stored wallet is the one created, at version 1. */
  predicate Founds(row: WalletRow, w: WalletVal) {
    && row.player == w.player && row.currency == w.balance.currency && row.balance == w.balance.minor && row.version == 1
    && row.createdAt == row.updatedAt == w.createdAt
  }

  /** The opening transaction. */
  predicate OpensWith(t: TxRow, w: WalletVal, began: Time) {
    && t.kind == Opening && t.status == Processed && t.wallet == w.id && t.player == w.player
    && t.amount == w.balance.minor && t.currency == w.balance.currency && t.result == Some(w.balance.minor)
    && t.external.None? && t.provider.None? && t.key.None? && t.hash.None? && t.round.None? && t.game.None?
    && t.refExternal.None? && t.ref.None? && t.failure.None? && t.attempts == 0 && t.nextAttempt.None? && t.createdAt == t.updatedAt == began
  }

  /** Its entry credits the whole balance from zero. */
  predicate CreditsAll(l: LedgerRow, w: WalletVal, env: Env) {
    && l.id == env.entryId && l.wallet == w.id && l.tx == env.txId && l.direction == Credit
    && l.amount == l.after == w.balance.minor && l.before == 0 && l.version == 1 && l.createdAt == w.createdAt
  }

  /** An event of the creation, waiting to be sent. */
  predicate Announces(e: OutboxRow, id: Id, event: Event, w: WalletVal, began: Time) {
    && e.id == id && e.aggregate == w.id && e.event == event && e.causation == "" && e.occurredAt == e.nextAttempt == began
    && e.attempts == 0 && e.published.None? && e.claimed.None?
  }

  /** A creation founds the wallet and, with money, opens it: one processed opening, one credit from zero, two events
      waiting to be sent; without money it leaves nothing but the wallet. */
  lemma CreationExact(db: Db, w: WalletVal, env: Env)
    requires OpenOk(db, w, env)
    ensures var b := Opened(db, w, env);
            && b.inbox == db.inbox && w.id in b.wallets && b.wallets == db.wallets[w.id := b.wallets[w.id]] && Founds(b.wallets[w.id], w)
            && if w.balance.minor == 0 then b.txs == db.txs && b.ledger == db.ledger && b.outbox == db.outbox
               else
                 && env.txId in b.txs && b.txs == db.txs[env.txId := b.txs[env.txId]] && OpensWith(b.txs[env.txId], w, env.began)
                 && |b.ledger| == |db.ledger| + 1 && b.ledger[..|db.ledger|] == db.ledger && CreditsAll(b.ledger[|db.ledger|], w, env)
                 && |b.outbox| == |db.outbox| + 2 && b.outbox[..|db.outbox|] == db.outbox
                 && Announces(b.outbox[|db.outbox|], env.wagerEventId, TxProcessed(env.txId, "", Opening), w, env.began)
                 && Announces(b.outbox[|db.outbox| + 1], env.balanceEventId,
                              BalanceChanged(w.id, env.txId, Credit, w.balance, Money(0, w.balance.currency), w.balance, 1), w, env.began)
  {
  }
}
