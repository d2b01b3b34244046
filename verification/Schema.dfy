/** The database: tables, statements, CHECKs, unique indexes, row triggers and deferred triggers.
    Nothing here knows the application; a batch may come from any client. */
module Schema {
  import opened Prelude
  import opened MoneyModel
  import opened Domain

  datatype WalletRow = WalletRow(
    player: Id, currency: string, balance: int64, version: int64, createdAt: Time, updatedAt: Time)

  datatype TxRow = TxRow(
    external: Option<string>, provider: Option<string>, key: Option<string>, hash: Option<Canonical>,
    wallet: Id, player: Id, round: Option<string>, game: Option<string>, kind: Kind, amount: int64, currency: string,
    refExternal: Option<string>, ref: Option<Id>, status: Status, failure: Option<string>, result: Option<int64>,
    attempts: int, nextAttempt: Option<Time>, createdAt: Time, updatedAt: Time)

  datatype LedgerRow = LedgerRow(
    id: Id, wallet: Id, tx: Id, direction: Direction, amount: int64, before: int64, after: int64, version: int64, createdAt: Time)

  datatype InboxKey = InboxKey(consumer: string, message: string)
  /** The payload hash is taken as injective, so the payload stands for it. */
  datatype InboxRow = InboxRow(payload: string, completed: bool)

  datatype Event =
    | BalanceChanged(wallet: Id, tx: Id, direction: Direction, money: Money, before: Money, after: Money, version: int64)
    | TxProcessed(tx: Id, provider: string, kind: Kind)
    | TxRejected(tx: Id, provider: string, kind: Kind, failure: string)
    | TxPendingReference(tx: Id, provider: string, kind: Kind)

  datatype OutboxRow = OutboxRow(
    id: Id, aggregate: Id, event: Event, causation: string, occurredAt: Time,
    attempts: int, nextAttempt: Time, published: Option<Time>, claimed: Option<Time>)

  /** `ledger` and `outbox` list their rows in insertion order. */
  datatype Db = Db(
    wallets: map<Id, WalletRow>, txs: map<Id, TxRow>, ledger: seq<LedgerRow>,
    inbox: map<InboxKey, InboxRow>, outbox: seq<OutboxRow>)

  /** One row statement. The last two stand for anything done to the inbox and outbox tables. */
  datatype Change =
    | InsertWallet(id: Id, wallet: WalletRow)
    | UpdateWallet(id: Id, wallet: WalletRow)
    | DeleteWallet(id: Id)
    | InsertTx(id: Id, tx: TxRow)
    | UpdateTx(id: Id, tx: TxRow)
    | DeleteTx(id: Id)
    | InsertLedger(entry: LedgerRow)
    | UpdateLedger(index: nat, entry: LedgerRow)
    | DeleteLedger(index: nat)
    | AddEvent(event: OutboxRow)
    | WriteOutbox(events: seq<OutboxRow>)
    | WriteInbox(inbox: map<InboxKey, InboxRow>)

  // ---- CHECK constraints and unique indexes ----

  predicate WalletCheck(w: WalletRow) {
    w.balance >= 0 && w.version >= 1
  }

  predicate TxCheck(t: TxRow) {
    && (if t.kind == Opening then
          t.provider.None? && t.external.None? && t.key.None? && t.hash.None? && t.round.None? && t.game.None?
        else
          t.provider.Some? && t.external.Some? && t.key.Some? && t.hash.Some? && t.round.Some? && t.game.Some?)
    && (if t.kind == Loss then t.amount == 0 else if t.kind == Opening then t.amount >= 0 else t.amount > 0)
  }

  predicate LedgerCheck(e: LedgerRow) {
    e.amount > 0 && e.before >= 0 && e.after >= 0 && e.version >= 1 && e.after == e.before + Signed(e.direction, e.amount)
  }

  predicate ProcessedReversal(t: TxRow) {
    t.status == Processed && IsReversal(t.kind)
  }

  predicate SameIdentity(a: TxRow, b: TxRow) {
    a.provider.Some? && a.provider == b.provider
    && ((a.external.Some? && a.external == b.external) || (a.key.Some? && a.key == b.key))
  }

  predicate SameReversal(a: TxRow, b: TxRow) {
    ProcessedReversal(a) && ProcessedReversal(b) && a.ref.Some? && a.ref == b.ref
  }

  /** Two rows that no unique index of wager_transactions lets coexist. */
  predicate Clash(a: TxRow, b: TxRow) {
    SameIdentity(a, b) || (a.kind == Opening && b.kind == Opening && a.wallet == b.wallet) || SameReversal(a, b)
  }

  predicate LedgerClash(a: LedgerRow, b: LedgerRow) {
    a.id == b.id || (a.wallet == b.wallet && (a.tx == b.tx || a.version == b.version))
  }

  predicate TxFits(db: Db, id: Id, t: TxRow) {
    && TxCheck(t) && t.wallet in db.wallets && (t.ref.Some? ==> t.ref.value in db.txs || t.ref.value == id)
    && forall o | o in db.txs && o != id :: !Clash(db.txs[o], t)
  }

  // ---- row triggers, fired by each statement ----

  /** protect_wallet_identity lets the update through. */
  predicate WalletTrigger(old_: WalletRow, new_: WalletRow) {
    && new_.player == old_.player && new_.currency == old_.currency && new_.createdAt == old_.createdAt
    && (new_.balance == old_.balance ==> new_.version == old_.version)
    && (new_.balance != old_.balance ==> new_.version == old_.version + 1)
  }

  predicate SameTxIdentity(a: TxRow, b: TxRow) {
    && a.external == b.external && a.provider == b.provider && a.key == b.key && a.hash == b.hash
    && a.wallet == b.wallet && a.player == b.player && a.round == b.round && a.game == b.game
    && a.kind == b.kind && a.amount == b.amount && a.currency == b.currency && a.refExternal == b.refExternal
    && a.createdAt == b.createdAt
  }

  /** protect_financial_history lets the update through. */
  predicate TxTrigger(old_: TxRow, new_: TxRow) {
    !old_.status.Terminal() && SameTxIdentity(old_, new_)
  }

  /** The statement passes every constraint checked at once. Deletes of financial rows, and any
      change to a ledger row, always raise. */
  predicate Allowed(db: Db, c: Change) {
    match c
    case InsertWallet(id, w) =>
      && id !in db.wallets && WalletCheck(w)
      && forall o | o in db.wallets :: !(db.wallets[o].player == w.player && db.wallets[o].currency == w.currency)
    case UpdateWallet(id, w) =>
      id in db.wallets && WalletCheck(w) && WalletTrigger(db.wallets[id], w)
    case InsertTx(id, t) =>
      id !in db.txs && TxFits(db, id, t)
    case UpdateTx(id, t) =>
      id in db.txs && TxTrigger(db.txs[id], t) && TxFits(db, id, t)
    case InsertLedger(e) =>
      && LedgerCheck(e) && e.wallet in db.wallets && e.tx in db.txs
      && forall i | 0 <= i < |db.ledger| :: !LedgerClash(db.ledger[i], e)
    case AddEvent(ev) =>
      forall i | 0 <= i < |db.outbox| :: db.outbox[i].id != ev.id
    case WriteOutbox(_) => true
    case WriteInbox(_) => true
    case DeleteWallet(_) => false
    case DeleteTx(_) => false
    case UpdateLedger(_, _) => false
    case DeleteLedger(_) => false
  }

  function Apply(db: Db, c: Change): Db {
    match c
    case InsertWallet(id, w) => db.(wallets := db.wallets[id := w])
    case UpdateWallet(id, w) => db.(wallets := db.wallets[id := w])
    case InsertTx(id, t) => db.(txs := db.txs[id := t])
    case UpdateTx(id, t) => db.(txs := db.txs[id := t])
    case InsertLedger(e) => db.(ledger := db.ledger + [e])
    case AddEvent(ev) => db.(outbox := db.outbox + [ev])
    case WriteOutbox(evs) => db.(outbox := evs)
    case WriteInbox(rows) => db.(inbox := rows)
    case DeleteWallet(id) => db.(wallets := db.wallets - {id})
    case DeleteTx(id) => db.(txs := db.txs - {id})
    case UpdateLedger(i, e) => if i < |db.ledger| then db.(ledger := db.ledger[i := e]) else db
    case DeleteLedger(i) => if i < |db.ledger| then db.(ledger := db.ledger[..i] + db.ledger[i + 1..]) else db
  }

  /** The state after the first `k` statements. */
  function State(db: Db, b: seq<Change>, k: nat): Db
    requires k <= |b|
  {
    if k == 0 then db else Apply(State(db, b, k - 1), b[k - 1])
  }

  function Final(db: Db, b: seq<Change>): Db {
    State(db, b, |b|)
  }

  // ---- deferred triggers, fired at commit against the final state ----

  /** The entry a `SELECT ... WHERE wallet_id = w AND wallet_version = v` finds. */
  function EntryAt(ledger: seq<LedgerRow>, w: Id, v: int): (e: Option<LedgerRow>)
    ensures e.Some? ==> e.value in ledger && e.value.wallet == w && e.value.version == v
    ensures e.None? ==> forall i | 0 <= i < |ledger| :: !(ledger[i].wallet == w && ledger[i].version == v)
  {
    if ledger == [] then None
    else
      var last := ledger[|ledger| - 1];
      if last.wallet == w && last.version == v then Some(last) else EntryAt(ledger[..|ledger| - 1], w, v)
  }

  /** enforce_wallet_ledger_integrity for an inserted wallet. */
  predicate WalletInsertOk(id: Id, w: WalletRow, final: Db) {
    var entry := EntryAt(final.ledger, id, w.version);
    && w.version == 1
    && if entry.None? then w.balance == 0
       else entry.value.after == w.balance && entry.value.before == 0 && entry.value.direction == Credit
  }

  /** enforce_wallet_ledger_integrity for an updated wallet. */
  predicate WalletUpdateOk(id: Id, old_: WalletRow, w: WalletRow, final: Db) {
    var entry := EntryAt(final.ledger, id, w.version);
    w.balance == old_.balance
    || (entry.Some? && entry.value.after == w.balance && entry.value.before == old_.balance)
  }

  /** enforce_wallet_ledger_integrity for an inserted ledger entry. */
  predicate LedgerChainOk(e: LedgerRow, final: Db) {
    && e.wallet in final.wallets
    && final.wallets[e.wallet].version == e.version && final.wallets[e.wallet].balance == e.after
    && if e.version == 1 then
         e.before == 0 && e.direction == Credit
         && e.tx in final.txs && final.txs[e.tx].kind == Opening && final.txs[e.tx].wallet == e.wallet
       else
         var previous := EntryAt(final.ledger, e.wallet, e.version - 1);
         if previous.None? then e.version == 2 && e.before == 0 else previous.value.after == e.before
  }

  /** The direction a transaction's entry must have, None when the kind may not have one. */
  function ExpectedDirection(txs: map<Id, TxRow>, t: TxRow): Option<Direction> {
    match t.kind
    case Opening => Some(Credit)
    case Bet => Some(Debit)
    case Win => Some(Credit)
    case Refund => Some(Credit)
    case Rollback =>
      if t.ref.None? || t.ref.value !in txs then None
      else (match txs[t.ref.value].kind
            case Bet => Some(Credit)
            case Win => Some(Debit)
            case Refund => Some(Debit)
            case _ => None)
    case Loss => None
  }

  /** enforce_ledger_transaction for an inserted ledger entry. */
  predicate LedgerTxOk(e: LedgerRow, final: Db) {
    && e.tx in final.txs && e.wallet in final.wallets
    && var t := final.txs[e.tx];
       && t.wallet == e.wallet && t.amount == e.amount && t.status == Processed
       && t.currency == final.wallets[e.wallet].currency
       && ExpectedDirection(final.txs, t) == Some(e.direction)
  }

  predicate DeferredOk(at: Db, c: Change, final: Db) {
    match c
    case InsertWallet(id, w) => WalletInsertOk(id, w, final)
    case UpdateWallet(id, w) => id in at.wallets && WalletUpdateOk(id, at.wallets[id], w, final)
    case InsertLedger(e) => LedgerChainOk(e, final) && LedgerTxOk(e, final)
    case _ => true
  }

  predicate AllowedAt(db: Db, b: seq<Change>, k: nat)
    requires k < |b|
  {
    Allowed(State(db, b, k), b[k])
  }

  predicate DeferredAt(db: Db, b: seq<Change>, k: nat)
    requires k < |b|
  {
    DeferredOk(State(db, b, k), b[k], Final(db, b))
  }

  predicate Immediate(db: Db, b: seq<Change>) {
    forall k {:trigger AllowedAt(db, b, k)} | 0 <= k < |b| :: AllowedAt(db, b, k)
  }

  predicate Deferred(db: Db, b: seq<Change>) {
    forall k {:trigger DeferredAt(db, b, k)} | 0 <= k < |b| :: DeferredAt(db, b, k)
  }

  /** The batch commits. */
  predicate Accepted(db: Db, b: seq<Change>) {
    Immediate(db, b) && Deferred(db, b)
  }

  lemma StatePrefix(db: Db, b: seq<Change>, more: seq<Change>, k: nat)
    requires k <= |b|
    ensures State(db, b + more, k) == State(db, b, k)
  {
    if k > 0 {
      StatePrefix(db, b, more, k - 1);
    }
  }

  // ---- the trigger procedures, as the migrations run them ----

  method EnforceLedgerTransaction(e: LedgerRow, final: Db) returns (raised: bool)
    requires e.wallet in final.wallets
    ensures raised <==> !LedgerTxOk(e, final)
  {
    if e.tx !in final.txs {
      return true;
    }
    var source := final.txs[e.tx];
    if source.wallet != e.wallet || source.amount != e.amount || source.status != Processed
       || source.currency != final.wallets[e.wallet].currency {
      return true;
    }
    var expected: Direction;
    match source.kind {
      case Opening => expected := Credit;
      case Bet => expected := Debit;
      case Win => expected := Credit;
      case Refund => expected := Credit;
      case Rollback =>
        var referenced: Option<Kind> := None;
        if source.ref.Some? && source.ref.value in final.txs {
          referenced := Some(final.txs[source.ref.value].kind);
        }
        if referenced == Some(Bet) {
          expected := Credit;
        } else if referenced == Some(Win) || referenced == Some(Refund) {
          expected := Debit;
        } else {
          return true;
        }
      case Loss => return true;
    }
    raised := e.direction != expected;
  }

  method EnforceLedgerIntegrity(e: LedgerRow, final: Db) returns (raised: bool)
    ensures raised <==> !LedgerChainOk(e, final)
  {
    if !(e.wallet in final.wallets && final.wallets[e.wallet].version == e.version
         && final.wallets[e.wallet].balance == e.after) {
      return true;
    }
    if e.version == 1 {
      if e.before != 0 || e.direction != Credit
         || !(e.tx in final.txs && final.txs[e.tx].kind == Opening && final.txs[e.tx].wallet == e.wallet) {
        return true;
      }
    } else {
      var previous := EntryAt(final.ledger, e.wallet, e.version - 1);
      if previous.None? {
        if e.version != 2 || e.before != 0 {
          return true;
        }
      } else if previous.value.after != e.before {
        return true;
      }
    }
    raised := false;
  }

  method EnforceWalletIntegrity(id: Id, old_: Option<WalletRow>, w: WalletRow, final: Db) returns (raised: bool)
    requires old_.Some? ==> WalletTrigger(old_.value, w)
    requires forall e | e in final.ledger :: LedgerCheck(e)
    ensures old_.Some? ==> (raised <==> !WalletUpdateOk(id, old_.value, w, final))
    ensures old_.None? ==> (raised <==> !WalletInsertOk(id, w, final))
  {
    if old_.Some? && w.balance == old_.value.balance {
      return false;
    }
    var entry := EntryAt(final.ledger, id, w.version);
    if old_.None? && w.version != 1 {
      return true;
    }
    if old_.None? && w.balance == 0 && entry.None? {
      return false;
    }
    if entry.None? || entry.value.after != w.balance {
      return true;
    }
    if old_.Some? && entry.value.before != old_.value.balance {
      return true;
    }
    if old_.None? && (entry.value.before != 0 || entry.value.direction != Credit) {
      return true;
    }
    raised := false;
  }
}
