/** What one store transaction writes, computed from what it read. The same computation serves the
    sequential store and the concurrent threads: it looks at a wallet snapshot and a reference view only. */
module Writes {
  import opened Prelude
  import opened MoneyModel
  import opened Domain
  import opened Decision
  import opened Schema

  /** Fresh identifiers and the two clocks a transaction reads: its start and the instant it decides. */
  datatype Env = Env(txId: Id, entryId: Id, balanceEventId: Id, wagerEventId: Id, began: Time, now: Time)

  function Text(s: Option<string>): string {
    if s.Some? then s.value else ""
  }

  /** nullable(s) */
  function Nullable(s: string): Option<string> {
    if s == "" then None else Some(s)
  }

  function IdOrNil(id: Option<Id>): Id {
    if id.Some? then id.value else NIL
  }

  function NonNil(id: Id): Option<Id> {
    if id == NIL then None else Some(id)
  }

  /** The value RehydrateWallet validates. */
  function ToWallet(id: Id, row: WalletRow): WalletVal {
    WalletVal(id, row.player, Money(row.balance, row.currency), row.version, row.createdAt, row.updatedAt)
  }

  /** The value scanTransaction validates. */
  function DataOf(id: Id, t: TxRow): TxData {
    TxData(id, Text(t.external), Text(t.provider), Text(t.key), t.hash, t.wallet, t.player, Text(t.round), Text(t.game),
           t.kind, Money(t.amount, t.currency), Text(t.refExternal), IdOrNil(t.ref), t.status, Text(t.failure),
           if t.result.Some? then Money(t.result.value, t.currency) else NO_MONEY, t.createdAt, t.updatedAt)
  }

  predicate Reversed(txs: map<Id, TxRow>, id: Id) {
    exists r | r in txs :: ProcessedReversal(txs[r]) && txs[r].ref == Some(id)
  }

  predicate Names(t: TxRow, provider: string, external: string) {
    t.provider == Some(provider) && t.external == Some(external)
  }

  function View(id: Id, t: TxRow, reversed: bool): Reference {
    Reference(id, t.kind, t.status, t.wallet, t.player, Text(t.round), Money(t.amount, t.currency), reversed)
  }

  /** What the two reference queries read in one instant for (provider, external). */
  ghost predicate ReadsReference(txs: map<Id, TxRow>, provider: string, external: string, view: Option<Reference>) {
    match view
    case None => forall i | i in txs :: !Names(txs[i], provider, external)
    case Some(v) => v.id in txs && Names(txs[v.id], provider, external) && v == View(v.id, txs[v.id], Reversed(txs, v.id))
  }

  /** Everything one transaction writes: a wager row, its wallet's row after it, and its ledger entry and events. */
  datatype Write = Write(id: Id, row: TxRow, wallet: WalletRow, entry: Option<LedgerRow>, events: seq<OutboxRow>)

  function WagerEvent(tx: Id, provider: string, kind: Kind, status: Status, failure: string): Option<Event> {
    match status
    case Processed => Some(TxProcessed(tx, provider, kind))
    case Rejected => Some(TxRejected(tx, provider, kind, failure))
    case PendingReference => Some(TxPendingReference(tx, provider, kind))
    case _ => None
  }

  function Outgoing(id: Id, wallet: Id, event: Event, causation: string, began: Time): OutboxRow {
    OutboxRow(id, wallet, event, causation, began, 0, began, None, None)
  }

  /** addBalanceEvent */
  function BalanceEvents(row: TxRow, entry: Option<LedgerRow>, causation: string, env: Env): seq<OutboxRow> {
    match entry
    case None => []
    case Some(e) =>
      [Outgoing(env.balanceEventId, row.wallet,
                BalanceChanged(e.wallet, e.tx, e.direction, Money(e.amount, row.currency), Money(e.before, row.currency),
                               Money(e.after, row.currency), e.version), causation, env.began)]
  }

  /** addWagerEvent */
  function WagerEvents(tx: Id, row: TxRow, causation: string, env: Env): seq<OutboxRow> {
    match WagerEvent(tx, Text(row.provider), row.kind, row.status, Text(row.failure))
    case None => []
    case Some(event) => [Outgoing(env.wagerEventId, row.wallet, event, causation, env.began)]
  }

  function EventsOf(tx: Id, row: TxRow, entry: Option<LedgerRow>, causation: string, env: Env): seq<OutboxRow> {
    BalanceEvents(row, entry, causation, env) + WagerEvents(tx, row, causation, env)
  }

  /** The wallet update, ledger entry and events that follow the wager row. */
  function Completed(id: Id, row: TxRow, snap: WalletRow, d: Decision, w: WalletVal, causation: string, env: Env): Result<Write> {
    match d.direction
    case None =>
      Ok(Write(id, row, snap, None, EventsOf(id, row, None, causation, env)))
    case Some(direction) =>
      match NewEntry(env.entryId, row.wallet, id, direction, Money(row.amount, row.currency), d.before, w.balance, env.now)
      case Err(e) => Err(e)
      case Ok(entry) =>
        var stored := LedgerRow(entry.id, entry.wallet, entry.tx, entry.direction, entry.money.minor,
                                entry.before.minor, entry.after.minor, w.version, entry.createdAt);
        Ok(Write(id, row, snap.(balance := w.balance.minor, version := w.version, updatedAt := env.now), Some(stored),
                 EventsOf(id, row, Some(stored), causation, env)))
  }

  function DecideBy(decider: Decider, op: Operation, w: WalletVal, view: Option<Reference>, now: Time): (Decision, WalletVal) {
    match decider
    case ByRules => Decide(op, w, view, now)
    case FailWith(code) => (Decision(Failed, code, None, NO_MONEY, NIL), w)
  }

  function NewData(op: Operation, hash: Canonical, env: Env): TxData {
    TxData(env.txId, op.external, op.provider, op.key, Some(hash), op.wallet, op.player, op.round, op.game, op.kind, op.money,
           op.refExternal, NIL, Pending, "", NO_MONEY, env.now, env.now)
  }

  function NewRow(op: Operation, hash: Canonical, d: Decision, w: WalletVal, env: Env): TxRow {
    TxRow(Some(op.external), Some(op.provider), Some(op.key), Some(hash), op.wallet, op.player, Some(op.round), Some(op.game),
          op.kind, op.money.minor, op.money.currency, Nullable(op.refExternal), NonNil(d.ref), d.status, Nullable(d.failure),
          Some(w.balance.minor), 0, if d.status == PendingReference then Some(env.now + SECOND) else None, env.began, env.began)
  }

  /** executeTx from its decision on: the row and its consequences, or the error that rolls it back. */
  function Draft(op: Operation, hash: Canonical, snap: WalletRow, view: Option<Reference>, decider: Decider, causation: string, env: Env): Result<Write> {
    var (d, w) := DecideBy(decider, op, ToWallet(op.wallet, snap), view, env.now);
    match NewTx(NewData(op, hash, env))
    case Err(e) => Err(e)
    case Ok(data) =>
      match Transitioned(data, d.status, d.failure, w.balance, d.ref, env.now)
      case Err(e) => Err(e)
      case Ok(_) => Completed(env.txId, NewRow(op, hash, d, w, env), snap, d, w, causation, env)
  }

  // ---- the resolver ----

  const MAX_ATTEMPTS := 10

  /** `1 << k` */
  function Shl(k: nat): nat {
    if k == 0 then 1 else 2 * Shl(k - 1)
  }

  /** retryDelay: the shift stops growing at the eighth attempt. */
  function RetryDelay(attempt: int): int
    requires attempt >= 1
  {
    SECOND * Shl((if attempt > 8 then 8 else attempt) - 1)
  }

  /** The operation a pending row stands for. */
  function OpOf(t: TxRow): Operation {
    Operation(Text(t.provider), Text(t.external), Text(t.key), t.player, t.wallet, Text(t.round), Text(t.game), t.kind,
              Money(t.amount, t.currency), Text(t.refExternal))
  }

  datatype Settlement = Postponed(row: TxRow) | Settled(write: Write) | Broken(error: Error)

  function Postpone(t: TxRow, now: Time): TxRow
    requires t.attempts >= 0
  {
    t.(attempts := t.attempts + 1, nextAttempt := Some(now + RetryDelay(t.attempts + 1)), updatedAt := now)
  }

  function SettledRow(t: TxRow, d: Decision, w: WalletVal, now: Time): TxRow {
    t.(status := d.status, failure := Nullable(d.failure), ref := NonNil(d.ref), result := Some(w.balance.minor),
       nextAttempt := None, updatedAt := now)
  }

  /** ResolvePendingReference on the row it picked, from its decision on. */
  function Resolution(id: Id, t: TxRow, snap: WalletRow, view: Option<Reference>, env: Env): Settlement
    requires t.attempts >= 0
  {
    var (decided, w) := Decide(OpOf(t), ToWallet(t.wallet, snap), view, env.now);
    if decided.status == PendingReference && t.attempts + 1 < MAX_ATTEMPTS then
      Postponed(Postpone(t, env.now))
    else
      var d := if decided.status == PendingReference then Reject(REFERENCE_NOT_FOUND) else decided;
      match NextStatus(PendingReference, d.status)
      case Err(e) => Broken(e)
      case Ok(_) =>
        match Completed(id, SettledRow(t, d, w, env.now), snap, d, w, "", env)
        case Err(e) => Broken(e)
        case Ok(write) => Settled(write)
  }

  // ---- statements ----

  function AddEvents(events: seq<OutboxRow>): (b: seq<Change>)
    ensures |b| == |events| && forall i | 0 <= i < |b| :: b[i] == AddEvent(events[i])
  {
    seq(|events|, i requires 0 <= i < |events| => AddEvent(events[i]))
  }

  function MoveStatements(w: Write): seq<Change> {
    match w.entry
    case None => []
    case Some(e) => [UpdateWallet(w.row.wallet, w.wallet), InsertLedger(e)]
  }

  /** The statements of a write, in the order the store issues them. */
  function Batch(insert: bool, w: Write): seq<Change> {
    [if insert then InsertTx(w.id, w.row) else UpdateTx(w.id, w.row)] + MoveStatements(w) + AddEvents(w.events)
  }

  /** The tables after a write. The wallet row is written only with an entry. */
  function Record(db: Db, w: Write): Db {
    db.(txs := db.txs[w.id := w.row],
        wallets := if w.entry.Some? then db.wallets[w.row.wallet := w.wallet] else db.wallets,
        ledger := if w.entry.Some? then db.ledger + [w.entry.value] else db.ledger,
        outbox := db.outbox + w.events)
  }

  // ---- wallet creation ----

  function WalletRowOf(w: WalletVal): WalletRow {
    WalletRow(w.player, w.balance.currency, w.balance.minor, 1, w.createdAt, w.createdAt)
  }

  /** The opening transaction, entry and events of a positive initial balance. */
  function OpeningWrite(w: WalletVal, env: Env): Write {
    var row := TxRow(None, None, None, None, w.id, w.player, None, None, Opening, w.balance.minor, w.balance.currency,
                     None, None, Processed, None, Some(w.balance.minor), 0, None, env.began, env.began);
    var entry := LedgerRow(env.entryId, w.id, env.txId, Credit, w.balance.minor, 0, w.balance.minor, 1, w.createdAt);
    Write(env.txId, row, WalletRowOf(w), Some(entry),
          [Outgoing(env.wagerEventId, w.id, TxProcessed(env.txId, "", Opening), "", env.began),
           Outgoing(env.balanceEventId, w.id, BalanceChanged(w.id, env.txId, Credit, w.balance, Money(0, w.balance.currency), w.balance, 1), "", env.began)])
  }

  /** CreateWallet's statements. */
  function OpenBatch(w: WalletVal, env: Env): seq<Change> {
    [InsertWallet(w.id, WalletRowOf(w))]
    + (if w.balance.minor > 0 then
         var o := OpeningWrite(w, env);
         [InsertTx(o.id, o.row), InsertLedger(o.entry.value)] + AddEvents(o.events)
       else [])
  }

  function Opened(db: Db, w: WalletVal, env: Env): Db {
    if w.balance.minor > 0 then Record(db, OpeningWrite(w, env)) else db.(wallets := db.wallets[w.id := WalletRowOf(w)])
  }
}
