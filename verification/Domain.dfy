/** The domain objects: operation rules, the transaction status machine, wallets and ledger entries. */
module Domain {
  import opened Prelude
  import opened MoneyModel

  datatype Kind = Opening | Bet | Win | Loss | Refund | Rollback

  datatype Status = Pending | PendingReference | Processed | Rejected | Failed {
    predicate Terminal() {
      Processed? || Rejected? || Failed?
    }
  }

  datatype Direction = Debit | Credit

  function Signed(d: Direction, amount: int): int {
    if d == Credit then amount else -amount
  }

  predicate IsSpace(c: char) {
    c in {'\t', '\n', '\U{0B}', '\U{0C}', '\r', ' ', '\U{85}', '\U{A0}', '\U{1680}', '\U{2028}', '\U{2029}', '\U{202F}', '\U{205F}', '\U{3000}'}
    || '\U{2000}' <= c <= '\U{200A}'
  }

  /** strings.TrimSpace(s) == "" */
  predicate Blank(s: string) {
    forall c | c in s :: IsSpace(c)
  }

  predicate IsReversal(kind: Kind) {
    kind == Refund || kind == Rollback
  }

  /** ValidateOperation(...) == nil. */
  predicate ValidOperation(kind: Kind, money: Money, reference: string) {
    money.Valid() && money.minor >= 0
    && match kind
       case Bet => money.IsPositive() && reference == ""
       case Win => money.IsPositive()
       case Loss => money.IsZero() && reference == ""
       case Refund => money.IsPositive() && reference != ""
       case Rollback => money.IsPositive() && reference != ""
       case Opening => false
  }

  /** The business content an idempotency hash covers. SHA-256 over it is taken as injective,
      so the content stands for its own hash. */
  datatype Canonical = Canonical(
    external: string, game: string, kind: Kind, amount: string, currency: string, player: Id,
    provider: string, refExternal: string, round: string, wallet: Id)

  /** TransactionState.Transition as a function. */
  function NextStatus(from: Status, to: Status): (r: Result<Status>)
    ensures r.Ok? <==> !from.Terminal() && to != Pending
    ensures r.Ok? ==> r.value == to
  {
    if from.Terminal() then Err(TerminalTransaction)
    else if to == Pending then Err(InvalidTransaction)
    else Ok(to)
  }

  class TransactionState {
    var status: Status

    constructor (status: Status)
      ensures this.status == status
    {
      this.status := status;
    }

    method Transition(next: Status) returns (e: Option<Error>)
      modifies this
      ensures e == if old(status).Terminal() then Some(TerminalTransaction) else if next == Pending then Some(InvalidTransaction) else None
      ensures status == if e.None? then next else old(status)
    {
      if status.Terminal() {
        return Some(TerminalTransaction);
      }
      if next == Pending {
        return Some(InvalidTransaction);
      }
      status := next;
      e := None;
    }
  }

  /** WagerTransactionData. An empty string or NIL is Go's zero value; `hash` is None for the empty one. */
  datatype TxData = TxData(
    id: Id, external: string, provider: string, key: string, hash: Option<Canonical>, wallet: Id, player: Id,
    round: string, game: string, kind: Kind, money: Money, refExternal: string, ref: Id,
    status: Status, failure: string, result: Money, createdAt: Time, updatedAt: Time)

  /** validateWagerTransaction(data) == nil. */
  predicate ValidTx(data: TxData) {
    && data.id != NIL && data.wallet != NIL && data.player != NIL
    && data.money.Valid() && data.money.minor >= 0
    && data.createdAt != 0 && data.updatedAt != 0 && data.createdAt <= data.updatedAt
    && (data.result.Valid() ==> data.result.currency == data.money.currency && data.result.minor >= 0)
    && (data.status != Pending ==> data.result.Valid())
    && (data.status == Rejected || data.status == Failed <==> data.failure != "")
    && if data.kind == Opening then
         && data.money.IsPositive() && data.status == Processed && data.result == data.money
         && data.provider == "" && data.external == "" && data.key == "" && data.hash == None
         && data.round == "" && data.game == "" && data.refExternal == "" && data.ref == NIL
       else
         && !Blank(data.provider) && !Blank(data.external) && !Blank(data.key) && data.hash.Some?
         && !Blank(data.round) && !Blank(data.game)
         && ValidOperation(data.kind, data.money, data.refExternal)
  }

  /** NewWagerTransaction: whatever the caller put in the state fields is discarded. */
  function NewTx(data: TxData): (r: Result<TxData>)
    ensures r.Ok? <==>
            && data.id != NIL && data.wallet != NIL && data.player != NIL && data.createdAt != 0 && data.hash.Some?
            && !Blank(data.provider) && !Blank(data.external) && !Blank(data.key) && !Blank(data.round) && !Blank(data.game)
            && ValidOperation(data.kind, data.money, data.refExternal)
    ensures r.Ok? ==>
              && ValidTx(r.value) && r.value.status == Pending && r.value.kind != Opening
              && r.value.failure == "" && r.value.ref == NIL && !r.value.result.Valid() && r.value.updatedAt == data.createdAt
              && data == r.value.(status := data.status, failure := data.failure, ref := data.ref, result := data.result, updatedAt := data.updatedAt)
  {
    var blank := data.(status := Pending, failure := "", ref := NIL, result := NO_MONEY, updatedAt := data.createdAt);
    if ValidTx(blank) then Ok(blank) else Err(InvalidTransaction)
  }

  function NewOpeningTx(id: Id, wallet: Id, player: Id, money: Money, now: Time): (r: Result<TxData>)
    ensures r.Ok? <==> id != NIL && wallet != NIL && player != NIL && money.IsPositive() && now != 0
    ensures r.Ok? ==>
              && ValidTx(r.value) && r.value.kind == Opening && r.value.status == Processed
              && r.value.id == id && r.value.wallet == wallet && r.value.player == player
              && r.value.money == money == r.value.result && r.value.createdAt == now == r.value.updatedAt
  {
    var data := TxData(id, "", "", "", None, wallet, player, "", "", Opening, money, "", NIL, Processed, "", money, now, now);
    if ValidTx(data) then Ok(data) else Err(InvalidTransaction)
  }

  /** WagerTransaction.Transition as a function of the stored data. */
  function Transitioned(data: TxData, status: Status, failure: string, result: Money, ref: Id, now: Time): (r: Result<TxData>)
    ensures r.Ok? <==>
            && ValidTx(data) && !data.status.Terminal() && status != Pending && now != 0 && data.updatedAt <= now
            && result.Valid() && result.minor >= 0 && result.currency == data.money.currency
            && (failure != "" <==> status == Rejected || status == Failed) && (ref != NIL ==> status == Processed)
    ensures r.Ok? ==> ValidTx(r.value) && r.value.status == status && r.value.failure == failure && r.value.ref == ref
    ensures r.Ok? ==>
              && r.value.result == result && r.value.updatedAt == now
              && data == r.value.(status := data.status, failure := data.failure, ref := data.ref, result := data.result, updatedAt := data.updatedAt)
    ensures r == Err(TerminalTransaction) <==> ValidTx(data) && data.status.Terminal()
  {
    if !ValidTx(data) then Err(InvalidTransaction)
    else if NextStatus(data.status, status).Err? then Err(NextStatus(data.status, status).error)
    else if now == 0 || now < data.updatedAt || !result.Valid() || result.minor < 0 || result.currency != data.money.currency then
      Err(InvalidTransaction)
    else if ((status == Rejected || status == Failed) != (failure != ""))
            || ((status == Processed || status == PendingReference) && failure != "") then
      Err(InvalidTransaction)
    else if ref != NIL && status != Processed then
      Err(InvalidTransaction)
    else
      var next := data.(status := status, failure := failure, result := result, ref := ref, updatedAt := now);
      if ValidTx(next) then Ok(next) else Err(InvalidTransaction)
  }

  class WagerTransaction {
    var data: TxData

    constructor (data: TxData)
      ensures this.data == data
    {
      this.data := data;
    }

    method Transition(status: Status, failure: string, result: Money, ref: Id, now: Time) returns (e: Option<Error>)
      modifies this
      ensures var next := Transitioned(old(data), status, failure, result, ref, now);
              if next.Ok? then e == None && data == next.value else e == Some(next.error) && data == old(data)
    {
      if !ValidTx(data) {
        return Some(InvalidTransaction);
      }
      var state := new TransactionState(data.status);
      e := state.Transition(status);
      if e.Some? {
        return Some(NextStatus(data.status, status).error);
      }
      if now == 0 || now < data.updatedAt || !result.Valid() || result.minor < 0 || result.currency != data.money.currency {
        return Some(InvalidTransaction);
      }
      if ((status == Rejected || status == Failed) != (failure != ""))
         || ((status == Processed || status == PendingReference) && failure != "") {
        return Some(InvalidTransaction);
      }
      if ref != NIL && status != Processed {
        return Some(InvalidTransaction);
      }
      var next := data.(status := status, failure := failure, result := result, ref := ref, updatedAt := now);
      if !ValidTx(next) {
        return Some(InvalidTransaction);
      }
      data := next;
      e := None;
    }
  }

  /** The six fields of a wallet as a value. */
  datatype WalletVal = WalletVal(id: Id, player: Id, balance: Money, version: int64, createdAt: Time, updatedAt: Time) {
    predicate Valid() {
      && id != NIL && player != NIL && balance.Valid() && balance.minor >= 0 && version >= 1
      && createdAt != 0 && updatedAt != 0 && createdAt <= updatedAt
    }
  }

  datatype Movement = Moved(before: Money) | Refused(error: Error)

  /** What Credit and Debit do to a wallet: the amount a caller sees refused is refused with nothing changed. */
  function Move(w: WalletVal, d: Direction, amount: Money, now: Time): (r: (Movement, WalletVal))
    ensures r.0.Refused? ==> r.1 == w
    ensures r.0.Moved? <==>
            && w.Valid() && w.updatedAt <= now && amount.IsPositive() && now != 0 && w.version < MAX_INT64
            && w.balance.currency == amount.currency && 0 <= w.balance.minor + Signed(d, amount.minor) <= MAX_INT64
    ensures r.0.Moved? ==>
              && r.0.before == w.balance && r.1.Valid()
              && r.1.balance.minor == w.balance.minor + Signed(d, amount.minor) && r.1.balance.currency == w.balance.currency
              && r.1.version == w.version + 1 && r.1.updatedAt == now
              && r.1.id == w.id && r.1.player == w.player && r.1.createdAt == w.createdAt
    ensures r.0 == Refused(InsufficientFunds) <==>
            && w.Valid() && w.updatedAt <= now && amount.IsPositive() && now != 0 && w.version < MAX_INT64
            && w.balance.currency == amount.currency && d == Debit && w.balance.minor < amount.minor
  {
    if !w.Valid() || now < w.updatedAt then (Refused(InvalidWallet), w)
    else if !amount.IsPositive() || now == 0 then (Refused(InvalidMoney), w)
    else if w.version == MAX_INT64 then (Refused(Overflow), w)
    else if w.balance.currency != amount.currency then (Refused(CurrencyMismatch), w)
    else if d == Debit && w.balance.minor < amount.minor then (Refused(InsufficientFunds), w)
    else
      var next := if d == Credit then w.balance.Add(amount) else w.balance.Sub(amount);
      if next.Err? then (Refused(next.error), w)
      else (Moved(w.balance), w.(balance := next.value, version := w.version + 1, updatedAt := now))
  }

  class Wallet {
    const id: Id
    const player: Id
    const createdAt: Time
    var balance: Money
    var version: int64
    var updatedAt: Time

    function Val(): WalletVal
      reads this
    {
      WalletVal(id, player, balance, version, createdAt, updatedAt)
    }

    constructor (v: WalletVal)
      ensures Val() == v
    {
      id, player, createdAt := v.id, v.player, v.createdAt;
      balance, version, updatedAt := v.balance, v.version, v.updatedAt;
    }

    method Credit(amount: Money, now: Time) returns (r: Movement)
      modifies this`balance, this`version, this`updatedAt
      ensures (r, Val()) == Move(old(Val()), Direction.Credit, amount, now)
    {
      if !Val().Valid() || now < updatedAt {
        return Refused(InvalidWallet);
      }
      if !amount.IsPositive() || now == 0 {
        return Refused(InvalidMoney);
      }
      if version == MAX_INT64 {
        return Refused(Overflow);
      }
      if balance.currency != amount.currency {
        return Refused(CurrencyMismatch);
      }
      match balance.Add(amount)
      case Err(e) =>
        r := Refused(e);
      case Ok(next) =>
        r := Moved(balance);
        balance, version, updatedAt := next, version + 1, now;
    }

    method Debit(amount: Money, now: Time) returns (r: Movement)
      modifies this`balance, this`version, this`updatedAt
      ensures (r, Val()) == Move(old(Val()), Direction.Debit, amount, now)
    {
      if !Val().Valid() || now < updatedAt {
        return Refused(InvalidWallet);
      }
      if !amount.IsPositive() || now == 0 {
        return Refused(InvalidMoney);
      }
      if version == MAX_INT64 {
        return Refused(Overflow);
      }
      if balance.currency != amount.currency {
        return Refused(CurrencyMismatch);
      }
      if balance.minor < amount.minor {
        return Refused(InsufficientFunds);
      }
      match balance.Sub(amount)
      case Err(e) =>
        r := Refused(e);
      case Ok(next) =>
        r := Moved(balance);
        balance, version, updatedAt := next, version + 1, now;
    }
  }

  datatype EntryVal = EntryVal(
    id: Id, wallet: Id, tx: Id, direction: Direction, money: Money, before: Money, after: Money, createdAt: Time)

  /** NewWalletLedgerEntry: accepts exactly a positive movement whose two balances differ by it. */
  function NewEntry(id: Id, wallet: Id, tx: Id, d: Direction, money: Money, before: Money, after: Money, createdAt: Time): (r: Result<EntryVal>)
    ensures r.Ok? <==>
            && id != NIL && wallet != NIL && tx != NIL && money.IsPositive() && createdAt != 0
            && before.Valid() && after.Valid() && before.minor >= 0 && after.minor >= 0
            && before.currency == money.currency == after.currency && after.minor == before.minor + Signed(d, money.minor)
    ensures r.Ok? ==> r.value == EntryVal(id, wallet, tx, d, money, before, after, createdAt)
  {
    if id == NIL || wallet == NIL || tx == NIL || !money.IsPositive() || !before.Valid() || !after.Valid()
       || before.minor < 0 || after.minor < 0 || createdAt == 0 then
      Err(InvalidLedgerEntry)
    else if before.currency != money.currency || after.currency != money.currency then
      Err(CurrencyMismatch)
    else
      var expected := if d == Credit then before.Add(money) else before.Sub(money);
      if expected.Err? then Err(expected.error)
      else if expected.value != after then Err(InvalidLedgerEntry)
      else Ok(EntryVal(id, wallet, tx, d, money, before, after, createdAt))
  }
}
