/** The decision over an operation, its wallet and its reference. */
module Decision {
  import opened Prelude
  import opened MoneyModel
  import opened MoneyText
  import opened Domain

  datatype Operation = Operation(
    provider: string, external: string, key: string, player: Id, wallet: Id, round: string, game: string,
    kind: Kind, money: Money, refExternal: string)

  /** What was read about the referenced transaction. */
  datatype Reference = Reference(
    id: Id, kind: Kind, status: Status, wallet: Id, player: Id, round: string, money: Money, reversed: bool)

  datatype Decision = Decision(status: Status, failure: string, direction: Option<Direction>, before: Money, ref: Id)

  const WALLET_MISMATCH := "WALLET_MISMATCH"
  const INVALID_REFERENCE := "INVALID_REFERENCE"
  const INSUFFICIENT_FUNDS := "INSUFFICIENT_FUNDS"
  const REVERSAL_INSUFFICIENT_FUNDS := "REVERSAL_INSUFFICIENT_FUNDS"
  const AMOUNT_OVERFLOW := "AMOUNT_OVERFLOW"
  const REFERENCE_NOT_FOUND := "REFERENCE_NOT_FOUND"

  function Reject(code: string): Decision {
    Decision(Rejected, code, None, NO_MONEY, NIL)
  }

  const Await := Decision(PendingReference, "", None, NO_MONEY, NIL)

  /** How the caller decides: the business rules, or Fail's constant verdict. */
  datatype Decider = ByRules | FailWith(code: string)

  /** The operation's hash input. The key and all transport data are absent from it. */
  function CanonicalOf(op: Operation): Canonical
    requires op.money.Valid()
  {
    AmountExact(op.money);
    Canonical(op.external, op.game, op.kind, Amount(op.money).value, op.money.currency, op.player,
              op.provider, op.refExternal, op.round, op.wallet)
  }

  /** Equal hashes mean equal operations up to the idempotency key. */
  lemma CanonicalInjective(a: Operation, b: Operation)
    requires a.money.Valid() && b.money.Valid()
    ensures CanonicalOf(a) == CanonicalOf(b) <==> a.(key := b.key) == b
  {
    AmountExact(a.money);
    AmountExact(b.money);
    if CanonicalOf(a) == CanonicalOf(b) {
      AmountInjective(a.money, b.money);
    }
  }

  predicate NeedsReference(op: Operation) {
    IsReversal(op.kind) || (op.kind == Win && op.refExternal != "")
  }

  predicate Unsettled(ref: Option<Reference>) {
    ref.None? || ref.value.status == Pending || ref.value.status == PendingReference
  }

  predicate Compatible(op: Operation, r: Reference) {
    && r.status == Processed && r.player == op.player && r.wallet == op.wallet && r.round == op.round
    && match op.kind
       case Win => r.kind == Bet && r.money.currency == op.money.currency
       case Refund => r.kind == Bet && r.money == op.money && !r.reversed
       case Rollback => (r.kind == Bet || r.kind == Win || r.kind == Refund) && r.money == op.money && !r.reversed
       case _ => false
  }

  /** The direction the operation would move money in. */
  function DirectionFor(kind: Kind, referenced: Option<Kind>): Direction {
    if kind == Bet || (kind == Rollback && (referenced == Some(Win) || referenced == Some(Refund))) then Debit else Credit
  }

  function KindOf(ref: Option<Reference>): Option<Kind> {
    if ref.Some? then Some(ref.value.kind) else None
  }

  function Decide(op: Operation, w: WalletVal, ref: Option<Reference>, now: Time): (Decision, WalletVal) {
    if w.player != op.player || w.balance.currency != op.money.currency then (Reject(WALLET_MISMATCH), w)
    else if op.kind == Loss then (Decision(Processed, "", None, NO_MONEY, NIL), w)
    else if NeedsReference(op) && Unsettled(ref) then (Await, w)
    else if NeedsReference(op) && !Compatible(op, ref.value) then (Reject(INVALID_REFERENCE), w)
    else
      var d := DirectionFor(op.kind, KindOf(ref));
      var (m, w') := Move(w, d, op.money, now);
      if m == Refused(InsufficientFunds) then
        (Reject(if op.kind == Rollback then REVERSAL_INSUFFICIENT_FUNDS else INSUFFICIENT_FUNDS), w')
      else if m.Refused? then
        (Reject(AMOUNT_OVERFLOW), w')
      else
        (Decision(Processed, "", Some(d), m.before, if ref.Some? then ref.value.id else NIL), w')
  }

  /** The source's own sequence of tests, on the wallet object it mutates. */
  method DecideInPlace(op: Operation, wallet: Wallet, ref: Option<Reference>, now: Time) returns (d: Decision)
    modifies wallet`balance, wallet`version, wallet`updatedAt
    ensures (d, wallet.Val()) == Decide(op, old(wallet.Val()), ref, now)
  {
    if wallet.player != op.player || wallet.balance.currency != op.money.currency {
      return Reject(WALLET_MISMATCH);
    }
    if op.kind == Loss {
      return Decision(Processed, "", None, NO_MONEY, NIL);
    }
    if op.kind == Win && op.refExternal != "" {
      if ref.None? || ref.value.status == Pending || ref.value.status == PendingReference {
        return Await;
      }
      var r := ref.value;
      if r.status != Processed || r.kind != Bet || r.player != op.player || r.wallet != op.wallet
         || r.round != op.round || r.money.currency != op.money.currency {
        return Reject(INVALID_REFERENCE);
      }
    }
    if op.kind == Refund || op.kind == Rollback {
      if ref.None? || ref.value.status == Pending || ref.value.status == PendingReference {
        return Await;
      }
      var r := ref.value;
      if r.status != Processed || r.player != op.player || r.wallet != op.wallet || r.round != op.round
         || r.money != op.money || r.reversed {
        return Reject(INVALID_REFERENCE);
      }
      if op.kind == Refund && r.kind != Bet {
        return Reject(INVALID_REFERENCE);
      }
      if op.kind == Rollback && r.kind != Bet && r.kind != Win && r.kind != Refund {
        return Reject(INVALID_REFERENCE);
      }
    }
    var debit := op.kind == Bet || (op.kind == Rollback && ref.Some? && (ref.value.kind == Win || ref.value.kind == Refund));
    var m: Movement;
    if debit {
      m := wallet.Debit(op.money, now);
    } else {
      m := wallet.Credit(op.money, now);
    }
    if m == Refused(InsufficientFunds) {
      return Reject(if op.kind == Rollback then REVERSAL_INSUFFICIENT_FUNDS else INSUFFICIENT_FUNDS);
    }
    if m.Refused? {
      return Reject(AMOUNT_OVERFLOW);
    }
    d := Decision(Processed, "", Some(if debit then Debit else Credit), m.before, if ref.Some? then ref.value.id else NIL);
  }

  /** The wallet moves by exactly the signed amount and one version when a direction is set, and not at all otherwise. */
  lemma DecideMoves(op: Operation, w: WalletVal, ref: Option<Reference>, now: Time)
    ensures var (d, w') := Decide(op, w, ref, now);
            && (d.direction.None? ==> w' == w)
            && (d.direction.Some? ==>
                  && d.status == Processed && d.before == w.balance
                  && w' == w.(balance := Money(w'.balance.minor, w.balance.currency), version := w.version + 1, updatedAt := now)
                  && w'.balance.minor == w.balance.minor + Signed(d.direction.value, op.money.minor) && w'.balance.minor >= 0)
            && (d.status == Processed && op.kind != Loss ==> d.direction.Some?)
  {
  }

  /** Every verdict, exactly, for a valid wallet read under a clock that has not gone back. */
  lemma VerdictExact(op: Operation, w: WalletVal, ref: Option<Reference>, now: Time)
    requires w.Valid() && w.updatedAt <= now && now != 0 && w.version < MAX_INT64
    requires ValidOperation(op.kind, op.money, op.refExternal)
    ensures var (d, after) := Decide(op, w, ref, now);
            var matching := w.player == op.player && w.balance.currency == op.money.currency;
            var names := op.kind == Refund || op.kind == Rollback || (op.kind == Win && op.refExternal != "");
            var missing := names && (ref.None? || ref.value.status == Pending || ref.value.status == PendingReference);
            var ours := ref.Some? && ref.value.status == Processed
                        && ref.value.player == op.player && ref.value.wallet == op.wallet && ref.value.round == op.round;
            var good := match op.kind
                        case Win => op.refExternal == "" || (ours && ref.value.kind == Bet && ref.value.money.currency == op.money.currency)
                        case Refund => ours && ref.value.kind == Bet && ref.value.money == op.money && !ref.value.reversed
                        case Rollback => ours && ref.value.kind in {Bet, Win, Refund} && ref.value.money == op.money && !ref.value.reversed
                        case _ => true;
            var settled := matching && !missing && good;
            var debit := op.kind == Bet || (op.kind == Rollback && ref.Some? && ref.value.kind in {Win, Refund});
            var exact := if debit then w.balance.minor - op.money.minor else w.balance.minor + op.money.minor;
            && (d == Decision(Rejected, "WALLET_MISMATCH", None, NO_MONEY, NIL) <==> !matching)
            && (d == Decision(PendingReference, "", None, NO_MONEY, NIL) <==> matching && missing)
            && (d == Decision(Rejected, "INVALID_REFERENCE", None, NO_MONEY, NIL) <==> matching && !missing && !good)
            && (d == Decision(Rejected, "AMOUNT_OVERFLOW", None, NO_MONEY, NIL) <==> settled && exact > MAX_INT64)
            && (d == Decision(Rejected, "INSUFFICIENT_FUNDS", None, NO_MONEY, NIL) <==> settled && exact < 0 && op.kind == Bet)
            && (d == Decision(Rejected, "REVERSAL_INSUFFICIENT_FUNDS", None, NO_MONEY, NIL) <==> settled && exact < 0 && op.kind == Rollback)
            && (d.status == Processed <==> settled && 0 <= exact <= MAX_INT64)
            && (d.status == Processed && op.kind != Loss ==>
                  && d == Decision(Processed, "", Some(if debit then Debit else Credit), w.balance, if ref.Some? then ref.value.id else NIL)
                  && after.balance.minor == exact && after.version == w.version + 1)
            && (d.status != Processed || op.kind == Loss ==> after == w)
  {
  }

  /** With the clock behind the wallet, a sound movement is reported as an overflow. */
  lemma BackwardClockReportsOverflow(op: Operation, w: WalletVal, now: Time)
    requires w.Valid() && op.kind == Bet && w.player == op.player && w.balance.currency == op.money.currency
    requires op.money.IsPositive() && op.money.minor <= w.balance.minor && now != 0 && w.version < MAX_INT64
    ensures Decide(op, w, None, now).0.failure == AMOUNT_OVERFLOW <==> now < w.updatedAt
  {
  }

  /** Whatever Decide moved, the ledger entry built from it is accepted. */
  lemma EntryAccepted(op: Operation, w: WalletVal, ref: Option<Reference>, now: Time, id: Id, tx: Id)
    requires id != NIL && tx != NIL
    ensures var (d, w') := Decide(op, w, ref, now);
            d.direction.Some? ==> NewEntry(id, w.id, tx, d.direction.value, op.money, d.before, w'.balance, now).Ok?
  {
  }
}
