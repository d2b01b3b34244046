/** What holds of every stored state, and what one write must satisfy to keep it. */
module Invariant {
  import opened Prelude
  import opened Domain
  import opened Decision
  import opened Schema
  import opened Integrity
  import opened Writes

  /** How long after acceptance the visit following `attempts` unsuccessful ones is due. */
  function Waited(attempts: nat): int {
    if attempts == 0 then SECOND else Waited(attempts - 1) + RetryDelay(attempts)
  }

  predicate WalletOk(id: Id, w: WalletRow) {
    ToWallet(id, w).Valid()
  }

  /** A stored wager row, whatever path wrote it. */
  predicate RowOk(wallets: map<Id, WalletRow>, id: Id, t: TxRow) {
    && t.wallet in wallets && t.currency == wallets[t.wallet].currency
    && TxCheck(t) && ValidTx(DataOf(id, t)) && t.status != Pending && t.result.Some?
    && (t.kind != Opening ==> t.hash == Some(CanonicalOf(OpOf(t))))
    && t.refExternal != Some("") && t.failure != Some("") && t.ref != Some(NIL)
    && (t.ref.Some? ==> t.status == Processed)
    && 0 <= t.attempts < MAX_ATTEMPTS
    && (if t.status == PendingReference then
          && t.player == wallets[t.wallet].player && NeedsReference(OpOf(t))
          && t.nextAttempt.Some? && t.nextAttempt.value >= t.createdAt + Waited(t.attempts)
        else
          t.nextAttempt.None?)
    && (t.status == Processed ==> t.player == wallets[t.wallet].player)
    && (t.status == Rejected && t.failure == Some(REFERENCE_NOT_FOUND) ==> t.updatedAt >= t.createdAt + Waited(9))
  }

  /** The row's reference is the processed row it names, of a kind and content it may build on. */
  predicate Grounded(txs: map<Id, TxRow>, t: TxRow) {
    if t.ref.None? then
      t.refExternal.None? && !IsReversal(t.kind)
    else
      && t.ref.value in txs
      && var p := txs[t.ref.value];
         && p.status == Processed && p.provider == t.provider && p.external == t.refExternal
         && p.wallet == t.wallet && p.player == t.player && p.round == t.round && p.currency == t.currency
         && match t.kind
            case Win => p.kind == Bet
            case Refund => p.kind == Bet && p.amount == t.amount
            case Rollback => (p.kind == Bet || p.kind == Win || p.kind == Refund) && p.amount == t.amount
            case _ => false
  }

  predicate Moves(t: TxRow) {
    t.status == Processed && t.kind != Loss
  }

  ghost predicate HasEntry(ledger: seq<LedgerRow>, id: Id) {
    exists i | 0 <= i < |ledger| :: ledger[i].tx == id
  }

  /** The referenced row's entry comes before the row's own. */
  ghost predicate EntryFollows(ledger: seq<LedgerRow>, earlier: Id, later: Id) {
    exists i, j | 0 <= i < j < |ledger| :: ledger[i].tx == earlier && ledger[j].tx == later
  }

  predicate RowAt(db: Db, t: Id)
    requires t in db.txs
  {
    RowOk(db.wallets, t, db.txs[t])
  }

  ghost predicate RowsOk(db: Db) {
    forall t {:trigger RowAt(db, t)} | t in db.txs :: RowAt(db, t)
  }

  ghost predicate WalletsOk(db: Db) {
    forall w {:trigger WalletOk(w, db.wallets[w])} | w in db.wallets :: WalletOk(w, db.wallets[w])
  }

  ghost predicate RefAt(db: Db, t: Id)
    requires t in db.txs
  {
    db.txs[t].status == Processed ==>
      Grounded(db.txs, db.txs[t]) && (db.txs[t].ref.Some? ==> EntryFollows(db.ledger, db.txs[t].ref.value, t))
  }

  ghost predicate RefsOk(db: Db) {
    forall t {:trigger RefAt(db, t)} | t in db.txs :: RefAt(db, t)
  }

  ghost predicate EntryPresent(db: Db, t: Id)
    requires t in db.txs
  {
    Moves(db.txs[t]) ==> HasEntry(db.ledger, t)
  }

  ghost predicate EntriesComplete(db: Db) {
    forall t {:trigger EntryPresent(db, t)} | t in db.txs :: EntryPresent(db, t)
  }

  /** Stored instants are positive and not ahead of the clock. */
  ghost predicate ClockOk(db: Db, now: Time) {
    && now > 0
    && (forall w | w in db.wallets :: 0 < db.wallets[w].createdAt <= db.wallets[w].updatedAt <= now)
    && (forall t | t in db.txs :: 0 < db.txs[t].createdAt <= db.txs[t].updatedAt <= now)
  }

  ghost predicate Inv(db: Db) {
    Intact(db) && WalletsOk(db) && RowsOk(db) && RefsOk(db) && EntriesComplete(db)
  }

  // ---- one write ----

  /** Insert a new operation, settle a pending one, or open a wallet. */
  datatype Mode = Fresh | Settle | Open

  ghost predicate NewId(db: Db, id: Id) {
    id != NIL && id !in db.txs
  }

  ghost predicate NewEntryId(db: Db, id: Id) {
    forall i | 0 <= i < |db.ledger| :: db.ledger[i].id != id
  }

  ghost predicate NewEventIds(db: Db, events: seq<OutboxRow>) {
    && (forall i, j | 0 <= i < |db.outbox| && 0 <= j < |events| :: db.outbox[i].id != events[j].id)
    && (forall i, j | 0 <= i < j < |events| :: events[i].id != events[j].id)
  }

  ghost predicate TargetOk(db: Db, mode: Mode, w: Write) {
    match mode
    case Fresh =>
      && NewId(db, w.id) && w.row.wallet in db.wallets && w.row.kind != Opening
      && forall o | o in db.txs :: !SameIdentity(db.txs[o], w.row)
    case Settle =>
      && w.id in db.txs && db.txs[w.id].status == PendingReference && SameTxIdentity(db.txs[w.id], w.row)
    case Open =>
      && NewId(db, w.id) && w.row.wallet !in db.wallets && w.row.kind == Opening && w.entry.Some?
      && forall o | o in db.wallets :: !(db.wallets[o].player == w.wallet.player && db.wallets[o].currency == w.wallet.currency)
  }

  /** The movement is the row's: one entry of its amount, in its direction, from the stored balance. */
  ghost predicate MoveOk(db: Db, mode: Mode, w: Write)
    requires mode != Open ==> w.row.wallet in db.wallets
  {
    if !Moves(w.row) then
      w.entry.None? && mode != Open && w.wallet == db.wallets[w.row.wallet]
    else
      && w.entry.Some? && LedgerCheck(w.entry.value) && NewEntryId(db, w.entry.value.id)
      && var e := w.entry.value;
         && e.wallet == w.row.wallet && e.tx == w.id && e.amount == w.row.amount
         && ExpectedDirection(db.txs, w.row) == Some(e.direction)
         && e.after == w.wallet.balance && e.version == w.wallet.version
         && if mode == Open then
              e.before == 0 && e.version == 1
            else
              && var old_ := db.wallets[w.row.wallet];
                 w.wallet == old_.(balance := e.after, version := e.version, updatedAt := e.createdAt)
                 && e.before == old_.balance && e.version == old_.version + 1
  }

  ghost predicate WriteOk(db: Db, mode: Mode, w: Write) {
    && TargetOk(db, mode, w) && w.row.wallet != NIL
    && (mode != Open ==> w.row.wallet in db.wallets)
    && MoveOk(db, mode, w) && WalletOk(w.row.wallet, w.wallet)
    && RowOk(db.wallets[w.row.wallet := w.wallet], w.id, w.row)
    && (w.row.status == Processed ==> Grounded(db.txs, w.row))
    && (ProcessedReversal(w.row) ==> !Reversed(db.txs, w.row.ref.value))
    && NewEventIds(db, w.events)
  }

  // ---- the statements of a sound write commit ----

  lemma StateSteps(db: Db, b: seq<Change>, k: nat)
    requires k < |b|
    ensures State(db, b, 0) == db && State(db, b, k + 1) == Apply(State(db, b, k), b[k])
  {
  }

  /** Adding fresh events to an accepted batch keeps it accepted. */
  lemma {:induction false} AcceptedWithEvents(db: Db, core: seq<Change>, events: seq<OutboxRow>)
    requires Accepted(db, core) && Final(db, core).outbox == db.outbox && NewEventIds(db, events)
    ensures Accepted(db, core + AddEvents(events))
    ensures Final(db, core + AddEvents(events)) == Final(db, core).(outbox := db.outbox + events)
  {
    if events == [] {
      assert core + AddEvents(events) == core;
    } else {
      var n := |events| - 1;
      var b := core + AddEvents(events[..n]);
      AcceptedWithEvents(db, core, events[..n]);
      assert core + AddEvents(events) == b + [AddEvent(events[n])];
      AcceptedSnoc(db, b, events[n]);
    }
  }

  lemma AcceptedSnoc(db: Db, b: seq<Change>, event: OutboxRow)
    requires Accepted(db, b)
    requires forall i | 0 <= i < |Final(db, b).outbox| :: Final(db, b).outbox[i].id != event.id
    ensures Accepted(db, b + [AddEvent(event)])
    ensures Final(db, b + [AddEvent(event)]) == Final(db, b).(outbox := Final(db, b).outbox + [event])
  {
    var more := [AddEvent(event)];
    var c := b + more;
    StatePrefix(db, b, more, |b|);
    StateSteps(db, c, |b|);
    assert State(db, c, |b|) == Final(db, b) && c[|b|] == AddEvent(event);
    assert AllowedAt(db, c, |b|) && DeferredAt(db, c, |b|);
    forall k | 0 <= k < |b| ensures AllowedAt(db, c, k) && DeferredAt(db, c, k) {
      StatePrefix(db, b, more, k);
      assert AllowedAt(db, b, k) && DeferredAt(db, b, k);
    }
  }

  function Core(insert: bool, w: Write): seq<Change> {
    [if insert then InsertTx(w.id, w.row) else UpdateTx(w.id, w.row)] + MoveStatements(w)
  }

  /** No other row has the write's identity, or reverses what it reverses. */
  lemma NoClash(db: Db, mode: Mode, w: Write, o: Id)
    requires KeysUnique(db) && RowsOk(db) && TargetOk(db, mode, w) && mode != Open && o in db.txs && o != w.id
    requires w.row.wallet in db.wallets && RowOk(db.wallets[w.row.wallet := w.wallet], w.id, w.row)
    requires ProcessedReversal(w.row) && w.row.ref.Some? ==> !Reversed(db.txs, w.row.ref.value)
    ensures !Clash(db.txs[o], w.row)
  {
    assert RowAt(db, o);
    if mode == Settle {
      assert RowAt(db, w.id);
      assert !Clash(db.txs[o], db.txs[w.id]);
    }
  }

  /** The wager row's statement passes the CHECKs, foreign keys and unique indexes. */
  lemma TxStatementAllowed(db: Db, mode: Mode, w: Write)
    requires Inv(db) && WriteOk(db, mode, w) && mode != Open
    ensures TxFits(db, w.id, w.row)
  {
    forall o | o in db.txs && o != w.id ensures !Clash(db.txs[o], w.row) {
      NoClash(db, mode, w, o);
    }
  }

  /** A new entry clashes with no stored one: its version is ahead of its wallet's history,
      and its transaction had no entry before. */
  lemma NoEntryClash(db: Db, mode: Mode, w: Write, i: nat)
    requires Intact(db) && TargetOk(db, mode, w) && mode != Open && w.row.wallet in db.wallets && MoveOk(db, mode, w)
    requires w.entry.Some? && i < |db.ledger|
    ensures !LedgerClash(db.ledger[i], w.entry.value)
  {
    assert EntrySound(db, i);
    EntryBehindWallet(db, i);
  }

  /** The version the wallet leaves has the entry EntryAt finds, once the new one is appended. */
  lemma PreviousEntry(db: Db, w: Id, e: LedgerRow)
    requires Intact(db) && w in db.wallets && e.wallet == w && e.version == db.wallets[w].version + 1
    ensures EntryAt(db.ledger + [e], w, e.version) == Some(e)
    ensures var p := EntryAt(db.ledger + [e], w, e.version - 1);
            if p.None? then e.version == 2 && db.wallets[w].balance == 0 else p.value.after == db.wallets[w].balance
  {
    var l, h := db.ledger + [e], History(db.ledger, w);
    assert l[..|l| - 1] == db.ledger;
    assert ChainAt(db, w);
    if h == [] {
      NoEntryAt(db.ledger, w, e.version - 1);
    } else {
      LastEntry(db, w, h);
    }
  }

  lemma NoEntryAt(l: seq<LedgerRow>, w: Id, v: int)
    requires History(l, w) == []
    ensures EntryAt(l, w, v).None?
  {
    var p := EntryAt(l, w, v);
    if p.Some? {
      var i :| 0 <= i < |l| && l[i] == p.value;
      HistoryHas(l, w, i);
    }
  }

  /** The direction the trigger expects at commit is the one the write chose. */
  lemma DirectionKept(txs: map<Id, TxRow>, id: Id, row: TxRow)
    requires row.ref.Some? ==> row.ref.value in txs
    requires id in txs ==> txs[id].kind == row.kind
    requires id !in txs ==> row.ref != Some(id)
    ensures ExpectedDirection(txs[id := row], row) == ExpectedDirection(txs, row)
  {
  }

  /** The states the three statements of a moving write pass through. */
  lemma MoveStates(db: Db, insert: bool, w: Write)
    requires w.entry.Some?
    ensures var b, e := Core(insert, w), w.entry.value;
            var one := db.(txs := db.txs[w.id := w.row]);
            var two := one.(wallets := db.wallets[w.row.wallet := w.wallet]);
            && b == [if insert then InsertTx(w.id, w.row) else UpdateTx(w.id, w.row), UpdateWallet(w.row.wallet, w.wallet), InsertLedger(e)]
            && State(db, b, 0) == db && State(db, b, 1) == one && State(db, b, 2) == two
            && Final(db, b) == two.(ledger := db.ledger + [e]) == Record(db, w).(outbox := db.outbox)
  {
    var b := Core(insert, w);
    StateSteps(db, b, 0);
    StateSteps(db, b, 1);
    StateSteps(db, b, 2);
  }

  /** Its entry satisfies the deferred triggers in the state it leaves. */
  lemma MoveDeferred(db: Db, mode: Mode, w: Write)
    requires Intact(db) && TargetOk(db, mode, w) && mode != Open && w.row.wallet in db.wallets && MoveOk(db, mode, w)
    requires w.entry.Some? && w.row.currency == db.wallets[w.row.wallet].currency && (w.row.ref.Some? ==> w.row.ref.value in db.txs)
    ensures var final := Record(db, w);
            && WalletUpdateOk(w.row.wallet, db.wallets[w.row.wallet], w.wallet, final)
            && LedgerChainOk(w.entry.value, final) && LedgerTxOk(w.entry.value, final)
  {
    var e := w.entry.value;
    assert ChainAt(db, w.row.wallet);
    PreviousEntry(db, w.row.wallet, e);
    DirectionKept(db.txs, w.id, w.row);
  }

  lemma MoveCommits(db: Db, mode: Mode, w: Write)
    requires Intact(db) && TargetOk(db, mode, w) && mode != Open && w.row.wallet in db.wallets && MoveOk(db, mode, w)
    requires w.entry.Some? && WalletOk(w.row.wallet, w.wallet) && TxFits(db, w.id, w.row)
    requires w.row.currency == db.wallets[w.row.wallet].currency && (w.row.ref.Some? ==> w.row.ref.value in db.txs)
    ensures Accepted(db, Core(mode == Fresh, w))
    ensures Final(db, Core(mode == Fresh, w)) == Record(db, w).(outbox := db.outbox)
  {
    var b := Core(mode == Fresh, w);
    MoveStates(db, mode == Fresh, w);
    forall i | 0 <= i < |db.ledger| ensures !LedgerClash(db.ledger[i], w.entry.value) {
      NoEntryClash(db, mode, w, i);
    }
    MoveDeferred(db, mode, w);
    forall k | 0 <= k < |b| ensures AllowedAt(db, b, k) && DeferredAt(db, b, k) {
      assert k == 0 || k == 1 || k == 2;
    }
  }

  lemma CoreCommits(db: Db, mode: Mode, w: Write)
    requires Inv(db) && WriteOk(db, mode, w) && mode != Open
    ensures Accepted(db, Core(mode == Fresh, w))
    ensures Final(db, Core(mode == Fresh, w)) == Record(db, w).(outbox := db.outbox)
  {
    TxStatementAllowed(db, mode, w);
    if w.entry.Some? {
      MoveCommits(db, mode, w);
    } else {
      PlainCommits(db, mode, w);
    }
  }

  lemma PlainCommits(db: Db, mode: Mode, w: Write)
    requires TargetOk(db, mode, w) && mode != Open && w.entry.None? && TxFits(db, w.id, w.row)
    ensures Accepted(db, Core(mode == Fresh, w))
    ensures Final(db, Core(mode == Fresh, w)) == Record(db, w).(outbox := db.outbox)
  {
    var b := Core(mode == Fresh, w);
    StateSteps(db, b, 0);
    assert Allowed(db, b[0]);
    assert AllowedAt(db, b, 0) && DeferredAt(db, b, 0);
  }

  /** No trigger or constraint ever raises on a sound write of the store. */
  lemma WriteCommits(db: Db, mode: Mode, w: Write)
    requires Inv(db) && WriteOk(db, mode, w) && mode != Open
    ensures Accepted(db, Batch(mode == Fresh, w)) && Final(db, Batch(mode == Fresh, w)) == Record(db, w)
  {
    CoreCommits(db, mode, w);
    AcceptedWithEvents(db, Core(mode == Fresh, w), w.events);
  }
}
