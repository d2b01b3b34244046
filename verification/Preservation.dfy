/** A sound write keeps the stored state sound. */
module Preservation {
  import opened Prelude
  import opened Domain
  import opened Decision
  import opened Schema
  import opened Integrity
  import opened Writes
  import opened Invariant

  lemma RowsKept(db: Db, mode: Mode, w: Write)
    requires RowsOk(db) && WriteOk(db, mode, w)
    ensures RowsOk(Record(db, w))
  {
    var after := Record(db, w);
    forall t | t in after.txs ensures RowAt(after, t) {
      if t != w.id {
        assert RowAt(db, t);
      } else if w.entry.None? {
        assert db.wallets[w.row.wallet := w.wallet] == db.wallets;
      }
    }
  }

  lemma WalletsKept(db: Db, mode: Mode, w: Write)
    requires WalletsOk(db) && WriteOk(db, mode, w)
    ensures WalletsOk(Record(db, w))
  {
    var after := Record(db, w);
    forall x | x in after.wallets ensures WalletOk(x, after.wallets[x]) {
      if x in db.wallets {
        assert WalletOk(x, db.wallets[x]);
      }
    }
  }

  lemma FollowsKept(l: seq<LedgerRow>, more: seq<LedgerRow>, earlier: Id, later: Id)
    requires EntryFollows(l, earlier, later)
    ensures EntryFollows(l + more, earlier, later)
  {
    var i, j :| 0 <= i < j < |l| && l[i].tx == earlier && l[j].tx == later;
    assert (l + more)[i].tx == earlier && (l + more)[j].tx == later;
  }

  lemma HasKept(l: seq<LedgerRow>, more: seq<LedgerRow>, id: Id)
    requires HasEntry(l, id)
    ensures HasEntry(l + more, id)
  {
    var i :| 0 <= i < |l| && l[i].tx == id;
    assert (l + more)[i].tx == id;
  }

  function Added(w: Write): seq<LedgerRow> {
    if w.entry.Some? then [w.entry.value] else []
  }

  lemma LedgerAfter(db: Db, w: Write)
    ensures Record(db, w).ledger == db.ledger + Added(w)
  {
  }

  /** What was grounded stays grounded: a processed row is never the one a write replaces. */
  lemma GroundedKept(db: Db, mode: Mode, w: Write, t: TxRow)
    requires TargetOk(db, mode, w) && Grounded(db.txs, t)
    ensures Grounded(Record(db, w).txs, t)
  {
  }

  lemma RefsKept(db: Db, mode: Mode, w: Write)
    requires Inv(db) && WriteOk(db, mode, w)
    ensures RefsOk(Record(db, w))
  {
    var after := Record(db, w);
    LedgerAfter(db, w);
    forall t | t in after.txs ensures RefAt(after, t) {
      if t != w.id {
        assert RefAt(db, t);
        if db.txs[t].status == Processed {
          GroundedKept(db, mode, w, db.txs[t]);
          if db.txs[t].ref.Some? {
            FollowsKept(db.ledger, Added(w), db.txs[t].ref.value, t);
          }
        }
      } else if w.row.status == Processed {
        GroundedKept(db, mode, w, w.row);
        if w.row.ref.Some? {
          OwnEntryFollows(db, mode, w);
        }
      }
    }
  }

  lemma OwnEntryFollows(db: Db, mode: Mode, w: Write)
    requires Inv(db) && WriteOk(db, mode, w) && w.row.status == Processed && w.row.ref.Some?
    ensures EntryFollows(db.ledger + Added(w), w.row.ref.value, w.id)
  {
    assert EntryPresent(db, w.row.ref.value);
    var i :| 0 <= i < |db.ledger| && db.ledger[i].tx == w.row.ref.value;
    var l := db.ledger + Added(w);
    assert l[i].tx == w.row.ref.value && l[|db.ledger|].tx == w.id;
  }

  lemma EntriesStayComplete(db: Db, mode: Mode, w: Write)
    requires EntriesComplete(db) && WriteOk(db, mode, w)
    ensures EntriesComplete(Record(db, w))
  {
    var after := Record(db, w);
    LedgerAfter(db, w);
    forall t | t in after.txs ensures EntryPresent(after, t) {
      if t != w.id {
        assert EntryPresent(db, t);
        if Moves(db.txs[t]) {
          HasKept(db.ledger, Added(w), t);
        }
      } else if Moves(w.row) {
        assert after.ledger[|db.ledger|].tx == w.id;
      }
    }
  }

  lemma RecordKeepsInv(db: Db, mode: Mode, w: Write)
    requires Inv(db) && WriteOk(db, mode, w) && mode != Open
    ensures Inv(Record(db, w)) && Grown(db, Record(db, w))
  {
    WriteCommits(db, mode, w);
    SchemaInductive(db, Batch(mode == Fresh, w));
    RowsKept(db, mode, w);
    WalletsKept(db, mode, w);
    RefsKept(db, mode, w);
    EntriesStayComplete(db, mode, w);
  }

  // ---- opening a wallet ----

  ghost predicate OpenOk(db: Db, w: WalletVal, env: Env) {
    && w.Valid() && w.id !in db.wallets && w.version == 1
    && (forall o | o in db.wallets :: !(db.wallets[o].player == w.player && db.wallets[o].currency == w.balance.currency))
    && NewId(db, env.txId) && env.entryId != NIL && NewEntryId(db, env.entryId) && NewEventIds(db, OpeningWrite(w, env).events)
    && 0 < env.began
  }

  lemma OpeningWriteOk(db: Db, w: WalletVal, env: Env)
    requires Inv(db) && OpenOk(db, w, env) && w.balance.minor > 0
    ensures WriteOk(db, Open, OpeningWrite(w, env))
  {
  }

  /** A wallet nobody has opened has no entry. */
  lemma NoEntryYet(db: Db, w: Id, i: nat)
    requires EntriesSound(db) && w !in db.wallets && i < |db.ledger|
    ensures db.ledger[i].wallet != w
  {
    assert EntrySound(db, i);
  }

  lemma NoOpeningYet(db: Db, w: Id, t: Id)
    requires RowsOk(db) && w !in db.wallets && t in db.txs
    ensures db.txs[t].wallet != w
  {
    assert RowAt(db, t);
  }

  lemma ZeroOpenCommits(db: Db, w: WalletVal, env: Env)
    requires Inv(db) && OpenOk(db, w, env) && w.balance.minor == 0
    ensures Accepted(db, OpenBatch(w, env)) && Final(db, OpenBatch(w, env)) == Opened(db, w, env)
  {
    var b := OpenBatch(w, env);
    StateSteps(db, b, 0);
    NoHistoryWithoutWallet(db, w.id);
    NoEntryAt(db.ledger, w.id, 1);
    assert Allowed(db, b[0]);
    assert AllowedAt(db, b, 0) && DeferredAt(db, b, 0);
  }

  function OpenCore(w: WalletVal, env: Env): seq<Change> {
    [InsertWallet(w.id, WalletRowOf(w)), InsertTx(env.txId, OpeningWrite(w, env).row), InsertLedger(OpeningWrite(w, env).entry.value)]
  }

  lemma OpenStates(db: Db, w: WalletVal, env: Env)
    requires w.balance.minor > 0
    ensures var b, o := OpenCore(w, env), OpeningWrite(w, env);
            var one := db.(wallets := db.wallets[w.id := WalletRowOf(w)]);
            var two := one.(txs := db.txs[env.txId := o.row]);
            && State(db, b, 0) == db && State(db, b, 1) == one && State(db, b, 2) == two
            && Final(db, b) == two.(ledger := db.ledger + [o.entry.value]) == Record(db, o).(outbox := db.outbox)
  {
    var b := OpenCore(w, env);
    StateSteps(db, b, 0);
    StateSteps(db, b, 1);
    StateSteps(db, b, 2);
  }

  lemma OpenCoreCommits(db: Db, w: WalletVal, env: Env)
    requires Inv(db) && OpenOk(db, w, env) && w.balance.minor > 0
    ensures Accepted(db, OpenCore(w, env))
  {
    var b, o := OpenCore(w, env), OpeningWrite(w, env);
    OpenStates(db, w, env);
    forall i | 0 <= i < |db.ledger| ensures !LedgerClash(db.ledger[i], o.entry.value) {
      NoEntryYet(db, w.id, i);
    }
    forall t | t in db.txs ensures !Clash(db.txs[t], o.row) {
      NoOpeningYet(db, w.id, t);
    }
    var l := db.ledger + [o.entry.value];
    assert l[..|l| - 1] == db.ledger;
    assert EntryAt(l, w.id, 1) == Some(o.entry.value);
    forall k | 0 <= k < |b| ensures AllowedAt(db, b, k) && DeferredAt(db, b, k) {
      assert k == 0 || k == 1 || k == 2;
    }
  }

  lemma OpenCommits(db: Db, w: WalletVal, env: Env)
    requires Inv(db) && OpenOk(db, w, env)
    ensures Accepted(db, OpenBatch(w, env)) && Final(db, OpenBatch(w, env)) == Opened(db, w, env)
  {
    if w.balance.minor == 0 {
      ZeroOpenCommits(db, w, env);
    } else {
      OpenCoreCommits(db, w, env);
      OpenStates(db, w, env);
      AcceptedWithEvents(db, OpenCore(w, env), OpeningWrite(w, env).events);
      assert OpenBatch(w, env) == OpenCore(w, env) + AddEvents(OpeningWrite(w, env).events);
    }
  }

  lemma ZeroOpenKeeps(db: Db, w: WalletVal, env: Env)
    requires Inv(db) && OpenOk(db, w, env) && w.balance.minor == 0
    ensures var after := Opened(db, w, env); WalletsOk(after) && RowsOk(after) && RefsOk(after) && EntriesComplete(after)
  {
    var after := Opened(db, w, env);
    forall x | x in after.wallets ensures WalletOk(x, after.wallets[x]) {
      if x != w.id {
        assert WalletOk(x, db.wallets[x]);
      }
    }
    forall t | t in after.txs ensures RowAt(after, t) && RefAt(after, t) && EntryPresent(after, t) {
      assert RowAt(db, t) && RefAt(db, t) && EntryPresent(db, t);
    }
  }

  lemma OpenKeepsInv(db: Db, w: WalletVal, env: Env)
    requires Inv(db) && OpenOk(db, w, env)
    ensures Inv(Opened(db, w, env)) && Grown(db, Opened(db, w, env))
  {
    OpenCommits(db, w, env);
    SchemaInductive(db, OpenBatch(w, env));
    if w.balance.minor == 0 {
      ZeroOpenKeeps(db, w, env);
    } else {
      var o := OpeningWrite(w, env);
      OpeningWriteOk(db, w, env);
      RowsKept(db, Open, o);
      WalletsKept(db, Open, o);
      RefsKept(db, Open, o);
      EntriesStayComplete(db, Open, o);
    }
  }

  /** A created wallet reads back as the wallet that was created. */
  lemma OpenedReadsBack(db: Db, w: WalletVal, env: Env)
    requires OpenOk(db, w, env) && w.updatedAt == w.createdAt
    ensures w.id in Opened(db, w, env).wallets && ToWallet(w.id, Opened(db, w, env).wallets[w.id]) == w
  {
  }

  // ---- the writes the application computes are sound ----

  /** What a transaction has read about its reference. What lies in its own wallet is current;
      about other wallets only what never changes has to be. */
  ghost predicate ViewFits(db: Db, op: Operation, view: Option<Reference>) {
    view.Some? ==>
      && op.refExternal != "" && view.value.id in db.txs
      && var v, p := view.value, db.txs[view.value.id];
         && Names(p, op.provider, op.refExternal)
         && v == View(v.id, p.(status := v.status), v.reversed)
         && (p.wallet == op.wallet ==> v.status == p.status && v.reversed == Reversed(db.txs, v.id))
  }

  /** A view read in one instant fits. */
  lemma ReadFits(db: Db, op: Operation, view: Option<Reference>)
    requires op.refExternal != "" && ReadsReference(db.txs, op.provider, op.refExternal, view)
    ensures ViewFits(db, op, view)
  {
  }

  lemma FitViewMoney(db: Db, op: Operation, view: Option<Reference>)
    requires RowsOk(db) && ViewFits(db, op, view)
    ensures view.Some? ==> view.value.money.Valid()
  {
    if view.Some? {
      assert RowAt(db, view.value.id);
    }
  }

  ghost predicate EnvOk(db: Db, env: Env) {
    && NewId(db, env.txId) && env.entryId != NIL && NewEntryId(db, env.entryId)
    && env.balanceEventId != env.wagerEventId
    && (forall i | 0 <= i < |db.outbox| :: db.outbox[i].id != env.balanceEventId && db.outbox[i].id != env.wagerEventId)
    && 0 < env.began <= env.now
  }

  /** The identifiers a call would give to what it stores. */
  function Uses(env: Env): set<Id> {
    {env.txId, env.entryId, env.balanceEventId, env.wagerEventId}
  }

  lemma CompletedIds(id: Id, row: TxRow, snap: WalletRow, d: Decision, w: WalletVal, causation: string, env: Env)
    requires Completed(id, row, snap, d, w, causation, env).Ok?
    ensures var o := Completed(id, row, snap, d, w, causation, env).value;
            && o.id == id && o.row == row && (o.entry.Some? ==> o.entry.value.id == env.entryId)
            && (forall i | 0 <= i < |o.events| :: o.events[i].id == env.balanceEventId || o.events[i].id == env.wagerEventId)
  {
  }

  lemma EnvStays(db: Db, w: Write, env: Env)
    requires EnvOk(db, env) && w.id != env.txId && (w.entry.Some? ==> w.entry.value.id != env.entryId)
    requires forall i | 0 <= i < |w.events| :: w.events[i].id != env.balanceEventId && w.events[i].id != env.wagerEventId
    ensures EnvOk(Record(db, w), env)
  {
  }

  /** A write that uses the identifiers of one call leaves those of another unused. */
  lemma OthersStay(db: Db, w: Write, mine: Env, env: Env)
    requires EnvOk(db, env) && Uses(mine) !! Uses(env)
    requires (w.id == mine.txId || w.id in db.txs) && (w.entry.Some? ==> w.entry.value.id == mine.entryId)
    requires forall i | 0 <= i < |w.events| :: w.events[i].id == mine.balanceEventId || w.events[i].id == mine.wagerEventId
    ensures EnvOk(Record(db, w), env)
  {
    assert mine.txId in Uses(mine) && mine.entryId in Uses(mine) && mine.balanceEventId in Uses(mine) && mine.wagerEventId in Uses(mine);
    assert env.txId in Uses(env) && env.entryId in Uses(env) && env.balanceEventId in Uses(env) && env.wagerEventId in Uses(env);
    EnvStays(db, w, env);
  }

  /** A verdict of Processed rests on a reference that grounds it and, for a reversal, is not reversed yet. */
  lemma ProcessedIsGrounded(db: Db, op: Operation, w: WalletVal, view: Option<Reference>, now: Time, row: TxRow)
    requires RowsOk(db) && ViewFits(db, op, view) && ValidOperation(op.kind, op.money, op.refExternal)
    requires Decide(op, w, view, now).0.status == Processed
    requires row.provider == Some(op.provider) && row.refExternal == Nullable(op.refExternal) && row.wallet == op.wallet
    requires row.player == op.player && row.round == Some(op.round) && row.currency == op.money.currency
    requires row.amount == op.money.minor && row.kind == op.kind && row.ref == NonNil(Decide(op, w, view, now).0.ref)
    ensures Grounded(db.txs, row) && (IsReversal(row.kind) ==> !Reversed(db.txs, row.ref.value))
    ensures op.kind != Loss ==> ExpectedDirection(db.txs, row) == Some(DirectionFor(op.kind, KindOf(view)))
  {
    if view.Some? {
      assert RowAt(db, view.value.id);
    }
  }

  lemma CompletedSound(db: Db, mode: Mode, id: Id, row: TxRow, d: Decision, w: WalletVal, op: Operation, view: Option<Reference>, causation: string, env: Env)
    requires mode != Open && row.wallet in db.wallets && ToWallet(row.wallet, db.wallets[row.wallet]).Valid()
    requires row.wallet == op.wallet && row.kind == op.kind && row.amount == op.money.minor && row.currency == op.money.currency
    requires row.status == d.status
    requires (d, w) == Decide(op, ToWallet(op.wallet, db.wallets[op.wallet]), view, env.now)
             || (d.direction.None? && d.status != Processed && w == ToWallet(op.wallet, db.wallets[op.wallet]))
    requires d.direction.Some? ==> ExpectedDirection(db.txs, row) == Some(DirectionFor(op.kind, KindOf(view)))
    requires NewEntryId(db, env.entryId) && Completed(id, row, db.wallets[op.wallet], d, w, causation, env).Ok?
    ensures var o := Completed(id, row, db.wallets[op.wallet], d, w, causation, env).value;
            && MoveOk(db, mode, o) && WalletOk(row.wallet, o.wallet) && o.id == id && o.row == row
            && (o.entry.Some? <==> d.direction.Some?)
            && o.wallet.currency == db.wallets[op.wallet].currency && o.wallet.player == db.wallets[op.wallet].player
            && o.events == EventsOf(id, row, o.entry, causation, env)
  {
  }

  lemma EventsFresh(db: Db, tx: Id, row: TxRow, entry: Option<LedgerRow>, causation: string, env: Env)
    requires EnvOk(db, env)
    ensures NewEventIds(db, EventsOf(tx, row, entry, causation, env))
  {
  }

  lemma DraftSound(db: Db, op: Operation, hash: Canonical, view: Option<Reference>, decider: Decider, causation: string, env: Env)
    requires Inv(db) && EnvOk(db, env) && op.wallet in db.wallets && ViewFits(db, op, view)
    requires op.money.Valid() && hash == CanonicalOf(op)
    requires forall o | o in db.txs :: !SameOp(db.txs[o], op)
    requires Draft(op, hash, db.wallets[op.wallet], view, decider, causation, env).Ok?
    ensures WriteOk(db, Fresh, Draft(op, hash, db.wallets[op.wallet], view, decider, causation, env).value)
  {
    var snap := db.wallets[op.wallet];
    var wallet := ToWallet(op.wallet, snap);
    assert WalletOk(op.wallet, snap);
    var (d, w) := DecideBy(decider, op, wallet, view, env.now);
    var row := NewRow(op, hash, d, w, env);
    DecideMoves(op, wallet, view, env.now);
    if d.status == Processed {
      ProcessedIsGrounded(db, op, wallet, view, env.now, row);
    }
    CompletedSound(db, Fresh, env.txId, row, d, w, op, view, causation, env);
    EventsFresh(db, env.txId, row, Completed(env.txId, row, snap, d, w, causation, env).value.entry, causation, env);
    FreshRowOk(op, hash, snap, view, decider, env,
               db.wallets[op.wallet := Completed(env.txId, row, snap, d, w, causation, env).value.wallet]);
  }

  /** A stored row that shares the operation's key or external id under its provider. */
  predicate SameOp(t: TxRow, op: Operation) {
    t.provider == Some(op.provider) && (t.key == Some(op.key) || t.external == Some(op.external))
  }

  /** Fields of the row executeTx inserts that its construction and transition vouch for. */
  lemma ConstructedRow(op: Operation, hash: Canonical, d: Decision, w: WalletVal, env: Env)
    requires 0 < env.began <= env.now
    requires NewTx(NewData(op, hash, env)).Ok?
    requires Transitioned(NewTx(NewData(op, hash, env)).value, d.status, d.failure, w.balance, d.ref, env.now).Ok?
    ensures var row := NewRow(op, hash, d, w, env);
            && ValidTx(DataOf(env.txId, row)) && TxCheck(row) && row.status != Pending && row.kind != Opening && OpOf(row) == op
            && (row.ref.Some? ==> row.status == Processed)
  {
    var data := NewTx(NewData(op, hash, env)).value;
    var next := Transitioned(data, d.status, d.failure, w.balance, d.ref, env.now).value;
    assert DataOf(env.txId, NewRow(op, hash, d, w, env)) == next.(createdAt := env.began, updatedAt := env.began);
  }

  /** What a verdict other than a wallet mismatch says of the operation and its wallet. */
  lemma VerdictTells(op: Operation, w: WalletVal, view: Option<Reference>, now: Time)
    requires now != 0
    ensures var d := Decide(op, w, view, now).0;
            && (d.status == PendingReference || d.status == Processed ==> w.player == op.player && w.balance.currency == op.money.currency)
            && (d.status == PendingReference ==> NeedsReference(op))
            && d.failure != REFERENCE_NOT_FOUND && d.status != Failed
            && Decide(op, w, view, now).1.balance.currency == w.balance.currency
  {
    DecideMoves(op, w, view, now);
  }

  /** The inserted row passes the checks a later read makes, under any wallet table that kept its wallet's identity. */
  lemma FreshRowOk(op: Operation, hash: Canonical, snap: WalletRow, view: Option<Reference>, decider: Decider, env: Env, wallets: map<Id, WalletRow>)
    requires 0 < env.began <= env.now && ToWallet(op.wallet, snap).Valid() && op.money.Valid() && hash == CanonicalOf(op)
    requires op.wallet in wallets && wallets[op.wallet].currency == snap.currency && wallets[op.wallet].player == snap.player
    requires var (d, w) := DecideBy(decider, op, ToWallet(op.wallet, snap), view, env.now);
             NewTx(NewData(op, hash, env)).Ok?
             && Transitioned(NewTx(NewData(op, hash, env)).value, d.status, d.failure, w.balance, d.ref, env.now).Ok?
    ensures var (d, w) := DecideBy(decider, op, ToWallet(op.wallet, snap), view, env.now);
            RowOk(wallets, env.txId, NewRow(op, hash, d, w, env))
  {
    var (d, w) := DecideBy(decider, op, ToWallet(op.wallet, snap), view, env.now);
    ConstructedRow(op, hash, d, w, env);
    VerdictTells(op, ToWallet(op.wallet, snap), view, env.now);
  }
}
