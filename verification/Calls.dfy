/** What the store's calls answer and leave behind, and that from sound tables they always go through. */
module Calls {
  import opened Prelude
  import opened MoneyModel
  import opened Domain
  import opened Decision
  import opened Schema
  import opened Writes
  import opened Invariant
  import opened Preservation
  import opened Resolver
  import opened Idempotency
  import opened Steps
  import opened Statements

  // ---- executeTx ----

  /** executeTx's answer and effect on the tables, given the plan its reads led to. */
  ghost predicate Executed(a: Db, p: Plan, r: Result<Reply>, b: Db) {
    match p
    case Stop(e) => r == Err(e) && b == a
    case Replay(reply) => r == Ok(reply) && b == a
    case Do(w, reply) =>
      if Accepted(a, Batch(true, w)) then r == Ok(reply) && b == Final(a, Batch(true, w))
      else r.Err? && b == a && (BreaksUnique(a, InsertTx(w.id, w.row)) ==> r.error == Conflict)
  }

  /** The same inside an open transaction that has issued `was`: what executeTx leaves in `b`. */
  ghost predicate Queued(db: Db, was: seq<Change>, p: Plan, r: Result<Reply>, b: seq<Change>) {
    match p
    case Stop(e) => r == Err(e) && b == was
    case Replay(reply) => r == Ok(reply) && b == was
    case Do(w, reply) =>
      if r.Ok? then r == Ok(reply) && b == was + Batch(true, w)
      else Doomed(db, was + Batch(true, w)) && (BreaksUnique(Final(db, was), InsertTx(w.id, w.row)) ==> r.error == Conflict)
  }

  /** A write's batch begins with the INSERT of its row; if that is refused, so is the batch. */
  lemma InsertComesFirst(db: Db, was: seq<Change>, w: Write)
    ensures var insert := InsertTx(w.id, w.row);
            && was + [insert] + (MoveStatements(w) + AddEvents(w.events)) == was + Batch(true, w)
            && (Doomed(db, was + [insert]) ==> Doomed(db, was + Batch(true, w)))
            && (Allowed(Final(db, was), insert) ==> !BreaksUnique(Final(db, was), insert))
  {
    var insert, rest := InsertTx(w.id, w.row), MoveStatements(w) + AddEvents(w.events);
    assert Batch(true, w) == [insert] + rest;
    assert was + ([insert] + rest) == was + [insert] + rest;
    if Doomed(db, was + [insert]) {
      DoomedExtends(db, was + [insert], rest);
    }
  }

  predicate IdsGiven(env: Env) {
    env.txId != NIL && env.entryId != NIL
  }

  /** A call on sound tables, with unused identifiers, for an operation under its own hash. */
  ghost predicate SoundCall(db: Db, op: Operation, hash: Canonical, env: Env) {
    Sound(db) && EnvOk(db, env) && op.money.Valid() && hash == CanonicalOf(op)
  }

  /** The plan, case by case, with a ledger entry that is never refused. */
  lemma FreshPlanCases(op: Operation, hash: Canonical, snap: WalletRow, view: Option<Reference>, decider: Decider, causation: string, env: Env)
    requires IdsGiven(env)
    ensures var (d, w) := DecideBy(decider, op, ToWallet(op.wallet, snap), view, env.now);
            var p := FreshPlan(op, hash, snap, view, decider, causation, env);
            match NewTx(NewData(op, hash, env))
            case Err(e) => p == Stop(e)
            case Ok(data) =>
              match Transitioned(data, d.status, d.failure, w.balance, d.ref, env.now)
              case Err(e) => p == Stop(e)
              case Ok(_) =>
                && (d.direction.Some? ==>
                      Domain.NewEntry(env.entryId, op.wallet, env.txId, d.direction.value, op.money, d.before, w.balance, env.now).Ok?)
                && var built := Completed(env.txId, NewRow(op, hash, d, w, env), snap, d, w, causation, env);
                   built.Ok? && p == Do(built.value, Reply(env.txId, d.status, w.balance, d.failure, false))
  {
    EntryAccepted(op, ToWallet(op.wallet, snap), view, env.now, env.entryId, env.txId);
    DecideMoves(op, ToWallet(op.wallet, snap), view, env.now);
  }

  /** A new operation that passed the use case's checks leaves a row exactly when its currency is the wallet's. In another
      currency even the rejection is lost: the wallet's balance is refused as the result, and everything rolls back. */
  lemma RowIsLeftIff(op: Operation, hash: Canonical, snap: WalletRow, view: Option<Reference>, decider: Decider, causation: string, env: Env)
    requires IdsGiven(env) && env.now != 0 && ToWallet(op.wallet, snap).Valid()
    requires !Blank(op.provider) && !Blank(op.external) && !Blank(op.key) && !Blank(op.round) && !Blank(op.game)
    requires op.player != NIL && op.wallet != NIL && ValidOperation(op.kind, op.money, op.refExternal)
    requires decider.FailWith? ==> decider.code != ""
    ensures var p := FreshPlan(op, hash, snap, view, decider, causation, env);
            && (p.Do? <==> snap.currency == op.money.currency)
            && (!p.Do? ==> p == Stop(InvalidTransaction))
  {
    FreshPlanCases(op, hash, snap, view, decider, causation, env);
    DecideMoves(op, ToWallet(op.wallet, snap), view, env.now);
    RowIsBuilt(op, hash, env);
  }

  lemma RowIsBuilt(op: Operation, hash: Canonical, env: Env)
    requires IdsGiven(env) && env.now != 0
    requires !Blank(op.provider) && !Blank(op.external) && !Blank(op.key) && !Blank(op.round) && !Blank(op.game)
    requires op.player != NIL && op.wallet != NIL && ValidOperation(op.kind, op.money, op.refExternal)
    ensures NewTx(NewData(op, hash, env)) == Ok(NewData(op, hash, env))
  {
  }

  /** From a sound state, executeTx's write always commits, whole, and leaves a sound state. */
  lemma SoundExecution(db: Db, op: Operation, decider: Decider, causation: string, env: Env, p: Plan, r: Result<Reply>, after: Db)
    requires Sound(db) && EnvOk(db, env) && op.money.Valid() && Planned(db, op, CanonicalOf(op), decider, causation, env, p)
    requires Executed(db, p, r, after)
    ensures Sound(after) && (p.Do? ==> r == Ok(p.reply) && after == Record(db, p.write))
  {
    if p.Do? {
      PlanIsStep(db, op, decider, causation, env, p);
    }
  }

  /** Identifiers that a call did not use stay unused. */
  lemma OtherIdsStay(db: Db, op: Operation, decider: Decider, causation: string, env: Env, p: Plan, r: Result<Reply>, after: Db, other: Env)
    requires Sound(db) && EnvOk(db, env) && op.money.Valid() && Planned(db, op, CanonicalOf(op), decider, causation, env, p)
    requires Executed(db, p, r, after) && EnvOk(db, other) && Uses(env) !! Uses(other)
    ensures EnvOk(after, other)
  {
    SoundExecution(db, op, decider, causation, env, p, r, after);
    if p.Do? {
      var view := PlanReads(db, op, CanonicalOf(op), decider, causation, env, p);
      DraftIds(op, db.wallets[op.wallet], view, decider, causation, env);
      OthersStay(db, p.write, env, other);
    }
  }

  lemma QueuedThenCommitted(db: Db, p: Plan, r: Result<Reply>, b: seq<Change>)
    requires Queued(db, [], p, r, b) && (r.Ok? ==> Accepted(db, b))
    ensures Executed(db, p, r, if r.Ok? then Final(db, b) else db)
  {
    if p.Do? {
      assert [] + Batch(true, p.write) == Batch(true, p.write);
      if r.Err? {
        DoomedExtends(db, Batch(true, p.write), []);
      }
    }
  }

  lemma QueuedThenRefused(db: Db, p: Plan, r: Result<Reply>, b: seq<Change>)
    requires Queued(db, [], p, r, b) && r.Ok? && Immediate(db, b) && !Accepted(db, b)
    ensures Executed(db, p, Err(DatabaseError), db)
  {
    if p.Do? {
      assert [] + Batch(true, p.write) == Batch(true, p.write);
      assert AllowedAt(db, b, 0);
      AllowedBreaksNothing(db, b[0]);
    }
  }

  // ---- the inbox ----

  /** The payload the inbox holds for a message once it has tried to insert it. */
  function Recorded(db: Db, key: InboxKey, payload: string): string {
    if key in db.inbox then db.inbox[key].payload else payload
  }

  lemma PlannedIgnoresInbox(db: Db, i: map<InboxKey, InboxRow>, op: Operation, hash: Canonical, decider: Decider, causation: string, env: Env, p: Plan)
    requires Planned(db.(inbox := i), op, hash, decider, causation, env, p)
    ensures Planned(db, op, hash, decider, causation, env, p)
  {
    var moved := db.(inbox := i);
    if op.wallet in db.wallets && ToWallet(op.wallet, db.wallets[op.wallet]).Valid() {
      if Known(db.txs, op) {
        var id :| PlannedFrom(moved, op, hash, id, p);
        assert PlannedFrom(db, op, hash, id, p);
      } else {
        var view :| PlannedOn(moved, op, hash, view, decider, causation, env, p);
        assert PlannedOn(db, op, hash, view, decider, causation, env, p);
      }
    }
  }

  lemma BatchHasNoInbox(p: Plan)
    ensures p.Do? ==> NoInbox(Batch(true, p.write))
  {
  }

  lemma InboxFailed(db: Db, i: map<InboxKey, InboxRow>, p: Plan, r: Result<Reply>, b: seq<Change>)
    requires Queued(db, [WriteInbox(i)], p, r, b) && r.Err?
    ensures Executed(db, p, r, db)
  {
    if p.Do? {
      var batch := Batch(true, p.write);
      assert [WriteInbox(i)] + batch + [] == [WriteInbox(i)] + batch;
      DoomedExtends(db, [WriteInbox(i)] + batch, []);
      InboxAround(db, i, batch, []);
      InboxFirst(db, i);
    }
  }

  lemma InboxDone(db: Db, i: map<InboxKey, InboxRow>, p: Plan, r: Result<Reply>, b: seq<Change>, post: seq<Change>)
    requires Queued(db, [WriteInbox(i)], p, r, b) && r.Ok? && (post == [] || (|post| == 1 && post[0].WriteInbox?))
    ensures Accepted(db, b + post) ==>
              && Executed(db, p, r, Final(db, b + post).(inbox := db.inbox))
              && Final(db, b + post).inbox == if post == [] then i else post[0].inbox
    ensures Immediate(db, b + post) && !Accepted(db, b + post) ==> Executed(db, p, Err(DatabaseError), db)
  {
    var batch := if p.Do? then Batch(true, p.write) else [];
    BatchHasNoInbox(p);
    assert b + post == [WriteInbox(i)] + batch + post;
    InboxAround(db, i, batch, post);
    EmptyAccepted(db);
    BatchLeavesInbox(db, batch, |batch|);
    if p.Do? && Immediate(db, b + post) {
      assert AllowedAt(db, batch, 0);
      AllowedBreaksNothing(db, batch[0]);
    }
  }

  /** The answer shows the row column by column, a missing text as an empty one. */
  predicate ReadsBack(id: Id, t: TxRow, d: TxData) {
    && d.id == id && d.wallet == t.wallet && d.player == t.player && d.kind == t.kind && d.status == t.status && d.hash == t.hash
    && d.money.minor == t.amount && d.money.currency == t.currency && d.createdAt == t.createdAt && d.updatedAt == t.updatedAt
    && Shows(d.external, t.external) && Shows(d.provider, t.provider) && Shows(d.key, t.key) && Shows(d.round, t.round)
    && Shows(d.game, t.game) && Shows(d.refExternal, t.refExternal) && Shows(d.failure, t.failure)
    && (if t.ref.Some? then d.ref == t.ref.value else d.ref == 0)
    && (if t.result.Some? then d.result.minor == t.result.value && d.result.currency == t.currency else d.result == Money(0, ""))
  }

  predicate Shows(text: string, column: Option<string>) {
    if column.Some? then text == column.value else text == ""
  }

  // ---- the resolver ----

  /** The row to resolve next: due, not locked by another resolver, first by instant and then by id. */
  predicate Before(db: Db, a: Id, b: Id)
    requires a in db.txs && b in db.txs && db.txs[a].nextAttempt.Some? && db.txs[b].nextAttempt.Some?
  {
    db.txs[a].nextAttempt.value < db.txs[b].nextAttempt.value || (db.txs[a].nextAttempt == db.txs[b].nextAttempt && a <= b)
  }

  /** A waiting row whose next attempt is due. */
  predicate Waits(db: Db, i: Id, began: Time) {
    i in db.txs && db.txs[i].status.PendingReference? && db.txs[i].nextAttempt.Some? && db.txs[i].nextAttempt.value <= began
  }

  /** Due earlier, or at the same instant with the smaller id. */
  predicate DueBefore(db: Db, a: Id, b: Id) {
    && a in db.txs && b in db.txs && db.txs[a].nextAttempt.Some? && db.txs[b].nextAttempt.Some?
    && (db.txs[a].nextAttempt.value < db.txs[b].nextAttempt.value || (db.txs[a].nextAttempt == db.txs[b].nextAttempt && a < b))
  }

  ghost predicate Picks(db: Db, locked: set<Id>, began: Time, pick: Option<Id>) {
    match pick
    case None => forall i | i in db.txs && i !in locked :: !Due(db, i, began)
    case Some(id) =>
      Due(db, id, began) && id !in locked && forall i | i in db.txs && i !in locked && Due(db, i, began) :: Before(db, id, i)
  }

  /** The pending row and its wallet come back as valid values. No stored row has a negative attempt count. */
  predicate Rehydrates(a: Db, id: Id) {
    && id in a.txs
    && var t := a.txs[id];
       && t.external.Some? && t.provider.Some? && t.key.Some? && t.round.Some? && t.game.Some? && t.refExternal.Some? && t.attempts >= 0
       && ValidCurrency(t.currency) && t.wallet in a.wallets && ToWallet(t.wallet, a.wallets[t.wallet]).Valid()
  }

  ghost predicate ReadsFor(a: Db, id: Id, view: Option<Reference>) {
    id in a.txs && ReadsReference(a.txs, Text(a.txs[id].provider), Text(a.txs[id].refExternal), view)
  }

  /** What the visit writes under what it read. */
  function VisitOutcome(a: Db, id: Id, view: Option<Reference>, env: Env): Settlement
    requires Rehydrates(a, id)
  {
    Resolution(id, a.txs[id], a.wallets[a.txs[id].wallet], view, env)
  }

  ghost predicate Resolvable(a: Db, id: Id, view: Option<Reference>, env: Env)
    requires Rehydrates(a, id)
  {
    && (view.Some? ==> view.value.money.Valid())
    && var s := VisitOutcome(a, id, view, env);
       !s.Broken? && Accepted(a, Batch(false, WriteOf(id, a.wallets[a.txs[id].wallet], s)))
  }

  /** The visit went through: the tables are those its resolution leaves. */
  ghost predicate Resolved(a: Db, id: Id, view: Option<Reference>, env: Env, b: Db) {
    && Rehydrates(a, id) && ReadsFor(a, id, view) && (view.Some? ==> view.value.money.Valid())
    && var s := VisitOutcome(a, id, view, env);
       && !s.Broken?
       && var batch := Batch(false, WriteOf(id, a.wallets[a.txs[id].wallet], s));
          Accepted(a, batch) && b == Final(a, batch)
  }

  ghost predicate Unresolvable(a: Db, id: Id, env: Env) {
    || !Rehydrates(a, id)
    || exists view {:trigger ReadsFor(a, id, view)} :: ReadsFor(a, id, view) && !Resolvable(a, id, view, env)
  }

  /** A visit to a due row of sound tables, with unused identifiers and a clock that has not gone back. */
  ghost predicate SoundVisit(db: Db, id: Id, env: Env) {
    Sound(db) && SettleEnvOk(db, env) && Due(db, id, env.began) && db.txs[id].updatedAt <= env.now
  }

  lemma VisitAt(db: Db, id: Id, view: Option<Reference>, env: Env)
    requires SoundVisit(db, id, env) && ReadsFor(db, id, view)
    ensures Rehydrates(db, id) && Resolvable(db, id, view, env)
    ensures var w := WriteOf(id, db.wallets[db.txs[id].wallet], VisitOutcome(db, id, view, env));
            Final(db, Batch(false, w)) == Record(db, w) && SoundWrite(db, Settle, w)
  {
    PendingOperation(db, id);
    assert RowAt(db, id);
    assert WalletOk(db.txs[id].wallet, db.wallets[db.txs[id].wallet]);
    ReadFits(db, OpOf(db.txs[id]), view);
    FitViewMoney(db, OpOf(db.txs[id]), view);
    VisitIsStep(db, id, view, env);
  }

  /** From sound tables a visit never fails. */
  lemma SoundVisitResolves(db: Db, id: Id, env: Env)
    requires SoundVisit(db, id, env)
    ensures !Unresolvable(db, id, env)
  {
    if view :| ReadsFor(db, id, view) && !(Rehydrates(db, id) && Resolvable(db, id, view, env)) {
      VisitAt(db, id, view, env);
    }
    PendingOperation(db, id);
    assert RowAt(db, id);
    assert WalletOk(db.txs[id].wallet, db.wallets[db.txs[id].wallet]);
  }

  lemma ResolvedKeepsSound(db: Db, id: Id, view: Option<Reference>, env: Env, after: Db)
    requires SoundVisit(db, id, env) && Resolved(db, id, view, env, after)
    ensures Sound(after)
  {
    VisitAt(db, id, view, env);
    WriteKeepsSound(db, Settle, WriteOf(id, db.wallets[db.txs[id].wallet], VisitOutcome(db, id, view, env)));
  }
}
