/** What executeTx answers, and why answering twice is safe. */
module Idempotency {
  import opened Prelude
  import opened MoneyModel
  import opened Domain
  import opened Decision
  import opened Schema
  import opened Integrity
  import opened Writes
  import opened Invariant
  import opened Preservation
  import opened Steps

  datatype Reply = Reply(tx: Id, status: Status, balance: Money, failure: string, replay: bool)

  /** What executeTx is about to do: fail, answer from a stored row, or write. */
  datatype Plan = Stop(error: Error) | Replay(reply: Reply) | Do(write: Write, reply: Reply)

  /** The answer when the identity query returned the row `t`. */
  function Answer(id: Id, t: TxRow, op: Operation, hash: Canonical, currency: string): Plan {
    if t.result.None? then Stop(DatabaseError)
    else if t.hash != Some(hash) || t.key != Some(op.key) then Stop(Conflict)
    else Replay(Reply(id, t.status, Money(t.result.value, currency), Text(t.failure), true))
  }

  function ReplyOf(w: Write): Reply {
    Reply(w.id, w.row.status, Money(w.wallet.balance, w.wallet.currency), Text(w.row.failure), false)
  }

  /** The plan that follows once no stored row shares the identity. */
  function FreshPlan(op: Operation, hash: Canonical, snap: WalletRow, view: Option<Reference>, decider: Decider, causation: string, env: Env): Plan {
    match Draft(op, hash, snap, view, decider, causation, env)
    case Err(e) => Stop(e)
    case Ok(w) => Do(w, ReplyOf(w))
  }

  /** executeTx's reference queries: none when the operation names nothing. */
  ghost predicate Reads(txs: map<Id, TxRow>, op: Operation, view: Option<Reference>) {
    if op.refExternal == "" then view == None else ReadsReference(txs, op.provider, op.refExternal, view)
  }

  /** A plan executeTx may arrive at on `db`. The identity query may return any matching row. */
  ghost predicate Planned(db: Db, op: Operation, hash: Canonical, decider: Decider, causation: string, env: Env, p: Plan) {
    if op.wallet !in db.wallets then p == Stop(NotFound)
    else if !ValidCurrency(db.wallets[op.wallet].currency) then p == Stop(InvalidMoney)
    else if !ToWallet(op.wallet, db.wallets[op.wallet]).Valid() then p == Stop(InvalidWallet)
    else if Known(db.txs, op) then exists id :: PlannedFrom(db, op, hash, id, p)
    else exists view :: PlannedOn(db, op, hash, view, decider, causation, env, p)
  }

  ghost predicate PlannedFrom(db: Db, op: Operation, hash: Canonical, id: Id, p: Plan)
    requires op.wallet in db.wallets
  {
    id in db.txs && SameOp(db.txs[id], op) && p == Answer(id, db.txs[id], op, hash, db.wallets[op.wallet].currency)
  }

  ghost predicate PlannedOn(db: Db, op: Operation, hash: Canonical, view: Option<Reference>, decider: Decider, causation: string, env: Env, p: Plan)
    requires op.wallet in db.wallets
  {
    Reads(db.txs, op, view)
    && if view.Some? && !view.value.money.Valid() then p == Stop(InvalidMoney)
       else p == FreshPlan(op, hash, db.wallets[op.wallet], view, decider, causation, env)
  }

  /** The reference queries always return something. */
  lemma CurrentView(db: Db, op: Operation) returns (view: Option<Reference>)
    requires RowsOk(db)
    ensures Reads(db.txs, op, view) && (view.Some? ==> view.value.money.Valid())
  {
    view := None;
    if op.refExternal != "" {
      if i :| i in db.txs && Names(db.txs[i], op.provider, op.refExternal) {
        assert RowAt(db, i);
        view := Some(View(i, db.txs[i], Reversed(db.txs, i)));
      }
    }
  }

  ghost predicate Known(txs: map<Id, TxRow>, op: Operation) {
    exists id | id in txs :: SameOp(txs[id], op)
  }

  /** The row is this very operation, under this very key. */
  predicate IsOp(t: TxRow, op: Operation) {
    t.kind != Opening && OpOf(t) == op
  }

  lemma RowHash(db: Db, id: Id, op: Operation)
    requires RowsOk(db) && id in db.txs && SameOp(db.txs[id], op) && op.money.Valid()
    ensures var t := db.txs[id];
            && t.kind != Opening && t.result.Some? && OpOf(t).money.Valid()
            && t.key == Some(OpOf(t).key) && t.external == Some(OpOf(t).external) && t.provider == Some(op.provider)
            && (t.hash == Some(CanonicalOf(op)) && t.key == Some(op.key) <==> IsOp(t, op))
  {
    assert RowAt(db, id);
    var t := db.txs[id];
    CanonicalInjective(OpOf(t), op);
  }

  /** At most one row per (provider, key) and per (provider, external id). */
  lemma IdentityIsUnique(db: Db, a: Id, b: Id)
    requires KeysUnique(db) && a in db.txs && b in db.txs && db.txs[a].provider.Some? && db.txs[a].provider == db.txs[b].provider
    requires (db.txs[a].key.Some? && db.txs[a].key == db.txs[b].key) || (db.txs[a].external.Some? && db.txs[a].external == db.txs[b].external)
    ensures a == b
  {
    assert a != b ==> !Clash(db.txs[a], db.txs[b]);
  }

  /** A stored exact copy is the only row the identity query can return. */
  lemma ExactCopyIsOnlyMatch(db: Db, op: Operation, a: Id, b: Id)
    requires KeysUnique(db) && RowsOk(db) && op.money.Valid()
    requires a in db.txs && b in db.txs && SameOp(db.txs[a], op) && SameOp(db.txs[b], op) && IsOp(db.txs[a], op)
    ensures a == b
  {
    RowHash(db, a, op);
    RowHash(db, b, op);
    IdentityIsUnique(db, b, a);
  }

  /** A repeat of a stored operation is answered from its row, under every decider, and writes nothing. */
  lemma RepeatReplays(db: Db, op: Operation, decider: Decider, causation: string, env: Env, p: Plan, id: Id)
    requires Sound(db) && op.money.Valid() && id in db.txs && SameOp(db.txs[id], op) && IsOp(db.txs[id], op)
    requires op.wallet in db.wallets && Planned(db, op, CanonicalOf(op), decider, causation, env, p)
    ensures db.txs[id].result.Some?
    ensures p == Replay(Reply(id, db.txs[id].status, Money(db.txs[id].result.value, db.wallets[op.wallet].currency), Text(db.txs[id].failure), true))
  {
    RowHash(db, id, op);
    assert WalletOk(op.wallet, db.wallets[op.wallet]);
    assert Known(db.txs, op);
    var other :| PlannedFrom(db, op, CanonicalOf(op), other, p);
    ExactCopyIsOnlyMatch(db, op, id, other);
  }

  /** With a stored match, the answer is a conflict exactly when no stored row is the operation itself. */
  lemma ConflictExactly(db: Db, op: Operation, decider: Decider, causation: string, env: Env, p: Plan)
    requires Sound(db) && op.money.Valid() && op.wallet in db.wallets && Known(db.txs, op)
    requires Planned(db, op, CanonicalOf(op), decider, causation, env, p)
    ensures !p.Do?
    ensures p == Stop(Conflict) <==> forall id | id in db.txs && SameOp(db.txs[id], op) :: !IsOp(db.txs[id], op)
  {
    assert WalletOk(op.wallet, db.wallets[op.wallet]);
    var id :| PlannedFrom(db, op, CanonicalOf(op), id, p);
    RowHash(db, id, op);
    if other :| other in db.txs && SameOp(db.txs[other], op) && IsOp(db.txs[other], op) {
      ExactCopyIsOnlyMatch(db, op, other, id);
    }
  }

  /** The answer does not depend on which matching row the query returns first. */
  lemma AnswerIsDetermined(db: Db, op: Operation, decider: Decider, causation: string, env: Env, p: Plan, q: Plan)
    requires Sound(db) && op.money.Valid() && op.wallet in db.wallets && Known(db.txs, op)
    requires Planned(db, op, CanonicalOf(op), decider, causation, env, p) && Planned(db, op, CanonicalOf(op), decider, causation, env, q)
    ensures p == q
  {
    ConflictExactly(db, op, decider, causation, env, p);
    ConflictExactly(db, op, decider, causation, env, q);
    if id :| id in db.txs && SameOp(db.txs[id], op) && IsOp(db.txs[id], op) {
      RepeatReplays(db, op, decider, causation, env, p, id);
      RepeatReplays(db, op, decider, causation, env, q, id);
    }
  }

  /** Reusing the key or the external id of a stored operation with any other field altered conflicts. */
  lemma AlteredOperationConflicts(db: Db, op: Operation, altered: Operation, decider: Decider, causation: string, env: Env, p: Plan, id: Id)
    requires Sound(db) && altered.money.Valid() && altered.wallet in db.wallets && id in db.txs && IsOp(db.txs[id], op)
    requires altered != op && altered.provider == op.provider && (altered.key == op.key || altered.external == op.external)
    requires Planned(db, altered, CanonicalOf(altered), decider, causation, env, p)
    ensures p == Stop(Conflict)
  {
    assert RowAt(db, id);
    assert SameOp(db.txs[id], altered);
    ConflictExactly(db, altered, decider, causation, env, p);
    forall other | other in db.txs && SameOp(db.txs[other], altered) ensures !IsOp(db.txs[other], altered) {
      if IsOp(db.txs[other], altered) {
        ExactCopyIsOnlyMatch(db, altered, other, id);
      }
    }
  }

  /** The reads behind a plan to write. */
  lemma PlanReads(db: Db, op: Operation, hash: Canonical, decider: Decider, causation: string, env: Env, p: Plan) returns (view: Option<Reference>)
    requires p.Do? && Planned(db, op, hash, decider, causation, env, p)
    ensures op.wallet in db.wallets && !Known(db.txs, op) && ViewFits(db, op, view)
    ensures Draft(op, hash, db.wallets[op.wallet], view, decider, causation, env) == Ok(p.write) && p.reply == ReplyOf(p.write)
  {
    view :| PlannedOn(db, op, hash, view, decider, causation, env, p);
    if op.refExternal != "" {
      ReadFits(db, op, view);
    }
  }

  lemma DraftIsOp(op: Operation, snap: WalletRow, view: Option<Reference>, decider: Decider, causation: string, env: Env)
    requires op.money.Valid() && Draft(op, CanonicalOf(op), snap, view, decider, causation, env).Ok?
    ensures var w := Draft(op, CanonicalOf(op), snap, view, decider, causation, env).value;
            IsOp(w.row, op) && SameOp(w.row, op) && w.id == env.txId && w.row.wallet == op.wallet
  {
  }

  lemma DraftIds(op: Operation, snap: WalletRow, view: Option<Reference>, decider: Decider, causation: string, env: Env)
    requires op.money.Valid() && Draft(op, CanonicalOf(op), snap, view, decider, causation, env).Ok?
    ensures var w := Draft(op, CanonicalOf(op), snap, view, decider, causation, env).value;
            && w.id == env.txId && (w.entry.Some? ==> w.entry.value.id == env.entryId)
            && (forall i | 0 <= i < |w.events| :: w.events[i].id == env.balanceEventId || w.events[i].id == env.wagerEventId)
  {
    var (d, w) := DecideBy(decider, op, ToWallet(op.wallet, snap), view, env.now);
    CompletedIds(env.txId, NewRow(op, CanonicalOf(op), d, w, env), snap, d, w, causation, env);
  }

  /** A plan to write is a sound step: the write commits whole, and the reply tells what was written. */
  lemma PlanIsStep(db: Db, op: Operation, decider: Decider, causation: string, env: Env, p: Plan)
    requires Sound(db) && op.money.Valid() && EnvOk(db, env) && p.Do?
    requires Planned(db, op, CanonicalOf(op), decider, causation, env, p)
    ensures SoundWrite(db, Fresh, p.write) && Accepted(db, Batch(true, p.write)) && Final(db, Batch(true, p.write)) == Record(db, p.write)
    ensures IsOp(p.write.row, op) && SameOp(p.write.row, op) && p.write.id !in db.txs && p.reply == ReplyOf(p.write)
    ensures Sound(Record(db, p.write))
  {
    var view := PlanReads(db, op, CanonicalOf(op), decider, causation, env, p);
    forall o | o in db.txs ensures !SameOp(db.txs[o], op) {
      assert SameOp(db.txs[o], op) ==> Known(db.txs, op);
    }
    DraftIsOp(op, db.wallets[op.wallet], view, decider, causation, env);
    DraftIsStep(db, op, CanonicalOf(op), view, decider, causation, env);
    WriteKeepsSound(db, Fresh, p.write);
  }

  /** Submitting, then submitting again at any later point of a run, moves nothing and names the same row. */
  lemma SecondSubmissionReplays(run: seq<Db>, j: nat, k: nat, op: Operation, decider: Decider, causation: string, env: Env, p: Plan, id: Id)
    requires Run(run) && j <= k < |run| && op.money.Valid() && id in run[j].txs && IsOp(run[j].txs[id], op)
    requires op.wallet in run[k].wallets && Planned(run[k], op, CanonicalOf(op), decider, causation, env, p)
    ensures p.Replay? && p.reply.tx == id && p.reply.replay
    ensures run[j].txs[id].status.Terminal() ==> p.reply.status == run[j].txs[id].status && p.reply.failure == Text(run[j].txs[id].failure)
  {
    RowsEvolve(run, j, k, id);
    EveryRunSound(run, k);
    assert RowAt(run[k], id);
    RepeatReplays(run[k], op, decider, causation, env, p, id);
  }

  /** A step that changes a row's status, or stores it, leaves on it the balance its wallet has right after. */
  lemma ResultIsBalance(a: Db, b: Db, id: Id)
    requires Sound(a) && Step(a, b) && id in b.txs && (id in a.txs ==> a.txs[id].status != b.txs[id].status)
    ensures b.txs[id].wallet in b.wallets && b.txs[id].result == Some(b.wallets[b.txs[id].wallet].balance)
  {
    if OpenStep(a, b) {
      var w, env :| OpenOk(a, w, env) && b == Opened(a, w, env);
    } else {
      var mode, w :| SoundWrite(a, mode, w) && b == Record(a, w);
    }
  }

  /** While the status stands, so does the balance on the row. */
  lemma ResultStands(a: Db, b: Db, id: Id)
    requires Sound(a) && Step(a, b) && id in a.txs && id in b.txs && a.txs[id].status == b.txs[id].status
    ensures b.txs[id].result == a.txs[id].result
  {
    StepKeepsRow(a, b, id);
    if WriteStep(a, b) {
      var mode, w :| SoundWrite(a, mode, w) && b == Record(a, w);
    }
  }

  lemma StatusStands(run: seq<Db>, j: nat, i: nat, k: nat, id: Id)
    requires Run(run) && j <= i <= k < |run| && id in run[j].txs && id in run[k].txs && run[j].txs[id].status == run[k].txs[id].status
    ensures id in run[i].txs && run[i].txs[id].status == run[k].txs[id].status
  {
    RowsEvolve(run, j, i, id);
    RowsEvolve(run, i, k, id);
    EveryRunSound(run, j);
    assert RowAt(run[j], id);
  }

  lemma {:induction false} ResultAt(run: seq<Db>, j: nat, k: nat, id: Id)
    requires Run(run) && 0 < j <= k < |run| && id in run[j].txs && id in run[k].txs && run[j].txs[id].status == run[k].txs[id].status
    requires id in run[j - 1].txs ==> run[j - 1].txs[id].status != run[j].txs[id].status
    ensures run[j].txs[id].wallet in run[j].wallets && run[k].txs[id].result == Some(run[j].wallets[run[j].txs[id].wallet].balance)
  {
    EveryRunSound(run, k - 1);
    assert StepAt(run, k);
    if j == k {
      ResultIsBalance(run[k - 1], run[k], id);
    } else {
      StatusStands(run, j, k - 1, k, id);
      ResultAt(run, j, k - 1, id);
      ResultStands(run[k - 1], run[k], id);
    }
  }

  /** Whenever an operation is repeated, the balance answered is the one its wallet had right after the write that gave the
      row the status answered, however the balance has moved since. */
  lemma RepeatAnswersBalance(run: seq<Db>, j: nat, k: nat, op: Operation, decider: Decider, causation: string, env: Env, p: Plan, id: Id)
    requires Run(run) && 0 < j <= k < |run| && op.money.Valid() && id in run[j].txs && IsOp(run[j].txs[id], op)
    requires id in run[j - 1].txs ==> run[j - 1].txs[id].status != run[j].txs[id].status
    requires id in run[k].txs && run[k].txs[id].status == run[j].txs[id].status
    requires op.wallet in run[k].wallets && Planned(run[k], op, CanonicalOf(op), decider, causation, env, p)
    ensures op.wallet in run[j].wallets && p.Replay? && p.reply.tx == id && p.reply.status == run[j].txs[id].status
    ensures p.reply.balance == Money(run[j].wallets[op.wallet].balance, run[j].wallets[op.wallet].currency)
  {
    RowsEvolve(run, j, k, id);
    EveryRunSound(run, j);
    EveryRunSound(run, k);
    assert RowAt(run[k], id) && RowAt(run[j], id);
    RepeatReplays(run[k], op, decider, causation, env, p, id);
    ResultAt(run, j, k, id);
  }
}
