/** The use cases over the store: input checks, hashing, and the verdict a failure records. */
module UseCases {
  import opened Prelude
  import opened Domain
  import opened Decision
  import opened Schema
  import opened Writes
  import opened Preservation
  import opened Idempotency
  import opened Steps
  import opened Calls
  import opened PostgresStore

  /** What Process and ProcessInbox check before the store is called. */
  predicate Admissible(op: Operation) {
    && !Blank(op.provider) && !Blank(op.external) && !Blank(op.key) && !Blank(op.round) && !Blank(op.game)
    && op.player != NIL && op.wallet != NIL && ValidOperation(op.kind, op.money, op.refExternal)
  }

  /** What Fail checks: the round and game are left to NewWagerTransaction. */
  predicate Failable(op: Operation, code: string) {
    && !Blank(code) && !Blank(op.provider) && !Blank(op.external) && !Blank(op.key)
    && op.player != NIL && op.wallet != NIL && ValidOperation(op.kind, op.money, op.refExternal)
  }

  class Wager {
    const store: Store

    constructor (store: Store)
      ensures this.store == store
    {
      this.store := store;
    }

    method Process(op: Operation, env: Env) returns (r: Result<Reply>, ghost p: Plan)
      requires IdsGiven(env)
      modifies store
      ensures !Admissible(op) ==> r == Err(InvalidInput) && store.db == old(store.db)
      ensures Admissible(op) ==>
                Planned(old(store.db), op, CanonicalOf(op), ByRules, "", env, p) && Executed(old(store.db), p, r, store.db)
      ensures Admissible(op) && Sound(old(store.db)) && EnvOk(old(store.db), env) ==>
                Sound(store.db) && (p.Do? ==> r == Ok(p.reply) && store.db == Record(old(store.db), p.write))
    {
      if !Admissible(op) {
        p := Stop(InvalidInput);
        return Err(InvalidInput), p;
      }
      r, p := store.Execute(op, CanonicalOf(op), ByRules, env);
    }

    method ProcessInbox(key: InboxKey, payload: string, op: Operation, env: Env) returns (r: Result<Reply>, ghost p: Plan)
      requires IdsGiven(env)
      modifies store
      ensures !Admissible(op) ==> r == Err(InvalidInput) && store.db == old(store.db)
      ensures Admissible(op) && Recorded(old(store.db), key, payload) != payload ==> r == Err(Conflict) && store.db == old(store.db)
      ensures Admissible(op) && Recorded(old(store.db), key, payload) == payload ==>
                && Planned(old(store.db), op, CanonicalOf(op), ByRules, key.message, env, p)
                && Executed(old(store.db), p, r, store.db.(inbox := old(store.db).inbox))
                && store.db.inbox == if r.Ok? then old(store.db).inbox[key := InboxRow(payload, true)] else old(store.db).inbox
      ensures Admissible(op) && Recorded(old(store.db), key, payload) == payload && Sound(old(store.db)) && EnvOk(old(store.db), env) ==>
                Sound(store.db) && (p.Do? ==> r == Ok(p.reply) && store.db == Record(old(store.db), p.write).(inbox := store.db.inbox))
    {
      if !Admissible(op) {
        p := Stop(InvalidInput);
        return Err(InvalidInput), p;
      }
      r, p := store.ExecuteInbox(key, payload, op, CanonicalOf(op), ByRules, env);
      ghost var a := old(store.db);
      if Recorded(a, key, payload) == payload && Sound(a) && EnvOk(a, env) {
        SoundInboxExecution(a, op, key.message, env, p, r, store.db);
      }
    }

    /** Fail records a failure for an operation nothing is recorded of, and never replaces what is. */
    method Fail(op: Operation, code: string, env: Env) returns (r: Result<Reply>, ghost p: Plan)
      requires IdsGiven(env)
      modifies store
      ensures !Failable(op, code) ==> r == Err(InvalidInput) && store.db == old(store.db)
      ensures Failable(op, code) ==>
                Planned(old(store.db), op, CanonicalOf(op), FailWith(code), "", env, p) && Executed(old(store.db), p, r, store.db)
      ensures Failable(op, code) && Sound(old(store.db)) && op.wallet in old(store.db).wallets && Known(old(store.db).txs, op) ==>
                && store.db == old(store.db)
                && (forall id | id in store.db.txs && SameOp(store.db.txs[id], op) && IsOp(store.db.txs[id], op) ::
                      r.Ok? && r.value.tx == id && r.value.status == store.db.txs[id].status && r.value.replay)
      ensures Failable(op, code) && Sound(old(store.db)) && EnvOk(old(store.db), env) && p.Do? ==>
                && r == Ok(p.reply) && store.db == Record(old(store.db), p.write)
                && p.write.row.status == Failed && p.write.entry.None? && p.write.events == []
                && p.write.row.failure == Some(code)
    {
      if !Failable(op, code) {
        p := Stop(InvalidInput);
        return Err(InvalidInput), p;
      }
      r, p := store.Execute(op, CanonicalOf(op), FailWith(code), env);
      ghost var a := old(store.db);
      if Sound(a) && op.wallet in a.wallets && Known(a.txs, op) {
        RecordedOutcomeStands(a, op, FailWith(code), env, p);
      }
      if p.Do? {
        FailureMovesNothing(a, op, code, env, p);
      }
    }
  }

  lemma SoundInboxExecution(db: Db, op: Operation, causation: string, env: Env, p: Plan, r: Result<Reply>, after: Db)
    requires Sound(db) && EnvOk(db, env) && op.money.Valid() && Planned(db, op, CanonicalOf(op), ByRules, causation, env, p)
    requires Executed(db, p, r, after.(inbox := db.inbox))
    ensures Sound(after) && (p.Do? ==> r == Ok(p.reply) && after == Record(db, p.write).(inbox := after.inbox))
  {
    SoundExecution(db, op, ByRules, causation, env, p, r, after.(inbox := db.inbox));
    DeliveryKeepsSound(after.(inbox := db.inbox), after);
  }

  lemma RecordedOutcomeStands(db: Db, op: Operation, decider: Decider, env: Env, p: Plan)
    requires Sound(db) && op.money.Valid() && op.wallet in db.wallets && Known(db.txs, op)
    requires Planned(db, op, CanonicalOf(op), decider, "", env, p)
    ensures !p.Do?
    ensures forall id | id in db.txs && SameOp(db.txs[id], op) && IsOp(db.txs[id], op) ::
              p.Replay? && p.reply.tx == id && p.reply.status == db.txs[id].status && p.reply.replay
  {
    ConflictExactly(db, op, decider, "", env, p);
    forall id | id in db.txs && SameOp(db.txs[id], op) && IsOp(db.txs[id], op)
      ensures p.Replay? && p.reply.tx == id && p.reply.status == db.txs[id].status && p.reply.replay
    {
      RepeatReplays(db, op, decider, "", env, p, id);
    }
  }

  lemma FailureMovesNothing(db: Db, op: Operation, code: string, env: Env, p: Plan)
    requires op.money.Valid() && code != "" && p.Do? && Planned(db, op, CanonicalOf(op), FailWith(code), "", env, p)
    ensures p.write.row.status == Failed && p.write.entry.None? && p.write.events == [] && p.write.row.failure == Some(code)
  {
    var view := PlanReads(db, op, CanonicalOf(op), FailWith(code), "", env, p);
  }
}
