/** The resolver's visits, told from the stored rows: what each leaves, when the next is due, and when patience ends. */
module Schedule {
  import opened Prelude
  import opened Domain
  import opened Decision
  import opened Schema
  import opened Writes
  import opened Invariant
  import opened Resolver
  import opened Calls
  import opened UseCases
  import opened Acceptance

  /** Seconds from the n-th vain visit to the next. */
  const DELAYS: seq<int> := [1, 2, 4, 8, 16, 32, 64, 128, 128]

  /** Seconds from a reference's first miss, at acceptance, to the visit after `n` vain ones. */
  const OFFSETS: seq<int> := [1, 2, 4, 8, 16, 32, 64, 128, 256, 384]

  lemma DelayIsLiteral(n: nat)
    requires n < 9
    ensures RetryDelay(n + 1) == DELAYS[n] * 1_000_000_000
  {
    assert Shl(0) == 1 && Shl(1) == 2 && Shl(2) == 4 && Shl(3) == 8 && Shl(4) == 16 && Shl(5) == 32 && Shl(6) == 64 && Shl(7) == 128;
  }

  /** The visit gave the row its verdict. */
  ghost predicate Settles(a: Db, id: Id, op: Operation, e: Ending, env: Env, w: Write)
    requires id in a.txs && op.wallet in a.wallets
  {
    && w.id == id && States(w.row, op) && Concludes(w.row, e, a.wallets[op.wallet].balance)
    && w.row.hash == a.txs[id].hash && w.row.attempts == a.txs[id].attempts && w.row.nextAttempt.None?
    && w.row.createdAt == a.txs[id].createdAt && w.row.updatedAt == env.now
    && MovedAs(a.wallets[op.wallet], w, op.wallet, e, env.entryId, env.now)
    && Tells(w, op, e, "", env)
  }

  /** The row as a vain visit leaves it. */
  predicate PutOff(was: TxRow, t: TxRow, now: Time) {
    && 0 <= was.attempts < 9
    && t == was.(attempts := was.attempts + 1, nextAttempt := Some(now + DELAYS[was.attempts] * 1_000_000_000), updatedAt := now)
  }

  lemma StatedOperation(db: Db, id: Id, op: Operation)
    requires RowsOk(db) && PendingRow(db, id) && States(db.txs[id], op)
    ensures OpOf(db.txs[id]) == op && op.refExternal != "" && op.wallet in db.wallets && Admissible(op)
    ensures db.wallets[op.wallet].currency == op.money.currency && db.wallets[op.wallet].player == op.player
    ensures 0 <= db.txs[id].attempts < 10 && db.txs[id].failure.None? && db.txs[id].ref.None?
  {
    PendingOperation(db, id);
    assert RowAt(db, id);
  }

  lemma VerdictSettles(db: Db, id: Id, op: Operation, d: Decision, after: WalletVal, e: Ending, env: Env)
    requires RowsOk(db) && PendingRow(db, id) && States(db.txs[id], op) && op.wallet in db.wallets
    requires Plainly(d, after, ToWallet(op.wallet, db.wallets[op.wallet]), e, env.now)
    requires e.change == 0 || e.change == op.money.minor || e.change + op.money.minor == 0
    requires op.money.minor >= 0 && db.wallets[op.wallet].currency == op.money.currency
    requires Completed(id, SettledRow(db.txs[id], d, after, env.now), db.wallets[op.wallet], d, after, "", env).Ok?
    ensures Settles(db, id, op, e, env, Completed(id, SettledRow(db.txs[id], d, after, env.now), db.wallets[op.wallet], d, after, "", env).value)
  {
    RowIsCompleted(op, id, SettledRow(db.txs[id], d, after, env.now), db.wallets[op.wallet], d, after, e, "", env);
  }

  /** A visit that goes through with its verdict. */
  lemma SettlementExact(db: Db, id: Id, op: Operation, view: Option<Reference>, env: Env, e: Ending)
    requires RowsOk(db) && PendingRow(db, id) && States(db.txs[id], op) && op.wallet in db.wallets && db.txs[id].attempts >= 0
    requires op.money.minor >= 0 && db.wallets[op.wallet].currency == op.money.currency
    requires var t, snap := db.txs[id], db.wallets[op.wallet];
             && !Postpones(t, snap, view, env.now) && !Resolution(id, t, snap, view, env).Broken?
             && Plainly(Verdict(t, snap, view, env.now), WalletAfter(t, snap, view, env.now), ToWallet(op.wallet, snap), e, env.now)
    requires e.change == 0 || e.change == op.money.minor || e.change + op.money.minor == 0
    ensures var snap := db.wallets[op.wallet];
            Settles(db, id, op, e, env, WriteOf(id, snap, Resolution(id, db.txs[id], snap, view, env)))
  {
    var t, snap := db.txs[id], db.wallets[op.wallet];
    ResolutionCases(id, t, snap, view, env);
    VerdictSettles(db, id, op, Verdict(t, snap, view, env.now), WalletAfter(t, snap, view, env.now), e, env);
  }

  /** A visit in vain. */
  lemma MissExact(id: Id, t: TxRow, snap: WalletRow, view: Option<Reference>, env: Env)
    requires 0 <= t.attempts < 9 && Postpones(t, snap, view, env.now)
    ensures var s := Resolution(id, t, snap, view, env);
            && !s.Broken?
            && var w := WriteOf(id, snap, s);
               w.id == id && PutOff(t, w.row, env.now) && w.entry.None? && w.events == []
  {
    ResolutionCases(id, t, snap, view, env);
    DelayIsLiteral(t.attempts);
  }

  /** What the visit under `view` writes. */
  lemma WriteExact(db: Db, id: Id, op: Operation, view: Option<Reference>, env: Env) returns (e: Ending, w: Write)
    requires SoundVisit(db, id, env) && ReadsFor(db, id, view) && States(db.txs[id], op)
    ensures op.wallet in db.wallets && Ruled(db, op, env.now, e)
    ensures Rehydrates(db, id) && !VisitOutcome(db, id, view, env).Broken?
    ensures w == WriteOf(id, db.wallets[db.txs[id].wallet], VisitOutcome(db, id, view, env))
    ensures if e.status != PendingReference then Settles(db, id, op, e, env, w)
            else if db.txs[id].attempts < 9 then w.id == id && PutOff(db.txs[id], w.row, env.now) && w.entry.None? && w.events == []
            else Settles(db, id, op, Refuse("REFERENCE_NOT_FOUND"), env, w)
  {
    VisitAt(db, id, view, env);
    StatedOperation(db, id, op);
    var snap := db.wallets[op.wallet];
    e := DecidedByRules(db, op, view, env.now);
    RuledChange(db, op, env.now, e);
    w := WriteOf(id, snap, VisitOutcome(db, id, view, env));
    OutcomeExact(db, id, op, view, env, e);
  }

  /** The visit's write, from the verdict the rules give. */
  lemma OutcomeExact(db: Db, id: Id, op: Operation, view: Option<Reference>, env: Env, e: Ending)
    requires RowsOk(db) && PendingRow(db, id) && States(db.txs[id], op) && OpOf(db.txs[id]) == op && op.wallet in db.wallets
    requires 0 <= db.txs[id].attempts < 10 && op.money.minor >= 0 && db.wallets[op.wallet].currency == op.money.currency
    requires var snap := db.wallets[op.wallet];
             var (d, after) := Decide(op, ToWallet(op.wallet, snap), view, env.now);
             !Resolution(id, db.txs[id], snap, view, env).Broken? && Plainly(d, after, ToWallet(op.wallet, snap), e, env.now)
    requires e.change == 0 || e.change == op.money.minor || e.change + op.money.minor == 0
    requires e.status == PendingReference ==> e == Ending(PendingReference, None, None, 0)
    ensures var snap := db.wallets[op.wallet];
            var w := WriteOf(id, snap, Resolution(id, db.txs[id], snap, view, env));
            if e.status != PendingReference then Settles(db, id, op, e, env, w)
            else if db.txs[id].attempts < 9 then w.id == id && PutOff(db.txs[id], w.row, env.now) && w.entry.None? && w.events == []
            else Settles(db, id, op, Refuse("REFERENCE_NOT_FOUND"), env, w)
  {
    if e.status == PendingReference && db.txs[id].attempts < 9 {
      MissExact(id, db.txs[id], db.wallets[op.wallet], view, env);
    } else {
      SettlementExact(db, id, op, view, env, if e.status == PendingReference then Refuse("REFERENCE_NOT_FOUND") else e);
    }
  }

  /** A visit to a due row ends as the rules say of the row's operation: with its verdict, put off by the literal delay, or,
      at the tenth miss, rejected. Nothing else in any table changes. */
  lemma VisitExact(db: Db, id: Id, op: Operation, view: Option<Reference>, env: Env, after: Db) returns (e: Ending, w: Write)
    requires SoundVisit(db, id, env) && Resolved(db, id, view, env, after) && States(db.txs[id], op)
    ensures op.wallet in db.wallets && Ruled(db, op, env.now, e) && Leaves(db, w, after)
    ensures if e.status != PendingReference then Settles(db, id, op, e, env, w)
            else if db.txs[id].attempts < 9 then w.id == id && PutOff(db.txs[id], w.row, env.now) && w.entry.None? && w.events == []
            else Settles(db, id, op, Refuse("REFERENCE_NOT_FOUND"), env, w)
  {
    VisitAt(db, id, view, env);
    e, w := WriteExact(db, id, op, view, env);
  }

  // ---- patience ----

  /** The row's reference has not come: no final row bears the name. */
  predicate Missing(db: Db, op: Operation) {
    forall i | i in db.txs && Bears(db.txs[i], op) :: db.txs[i].status == Pending || db.txs[i].status == PendingReference
  }

  /** A visit at most `slack` after it was due. */
  ghost predicate PromptVisit(a: Db, b: Db, id: Id, view: Option<Reference>, env: Env, slack: int) {
    && SoundVisit(a, id, env) && Resolved(a, id, view, env, b)
    && a.txs[id].nextAttempt.Some? && env.now <= a.txs[id].nextAttempt.value + slack
  }

  /** A visit to the row while its reference is missing, or anything that leaves the row alone. */
  ghost predicate WaitingStep(a: Db, b: Db, id: Id, op: Operation, slack: int) {
    || (id in a.txs && id in b.txs && b.txs[id] == a.txs[id])
    || (Missing(a, op) && exists view, env :: PromptVisit(a, b, id, view, env, slack))
  }

  ghost predicate WaitingAt(run: seq<Db>, id: Id, op: Operation, slack: int, k: nat)
    requires k + 1 < |run|
  {
    WaitingStep(run[k], run[k + 1], id, op, slack)
  }

  /** The row as it stands so long after its first miss at `start`: waiting for its next visit, or given up on. */
  predicate OnSchedule(t: TxRow, op: Operation, start: Time, slack: int) {
    && States(t, op) && 0 <= t.attempts < 10
    && if t.status == PendingReference then
         && t.nextAttempt.Some?
         && start + OFFSETS[t.attempts] * 1_000_000_000 <= t.nextAttempt.value <= start + OFFSETS[t.attempts] * 1_000_000_000 + t.attempts * slack
       else
         && t.status == Rejected && t.failure == Some("REFERENCE_NOT_FOUND") && t.attempts == 9
         && start + 384_000_000_000 <= t.updatedAt <= start + 384_000_000_000 + 10 * slack
  }

  lemma MissingIsRuled(db: Db, op: Operation, now: Time, e: Ending)
    requires op.wallet in db.wallets && Ruled(db, op, now, e) && Missing(db, op)
    requires db.wallets[op.wallet].player == op.player && NeedsReference(op)
    ensures e.status == PendingReference
  {
  }

  lemma MissOnSchedule(was: TxRow, t: TxRow, op: Operation, now: Time, start: Time, slack: int)
    requires slack >= 0 && OnSchedule(was, op, start, slack) && was.status == PendingReference && PutOff(was, t, now)
    requires was.nextAttempt.value <= now <= was.nextAttempt.value + slack
    ensures OnSchedule(t, op, start, slack)
  {
  }

  lemma PromptVisitOnSchedule(a: Db, b: Db, id: Id, op: Operation, view: Option<Reference>, env: Env, start: Time, slack: int)
    requires slack >= 0 && Missing(a, op) && PromptVisit(a, b, id, view, env, slack) && OnSchedule(a.txs[id], op, start, slack)
    ensures id in b.txs && OnSchedule(b.txs[id], op, start, slack)
  {
    StatedOperation(a, id, op);
    PendingOperation(a, id);
    var e, w := VisitExact(a, id, op, view, env, b);
    MissingIsRuled(a, op, env.now, e);
    if a.txs[id].attempts < 9 {
      MissOnSchedule(a.txs[id], b.txs[id], op, env.now, start, slack);
    }
  }

  /** While its reference does not come, a row accepted at `start` keeps to the schedule: visited within `slack` of each
      instant it is due at, it is REFERENCE_NOT_FOUND 384 seconds later, and at most ten slacks after that. */
  lemma {:induction false} PatienceExact(run: seq<Db>, id: Id, op: Operation, start: Time, slack: int, k: nat)
    requires slack >= 0 && k < |run| && (forall i: nat {:trigger WaitingAt(run, id, op, slack, i)} | i + 1 < |run| :: WaitingAt(run, id, op, slack, i))
    requires id in run[0].txs && States(run[0].txs[id], op) && run[0].txs[id].status == PendingReference
    requires run[0].txs[id].attempts == 0 && run[0].txs[id].nextAttempt == Some(start + 1_000_000_000)
    ensures id in run[k].txs && OnSchedule(run[k].txs[id], op, start, slack)
  {
    if k > 0 {
      PatienceExact(run, id, op, start, slack, k - 1);
      assert WaitingAt(run, id, op, slack, k - 1);
      var a, b := run[k - 1], run[k];
      if b.txs != a.txs && !(id in b.txs && b.txs[id] == a.txs[id]) {
        var view, env :| PromptVisit(a, b, id, view, env, slack);
        PromptVisitOnSchedule(a, b, id, op, view, env, start, slack);
      }
    }
  }
}
