/** Every interleaving of the threads is sound and serial, and every commit is what running alone would do. */
module Concurrency {
  import opened Prelude
  import opened Domain
  import opened Decision
  import opened Schema
  import opened Integrity
  import opened Writes
  import opened Invariant
  import opened Preservation
  import opened Resolver
  import opened Idempotency
  import opened Statements
  import opened Steps
  import opened Threads

  /** Every interleaved step keeps the system sound, and is one atomic step of the tables or none. */
  lemma SysStepSerial(s: Sys, n: Sys)
    requires SysOk(s) && SysStep(s, n)
    ensures SysOk(n) && (n.db == s.db || Step(s.db, n.db))
  {
    if self :| ThreadStep(s, n, self) {
      if n.db == s.db && Local(s, self, s.threads[self], n.threads[self]) {
        LocalKeepsSysOk(s, n, self);
      } else {
        CommitKeepsSysOk(s, n, self);
      }
    } else if CreateStep(s, n) {
      CreateKeepsSysOk(s, n);
    } else if n == s.(db := n.db) && DeliveryStep(s.db, n.db) {
      DeliveryKeepsSysOk(s, n);
    } else if n == s.(clock := n.clock) && s.clock <= n.clock {
      TickKeepsSysOk(s, n);
    } else {
      var self: nat :| self !in s.threads && n == s.(threads := s.threads[self := Idle]);
      SpawnKeepsSysOk(s, n, self);
    }
  }

  ghost predicate SysRun(run: seq<Sys>) {
    |run| > 0 && run[0].db == EmptyDb && run[0].threads == map[] && run[0].clock > 0
    && forall k: nat {:trigger SysStepAt(run, k)} | 0 < k < |run| :: SysStepAt(run, k)
  }

  ghost predicate SysStepAt(run: seq<Sys>, k: nat)
    requires 0 < k < |run|
  {
    SysStep(run[k - 1], run[k])
  }

  /** Every state any interleaving reaches is sound, and every read a lock holder made still holds in it. */
  lemma {:induction false} EveryInterleavingSound(run: seq<Sys>, k: nat)
    requires SysRun(run) && k < |run|
    ensures SysOk(run[k])
  {
    if k == 0 {
      EmptySound();
    } else {
      EveryInterleavingSound(run, k - 1);
      assert SysStepAt(run, k);
      SysStepSerial(run[k - 1], run[k]);
    }
  }

  /** What a thread about to commit has read of its own wallet is still so: its row, the status and reversal of the
      reference, or the absence of one. */
  lemma CommitterReadsHold(run: seq<Sys>, k: nat, t: nat)
    requires SysRun(run) && k < |run| && ReadyThread(run[k], t)
    ensures var th, db := run[k].threads[t], run[k].db;
            var op, view := OpIn(th.work), th.stage.view;
            && op.wallet in db.wallets && db.wallets[op.wallet] == th.snap
            && (view.Some? && view.value.wallet == op.wallet ==>
                  && view.value.id in db.txs && db.txs[view.value.id].status == view.value.status
                  && view.value.reversed == Reversed(db.txs, view.value.id))
            && (view.None? && op.refExternal != "" ==> OwnUnnamed(db, op))
            && (th.work.Submitting? ==> OwnUnknown(db, op))
            && (th.work.Resolving? ==> th.work.id in db.txs && db.txs[th.work.id] == th.work.row)
  {
    EveryInterleavingSound(run, k);
    assert ThreadOk(run[k].db, run[k].clock, run[k].threads[t]);
  }

  /** The committed states of any interleaving, stutters removed, are a serial run; what holds of every run holds of it. */
  lemma {:induction false} InterleavingIsSerial(run: seq<Sys>, k: nat) returns (serial: seq<Db>)
    requires SysRun(run) && k < |run|
    ensures Run(serial) && serial[|serial| - 1] == run[k].db
  {
    if k == 0 {
      serial := [EmptyDb];
    } else {
      var before := InterleavingIsSerial(run, k - 1);
      EveryInterleavingSound(run, k - 1);
      assert SysStepAt(run, k);
      SysStepSerial(run[k - 1], run[k]);
      if run[k].db == run[k - 1].db {
        serial := before;
      } else {
        serial := before + [run[k].db];
        RunExtends(before, run[k].db);
      }
    }
  }

  lemma RunExtends(run: seq<Db>, next: Db)
    requires Run(run) && Step(run[|run| - 1], next)
    ensures Run(run + [next])
  {
    var longer := run + [next];
    forall k: nat | 0 < k < |longer| ensures StepAt(longer, k) {
      assert k < |run| ==> StepAt(run, k);
    }
  }

  // ---- what a commit is worth ----

  /** Every stored row the operation's reference could name lies in another wallet. */
  predicate Foreign(db: Db, op: Operation) {
    forall i | i in db.txs && Names(db.txs[i], op.provider, op.refExternal) :: db.txs[i].wallet != op.wallet
  }

  /** A view that fits either is what the reference queries return now, or only strangers bear the name. */
  lemma ViewIsCurrentOrForeign(db: Db, op: Operation, view: Option<Reference>)
    requires KeysUnique(db) && ViewHolds(db, op, view) && op.refExternal != "" && !ReadsReference(db.txs, op.provider, op.refExternal, view)
    ensures Foreign(db, op) && (view.Some? ==> view.value.wallet != op.wallet)
  {
    if view.Some? {
      var p := view.value.id;
      forall i | i in db.txs && Names(db.txs[i], op.provider, op.refExternal) ensures i == p {
        assert i != p ==> !Clash(db.txs[i], db.txs[p]);
      }
    }
  }

  /** Under the rules, a stranger's row or no row at all never lets money move. */
  lemma ForeignNeverMoves(op: Operation, w: WalletVal, view: Option<Reference>, now: Time)
    requires ValidOperation(op.kind, op.money, op.refExternal) && op.refExternal != "" && (view.Some? ==> view.value.wallet != op.wallet)
    ensures var d := Decide(op, w, view, now).0; d.direction.None? && (d.status == PendingReference || d.status == Rejected)
  {
  }

  /** `p` is a plan executeTx, run alone on `db`, may arrive at for the thread's operation. */
  ghost predicate Alone(db: Db, th: Thread, p: Plan) {
    && th.Holding? && th.stage.Ready? && th.work.Submitting? && th.work.op.money.Valid()
    && Planned(db, th.work.op, CanonicalOf(th.work.op), th.work.decider, th.work.causation, th.stage.env, p)
  }

  /** With a view the queries return now, executeTx run alone plans exactly the thread's write. */
  lemma AloneDoes(db: Db, th: Thread, view: Option<Reference>)
    requires th.Holding? && th.stage.Ready? && th.work.Submitting? && th.work.op.money.Valid()
    requires WalletsOk(db) && th.work.op.wallet in db.wallets && db.wallets[th.work.op.wallet] == th.snap
    requires !Known(db.txs, th.work.op) && Reads(db.txs, th.work.op, view) && (view.Some? ==> view.value.money.Valid())
    requires Prepared(th.work, th.snap, view, th.stage.env) == Some(th.stage.write)
    ensures Alone(db, th, Do(th.stage.write, ReplyOf(th.stage.write)))
  {
    var op := th.work.op;
    assert WalletOk(op.wallet, db.wallets[op.wallet]);
    assert PlannedOn(db, op, CanonicalOf(op), view, th.work.decider, th.work.causation, th.stage.env, Do(th.stage.write, ReplyOf(th.stage.write)));
  }

  lemma FailureIgnoresView(work: Work, snap: WalletRow, a: Option<Reference>, b: Option<Reference>, env: Env)
    requires work.Submitting? && work.decider.FailWith?
    ensures Prepared(work, snap, a, env) == Prepared(work, snap, b, env)
  {
  }

  lemma ForeignWriteMovesNothing(work: Work, snap: WalletRow, view: Option<Reference>, env: Env)
    requires work.Submitting? && work.decider.ByRules? && Prepared(work, snap, view, env).Some?
    requires work.op.refExternal != "" && (view.Some? ==> view.value.wallet != work.op.wallet)
    ensures var w := Prepared(work, snap, view, env).value;
            w.entry.None? && (w.row.status == PendingReference || w.row.status == Rejected)
  {
    ForeignNeverMoves(work.op, ToWallet(work.op.wallet, snap), view, env.now);
  }

  /** A submission that commits is what executeTx run alone at that instant would do. The one exception moves no
      money: a reference that only another wallet's row can satisfy may be seen in an earlier state of that row. */
  lemma CommitIsSerial(s: Sys, t: nat)
    requires SysOk(s) && ReadyThread(s, t) && s.threads[t].work.Submitting?
    requires Accepted(s.db, Batch(true, s.threads[t].stage.write))
    ensures var th := s.threads[t];
            var op, w := th.work.op, th.stage.write;
            || Alone(s.db, th, Do(w, ReplyOf(w)))
            || (Foreign(s.db, op) && w.entry.None? && (w.row.status == PendingReference || w.row.status == Rejected))
  {
    ReadyCommits(s, t);
    assert ThreadOk(s.db, s.clock, s.threads[t]);
    SerialCommit(s.db, s.clock, s.threads[t]);
  }

  lemma SerialCommit(db: Db, clock: Time, th: Thread)
    requires Inv(db) && ThreadOk(db, clock, th) && th.Holding? && th.stage.Ready? && th.work.Submitting? && !Known(db.txs, th.work.op)
    ensures var op, w := th.work.op, th.stage.write;
            || Alone(db, th, Do(w, ReplyOf(w)))
            || (Foreign(db, op) && w.entry.None? && (w.row.status == PendingReference || w.row.status == Rejected))
  {
    var op, view := th.work.op, th.stage.view;
    if Reads(db.txs, op, view) {
      FitViewMoney(db, op, view);
      AloneDoes(db, th, view);
    } else if th.work.decider.FailWith? {
      var now := CurrentView(db, op);
      FailureIgnoresView(th.work, th.snap, view, now, th.stage.env);
      AloneDoes(db, th, now);
    } else {
      ViewIsCurrentOrForeign(db, op, view);
      ForeignWriteMovesNothing(th.work, th.snap, view, th.stage.env);
    }
  }

  /** The row's INSERT is refused, and its error is reported as a conflict. */
  predicate InsertConflicts(db: Db, w: Write) {
    !Allowed(db, InsertTx(w.id, w.row)) && Classify(SqlErrorOf(db, InsertTx(w.id, w.row))) == Conflict
  }

  /** A submission that loses its identity to another wallet meanwhile fails on the unique index alone, which is reported
      as a conflict, and run alone at that instant it would have been answered with the same conflict. */
  lemma RaceEndsInConflict(s: Sys, t: nat, p: Plan)
    requires SysOk(s) && ReadyThread(s, t) && s.threads[t].work.Submitting?
    requires !Accepted(s.db, Batch(true, s.threads[t].stage.write))
    requires Alone(s.db, s.threads[t], p)
    ensures p == Stop(Conflict)
    ensures InsertConflicts(s.db, s.threads[t].stage.write)
    ensures var th := s.threads[t];
            exists o | o in s.db.txs :: SameIdentity(s.db.txs[o], th.stage.write.row) && s.db.txs[o].wallet != th.work.op.wallet
  {
    ReadyCommits(s, t);
    assert ThreadOk(s.db, s.clock, s.threads[t]);
    LostIdentity(s.db, s.threads[t], p);
  }

  lemma LostIdentity(db: Db, th: Thread, p: Plan)
    requires Sound(db) && Alone(db, th, p) && Known(db.txs, th.work.op) && OwnUnknown(db, th.work.op) && th.work.op.wallet in db.wallets
    requires Prepared(th.work, th.snap, th.stage.view, th.stage.env) == Some(th.stage.write)
    ensures p == Stop(Conflict) && InsertConflicts(db, th.stage.write)
    ensures exists o | o in db.txs :: SameIdentity(db.txs[o], th.stage.write.row) && db.txs[o].wallet != th.work.op.wallet
  {
    var op := th.work.op;
    ConflictExactly(db, op, th.work.decider, th.work.causation, th.stage.env, p);
    DraftIsOp(op, th.snap, th.stage.view, th.work.decider, th.work.causation, th.stage.env);
    PreparedInsertChecks(op, th.snap, th.stage.view, th.work.decider, th.work.causation, th.stage.env);
    var o :| o in db.txs && SameOp(db.txs[o], op);
    assert SameIdentity(db.txs[o], th.stage.write.row);
  }

  /** A resolver's commit is a visit on what the queries return now, or it moves no money. */
  lemma SettlementIsSerial(s: Sys, t: nat)
    requires SysOk(s) && ReadyThread(s, t) && s.threads[t].work.Resolving?
    ensures var th := s.threads[t];
            var op := OpOf(th.work.row);
            && Accepted(s.db, Batch(false, th.stage.write))
            && PendingRow(s.db, th.work.id) && s.db.txs[th.work.id] == th.work.row
            && op.wallet in s.db.wallets && s.db.wallets[op.wallet] == th.snap
            && (ReadsReference(s.db.txs, op.provider, op.refExternal, th.stage.view) || (Foreign(s.db, op) && th.stage.write.entry.None?))
  {
    ReadyCommits(s, t);
    assert ThreadOk(s.db, s.clock, s.threads[t]);
    SerialSettlement(s.db, s.threads[t]);
  }

  lemma SerialSettlement(db: Db, th: Thread)
    requires Inv(db) && th.Holding? && th.stage.Ready? && th.work.Resolving? && PendingRow(db, th.work.id) && db.txs[th.work.id] == th.work.row
    requires ViewHolds(db, OpOf(th.work.row), th.stage.view)
    requires Prepared(th.work, th.snap, th.stage.view, th.stage.env) == Some(th.stage.write)
    ensures var op := OpOf(th.work.row);
            ReadsReference(db.txs, op.provider, op.refExternal, th.stage.view) || (Foreign(db, op) && th.stage.write.entry.None?)
  {
    var op, view := OpOf(th.work.row), th.stage.view;
    PendingOperation(db, th.work.id);
    ResolutionCases(th.work.id, th.work.row, th.snap, view, th.stage.env);
    if !ReadsReference(db.txs, op.provider, op.refExternal, view) {
      ViewIsCurrentOrForeign(db, op, view);
      ForeignNeverMoves(op, ToWallet(op.wallet, th.snap), view, th.stage.env.now);
    }
  }

  lemma ReversalRests(op: Operation, w: WalletVal, view: Option<Reference>, now: Time)
    requires IsReversal(op.kind) && Decide(op, w, view, now).0.status == Processed
    ensures view.Some? && Decide(op, w, view, now).0.ref == view.value.id && !view.value.reversed && view.value.wallet == op.wallet
  {
  }

  /** A prepared reversal that is processed rests on a reference it read as not reversed, in its own wallet. */
  lemma PreparedReversal(work: Work, snap: WalletRow, view: Option<Reference>, env: Env)
    requires Prepared(work, snap, view, env).Some? && ProcessedReversal(Prepared(work, snap, view, env).value.row)
    requires work.Resolving? ==> work.row.status == PendingReference
    ensures view.Some? && !view.value.reversed && view.value.wallet == OpIn(work).wallet
    ensures Prepared(work, snap, view, env).value.row.ref == NonNil(view.value.id)
  {
    match work
    case Submitting(op, decider, causation) =>
      ReversalRests(op, ToWallet(op.wallet, snap), view, env.now);
    case Resolving(id, r) =>
      ResolvedReversal(id, r, snap, view, env);
  }

  lemma ResolvedReversal(id: Id, r: TxRow, snap: WalletRow, view: Option<Reference>, env: Env)
    requires Prepared(Resolving(id, r), snap, view, env).Some? && ProcessedReversal(Prepared(Resolving(id, r), snap, view, env).value.row)
    requires r.status == PendingReference
    ensures view.Some? && !view.value.reversed && view.value.wallet == r.wallet
    ensures Prepared(Resolving(id, r), snap, view, env).value.row.ref == NonNil(view.value.id)
  {
    ResolutionCases(id, r, snap, view, env);
    ReversalRests(OpOf(r), ToWallet(r.wallet, snap), view, env.now);
  }

  /** The single-reversal index never stops a commit: no stored row reverses what a ready write reverses. */
  lemma ReversalIndexNeverRaises(s: Sys, t: nat, o: Id)
    requires SysOk(s) && ReadyThread(s, t) && o in s.db.txs && o != s.threads[t].stage.write.id
    ensures !SameReversal(s.db.txs[o], s.threads[t].stage.write.row)
  {
    var th := s.threads[t];
    assert ThreadOk(s.db, s.clock, th);
    var row, view := th.stage.write.row, th.stage.view;
    if SameReversal(s.db.txs[o], row) {
      PreparedReversal(th.work, th.snap, view, th.stage.env);
      assert s.db.txs[o].ref == Some(view.value.id);
      assert Reversed(s.db.txs, view.value.id);
      assert false;
    }
  }

  // ---- every serial write can happen ----

  ghost predicate SysPath(run: seq<Sys>, s: Sys, n: Sys) {
    run != [] && run[0] == s && run[|run| - 1] == n && forall k: nat {:trigger SysStepAt(run, k)} | 0 < k < |run| :: SysStepAt(run, k)
  }

  ghost predicate Leads(s: Sys, n: Sys) {
    exists run :: SysPath(run, s, n)
  }

  lemma LeadsNowhere(s: Sys)
    ensures Leads(s, s)
  {
    assert SysPath([s], s, s);
  }

  lemma LeadsOn(s: Sys, m: Sys, n: Sys, t: nat)
    requires Leads(s, m) && ThreadStep(m, n, t)
    ensures Leads(s, n)
  {
    var run :| SysPath(run, s, m);
    var longer := run + [n];
    forall k: nat | 0 < k < |longer| ensures SysStepAt(longer, k) {
      assert k < |run| ==> SysStepAt(run, k);
    }
    assert SysPath(longer, s, n);
  }

  /** The system with one thread as given. */
  function With(s: Sys, t: nat, th: Thread): Sys {
    s.(threads := s.threads[t := th])
  }

  lemma LocalLeads(s: Sys, t: nat, a: Thread, b: Thread)
    requires t in s.threads && Leads(s, With(s, t, a)) && Local(With(s, t, a), t, a, b)
    ensures Leads(s, With(s, t, b))
  {
    assert s.threads[t := a][t := b] == s.threads[t := b];
    LeadsOn(s, With(s, t, a), With(s, t, b), t);
  }

  /** What a lock holder needs to come to its commit alone: nobody else at its wallet or its identifiers. */
  ghost predicate Undisturbed(s: Sys, t: nat, wallet: Id, env: Env) {
    && t in s.threads && s.threads[t] == Idle && LockFree(s, t, wallet) && IdsFree(s, t, env)
    && env.began == s.clock == env.now && EnvOk(s.db, env)
  }

  /** From the lock to the reference as the queries return it. */
  lemma ReadsLead(s: Sys, t: nat, th: Thread, view: Option<Reference>)
    requires t in s.threads && th.Holding? && th.stage.Locked? && Leads(s, With(s, t, th))
    requires th.work.Submitting? ==> !Known(s.db.txs, th.work.op)
    requires Reads(s.db.txs, OpIn(th.work), view)
    ensures Leads(s, With(s, t, th.(stage := Viewed(view))))
  {
    LocalLeads(s, t, th, th.(stage := Searched));
    if OpIn(th.work).refExternal == "" {
      LocalLeads(s, t, th.(stage := Searched), th.(stage := Viewed(view)));
    } else {
      LocalLeads(s, t, th.(stage := Searched), th.(stage := Named(view)));
      LocalLeads(s, t, th.(stage := Named(view)), th.(stage := Viewed(view)));
    }
  }

  lemma LockedLeads(s: Sys, t: nat, work: Work, view: Option<Reference>, env: Env, write: Write)
    requires Undisturbed(s, t, OpIn(work).wallet, env) && OpIn(work).wallet in s.db.wallets
    requires Leads(s, With(s, t, Holding(work, s.db.wallets[OpIn(work).wallet], s.clock, Locked)))
    requires work.Submitting? ==> !Known(s.db.txs, work.op)
    requires Reads(s.db.txs, OpIn(work), view)
    requires Prepared(work, s.db.wallets[OpIn(work).wallet], view, env) == Some(write)
    ensures Leads(s, With(s, t, Holding(work, s.db.wallets[OpIn(work).wallet], s.clock, Ready(view, env, write))))
  {
    var th := Holding(work, s.db.wallets[OpIn(work).wallet], s.clock, Locked);
    ReadsLead(s, t, th, view);
    LocalLeads(s, t, th.(stage := Viewed(view)), th.(stage := Ready(view, env, write)));
  }

  lemma CommitLeads(s: Sys, t: nat, th: Thread)
    requires t in s.threads && s.threads[t] == Idle && Leads(s, With(s, t, th)) && th.Holding? && th.stage.Ready?
    requires Accepted(s.db, Batch(th.work.Submitting?, th.stage.write)) && Final(s.db, Batch(th.work.Submitting?, th.stage.write)) == Record(s.db, th.stage.write)
    ensures Leads(s, s.(db := Record(s.db, th.stage.write)))
  {
    assert s.threads[t := th][t := Idle] == s.threads;
    LeadsOn(s, With(s, t, th), s.(db := Record(s.db, th.stage.write)), t);
  }

  lemma SubmissionBegins(s: Sys, t: nat, op: Operation, decider: Decider, causation: string)
    requires t in s.threads && s.threads[t] == Idle && op.money.Valid() && op.wallet in s.db.wallets && LockFree(s, t, op.wallet)
    ensures Leads(s, With(s, t, Holding(Submitting(op, decider, causation), s.db.wallets[op.wallet], s.clock, Locked)))
  {
    var begun := Begun(op, decider, causation, s.clock);
    LeadsNowhere(s);
    assert With(s, t, Idle) == s;
    LocalLeads(s, t, Idle, begun);
    LocalLeads(s, t, begun, Holding(Submitting(op, decider, causation), s.db.wallets[op.wallet], s.clock, Locked));
  }

  lemma PlanIsPrepared(db: Db, op: Operation, decider: Decider, causation: string, env: Env, p: Plan) returns (view: Option<Reference>)
    requires op.money.Valid() && p.Do? && Planned(db, op, CanonicalOf(op), decider, causation, env, p)
    ensures op.wallet in db.wallets && !Known(db.txs, op) && Reads(db.txs, op, view)
    ensures Prepared(Submitting(op, decider, causation), db.wallets[op.wallet], view, env) == Some(p.write)
  {
    view :| PlannedOn(db, op, CanonicalOf(op), view, decider, causation, env, p);
  }

  /** Whatever executeTx would write alone, an undisturbed thread can write statement by statement. */
  lemma PlanCanRun(s: Sys, t: nat, op: Operation, decider: Decider, causation: string, env: Env, p: Plan)
    requires SysOk(s) && op.money.Valid() && p.Do? && Planned(s.db, op, CanonicalOf(op), decider, causation, env, p)
    requires Undisturbed(s, t, op.wallet, env)
    ensures Leads(s, s.(db := Record(s.db, p.write)))
  {
    var view := PlanIsPrepared(s.db, op, decider, causation, env, p);
    PlanIsStep(s.db, op, decider, causation, env, p);
    var work := Submitting(op, decider, causation);
    SubmissionBegins(s, t, op, decider, causation);
    LockedLeads(s, t, work, view, env, p.write);
    CommitLeads(s, t, Holding(work, s.db.wallets[op.wallet], s.clock, Ready(view, env, p.write)));
  }

  lemma VisitBegins(s: Sys, t: nat, id: Id)
    requires t in s.threads && s.threads[t] == Idle && Due(s.db, id, s.clock) && RowFree(s, t, id)
    requires s.db.txs[id].wallet in s.db.wallets && LockFree(s, t, s.db.txs[id].wallet)
    ensures var row := s.db.txs[id]; Leads(s, With(s, t, Holding(Resolving(id, row), s.db.wallets[row.wallet], s.clock, Locked)))
  {
    var row := s.db.txs[id];
    LeadsNowhere(s);
    assert With(s, t, Idle) == s;
    LocalLeads(s, t, Idle, Seeking(s.clock));
    LocalLeads(s, t, Seeking(s.clock), Picked(id, row, s.clock));
    LocalLeads(s, t, Picked(id, row, s.clock), Holding(Resolving(id, row), s.db.wallets[row.wallet], s.clock, Locked));
  }

  /** And whatever a visit to a due row nobody has locked would write. */
  lemma VisitCanRun(s: Sys, t: nat, id: Id, view: Option<Reference>, env: Env)
    requires SysOk(s) && Due(s.db, id, s.clock) && RowFree(s, t, id) && Undisturbed(s, t, s.db.txs[id].wallet, env)
    requires ReadsReference(s.db.txs, OpOf(s.db.txs[id]).provider, OpOf(s.db.txs[id]).refExternal, view)
    ensures var t := s.db.txs[id];
            && t.wallet in s.db.wallets && t.attempts >= 0 && !Resolution(id, t, s.db.wallets[t.wallet], view, env).Broken?
            && Leads(s, s.(db := Record(s.db, WriteOf(id, s.db.wallets[t.wallet], Resolution(id, t, s.db.wallets[t.wallet], view, env)))))
  {
    var row := s.db.txs[id];
    PendingOperation(s.db, id);
    ReadFits(s.db, OpOf(row), view);
    VisitIsStep(s.db, id, view, env);
    var work, snap := Resolving(id, row), s.db.wallets[row.wallet];
    var write := WriteOf(id, snap, Resolution(id, row, snap, view, env));
    VisitBegins(s, t, id);
    LockedLeads(s, t, work, view, env, write);
    CommitLeads(s, t, Holding(work, snap, s.clock, Ready(view, env, write)));
  }
}
