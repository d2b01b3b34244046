/** Any number of writers and resolvers, interleaved statement by statement: lock, read, decide, commit or crash.
    Reads see committed rows only. The wallet row lock makes what a committer read still true when it commits. */
module Threads {
  import opened Prelude
  import opened Domain
  import opened Decision
  import opened Schema
  import opened Writes
  import opened Invariant
  import opened Preservation
  import opened Resolver
  import opened Idempotency
  import opened Steps

  /** What a transaction is for: executeTx on an operation, or settling the pending row it locked. */
  datatype Work =
    | Submitting(op: Operation, decider: Decider, causation: string)
    | Resolving(id: Id, row: TxRow)

  function OpIn(work: Work): Operation {
    match work
    case Submitting(op, _, _) => op
    case Resolving(_, row) => OpOf(row)
  }

  /** How far a transaction holding its wallet's lock has come. */
  datatype Stage =
    | Locked
    | Searched
    | Named(seen: Option<Reference>)
    | Viewed(view: Option<Reference>)
    | Ready(view: Option<Reference>, env: Env, write: Write)

  datatype Thread =
    | Idle
    | Begun(op: Operation, decider: Decider, causation: string, began: Time)
    | Seeking(began: Time)
    | Picked(id: Id, row: TxRow, began: Time)
    | Holding(work: Work, snap: WalletRow, began: Time, stage: Stage)

  datatype Sys = Sys(db: Db, threads: map<nat, Thread>, clock: Time)

  function WalletOf(t: Thread): Id
    requires t.Holding?
  {
    OpIn(t.work).wallet
  }

  /** The pending row a resolver thread has locked. */
  function RowLock(t: Thread): Option<Id> {
    match t
    case Picked(id, _, _) => Some(id)
    case Holding(Resolving(id, _), _, _, _) => Some(id)
    case _ => None
  }

  function Reserved(t: Thread): set<Id> {
    if t.Holding? && t.stage.Ready? then Uses(t.stage.env) else {}
  }

  /** The write a transaction computes from its snapshot and its view. */
  function Prepared(work: Work, snap: WalletRow, view: Option<Reference>, env: Env): Option<Write> {
    match work
    case Submitting(op, decider, causation) =>
      if !op.money.Valid() then None
      else (match Draft(op, CanonicalOf(op), snap, view, decider, causation, env)
            case Ok(w) => Some(w)
            case Err(_) => None)
    case Resolving(id, row) =>
      if row.attempts < 0 then None
      else
        var s := Resolution(id, row, snap, view, env);
        if s.Broken? then None else Some(WriteOf(id, snap, s))
  }

  // ---- steps ----

  predicate LockFree(s: Sys, self: nat, wallet: Id) {
    forall u | u in s.threads && u != self && s.threads[u].Holding? :: WalletOf(s.threads[u]) != wallet
  }

  predicate RowFree(s: Sys, self: nat, id: Id) {
    forall u | u in s.threads && u != self :: RowLock(s.threads[u]) != Some(id)
  }

  predicate IdsFree(s: Sys, self: nat, env: Env) {
    forall u | u in s.threads && u != self :: Reserved(s.threads[u]) !! Uses(env)
  }

  /** The row of the reference query alone; whether it is reversed is a later query. */
  ghost predicate ReadsRow(txs: map<Id, TxRow>, op: Operation, seen: Option<Reference>) {
    match seen
    case None => forall i | i in txs :: !Names(txs[i], op.provider, op.refExternal)
    case Some(v) => v.id in txs && Names(txs[v.id], op.provider, op.refExternal) && v == View(v.id, txs[v.id], v.reversed)
  }

  /** What one thread may do next, the tables unchanged. Any thread may also give up or crash, to Idle. */
  ghost predicate Local(s: Sys, self: nat, a: Thread, b: Thread) {
    || b == Idle
    || (a == Idle && b.Begun? && b.began == s.clock && b.op.money.Valid())
    || (a == Idle && b == Seeking(s.clock))
    || (a.Seeking? && b.Picked? && b.began == a.began && Due(s.db, b.id, a.began) && b.row == s.db.txs[b.id] && RowFree(s, self, b.id))
    || (a.Begun? && a.op.wallet in s.db.wallets && LockFree(s, self, a.op.wallet)
        && b == Holding(Submitting(a.op, a.decider, a.causation), s.db.wallets[a.op.wallet], a.began, Locked))
    || (a.Picked? && a.row.wallet in s.db.wallets && LockFree(s, self, a.row.wallet)
        && b == Holding(Resolving(a.id, a.row), s.db.wallets[a.row.wallet], a.began, Locked))
    || (a.Holding? && b.Holding? && b == a.(stage := b.stage) && Advance(s, self, a, b.stage))
  }

  ghost predicate Advance(s: Sys, self: nat, a: Thread, next: Stage)
    requires a.Holding?
  {
    var op := OpIn(a.work);
    match (a.stage, next)
    case (Locked, Searched) => a.work.Resolving? || !Known(s.db.txs, op)
    case (Searched, Named(seen)) => op.refExternal != "" && ReadsRow(s.db.txs, op, seen)
    case (Searched, Viewed(view)) => op.refExternal == "" && view == None
    case (Named(seen), Viewed(view)) =>
      if seen.None? then view == None else view == Some(seen.value.(reversed := Reversed(s.db.txs, seen.value.id)))
    case (Viewed(view), Ready(again, env, write)) =>
      again == view && env.began == a.began && env.now == s.clock && EnvOk(s.db, env) && IdsFree(s, self, env)
      && Prepared(a.work, a.snap, view, env) == Some(write)
    case (_, _) => false
  }

  /** The commit: all of the write when every constraint and trigger lets it through, nothing otherwise. */
  ghost predicate Commit(a: Db, t: Thread, b: Db) {
    t.Holding? && t.stage.Ready?
    && var batch := Batch(t.work.Submitting?, t.stage.write);
       b == if Accepted(a, batch) then Final(a, batch) else a
  }

  ghost predicate ThreadStep(s: Sys, n: Sys, self: nat) {
    && self in s.threads && self in n.threads && n == s.(db := n.db, threads := s.threads[self := n.threads[self]])
    && ((n.db == s.db && Local(s, self, s.threads[self], n.threads[self]))
        || (Commit(s.db, s.threads[self], n.db) && n.threads[self] == Idle))
  }

  ghost predicate CreateStep(s: Sys, n: Sys) {
    && n == s.(db := n.db)
    && exists w, env :: OpenOk(s.db, w, env) && n.db == Opened(s.db, w, env) && OpenIdsFree(s, env) && 0 < w.createdAt <= w.updatedAt <= s.clock
                        && env.began <= s.clock
  }

  predicate OpenIdsFree(s: Sys, env: Env) {
    forall u | u in s.threads :: Reserved(s.threads[u]) !! Uses(env)
  }

  ghost predicate SysStep(s: Sys, n: Sys) {
    || (exists self :: ThreadStep(s, n, self))
    || CreateStep(s, n)
    || (n == s.(db := n.db) && DeliveryStep(s.db, n.db))
    || (n == s.(clock := n.clock) && s.clock <= n.clock)
    || (exists self: nat :: self !in s.threads && n == s.(threads := s.threads[self := Idle]))
  }

  // ---- what holds in every reachable state ----

  /** In its own wallet the operation has no stored twin. */
  predicate OwnUnknown(db: Db, op: Operation) {
    forall o | o in db.txs && SameOp(db.txs[o], op) :: db.txs[o].wallet != op.wallet
  }

  predicate OwnUnnamed(db: Db, op: Operation) {
    forall o | o in db.txs && Names(db.txs[o], op.provider, op.refExternal) :: db.txs[o].wallet != op.wallet
  }

  /** The reference row as seen: its identity is right, and in the own wallet its status is current. */
  ghost predicate SeenFits(db: Db, op: Operation, seen: Option<Reference>) {
    match seen
    case None => op.refExternal != "" ==> OwnUnnamed(db, op)
    case Some(v) =>
      && op.refExternal != "" && v.id in db.txs
      && var p := db.txs[v.id];
         Names(p, op.provider, op.refExternal) && v == View(v.id, p.(status := v.status), v.reversed) && (p.wallet == op.wallet ==> v.status == p.status)
  }

  ghost predicate ViewHolds(db: Db, op: Operation, view: Option<Reference>) {
    ViewFits(db, op, view) && (view.None? && op.refExternal != "" ==> OwnUnnamed(db, op))
  }

  ghost predicate StageOk(db: Db, clock: Time, t: Thread)
    requires t.Holding?
  {
    var op := OpIn(t.work);
    match t.stage
    case Locked => true
    case Searched => t.work.Submitting? ==> OwnUnknown(db, op)
    case Named(seen) => (t.work.Submitting? ==> OwnUnknown(db, op)) && SeenFits(db, op, seen)
    case Viewed(view) => (t.work.Submitting? ==> OwnUnknown(db, op)) && ViewHolds(db, op, view)
    case Ready(view, env, write) =>
      && (t.work.Submitting? ==> OwnUnknown(db, op)) && ViewHolds(db, op, view)
      && EnvOk(db, env) && env.began == t.began && env.now <= clock && Prepared(t.work, t.snap, view, env) == Some(write)
      && (t.work.Resolving? ==> t.work.row.updatedAt <= env.now)
  }

  /** What a thread has read is still so. */
  ghost predicate ThreadOk(db: Db, clock: Time, t: Thread) {
    match t
    case Idle => true
    case Begun(op, _, _, began) => op.money.Valid() && 0 < began <= clock
    case Seeking(began) => 0 < began <= clock
    case Picked(id, row, began) => 0 < began <= clock && Due(db, id, began) && db.txs[id] == row
    case Holding(work, snap, began, stage) =>
      && 0 < began <= clock && OpIn(work).wallet in db.wallets && db.wallets[OpIn(work).wallet] == snap
      && (work.Submitting? ==> work.op.money.Valid())
      && (work.Resolving? ==> Due(db, work.id, began) && db.txs[work.id] == work.row)
      && StageOk(db, clock, t)
  }

  ghost predicate LocksOk(s: Sys) {
    forall t, u {:trigger Apart(s.threads[t], s.threads[u])} | t in s.threads && u in s.threads && t != u ::
      Apart(s.threads[t], s.threads[u])
  }

  /** Two threads never hold one wallet, one pending row, or one fresh identifier. */
  predicate Apart(a: Thread, b: Thread) {
    && (a.Holding? && b.Holding? ==> WalletOf(a) != WalletOf(b))
    && (RowLock(a).Some? ==> RowLock(a) != RowLock(b))
    && Reserved(a) !! Reserved(b)
  }

  ghost predicate SysOk(s: Sys) {
    && Sound(s.db) && ClockOk(s.db, s.clock) && LocksOk(s)
    && (forall t {:trigger ThreadOk(s.db, s.clock, s.threads[t])} | t in s.threads :: ThreadOk(s.db, s.clock, s.threads[t]))
  }

  // ---- what one wallet's lock holder cannot see change ----

  /** From `a` to `b` nothing happened in wallet `w`. */
  ghost predicate Elsewhere(a: Db, b: Db, w: Id) {
    && (w in a.wallets ==> w in b.wallets && b.wallets[w] == a.wallets[w])
    && (forall t | t in a.txs :: t in b.txs && SameTxIdentity(a.txs[t], b.txs[t]) && (a.txs[t].wallet == w ==> b.txs[t] == a.txs[t]))
    && (forall t | t in b.txs && t !in a.txs :: b.txs[t].wallet != w)
    && (forall t | t in a.txs && a.txs[t].wallet == w :: Reversed(b.txs, t) == Reversed(a.txs, t))
  }

  lemma WriteElsewhere(db: Db, mode: Mode, w: Write, x: Id)
    requires RefsOk(db) && RowsOk(db) && WriteOk(db, mode, w) && w.row.wallet != x
    ensures Elsewhere(db, Record(db, w), x)
  {
    var after := Record(db, w);
    forall t | t in db.txs && db.txs[t].wallet == x ensures Reversed(after.txs, t) == Reversed(db.txs, t) {
      ReversedElsewhere(db, mode, w, t);
    }
  }

  lemma ReversedElsewhere(db: Db, mode: Mode, w: Write, t: Id)
    requires WriteOk(db, mode, w) && t in db.txs && db.txs[t].wallet != w.row.wallet
    ensures Reversed(Record(db, w).txs, t) == Reversed(db.txs, t)
  {
    var after := Record(db, w).txs;
    if r :| r in db.txs && ProcessedReversal(db.txs[r]) && db.txs[r].ref == Some(t) {
      assert after[r] == db.txs[r];
    }
    if r :| r in after && ProcessedReversal(after[r]) && after[r].ref == Some(t) {
      assert r != w.id ==> db.txs[r] == after[r];
    }
  }

  /** What a lock holder has read stays so while others commit elsewhere. */
  lemma StageStable(a: Db, b: Db, clock: Time, t: Thread)
    requires t.Holding? && Elsewhere(a, b, WalletOf(t)) && StageOk(a, clock, t)
    requires t.stage.Ready? ==> EnvOk(b, t.stage.env)
    ensures StageOk(b, clock, t)
  {
  }

  lemma ThreadStable(a: Db, b: Db, clock: Time, t: Thread)
    requires ThreadOk(a, clock, t)
    requires t.Holding? ==> Elsewhere(a, b, WalletOf(t))
    requires RowLock(t).Some? ==> RowLock(t).value in a.txs && RowLock(t).value in b.txs && b.txs[RowLock(t).value] == a.txs[RowLock(t).value]
    requires t.Holding? && t.stage.Ready? ==> EnvOk(b, t.stage.env)
    ensures ThreadOk(b, clock, t)
  {
    if t.Holding? {
      StageStable(a, b, clock, t);
    }
  }

  // ---- the ready thread's write is sound ----

  /** The identifiers a prepared write puts into the tables. */
  lemma PreparedIds(work: Work, snap: WalletRow, view: Option<Reference>, env: Env)
    requires Prepared(work, snap, view, env).Some?
    ensures var w := Prepared(work, snap, view, env).value;
            && w.id == (match work case Submitting(_, _, _) => env.txId case Resolving(id, _) => id)
            && w.row.wallet == OpIn(work).wallet
            && (w.entry.Some? ==> w.entry.value.id == env.entryId)
            && (forall i | 0 <= i < |w.events| :: w.events[i].id == env.balanceEventId || w.events[i].id == env.wagerEventId)
  {
    match work
    case Submitting(op, decider, causation) =>
      DraftIds(op, snap, view, decider, causation, env);
    case Resolving(id, row) =>
      ResolutionCases(id, row, snap, view, env);
      var d, w := Verdict(row, snap, view, env.now), WalletAfter(row, snap, view, env.now);
      if !Postpones(row, snap, view, env.now) {
        CompletedIds(id, SettledRow(row, d, w, env.now), snap, d, w, "", env);
      }
  }

  predicate ReadyThread(s: Sys, t: nat) {
    t in s.threads && s.threads[t].Holding? && s.threads[t].stage.Ready?
  }

  function ModeOf(work: Work): Mode {
    if work.Submitting? then Fresh else Settle
  }

  /** An identity taken by another wallet keeps the insert from committing. */
  lemma KnownNotAccepted(db: Db, w: Write, op: Operation, o: Id)
    requires o in db.txs && SameOp(db.txs[o], op) && IsOp(w.row, op) && TxCheck(w.row) && w.id !in db.txs
    ensures !Accepted(db, Batch(true, w))
  {
    var b := Batch(true, w);
    assert b[0] == InsertTx(w.id, w.row) && State(db, b, 0) == db;
    assert Clash(db.txs[o], w.row);
    assert !AllowedAt(db, b, 0);
  }

  lemma PreparedInsertChecks(op: Operation, snap: WalletRow, view: Option<Reference>, decider: Decider, causation: string, env: Env)
    requires op.money.Valid() && Draft(op, CanonicalOf(op), snap, view, decider, causation, env).Ok?
    ensures TxCheck(Draft(op, CanonicalOf(op), snap, view, decider, causation, env).value.row)
  {
  }

  /** At its commit a ready thread's write is exactly a sound atomic step, unless its identity was taken
      meanwhile in another wallet; no other constraint or trigger can stop it. */
  lemma ReadyCommits(s: Sys, t: nat)
    requires SysOk(s) && ReadyThread(s, t)
    ensures var th := s.threads[t];
            var op, w := OpIn(th.work), th.stage.write;
            && w.row.wallet == op.wallet
            && (Accepted(s.db, Batch(th.work.Submitting?, w)) <==> th.work.Resolving? || !Known(s.db.txs, op))
            && (Accepted(s.db, Batch(th.work.Submitting?, w)) ==>
                  SoundWrite(s.db, ModeOf(th.work), w) && Final(s.db, Batch(th.work.Submitting?, w)) == Record(s.db, w))
  {
    var th := s.threads[t];
    assert ThreadOk(s.db, s.clock, th);
    var view, env, w := th.stage.view, th.stage.env, th.stage.write;
    PreparedIds(th.work, th.snap, view, env);
    match th.work
    case Submitting(op, decider, causation) =>
      if Known(s.db.txs, op) {
        var o :| o in s.db.txs && SameOp(s.db.txs[o], op);
        DraftIsOp(op, th.snap, view, decider, causation, env);
        PreparedInsertChecks(op, th.snap, view, decider, causation, env);
        KnownNotAccepted(s.db, w, op, o);
      } else {
        forall o | o in s.db.txs ensures !SameOp(s.db.txs[o], op) {
          assert SameOp(s.db.txs[o], op) ==> Known(s.db.txs, op);
        }
        DraftIsStep(s.db, op, CanonicalOf(op), view, decider, causation, env);
      }
    case Resolving(id, row) =>
      VisitIsStep(s.db, id, view, env);
  }

  /** Identifiers reserved by two ready threads are apart, so one's commit leaves the other's fresh. */
  lemma ReservedStays(db: Db, work: Work, snap: WalletRow, view: Option<Reference>, mine: Env, env: Env)
    requires Prepared(work, snap, view, mine).Some? && Uses(mine) !! Uses(env) && EnvOk(db, env)
    requires work.Resolving? ==> work.id in db.txs
    ensures EnvOk(Record(db, Prepared(work, snap, view, mine).value), env)
  {
    PreparedIds(work, snap, view, mine);
    OthersStay(db, Prepared(work, snap, view, mine).value, mine, env);
  }

  /** A pending row another thread has locked is not the one a commit replaces. */
  lemma LockedRowStays(db: Db, th: Thread, w: Write, id: Id)
    requires th.Holding? && th.stage.Ready? && w.id == (if th.work.Resolving? then th.work.id else th.stage.env.txId)
    requires RowLock(th) != Some(id) && id in db.txs && NewId(db, th.stage.env.txId)
    ensures id in Record(db, w).txs && Record(db, w).txs[id] == db.txs[id]
  {
  }

  /** Another thread is untouched by the commit: its wallet, its row and its identifiers are others. */
  lemma OtherUnmoved(db: Db, clock: Time, th: Thread, other: Thread)
    requires RefsOk(db) && RowsOk(db) && th.Holding? && th.stage.Ready? && Apart(th, other) && Apart(other, th)
    requires ThreadOk(db, clock, th) && ThreadOk(db, clock, other)
    requires SoundWrite(db, ModeOf(th.work), th.stage.write)
    ensures ThreadOk(Record(db, th.stage.write), clock, other)
  {
    PreparedIds(th.work, th.snap, th.stage.view, th.stage.env);
    if RowLock(other).Some? {
      LockedRowStays(db, th, th.stage.write, RowLock(other).value);
    }
    if other.Holding? {
      WriteElsewhere(db, ModeOf(th.work), th.stage.write, WalletOf(other));
      if other.stage.Ready? {
        EnvUnmoved(db, clock, th, other);
      }
    }
    ThreadStable(db, Record(db, th.stage.write), clock, other);
  }

  lemma EnvUnmoved(db: Db, clock: Time, th: Thread, other: Thread)
    requires th.Holding? && th.stage.Ready? && other.Holding? && other.stage.Ready? && Apart(th, other)
    requires ThreadOk(db, clock, th) && ThreadOk(db, clock, other)
    ensures EnvOk(Record(db, th.stage.write), other.stage.env)
  {
    ReservedStays(db, th.work, th.snap, th.stage.view, th.stage.env, other.stage.env);
  }

  lemma ClockAfterWrite(db: Db, mode: Mode, w: Write, clock: Time)
    requires ClockOk(db, clock) && RowsOk(db) && WriteOk(db, mode, w) && mode != Open
    requires 0 < w.row.createdAt <= clock && w.row.updatedAt <= clock && (w.entry.Some? ==> w.entry.value.createdAt <= clock)
    ensures ClockOk(Record(db, w), clock)
  {
  }

  /** The instants a prepared write stores. */
  lemma PreparedInstants(work: Work, snap: WalletRow, view: Option<Reference>, env: Env)
    requires Prepared(work, snap, view, env).Some?
    ensures var w := Prepared(work, snap, view, env).value;
            && (work.Submitting? ==> w.row.createdAt == w.row.updatedAt == env.began)
            && (work.Resolving? ==> w.row.createdAt == work.row.createdAt && w.row.updatedAt == env.now)
            && (w.entry.Some? ==> w.entry.value.createdAt == env.now)
  {
    match work
    case Submitting(op, decider, causation) =>
    case Resolving(id, row) =>
      ResolutionCases(id, row, snap, view, env);
  }

  lemma PreparedClock(db: Db, clock: Time, th: Thread)
    requires ThreadOk(db, clock, th) && ClockOk(db, clock) && th.Holding? && th.stage.Ready?
    ensures var w := th.stage.write;
            0 < w.row.createdAt <= clock && w.row.updatedAt <= clock && (w.entry.Some? ==> w.entry.value.createdAt <= clock)
  {
    PreparedInstants(th.work, th.snap, th.stage.view, th.stage.env);
  }

  /** The others, the committed write's effect on the tables past. */
  lemma OthersAfterCommit(s: Sys, t: nat, u: nat)
    requires SysOk(s) && ReadyThread(s, t) && u in s.threads && u != t
    requires SoundWrite(s.db, ModeOf(s.threads[t].work), s.threads[t].stage.write)
    ensures ThreadOk(Record(s.db, s.threads[t].stage.write), s.clock, s.threads[u])
  {
    assert Apart(s.threads[t], s.threads[u]) && Apart(s.threads[u], s.threads[t]);
    assert ThreadOk(s.db, s.clock, s.threads[t]) && ThreadOk(s.db, s.clock, s.threads[u]);
    OtherUnmoved(s.db, s.clock, s.threads[t], s.threads[u]);
  }

  /** A thread that has ended takes no lock. */
  lemma EndedApart(s: Sys, n: Sys, t: nat)
    requires LocksOk(s) && t in s.threads && n.threads == s.threads[t := Idle]
    ensures LocksOk(n)
  {
    forall u, v | u in n.threads && v in n.threads && u != v ensures Apart(n.threads[u], n.threads[v]) {
      if u != t && v != t {
        assert Apart(s.threads[u], s.threads[v]);
      }
    }
  }

  lemma AcceptedCommit(s: Sys, n: Sys, t: nat)
    requires SysOk(s) && ReadyThread(s, t) && n == s.(db := Record(s.db, s.threads[t].stage.write), threads := s.threads[t := Idle])
    requires SoundWrite(s.db, ModeOf(s.threads[t].work), s.threads[t].stage.write)
    ensures SysOk(n) && WriteStep(s.db, n.db)
  {
    var th := s.threads[t];
    assert ThreadOk(s.db, s.clock, th);
    WriteKeepsSound(s.db, ModeOf(th.work), th.stage.write);
    PreparedClock(s.db, s.clock, th);
    ClockAfterWrite(s.db, ModeOf(th.work), th.stage.write, s.clock);
    forall u | u in n.threads ensures ThreadOk(n.db, n.clock, n.threads[u]) {
      if u != t {
        OthersAfterCommit(s, t, u);
      }
    }
    EndedApart(s, n, t);
  }

  lemma RefusedCommit(s: Sys, n: Sys, t: nat)
    requires SysOk(s) && t in s.threads && n == s.(threads := s.threads[t := Idle])
    ensures SysOk(n)
  {
    forall u | u in n.threads ensures ThreadOk(n.db, n.clock, n.threads[u]) {
      if u != t {
        assert ThreadOk(s.db, s.clock, s.threads[u]);
      }
    }
    EndedApart(s, n, t);
  }

  lemma CommitKeepsSysOk(s: Sys, n: Sys, t: nat)
    requires SysOk(s) && ReadyThread(s, t) && Commit(s.db, s.threads[t], n.db) && n == s.(db := n.db, threads := s.threads[t := Idle])
    ensures SysOk(n) && (n.db == s.db || WriteStep(s.db, n.db))
  {
    ReadyCommits(s, t);
    if Accepted(s.db, Batch(s.threads[t].work.Submitting?, s.threads[t].stage.write)) {
      AcceptedCommit(s, n, t);
    } else {
      RefusedCommit(s, n, t);
    }
  }

  // ---- local steps ----

  lemma LocalThreadOk(s: Sys, self: nat, a: Thread, b: Thread)
    requires SysOk(s) && self in s.threads && a == s.threads[self] && Local(s, self, a, b)
    ensures ThreadOk(s.db, s.clock, b)
  {
    assert ThreadOk(s.db, s.clock, a);
  }

  lemma LocalApart(s: Sys, self: nat, a: Thread, b: Thread, u: nat)
    requires SysOk(s) && self in s.threads && a == s.threads[self] && Local(s, self, a, b) && u in s.threads && u != self
    ensures Apart(b, s.threads[u]) && Apart(s.threads[u], b)
  {
    assert Apart(a, s.threads[u]) && Apart(s.threads[u], a);
  }

  lemma LocalKeepsSysOk(s: Sys, n: Sys, self: nat)
    requires SysOk(s) && self in s.threads && self in n.threads && n == s.(threads := s.threads[self := n.threads[self]])
    requires Local(s, self, s.threads[self], n.threads[self])
    ensures SysOk(n)
  {
    forall u | u in n.threads ensures ThreadOk(n.db, n.clock, n.threads[u]) {
      if u == self {
        LocalThreadOk(s, self, s.threads[self], n.threads[self]);
      } else {
        assert ThreadOk(s.db, s.clock, s.threads[u]);
      }
    }
    forall u, v | u in n.threads && v in n.threads && u != v ensures Apart(n.threads[u], n.threads[v]) {
      if u == self {
        LocalApart(s, self, s.threads[self], n.threads[self], v);
      } else if v == self {
        LocalApart(s, self, s.threads[self], n.threads[self], u);
      } else {
        assert Apart(s.threads[u], s.threads[v]);
      }
    }
  }

  // ---- wallet creation, delivery, time ----

  lemma OpenElsewhere(db: Db, w: WalletVal, env: Env, x: Id)
    requires Inv(db) && OpenOk(db, w, env) && w.id != x
    ensures Elsewhere(db, Opened(db, w, env), x)
  {
    if w.balance.minor > 0 {
      OpeningWriteOk(db, w, env);
      WriteElsewhere(db, Open, OpeningWrite(w, env), x);
    }
  }

  lemma CreateEnvStays(db: Db, w: WalletVal, mine: Env, env: Env)
    requires EnvOk(db, env) && Uses(mine) !! Uses(env)
    ensures EnvOk(Opened(db, w, mine), env)
  {
    if w.balance.minor > 0 {
      OthersStay(db, OpeningWrite(w, mine), mine, env);
    }
  }

  lemma CreateOtherOk(db: Db, clock: Time, w: WalletVal, env: Env, other: Thread)
    requires Inv(db) && OpenOk(db, w, env) && Reserved(other) !! Uses(env) && ThreadOk(db, clock, other)
    ensures ThreadOk(Opened(db, w, env), clock, other)
  {
    if other.Holding? {
      OpenElsewhere(db, w, env, WalletOf(other));
      if other.stage.Ready? {
        CreateEnvStays(db, w, env, other.stage.env);
      }
    }
    ThreadStable(db, Opened(db, w, env), clock, other);
  }

  lemma CreateClock(db: Db, w: WalletVal, env: Env, clock: Time)
    requires ClockOk(db, clock) && 0 < w.createdAt <= clock && 0 < env.began <= clock
    ensures ClockOk(Opened(db, w, env), clock)
  {
  }

  lemma CreateKeepsSysOk(s: Sys, n: Sys)
    requires SysOk(s) && CreateStep(s, n)
    ensures SysOk(n) && OpenStep(s.db, n.db)
  {
    var w, env :| OpenOk(s.db, w, env) && n.db == Opened(s.db, w, env) && OpenIdsFree(s, env)
                  && 0 < w.createdAt <= w.updatedAt <= s.clock && env.began <= s.clock;
    OpenKeepsSound(s.db, w, env);
    CreateClock(s.db, w, env, s.clock);
    forall u | u in n.threads ensures ThreadOk(n.db, n.clock, n.threads[u]) {
      assert ThreadOk(s.db, s.clock, s.threads[u]);
      CreateOtherOk(s.db, s.clock, w, env, s.threads[u]);
    }
    SameLocks(s, n);
  }

  lemma SameLocks(s: Sys, n: Sys)
    requires LocksOk(s) && n.threads == s.threads
    ensures LocksOk(n)
  {
    forall u, v | u in n.threads && v in n.threads && u != v ensures Apart(n.threads[u], n.threads[v]) {
      assert Apart(s.threads[u], s.threads[v]);
    }
  }

  lemma DeliveryOtherOk(a: Db, b: Db, clock: Time, t: Thread)
    requires DeliveryStep(a, b) && ThreadOk(a, clock, t)
    ensures ThreadOk(b, clock, t)
  {
    if t.Holding? && t.stage.Ready? {
      assert forall i | 0 <= i < |b.outbox| :: b.outbox[i].id == a.outbox[i].id;
    }
    ThreadStable(a, b, clock, t);
  }

  lemma DeliveryKeepsSysOk(s: Sys, n: Sys)
    requires SysOk(s) && n == s.(db := n.db) && DeliveryStep(s.db, n.db)
    ensures SysOk(n)
  {
    DeliveryKeepsSound(s.db, n.db);
    forall u | u in n.threads ensures ThreadOk(n.db, n.clock, n.threads[u]) {
      assert ThreadOk(s.db, s.clock, s.threads[u]);
      DeliveryOtherOk(s.db, n.db, s.clock, s.threads[u]);
    }
    SameLocks(s, n);
  }

  lemma TickKeepsSysOk(s: Sys, n: Sys)
    requires SysOk(s) && n == s.(clock := n.clock) && s.clock <= n.clock
    ensures SysOk(n)
  {
    forall u | u in n.threads ensures ThreadOk(n.db, n.clock, n.threads[u]) {
      assert ThreadOk(s.db, s.clock, s.threads[u]);
    }
    SameLocks(s, n);
  }

  lemma SpawnKeepsSysOk(s: Sys, n: Sys, self: nat)
    requires SysOk(s) && self !in s.threads && n == s.(threads := s.threads[self := Idle])
    ensures SysOk(n)
  {
    forall u | u in n.threads ensures ThreadOk(n.db, n.clock, n.threads[u]) {
      if u != self {
        assert ThreadOk(s.db, s.clock, s.threads[u]);
      }
    }
    forall u, v | u in n.threads && v in n.threads && u != v ensures Apart(n.threads[u], n.threads[v]) {
      if u != self && v != self {
        assert Apart(s.threads[u], s.threads[v]);
      }
    }
  }
}
