/** A root and the operation that depends on it, submitted in either order, end alike, whatever happens elsewhere and
    however often the resolver looked in vain meanwhile. */
module PairOrder {
  import opened Prelude
  import opened Domain
  import opened Decision
  import opened Schema
  import opened Integrity
  import opened Writes
  import opened Invariant
  import opened Preservation
  import opened Resolver
  import opened Economics
  import opened Idempotency
  import opened Steps

  datatype Amounts = Amounts(direction: Direction, amount: int, before: int, after: int, version: int)

  function AmountsOf(e: LedgerRow): Amounts {
    Amounts(e.direction, e.amount, e.before, e.after, e.version)
  }

  /** The financial outcome of a write, without identifiers and instants. */
  datatype Outcome = Outcome(status: Status, failure: Option<string>, balance: int, version: int, moved: Option<Amounts>)

  function OutcomeOf(w: Write): Outcome {
    Outcome(w.row.status, w.row.failure, w.wallet.balance, w.wallet.version, if w.entry.Some? then Some(AmountsOf(w.entry.value)) else None)
  }

  function Expected(op: Operation, w: WalletVal, view: Option<Reference>, now: Time): Outcome {
    var (d, after) := Decide(op, w, view, now);
    Outcome(d.status, Nullable(d.failure), after.balance.minor, after.version,
            if d.direction.None? then None
            else Some(Amounts(d.direction.value, op.money.minor, w.balance.minor, after.balance.minor, after.version)))
  }

  /** Two views that lead to one decision: both unsettled, or of one row but for its id and, in another wallet, its reversal. */
  predicate ViewsAgree(op: Operation, a: Option<Reference>, b: Option<Reference>) {
    || (Unsettled(a) && Unsettled(b))
    || (a.Some? && b.Some? && b.value == a.value.(id := b.value.id, reversed := b.value.reversed)
        && (a.value.wallet == op.wallet ==> a.value.reversed == b.value.reversed))
  }

  /** The outcome depends on the balance, version and reference, not on the clock or on row ids. */
  lemma OutcomeIgnoresClock(op: Operation, a: WalletVal, b: WalletVal, va: Option<Reference>, vb: Option<Reference>, s: Time, t: Time)
    requires ValidOperation(op.kind, op.money, op.refExternal) && (op.refExternal == "" ==> va.None? && vb.None?)
    requires a.id == op.wallet && a.Valid() && b.Valid() && b == a.(updatedAt := b.updatedAt) && ViewsAgree(op, va, vb)
    requires a.updatedAt <= s && b.updatedAt <= t && s != 0 && t != 0
    ensures Expected(op, a, va, s) == Expected(op, b, vb, t)
  {
  }

  lemma DraftOutcome(op: Operation, hash: Canonical, snap: WalletRow, view: Option<Reference>, causation: string, env: Env)
    requires Draft(op, hash, snap, view, ByRules, causation, env).Ok?
    ensures var w := Draft(op, hash, snap, view, ByRules, causation, env).value;
            && OutcomeOf(w) == Expected(op, ToWallet(op.wallet, snap), view, env.now)
            && w.row.wallet == op.wallet && w.wallet == snap.(balance := w.wallet.balance, version := w.wallet.version, updatedAt := w.wallet.updatedAt)
            && (w.entry.None? ==> w.wallet == snap) && (w.entry.Some? ==> w.wallet.updatedAt == env.now && w.entry.value.wallet == op.wallet)
            && ValidOperation(op.kind, op.money, op.refExternal) && op.external != ""
  {
    DecideMoves(op, ToWallet(op.wallet, snap), view, env.now);
  }

  // ---- visits ----

  /** The write of the visit that resolves row `id`. */
  function VisitWrite(db: Db, id: Id, view: Option<Reference>, env: Env): Option<Write> {
    if id !in db.txs || db.txs[id].wallet !in db.wallets || db.txs[id].attempts < 0 then None
    else
      var s := Resolution(id, db.txs[id], db.wallets[db.txs[id].wallet], view, env);
      if s.Broken? then None else Some(WriteOf(id, db.wallets[db.txs[id].wallet], s))
  }

  /** The visit gives up: the decision would still wait and no attempt is left. */
  predicate Expires(t: TxRow, snap: WalletRow, view: Option<Reference>, now: Time) {
    Decide(OpOf(t), ToWallet(t.wallet, snap), view, now).0.status == PendingReference && t.attempts + 1 >= MAX_ATTEMPTS
  }

  lemma ResolutionOutcome(id: Id, t: TxRow, snap: WalletRow, view: Option<Reference>, env: Env)
    requires t.attempts >= 0 && t.status == PendingReference && t.failure.None?
    requires !Resolution(id, t, snap, view, env).Broken?
    ensures var w := WriteOf(id, snap, Resolution(id, t, snap, view, env));
            && w.id == id && w.row.wallet == t.wallet && (w.entry.None? ==> w.wallet == snap) && (w.entry.Some? ==> w.entry.value.wallet == t.wallet)
            && if Expires(t, snap, view, env.now) then w.row.status == Rejected
               else OutcomeOf(w) == Expected(OpOf(t), ToWallet(t.wallet, snap), view, env.now)
  {
    ResolutionCases(id, t, snap, view, env);
    DecideMoves(OpOf(t), ToWallet(t.wallet, snap), view, env.now);
  }

  lemma VisitWrites(db: Db, id: Id, view: Option<Reference>, env: Env)
    requires VisitReady(db, id, view, env)
    ensures var t, v := db.txs[id], VisitWrite(db, id, view, env);
            && v.Some? && t.wallet in db.wallets && v.value.id == id && v.value.row.wallet == t.wallet
            && (v.value.entry.None? ==> v.value.wallet == db.wallets[t.wallet]) && (v.value.entry.Some? ==> v.value.entry.value.wallet == t.wallet)
            && if Expires(t, db.wallets[t.wallet], view, env.now) then v.value.row.status == Rejected
               else OutcomeOf(v.value) == Expected(OpOf(t), ToWallet(t.wallet, db.wallets[t.wallet]), view, env.now)
  {
    PendingOperation(db, id);
    assert RowAt(db, id);
    ResolutionSound(db, id, view, env);
    ResolutionOutcome(id, db.txs[id], db.wallets[db.txs[id].wallet], view, env);
  }

  // ---- submissions ----

  /** One submission: the reference it read, its causation and environment, and what it wrote. */
  datatype Sub = Sub(view: Option<Reference>, causation: string, env: Env, w: Write)

  /** `s` is a submission of `op` to `db` under a clock not behind the wallet. */
  ghost predicate Submits(db: Db, op: Operation, s: Sub) {
    && Sound(db) && EnvOk(db, s.env) && op.money.Valid() && op.wallet in db.wallets && !Known(db.txs, op)
    && Reads(db.txs, op, s.view) && db.wallets[op.wallet].updatedAt <= s.env.now
    && Draft(op, CanonicalOf(op), db.wallets[op.wallet], s.view, ByRules, s.causation, s.env) == Ok(s.w)
  }

  lemma SubmitKeepsSound(db: Db, op: Operation, s: Sub)
    requires Submits(db, op, s)
    ensures Sound(Record(db, s.w)) && IsOp(s.w.row, op) && s.w.row.wallet == op.wallet && s.w.id !in db.txs
    ensures s.w.row.ref != Some(s.w.id) && TxCheck(s.w.row)
  {
    if op.refExternal != "" {
      ReadFits(db, op, s.view);
    }
    forall o | o in db.txs ensures !SameOp(db.txs[o], op) {
      assert SameOp(db.txs[o], op) ==> Known(db.txs, op);
    }
    DraftSound(db, op, CanonicalOf(op), s.view, ByRules, s.causation, s.env);
    DraftIsStep(db, op, CanonicalOf(op), s.view, ByRules, s.causation, s.env);
    WriteKeepsSound(db, Fresh, s.w);
    DraftIsOp(op, db.wallets[op.wallet], s.view, ByRules, s.causation, s.env);
  }

  lemma SubmitOutcome(db: Db, op: Operation, s: Sub)
    requires Submits(db, op, s)
    ensures OutcomeOf(s.w) == Expected(op, ToWallet(op.wallet, db.wallets[op.wallet]), s.view, s.env.now)
    ensures ValidOperation(op.kind, op.money, op.refExternal) && op.external != ""
    ensures ToWallet(op.wallet, db.wallets[op.wallet]).Valid() && s.env.now != 0
    ensures op.refExternal == "" ==> s.view.None?
    ensures s.w.row.wallet == op.wallet && Record(db, s.w).wallets[op.wallet] == s.w.wallet && s.w.wallet.updatedAt <= s.env.now
    ensures s.w.wallet == db.wallets[op.wallet].(balance := s.w.wallet.balance, version := s.w.wallet.version, updatedAt := s.w.wallet.updatedAt)
    ensures s.w.entry.None? ==> s.w.wallet == db.wallets[op.wallet]
    ensures s.w.entry.Some? ==> s.w.entry.value.wallet == op.wallet
  {
    assert WalletOk(op.wallet, db.wallets[op.wallet]);
    DraftOutcome(op, CanonicalOf(op), db.wallets[op.wallet], s.view, s.causation, s.env);
  }

  // ---- what happens between ----

  /** A step of the system that is no operation on the wallet and leaves the root's own reference alone: anything in other
      wallets, creations, deliveries, and visits, to the wallet's rows too, that postpone. */
  ghost predicate Quiet(a: Db, b: Db, root: Operation) {
    && Step(a, b) && root.wallet in a.wallets && root.wallet in b.wallets && b.wallets[root.wallet] == a.wallets[root.wallet]
    && (forall t | t in b.txs && t !in a.txs :: !Concerns(b.txs[t], root))
    && (forall t | t in a.txs && t in b.txs && Concerns(a.txs[t], root) :: b.txs[t].status == a.txs[t].status)
  }

  /** The row lies in the root's wallet or bears the name of the root's reference. */
  predicate Concerns(t: TxRow, root: Operation) {
    t.wallet == root.wallet || Names(t, root.provider, root.refExternal)
  }

  ghost predicate QuietAt(run: seq<Db>, root: Operation, k: nat)
    requires 0 < k < |run|
  {
    Quiet(run[k - 1], run[k], root)
  }

  ghost predicate QuietRun(run: seq<Db>, root: Operation) {
    run != [] && forall k: nat {:trigger QuietAt(run, root, k)} | 0 < k < |run| :: QuietAt(run, root, k)
  }

  /** Any number of quiet steps lead from `a` to `b`. */
  ghost predicate Quietly(a: Db, b: Db, root: Operation) {
    exists run :: QuietRun(run, root) && run[0] == a && run[|run| - 1] == b
  }

  /** What quiet steps cannot change. */
  ghost predicate Kept(a: Db, b: Db, root: Operation) {
    && root.wallet in a.wallets && root.wallet in b.wallets && b.wallets[root.wallet] == a.wallets[root.wallet]
    && History(b.ledger, root.wallet) == History(a.ledger, root.wallet)
    && (forall t | t in a.txs :: t in b.txs && SameTxIdentity(a.txs[t], b.txs[t]))
    && (forall t | t in a.txs && Concerns(a.txs[t], root) :: b.txs[t].status == a.txs[t].status && b.txs[t].failure == a.txs[t].failure)
    && (forall t | t in b.txs && t !in a.txs :: !Concerns(b.txs[t], root))
    && (forall t | t in a.txs && a.txs[t].wallet == root.wallet :: Reversed(b.txs, t) == Reversed(a.txs, t))
  }

  /** A chain cannot go on and end at the balance and version it had. */
  lemma ChainStands(h: seq<LedgerRow>, more: seq<LedgerRow>, balance: int, version: int)
    requires Chained(h, balance, version) && Chained(h + more, balance, version)
    requires more != [] ==> LedgerCheck(more[|more| - 1])
    ensures more == []
  {
  }

  lemma HistoryChecked(db: Db, w: Id, e: LedgerRow)
    requires EntriesSound(db) && e in History(db.ledger, w)
    ensures LedgerCheck(e)
  {
    var i :| 0 <= i < |db.ledger| && db.ledger[i] == e;
    assert EntrySound(db, i);
  }

  /** While its row stands, a wallet's history stands. */
  lemma SameVersionSameHistory(a: Db, b: Db, w: Id)
    requires Intact(a) && Intact(b) && a.ledger <= b.ledger && w in a.wallets && w in b.wallets && a.wallets[w] == b.wallets[w]
    ensures History(b.ledger, w) == History(a.ledger, w)
  {
    var more := b.ledger[|a.ledger|..];
    assert b.ledger == a.ledger + more;
    HistorySplit(a.ledger, more, w);
    var m := History(more, w);
    assert ChainAt(a, w) && ChainAt(b, w);
    if m != [] {
      assert m[|m| - 1] in History(b.ledger, w);
      HistoryChecked(b, w, m[|m| - 1]);
    }
    ChainStands(History(a.ledger, w), m, a.wallets[w].balance, a.wallets[w].version);
    assert History(a.ledger, w) + [] == History(a.ledger, w);
  }

  lemma QuietReversals(a: Db, b: Db, root: Operation, t: Id)
    requires RefsOk(a) && RefsOk(b) && Quiet(a, b, root) && t in a.txs && a.txs[t].wallet == root.wallet
    requires forall x | x in a.txs :: x in b.txs && Evolves(a.txs[x], b.txs[x])
    ensures Reversed(b.txs, t) == Reversed(a.txs, t)
  {
    if r :| r in a.txs && ProcessedReversal(a.txs[r]) && a.txs[r].ref == Some(t) {
      assert b.txs[r] == a.txs[r];
    }
    if r :| r in b.txs && ProcessedReversal(b.txs[r]) && b.txs[r].ref == Some(t) {
      assert RefAt(b, r);
      assert b.txs[r].wallet == root.wallet;
      assert r in a.txs && b.txs[r] == a.txs[r];
    }
  }

  lemma QuietKeeps(a: Db, b: Db, root: Operation)
    requires Sound(a) && Quiet(a, b, root)
    ensures Sound(b) && Kept(a, b, root)
  {
    StepKeepsSound(a, b);
    SameVersionSameHistory(a, b, root.wallet);
    forall t | t in a.txs ensures t in b.txs && Evolves(a.txs[t], b.txs[t]) {
      StepKeepsRow(a, b, t);
    }
    forall t | t in a.txs && Concerns(a.txs[t], root) ensures b.txs[t].failure == a.txs[t].failure {
      assert RowAt(a, t) && RowAt(b, t);
    }
    forall t | t in a.txs && a.txs[t].wallet == root.wallet ensures Reversed(b.txs, t) == Reversed(a.txs, t) {
      QuietReversals(a, b, root, t);
    }
  }

  lemma KeptOn(a: Db, b: Db, c: Db, root: Operation)
    requires Kept(a, b, root) && Kept(b, c, root)
    ensures Kept(a, c, root)
  {
  }

  lemma {:induction false} QuietRunKeeps(run: seq<Db>, root: Operation)
    requires QuietRun(run, root) && Sound(run[0]) && root.wallet in run[0].wallets
    ensures Sound(run[|run| - 1]) && Kept(run[0], run[|run| - 1], root)
  {
    if |run| > 1 {
      var n := |run| - 1;
      forall k: nat | 0 < k < n ensures QuietAt(run[..n], root, k) {
        assert QuietAt(run, root, k);
      }
      QuietRunKeeps(run[..n], root);
      assert QuietAt(run, root, n);
      QuietKeeps(run[n - 1], run[n], root);
      KeptOn(run[0], run[n - 1], run[n], root);
    }
  }

  lemma QuietlyKeeps(a: Db, b: Db, root: Operation)
    requires Quietly(a, b, root) && Sound(a) && root.wallet in a.wallets
    ensures Sound(b) && Kept(a, b, root)
  {
    var run :| QuietRun(run, root) && run[0] == a && run[|run| - 1] == b;
    QuietRunKeeps(run, root);
  }

  /** A visit that finds its reference missing is quiet, whichever row it visits. */
  lemma PostponingIsQuiet(db: Db, id: Id, view: Option<Reference>, env: Env, root: Operation)
    requires Sound(db) && VisitReady(db, id, view, env) && root.wallet in db.wallets && db.txs[id].wallet in db.wallets
    requires Postpones(db.txs[id], db.wallets[db.txs[id].wallet], view, env.now)
    ensures VisitWrite(db, id, view, env).Some? && Quiet(db, Record(db, VisitWrite(db, id, view, env).value), root)
  {
    VisitIsStep(db, id, view, env);
    ResolutionCases(id, db.txs[id], db.wallets[db.txs[id].wallet], view, env);
    var w := VisitWrite(db, id, view, env).value;
    assert SoundWrite(db, Settle, w);
  }

  /** A write in another wallet that does not bear the name of the root's reference is quiet. */
  lemma OtherWalletsAreQuiet(db: Db, mode: Mode, w: Write, root: Operation)
    requires Sound(db) && SoundWrite(db, mode, w) && root.wallet in db.wallets && !Concerns(w.row, root)
    ensures Quiet(db, Record(db, w), root)
  {
  }

  // ---- what the two operations read ----

  predicate Depends(dep: Operation, root: Operation) {
    dep.refExternal == root.external && dep.provider == root.provider && dep.wallet == root.wallet && NeedsReference(dep)
  }

  /** The root's own reference is the dependent: each names the other. */
  predicate Mutual(dep: Operation, root: Operation) {
    root.refExternal == dep.external
  }

  /** Quiet steps leave what the root's reference query returns. */
  lemma ReadsKept(a: Db, b: Db, root: Operation, va: Option<Reference>, vb: Option<Reference>)
    requires KeysUnique(b) && Kept(a, b, root) && Reads(a.txs, root, va) && Reads(b.txs, root, vb)
    ensures ViewsAgree(root, va, vb)
  {
    if root.refExternal != "" && va.Some? {
      IdentityIsUnique(b, va.value.id, vb.value.id);
    }
  }

  lemma NoReversalOfNew(txs: map<Id, TxRow>, t: Id)
    requires AllGrounded(txs) && (t in txs ==> txs[t].status != Processed)
    ensures !Reversed(txs, t)
  {
    ReversedBy(txs, t);
    forall r ensures !Reverses(txs, r, t) {
      if Reverses(txs, r, t) {
        ReversalRank(txs, r, t);
      }
    }
  }

  lemma ReversedUnlessRow(txs: map<Id, TxRow>, id: Id, row: TxRow, t: Id)
    requires (id in txs ==> !ProcessedReversal(txs[id])) && !(ProcessedReversal(row) && row.ref == Some(t))
    ensures Reversed(txs[id := row], t) <==> Reversed(txs, t)
  {
    var after := txs[id := row];
    if r :| r in txs && ProcessedReversal(txs[r]) && txs[r].ref == Some(t) {
      assert after[r] == txs[r];
    }
    if r :| r in after && ProcessedReversal(after[r]) && after[r].ref == Some(t) {
      assert txs[r] == after[r];
    }
  }

  /** The root reads alike whether or not its dependent is already there, unless they name each other and it was refused. */
  lemma ReadsPastDependent(db: Db, w: Write, dep: Operation, root: Operation, va: Option<Reference>, vb: Option<Reference>)
    requires KeysUnique(db) && KeysUnique(Record(db, w)) && w.id !in db.txs && w.row.status != Processed
    requires IsOp(w.row, dep) && TxCheck(w.row) && !Known(db.txs, dep) && Depends(dep, root)
    requires Mutual(dep, root) ==> w.row.status == PendingReference
    requires Reads(db.txs, root, va) && Reads(Record(db, w).txs, root, vb)
    ensures ViewsAgree(root, va, vb)
  {
    var after := Record(db, w);
    if root.refExternal != "" {
      if Mutual(dep, root) {
        assert Names(after.txs[w.id], root.provider, root.refExternal);
        IdentityIsUnique(after, w.id, vb.value.id);
      } else if va.Some? {
        assert after.txs[va.value.id] == db.txs[va.value.id];
        IdentityIsUnique(after, va.value.id, vb.value.id);
        ReversedUnlessRow(db.txs, w.id, w.row, va.value.id);
      } else {
        assert !Names(w.row, root.provider, root.refExternal);
      }
    }
  }

  lemma NewRowNotReversed(db: Db, w: Write)
    requires Inv(db) && w.id !in db.txs && w.row.ref != Some(w.id)
    ensures !Reversed(Record(db, w).txs, w.id)
  {
    RefsGround(db);
    NoReversalOfNew(db.txs, w.id);
    ReversedUnlessRow(db.txs, w.id, w.row, w.id);
  }

  /** Once the root is stored its dependent reads the root's row, not reversed, however many quiet steps later. */
  lemma DependentReadsRoot(db: Db, s: Sub, after: Db, root: Operation, dep: Operation, view: Option<Reference>)
    requires Submits(db, root, s) && Depends(dep, root) && Kept(Record(db, s.w), after, root) && KeysUnique(after)
    requires ReadsReference(after.txs, dep.provider, dep.refExternal, view)
    ensures view == Some(View(s.w.id, s.w.row, false))
  {
    SubmitKeepsSound(db, root, s);
    NewRowNotReversed(db, s.w);
    var stored := Record(db, s.w).txs[s.w.id];
    assert Concerns(stored, root) && SameTxIdentity(stored, after.txs[s.w.id]);
    assert Names(after.txs[s.w.id], dep.provider, dep.refExternal);
    IdentityIsUnique(after, s.w.id, view.value.id);
  }

  // ---- the two orders ----

  function Trace(h: seq<LedgerRow>): (r: seq<Amounts>)
    ensures |r| == |h| && forall i | 0 <= i < |h| :: r[i] == AmountsOf(h[i])
  {
    seq(|h|, i requires 0 <= i < |h| => AmountsOf(h[i]))
  }

  /** What the two orders are compared by: balance, version, both verdicts, and all amounts of the wallet's ledger. */
  datatype End = End(
    balance: int, version: int, root: Status, rootFailure: Option<string>, dep: Status, depFailure: Option<string>, ledger: seq<Amounts>)

  function EndOf(db: Db, w: Id, root: Id, dep: Id): End
    requires w in db.wallets && root in db.txs && dep in db.txs
  {
    End(db.wallets[w].balance, db.wallets[w].version, db.txs[root].status, db.txs[root].failure, db.txs[dep].status, db.txs[dep].failure,
        Trace(History(db.ledger, w)))
  }

  function MovedBy(o: Outcome): seq<Amounts> {
    if o.moved.Some? then [o.moved.value] else []
  }

  lemma TraceAfter(db: Db, w: Write, x: Id)
    requires w.row.wallet == x && (w.entry.Some? ==> w.entry.value.wallet == x)
    ensures Trace(History(Record(db, w).ledger, x)) == Trace(History(db.ledger, x)) + MovedBy(OutcomeOf(w))
  {
    HistoryAfter(db, w, x);
  }

  /** The root is submitted, then its dependent. */
  ghost predicate RootFirst(db: Db, root: Operation, dep: Operation, a0: Db, fr: Sub, a1: Db, fd: Sub) {
    && Sound(db) && root.wallet in db.wallets && Depends(dep, root)
    && Quietly(db, a0, root) && Submits(a0, root, fr) && Quietly(Record(a0, fr.w), a1, root) && Submits(a1, dep, fd)
  }

  /** The dependent is submitted, perhaps visited in vain any number of times, then the root. */
  ghost predicate DependentFirst(db: Db, root: Operation, dep: Operation, b0: Db, gd: Sub, b1: Db, gr: Sub) {
    && Sound(db) && root.wallet in db.wallets && Depends(dep, root)
    && Quietly(db, b0, root) && Submits(b0, dep, gd) && Quietly(Record(b0, gd.w), b1, root) && Submits(b1, root, gr)
  }

  /** The dependent is visited, the root being there. */
  ghost predicate VisitAfterRoot(root: Operation, dep: Operation, id: Id, b1: Db, gr: Sub, b2: Db, view: Option<Reference>, env: Env) {
    && Quietly(Record(b1, gr.w), b2, root) && VisitReady(b2, id, view, env)
    && ReadsReference(b2.txs, dep.provider, dep.refExternal, view)
    && (root.wallet in b2.wallets ==> b2.wallets[root.wallet].updatedAt <= env.now)
  }

  lemma RootFirstEnds(db: Db, root: Operation, dep: Operation, a0: Db, fr: Sub, a1: Db, fd: Sub)
    requires RootFirst(db, root, dep, a0, fr, a1, fd)
    ensures Kept(db, a0, root) && KeysUnique(a0) && fd.view == Some(View(fr.w.id, fr.w.row, false))
    ensures OutcomeOf(fr.w) == Expected(root, ToWallet(root.wallet, db.wallets[root.wallet]), fr.view, fr.env.now)
    ensures OutcomeOf(fd.w) == Expected(dep, ToWallet(root.wallet, fr.w.wallet), fd.view, fd.env.now)
    ensures fr.w.wallet.updatedAt <= fd.env.now && ToWallet(root.wallet, fr.w.wallet).Valid() && IsOp(fr.w.row, root)
    ensures var end, x, y := Record(a1, fd.w), OutcomeOf(fr.w), OutcomeOf(fd.w);
            && root.wallet in end.wallets && fr.w.id in end.txs && fd.w.id in end.txs
            && EndOf(end, root.wallet, fr.w.id, fd.w.id)
            == End(y.balance, y.version, x.status, x.failure, y.status, y.failure, Trace(History(db.ledger, root.wallet)) + MovedBy(x) + MovedBy(y))
  {
    QuietlyKeeps(db, a0, root);
    SubmitKeepsSound(a0, root, fr);
    SubmitOutcome(a0, root, fr);
    QuietlyKeeps(Record(a0, fr.w), a1, root);
    SubmitKeepsSound(a1, dep, fd);
    SubmitOutcome(a1, dep, fd);
    DependentReadsRoot(a0, fr, a1, root, dep, fd.view);
    assert Concerns(Record(a0, fr.w).txs[fr.w.id], root);
    TraceAfter(a0, fr.w, root.wallet);
    TraceAfter(a1, fd.w, root.wallet);
  }

  /** Submitted before its root, the dependent moves nothing: it waits, or is refused for its wallet. */
  lemma EarlyDependentIsInert(db: Db, dep: Operation, root: Operation, s: Sub)
    requires Submits(db, dep, s) && Depends(dep, root) && !Known(db.txs, root)
    ensures s.view == None && s.w.entry.None? && s.w.wallet == db.wallets[dep.wallet] && s.w.row.status != Processed
    ensures s.w.row.status == PendingReference <==> dep.player == db.wallets[dep.wallet].player
    ensures s.w.row.status != PendingReference ==> s.w.row.status == Rejected && s.w.row.failure == Some(WALLET_MISMATCH)
    ensures dep.money.currency == db.wallets[dep.wallet].currency
  {
    forall i | i in db.txs ensures !Names(db.txs[i], dep.provider, dep.refExternal) {
      assert SameOp(db.txs[i], root) ==> Known(db.txs, root);
    }
    SubmitOutcome(db, dep, s);
  }

  lemma UnknownBefore(a: Db, b: Db, op: Operation, root: Operation)
    requires Kept(a, b, root) && !Known(b.txs, op)
    ensures !Known(a.txs, op)
  {
    if id :| id in a.txs && SameOp(a.txs[id], op) {
      assert SameOp(b.txs[id], op);
    }
  }

  lemma KnownStays(db: Db, w: Write, op: Operation)
    requires w.id !in db.txs
    ensures Known(db.txs, op) ==> Known(Record(db, w).txs, op)
  {
    if id :| id in db.txs && SameOp(db.txs[id], op) {
      assert SameOp(Record(db, w).txs[id], op);
    }
  }

  /** What the early dependent leaves when the root comes: the wallet and its history as they were, and its own row as written,
      attempts and schedule apart. */
  lemma BeforeRoot(db: Db, root: Operation, dep: Operation, b0: Db, gd: Sub, b1: Db, gr: Sub)
    requires DependentFirst(db, root, dep, b0, gd, b1, gr)
    ensures Kept(db, b0, root) && KeysUnique(b0) && KeysUnique(Record(b0, gd.w)) && KeysUnique(b1) && Kept(Record(b0, gd.w), b1, root)
    ensures RowsOk(db) && RowsOk(b0) && RowsOk(Record(b0, gd.w))
    ensures !Known(b0.txs, root) && IsOp(gd.w.row, dep) && gd.w.id !in b0.txs && TxCheck(gd.w.row)
    ensures b1.wallets[root.wallet] == db.wallets[root.wallet] && History(b1.ledger, root.wallet) == History(db.ledger, root.wallet)
    ensures gd.w.id in b1.txs && b1.txs[gd.w.id].status == gd.w.row.status && b1.txs[gd.w.id].failure == gd.w.row.failure
    ensures SameTxIdentity(gd.w.row, b1.txs[gd.w.id])
  {
    QuietlyKeeps(db, b0, root);
    SubmitKeepsSound(b0, dep, gd);
    SubmitOutcome(b0, dep, gd);
    QuietlyKeeps(Record(b0, gd.w), b1, root);
    UnknownBefore(Record(b0, gd.w), b1, root, root);
    KnownStays(b0, gd.w, root);
    EarlyDependentIsInert(b0, dep, root, gd);
    assert Concerns(Record(b0, gd.w).txs[gd.w.id], root);
    LedgerAfter(b0, gd.w);
    assert b0.ledger + [] == b0.ledger;
  }

  /** The four readings of the root's reference agree one after the other. */
  lemma ReadsAcross(db: Db, a0: Db, b0: Db, w: Write, b1: Db, dep: Operation, root: Operation, va: Option<Reference>, vb: Option<Reference>)
    requires RowsOk(db) && RowsOk(b0) && RowsOk(Record(b0, w)) && Kept(db, a0, root) && Kept(db, b0, root) && Kept(Record(b0, w), b1, root)
    requires KeysUnique(a0) && KeysUnique(b0) && KeysUnique(Record(b0, w)) && KeysUnique(b1)
    requires w.id !in b0.txs && w.row.status != Processed && IsOp(w.row, dep) && TxCheck(w.row) && !Known(b0.txs, dep) && Depends(dep, root)
    requires Mutual(dep, root) ==> w.row.status == PendingReference
    requires Reads(a0.txs, root, va) && Reads(b1.txs, root, vb)
    ensures ViewsAgree(root, va, vb)
  {
    var start := CurrentView(db, root);
    var early := CurrentView(b0, root);
    var late := CurrentView(Record(b0, w), root);
    ReadsKept(db, a0, root, start, va);
    ReadsKept(db, b0, root, start, early);
    ReadsPastDependent(b0, w, dep, root, early, late);
    ReadsKept(Record(b0, w), b1, root, late, vb);
  }

  /** The root reads alike in both orders, unless the two name each other and the dependent was refused. */
  lemma RootReadsAlike(db: Db, root: Operation, dep: Operation, a0: Db, fr: Sub, b0: Db, gd: Sub, b1: Db, gr: Sub)
    requires Kept(db, a0, root) && KeysUnique(a0) && Reads(a0.txs, root, fr.view)
    requires DependentFirst(db, root, dep, b0, gd, b1, gr) && (Mutual(dep, root) ==> gd.w.row.status == PendingReference)
    ensures ViewsAgree(root, fr.view, gr.view)
  {
    BeforeRoot(db, root, dep, b0, gd, b1, gr);
    EarlyDependentIsInert(b0, dep, root, gd);
    ReadsAcross(db, a0, b0, gd.w, b1, dep, root, fr.view, gr.view);
  }

  /** The root's outcome does not depend on the order. */
  lemma RootsAlike(db: Db, root: Operation, dep: Operation, a0: Db, fr: Sub, a1: Db, fd: Sub, b0: Db, gd: Sub, b1: Db, gr: Sub)
    requires RootFirst(db, root, dep, a0, fr, a1, fd) && DependentFirst(db, root, dep, b0, gd, b1, gr)
    requires Mutual(dep, root) ==> gd.w.row.status == PendingReference
    ensures OutcomeOf(gr.w) == OutcomeOf(fr.w) && gr.w.wallet == fr.w.wallet.(updatedAt := gr.w.wallet.updatedAt)
  {
    QuietlyKeeps(db, a0, root);
    RootReadsAlike(db, root, dep, a0, fr, b0, gd, b1, gr);
    BeforeRoot(db, root, dep, b0, gd, b1, gr);
    SubmitOutcome(a0, root, fr);
    SubmitOutcome(b1, root, gr);
    var w := ToWallet(root.wallet, db.wallets[root.wallet]);
    OutcomeIgnoresClock(root, w, w, fr.view, gr.view, fr.env.now, gr.env.now);
  }

  /** The tables the visit finds, and what it writes, by the row's remaining patience. */
  lemma VisitEnds(db: Db, root: Operation, dep: Operation, b0: Db, gd: Sub, b1: Db, gr: Sub, b2: Db, view: Option<Reference>, env: Env)
    requires DependentFirst(db, root, dep, b0, gd, b1, gr) && gd.w.row.status == PendingReference
    requires VisitAfterRoot(root, dep, gd.w.id, b1, gr, b2, view, env)
    ensures view == Some(View(gr.w.id, gr.w.row, false)) && root.wallet in b2.wallets && b2.wallets[root.wallet] == gr.w.wallet
    ensures gr.w.id in b2.txs && b2.txs[gr.w.id].status == gr.w.row.status && gd.w.id in b2.txs && gd.w.id != gr.w.id
    ensures OpOf(b2.txs[gd.w.id]) == dep && gr.w.wallet.updatedAt <= env.now && env.now != 0
    ensures var v := VisitWrite(b2, gd.w.id, view, env);
            && v.Some? && v.value.id == gd.w.id && gr.w.id in Record(b2, v.value).txs
            && (if Expires(b2.txs[gd.w.id], gr.w.wallet, view, env.now) then v.value.row.status == Rejected
                else OutcomeOf(v.value) == Expected(dep, ToWallet(root.wallet, gr.w.wallet), view, env.now))
            && var end, x, y := Record(b2, v.value), OutcomeOf(gr.w), OutcomeOf(v.value);
               root.wallet in end.wallets && EndOf(end, root.wallet, gr.w.id, gd.w.id)
               == End(y.balance, y.version, x.status, x.failure, y.status, y.failure, Trace(History(db.ledger, root.wallet)) + MovedBy(x) + MovedBy(y))
  {
    BeforeRoot(db, root, dep, b0, gd, b1, gr);
    SubmitKeepsSound(b1, root, gr);
    SubmitOutcome(b1, root, gr);
    var c := Record(b1, gr.w);
    QuietlyKeeps(c, b2, root);
    assert Concerns(c.txs[gr.w.id], root) && Concerns(c.txs[gd.w.id], root);
    DependentReadsRoot(b1, gr, b2, root, dep, view);
    VisitWrites(b2, gd.w.id, view, env);
    TraceAfter(b1, gr.w, root.wallet);
    TraceAfter(b2, VisitWrite(b2, gd.w.id, view, env).value, root.wallet);
  }

  /** The dependent's verdict on the root's row is the same in both orders, and waits exactly when the root waits. */
  lemma VerdictsAlike(dep: Operation, a: WalletVal, b: WalletVal, x: TxRow, xid: Id, y: TxRow, yid: Id, root: Operation, s: Time, t: Time)
    requires ValidOperation(dep.kind, dep.money, dep.refExternal) && Depends(dep, root)
    requires a.id == dep.wallet && a.Valid() && b.Valid() && b == a.(updatedAt := b.updatedAt)
    requires dep.player == a.player && dep.money.currency == a.balance.currency
    requires IsOp(x, root) && IsOp(y, root) && x.status == y.status && x.status != Pending
    requires a.updatedAt <= s && b.updatedAt <= t && s != 0 && t != 0
    ensures Expected(dep, a, Some(View(xid, x, false)), s) == Expected(dep, b, Some(View(yid, y, false)), t)
    ensures Expected(dep, b, Some(View(yid, y, false)), t).status == PendingReference <==> y.status == PendingReference
  {
    OutcomeIgnoresClock(dep, a, b, Some(View(xid, x, false)), Some(View(yid, y, false)), s, t);
  }

  /** An early dependent that waits belongs to its wallet, and still does when the root has moved it. */
  lemma WaitingMatches(db: Db, root: Operation, dep: Operation, b0: Db, gd: Sub, b1: Db, gr: Sub)
    requires DependentFirst(db, root, dep, b0, gd, b1, gr) && gd.w.row.status == PendingReference
    ensures dep.player == gr.w.wallet.player && dep.money.currency == gr.w.wallet.currency && ValidOperation(dep.kind, dep.money, dep.refExternal)
    ensures IsOp(gr.w.row, root) && gr.w.row.status != Pending && ToWallet(root.wallet, gr.w.wallet).Valid()
  {
    BeforeRoot(db, root, dep, b0, gd, b1, gr);
    EarlyDependentIsInert(b0, dep, root, gd);
    SubmitOutcome(b0, dep, gd);
    SubmitOutcome(b1, root, gr);
    SubmitKeepsSound(b1, root, gr);
    var c := Record(b1, gr.w);
    assert WalletOk(root.wallet, c.wallets[root.wallet]) && RowAt(c, gr.w.id);
  }

  lemma DependentsAlike(db: Db, root: Operation, dep: Operation, a0: Db, fr: Sub, a1: Db, fd: Sub,
                        b0: Db, gd: Sub, b1: Db, gr: Sub, b2: Db, view: Option<Reference>, env: Env)
    requires RootFirst(db, root, dep, a0, fr, a1, fd) && DependentFirst(db, root, dep, b0, gd, b1, gr)
    requires gd.w.row.status == PendingReference && VisitAfterRoot(root, dep, gd.w.id, b1, gr, b2, view, env)
    ensures OutcomeOf(fd.w) == Expected(dep, ToWallet(root.wallet, gr.w.wallet), view, env.now)
    ensures OutcomeOf(fd.w).status == PendingReference <==> gr.w.row.status == PendingReference
  {
    RootFirstEnds(db, root, dep, a0, fr, a1, fd);
    RootsAlike(db, root, dep, a0, fr, a1, fd, b0, gd, b1, gr);
    VisitEnds(db, root, dep, b0, gd, b1, gr, b2, view, env);
    WaitingMatches(db, root, dep, b0, gd, b1, gr);
    VerdictsAlike(dep, ToWallet(root.wallet, fr.w.wallet), ToWallet(root.wallet, gr.w.wallet), fr.w.row, fr.w.id, gr.w.row, gr.w.id,
                  root, fd.env.now, env.now);
  }

  /** Root then dependent, or dependent, any number of visits in vain, root and one more visit: the two orders end alike,
      quiet steps in between, exactly unless that visit is the last attempt and the root itself still waits. */
  lemma PairOrderIrrelevant(db: Db, root: Operation, dep: Operation, a0: Db, fr: Sub, a1: Db, fd: Sub,
                            b0: Db, gd: Sub, b1: Db, gr: Sub, b2: Db, view: Option<Reference>, env: Env)
    requires RootFirst(db, root, dep, a0, fr, a1, fd) && DependentFirst(db, root, dep, b0, gd, b1, gr)
    requires gd.w.row.status == PendingReference && VisitAfterRoot(root, dep, gd.w.id, b1, gr, b2, view, env)
    ensures var a, v := Record(a1, fd.w), VisitWrite(b2, gd.w.id, view, env);
            && v.Some? && root.wallet in a.wallets && fr.w.id in a.txs && gr.w.id in b2.txs && gd.w.id in b2.txs
            && root.wallet in Record(b2, v.value).wallets && gr.w.id in Record(b2, v.value).txs && gd.w.id in Record(b2, v.value).txs
            && (EndOf(a, root.wallet, fr.w.id, fd.w.id) == EndOf(Record(b2, v.value), root.wallet, gr.w.id, gd.w.id)
                <==> !(b2.txs[gr.w.id].status == PendingReference && b2.txs[gd.w.id].attempts + 1 >= MAX_ATTEMPTS))
  {
    RootFirstEnds(db, root, dep, a0, fr, a1, fd);
    RootsAlike(db, root, dep, a0, fr, a1, fd, b0, gd, b1, gr);
    VisitEnds(db, root, dep, b0, gd, b1, gr, b2, view, env);
    DependentsAlike(db, root, dep, a0, fr, a1, fd, b0, gd, b1, gr, b2, view, env);
  }

  // ---- a dependent that does not wait ----

  lemma RefusedEnds(db: Db, root: Operation, dep: Operation, b0: Db, gd: Sub, b1: Db, gr: Sub)
    requires DependentFirst(db, root, dep, b0, gd, b1, gr) && gd.w.row.status != PendingReference
    ensures dep.player != db.wallets[root.wallet].player && gd.w.row.status == Rejected && gd.w.row.failure == Some(WALLET_MISMATCH)
    ensures var end, x := Record(b1, gr.w), OutcomeOf(gr.w);
            && root.wallet in end.wallets && gr.w.id in end.txs && gd.w.id in end.txs
            && EndOf(end, root.wallet, gr.w.id, gd.w.id)
            == End(x.balance, x.version, x.status, x.failure, Rejected, Some(WALLET_MISMATCH), Trace(History(db.ledger, root.wallet)) + MovedBy(x))
  {
    BeforeRoot(db, root, dep, b0, gd, b1, gr);
    EarlyDependentIsInert(b0, dep, root, gd);
    SubmitKeepsSound(b1, root, gr);
    SubmitOutcome(b1, root, gr);
    TraceAfter(b1, gr.w, root.wallet);
  }

  /** In either order the refused dependent leaves the wallet as the root left it. */
  lemma RefusedDependent(db: Db, root: Operation, dep: Operation, a0: Db, fr: Sub, a1: Db, fd: Sub)
    requires RootFirst(db, root, dep, a0, fr, a1, fd) && dep.player != db.wallets[root.wallet].player
    ensures var x, y := OutcomeOf(fr.w), OutcomeOf(fd.w);
            y == Outcome(Rejected, Some(WALLET_MISMATCH), x.balance, x.version, None)
  {
    RootFirstEnds(db, root, dep, a0, fr, a1, fd);
    QuietlyKeeps(db, a0, root);
    SubmitOutcome(a0, root, fr);
  }

  /** The two name each other and the root comes first: it finds nobody. */
  lemma MutualFirst(db: Db, root: Operation, dep: Operation, a0: Db, fr: Sub, a1: Db, fd: Sub)
    requires RootFirst(db, root, dep, a0, fr, a1, fd) && Mutual(dep, root)
    ensures fr.view == None && NeedsReference(root) && root.money.currency == db.wallets[root.wallet].currency
    ensures OutcomeOf(fr.w) == Expected(root, ToWallet(root.wallet, db.wallets[root.wallet]), None, fr.env.now)
  {
    QuietlyKeeps(db, a0, root);
    SubmitKeepsSound(a0, root, fr);
    SubmitOutcome(a0, root, fr);
    QuietlyKeeps(Record(a0, fr.w), a1, root);
    SubmitOutcome(a1, dep, fd);
    UnknownBefore(Record(a0, fr.w), a1, dep, root);
    KnownStays(a0, fr.w, dep);
    NamedIsKnown(a0, dep, root, fr.view);
    assert RowAt(Record(a0, fr.w), fr.w.id);
  }

  lemma NamedIsKnown(db: Db, dep: Operation, root: Operation, view: Option<Reference>)
    requires Depends(dep, root) && Mutual(dep, root) && Reads(db.txs, root, view) && !Known(db.txs, dep)
    ensures view == None
  {
  }

  /** It comes second: it finds the refused dependent. */
  lemma MutualSecond(db: Db, root: Operation, dep: Operation, b0: Db, gd: Sub, b1: Db, gr: Sub)
    requires DependentFirst(db, root, dep, b0, gd, b1, gr) && Mutual(dep, root) && gd.w.row.status == Rejected
    ensures gr.view.Some? && gr.view.value.status == Rejected
    ensures OutcomeOf(gr.w) == Expected(root, ToWallet(root.wallet, db.wallets[root.wallet]), gr.view, gr.env.now)
  {
    BeforeRoot(db, root, dep, b0, gd, b1, gr);
    SubmitOutcome(b0, dep, gd);
    SubmitOutcome(b1, root, gr);
    assert Names(b1.txs[gd.w.id], root.provider, root.refExternal);
    IdentityIsUnique(b1, gd.w.id, gr.view.value.id);
  }

  /** Waiting for nobody and being rejected for a rejected row differ, unless the wallet refuses the root either way. */
  lemma NobodyOrRejected(root: Operation, w: WalletVal, view: Option<Reference>, s: Time, t: Time)
    requires NeedsReference(root) && root.money.currency == w.balance.currency && view.Some? && view.value.status == Rejected
    ensures Expected(root, w, None, s) == Expected(root, w, view, t) <==> root.player != w.player
  {
  }

  lemma EndsCompare(h: seq<Amounts>, x: Outcome, y: Outcome, s: Status, f: Option<string>)
    ensures End(x.balance, x.version, x.status, x.failure, s, f, h + MovedBy(x)) == End(y.balance, y.version, y.status, y.failure, s, f, h + MovedBy(y))
       <==> x == y
  {
    var a, b := h + MovedBy(x), h + MovedBy(y);
    assert a[|h|..] == MovedBy(x) && b[|h|..] == MovedBy(y);
  }

  lemma RefusedRoots(db: Db, root: Operation, dep: Operation, a0: Db, fr: Sub, a1: Db, fd: Sub, b0: Db, gd: Sub, b1: Db, gr: Sub)
    requires RootFirst(db, root, dep, a0, fr, a1, fd) && DependentFirst(db, root, dep, b0, gd, b1, gr) && gd.w.row.status == Rejected
    ensures OutcomeOf(fr.w) == OutcomeOf(gr.w) <==> !(Mutual(dep, root) && root.player == db.wallets[root.wallet].player)
  {
    if Mutual(dep, root) {
      MutualFirst(db, root, dep, a0, fr, a1, fd);
      MutualSecond(db, root, dep, b0, gd, b1, gr);
      NobodyOrRejected(root, ToWallet(root.wallet, db.wallets[root.wallet]), gr.view, fr.env.now, gr.env.now);
    } else {
      RootsAlike(db, root, dep, a0, fr, a1, fd, b0, gd, b1, gr);
    }
  }

  /** A dependent refused for its wallet ends both orders alike, exactly unless the two name each other and the root is
      not refused for its wallet too: then the root waits for a dependent not yet there, or is rejected for the one there. */
  lemma PairOrderRefused(db: Db, root: Operation, dep: Operation, a0: Db, fr: Sub, a1: Db, fd: Sub, b0: Db, gd: Sub, b1: Db, gr: Sub)
    requires RootFirst(db, root, dep, a0, fr, a1, fd) && DependentFirst(db, root, dep, b0, gd, b1, gr) && gd.w.row.status != PendingReference
    ensures var a, b := Record(a1, fd.w), Record(b1, gr.w);
            && root.wallet in a.wallets && fr.w.id in a.txs && root.wallet in b.wallets && gr.w.id in b.txs && gd.w.id in b.txs
            && (EndOf(a, root.wallet, fr.w.id, fd.w.id) == EndOf(b, root.wallet, gr.w.id, gd.w.id)
                <==> !(Mutual(dep, root) && root.player == db.wallets[root.wallet].player))
  {
    RootFirstEnds(db, root, dep, a0, fr, a1, fd);
    RefusedEnds(db, root, dep, b0, gd, b1, gr);
    RefusedDependent(db, root, dep, a0, fr, a1, fd);
    RefusedRoots(db, root, dep, a0, fr, a1, fd, b0, gd, b1, gr);
    var h := Trace(History(db.ledger, root.wallet));
    EndsCompare(h, OutcomeOf(fr.w), OutcomeOf(gr.w), Rejected, Some(WALLET_MISMATCH));
    assert h + MovedBy(OutcomeOf(fr.w)) + [] == h + MovedBy(OutcomeOf(fr.w));
  }
}
