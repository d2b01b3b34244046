/** One input message: what a consumer makes of it, and what handling it does to the tables. */
module Handling {
  import opened Prelude
  import opened Domain
  import opened Decision
  import opened Schema
  import opened Writes
  import opened Invariant
  import opened Preservation
  import opened Idempotency
  import opened Steps
  import opened Calls
  import opened UseCases
  import opened QueueModel
  import Acceptance
  import opened EventLog

  const CONSUMER := "wager-transaction-consumer"
  const REQUESTED := "WagerTransactionRequested"
  const EXHAUSTED := "PROCESSING_RETRIES_EXHAUSTED"
  const MAX_RECEIVES := 5

  /** What json.Unmarshal makes of a message body; `data` is None when it does not decode. */
  datatype Content = Garbage | Envelope(message: string, kind: string, data: Option<Operation>)

  datatype Incoming = Incoming(text: string, content: Content)

  /** handle's answer. */
  datatype Outcome = Done | Permanent | Denied(error: Error)

  /** The operation handle extracts. */
  function Decoded(m: Incoming): Option<Operation> {
    match m.content
    case Garbage => None
    case Envelope(message, kind, data) => if message == "" || kind != REQUESTED then None else data
  }

  /** The operation recordPermanentFailure extracts: it does not look at the message id. */
  function DecodedForFailure(m: Incoming): Option<Operation> {
    match m.content
    case Garbage => None
    case Envelope(_, kind, data) => if kind != REQUESTED then None else data
  }

  function KeyOf(m: Incoming): InboxKey {
    InboxKey(CONSUMER, if m.content.Envelope? then m.content.message else "")
  }

  predicate Hopeless(o: Outcome) {
    o == Permanent || o == Denied(InvalidInput) || o == Denied(Conflict)
  }

  /** What Run does with a message once handle has answered. */
  datatype Action = Delete | Release | TryFailure | DeadLetter | RetryLater(delay: int)

  function ActionFor(o: Outcome, receives: nat, cancelled: bool): (a: Action)
    ensures a.Delete? <==> o.Done?
    ensures a.Release? <==> cancelled && !o.Done?
    ensures a.DeadLetter? <==> !cancelled && (o == Permanent || o == Denied(InvalidInput) || o == Denied(Conflict))
    ensures a.TryFailure? <==> !cancelled && o.Denied? && o.error != InvalidInput && o.error != Conflict && receives >= 5
    ensures a.RetryLater? ==> receives < 5 && a.delay == [1, 1, 2, 4, 8][receives] * 1_000_000_000
  {
    if cancelled then (if o == Done then Delete else Release)
    else if o == Done then Delete
    else if receives >= MAX_RECEIVES && !Hopeless(o) then TryFailure
    else if Hopeless(o) || receives >= MAX_RECEIVES then DeadLetter
    else
      BackoffExact(receives);
      RetryLater(Backoff(receives))
  }

  // ---- what one delivery does to the tables ----

  ghost predicate Accounted(db: Db, op: Operation) {
    exists id | id in db.txs :: IsOp(db.txs[id], op)
  }

  /** One ProcessInbox call that ran to its end. */
  ghost predicate Processing(a: Db, m: Incoming, b: Db, o: Outcome) {
    match Decoded(m)
    case None => o == Permanent && b == a
    case Some(op) =>
      if !Admissible(op) then o == Denied(InvalidInput) && b == a
      else if Recorded(a, KeyOf(m), m.text) != m.text then o == Denied(Conflict) && b == a
      else exists env, p, r :: ProcessedAs(a, m, op, env, p, r, b) && o == (if r.Ok? then Done else Denied(r.error))
  }

  ghost predicate ProcessedAs(a: Db, m: Incoming, op: Operation, env: Env, p: Plan, r: Result<Reply>, b: Db) {
    && op.money.Valid() && EnvOk(a, env)
    && Planned(a, op, CanonicalOf(op), ByRules, KeyOf(m).message, env, p) && Executed(a, p, r, b.(inbox := a.inbox))
    && b.inbox == if r.Ok? then a.inbox[KeyOf(m) := InboxRow(m.text, true)] else a.inbox
  }

  /** A commit that saw a reference only another wallet's row can satisfy in an earlier state of that row: the new row
      waits or is rejected, and no money moves. */
  ghost predicate SeenEarlier(a: Db, m: Incoming, b: Db) {
    Decoded(m).Some? && Recorded(a, KeyOf(m), m.text) == m.text && exists w :: EarlierWrite(a, m, Decoded(m).value, w, b)
  }

  ghost predicate EarlierWrite(a: Db, m: Incoming, op: Operation, w: Write, b: Db) {
    && SoundWrite(a, Fresh, w) && IsOp(w.row, op) && w.entry.None? && (w.row.status.PendingReference? || w.row.status.Rejected?)
    && b == Record(a, w).(inbox := a.inbox[KeyOf(m) := InboxRow(m.text, true)])
  }

  /** One ProcessInbox call among others: it may run to its end, fail without effect, or commit and lose the answer. */
  ghost predicate Attempted(a: Db, m: Incoming, b: Db, o: Outcome) {
    || Processing(a, m, b, o)
    || (o == Done && SeenEarlier(a, m, b))
    || (o == Denied(DatabaseError) && (b == a || SeenEarlier(a, m, b) || exists actual :: Processing(a, m, b, actual)))
  }

  /** One Fail call, likewise. */
  ghost predicate FailureAttempted(a: Db, m: Incoming, b: Db, ok: bool) {
    RecordingFailure(a, m, b, ok) || (!ok && (b == a || RecordingFailure(a, m, b, true)))
  }

  /** One Fail call that ran to its end, `ok` telling whether it succeeded. */
  ghost predicate RecordingFailure(a: Db, m: Incoming, b: Db, ok: bool) {
    match DecodedForFailure(m)
    case None => !ok && b == a
    case Some(op) =>
      if !Failable(op, EXHAUSTED) then !ok && b == a
      else exists env, p, r :: FailedAs(a, op, env, p, r, b) && ok == r.Ok?
  }

  ghost predicate FailedAs(a: Db, op: Operation, env: Env, p: Plan, r: Result<Reply>, b: Db) {
    && op.money.Valid() && EnvOk(a, env)
    && Planned(a, op, CanonicalOf(op), FailWith(EXHAUSTED), "", env, p) && Executed(a, p, r, b)
  }

  /** At most two atomic steps: the business write and the inbox bookkeeping. */
  ghost predicate Steps2(a: Db, b: Db) {
    exists mid :: StepOrNone(a, mid) && StepOrNone(mid, b)
  }

  ghost predicate StepOrNone(a: Db, b: Db) {
    a == b || Step(a, b)
  }

  /** An answer means the tables hold the operation itself. */
  lemma AnsweredIsAccounted(a: Db, op: Operation, decider: Decider, causation: string, env: Env, p: Plan, r: Result<Reply>, b: Db)
    requires Sound(a) && op.money.Valid() && EnvOk(a, env) && Planned(a, op, CanonicalOf(op), decider, causation, env, p)
    requires Executed(a, p, r, b)
    ensures Sound(b) && (b == a || WriteStep(a, b))
    ensures r.Ok? ==> Accounted(b, op)
  {
    match p
    case Stop(_) =>
    case Replay(reply) =>
      assert WalletOk(op.wallet, a.wallets[op.wallet]);
      if Known(a.txs, op) {
        var id :| PlannedFrom(a, op, CanonicalOf(op), id, p);
        RowHash(a, id, op);
      }
    case Do(w, reply) =>
      PlanIsStep(a, op, decider, causation, env, p);
      assert SoundWrite(a, Fresh, w) && b == Record(a, w);
      assert w.id in b.txs && IsOp(b.txs[w.id], op);
  }

  lemma ProcessingSteps(a: Db, m: Incoming, b: Db, o: Outcome)
    requires Sound(a) && Processing(a, m, b, o)
    ensures Sound(b) && Steps2(a, b)
    ensures o == Done ==> Decoded(m).Some? && Accounted(b, Decoded(m).value)
  {
    assert StepOrNone(a, a);
    if Decoded(m).Some? && Admissible(Decoded(m).value) && Recorded(a, KeyOf(m), m.text) == m.text {
      var op := Decoded(m).value;
      var env, p, r :| ProcessedAs(a, m, op, env, p, r, b) && o == (if r.Ok? then Done else Denied(r.error));
      var mid := b.(inbox := a.inbox);
      AnsweredIsAccounted(a, op, ByRules, KeyOf(m).message, env, p, r, mid);
      InboxIsDelivery(mid, b, op);
      assert StepOrNone(a, mid) && StepOrNone(mid, b);
    }
  }

  lemma InboxIsDelivery(a: Db, b: Db, op: Operation)
    requires Sound(a) && a == b.(inbox := a.inbox)
    ensures Sound(b) && Step(a, b) && (Accounted(a, op) ==> Accounted(b, op))
  {
    DeliveryKeepsSound(a, b);
    assert DeliveryStep(a, b);
    if Accounted(a, op) {
      var id :| id in a.txs && IsOp(a.txs[id], op);
      assert IsOp(b.txs[id], op);
    }
  }

  lemma FailureSteps(a: Db, m: Incoming, b: Db, ok: bool)
    requires Sound(a) && RecordingFailure(a, m, b, ok)
    ensures Sound(b) && Steps2(a, b)
    ensures ok ==> DecodedForFailure(m).Some? && Accounted(b, DecodedForFailure(m).value)
  {
    assert StepOrNone(a, a);
    if DecodedForFailure(m).Some? && Failable(DecodedForFailure(m).value, EXHAUSTED) {
      var op := DecodedForFailure(m).value;
      var env, p, r :| FailedAs(a, op, env, p, r, b) && ok == r.Ok?;
      AnsweredIsAccounted(a, op, FailWith(EXHAUSTED), "", env, p, r, b);
      assert StepOrNone(a, b) && StepOrNone(b, b);
    }
  }

  /** However the call fared. */
  lemma AttemptSteps(a: Db, m: Incoming, b: Db, o: Outcome)
    requires Sound(a) && Attempted(a, m, b, o)
    ensures Sound(b) && Steps2(a, b)
    ensures o == Done ==> Decoded(m).Some? && Accounted(b, Decoded(m).value)
  {
    if SeenEarlier(a, m, b) {
      EarlierSteps(a, m, b);
    } else if actual :| Processing(a, m, b, actual) {
      ProcessingSteps(a, m, b, actual);
      if o == Done {
        ProcessingSteps(a, m, b, o);
      }
    } else {
      assert StepOrNone(a, a);
    }
  }

  lemma EarlierSteps(a: Db, m: Incoming, b: Db)
    requires Sound(a) && SeenEarlier(a, m, b)
    ensures Sound(b) && Steps2(a, b) && Accounted(b, Decoded(m).value)
  {
    var op := Decoded(m).value;
    var w :| EarlierWrite(a, m, op, w, b);
    var mid := Record(a, w);
    WriteKeepsSound(a, Fresh, w);
    assert w.id in mid.txs && IsOp(mid.txs[w.id], op);
    InboxIsDelivery(mid, b, op);
    assert WriteStep(a, mid) && StepOrNone(a, mid) && StepOrNone(mid, b);
  }

  lemma FailureAttemptSteps(a: Db, m: Incoming, b: Db, ok: bool)
    requires Sound(a) && FailureAttempted(a, m, b, ok)
    ensures Sound(b) && Steps2(a, b)
    ensures ok ==> DecodedForFailure(m).Some? && Accounted(b, DecodedForFailure(m).value)
  {
    if really :| RecordingFailure(a, m, b, really) {
      FailureSteps(a, m, b, really);
      if ok {
        FailureSteps(a, m, b, ok);
      }
    } else {
      assert StepOrNone(a, a);
    }
  }

  // ---- the message's identity ----

  /** The row of the message's consumer and id holds this body. */
  predicate Remembers(db: Db, message: string, body: string) {
    var key := InboxKey("wager-transaction-consumer", message);
    key in db.inbox && db.inbox[key].payload == body
  }

  /** No row of the message's consumer and id holds another body. */
  predicate Admits(db: Db, message: string, body: string) {
    var key := InboxKey("wager-transaction-consumer", message);
    key in db.inbox ==> db.inbox[key].payload == body
  }

  /** The message is recorded with this body and completed; no other row of the inbox changes. */
  predicate Finishes(a: Db, b: Db, message: string, body: string) {
    b.inbox == a.inbox[InboxKey("wager-transaction-consumer", message) := InboxRow(body, true)]
  }

  lemma DraftCauses(op: Operation, snap: WalletRow, view: Option<Reference>, decider: Decider, causation: string, env: Env)
    requires op.money.Valid() && Draft(op, CanonicalOf(op), snap, view, decider, causation, env).Ok?
    ensures forall e | e in Draft(op, CanonicalOf(op), snap, view, decider, causation, env).value.events :: e.causation == causation
  {
    var (d, w) := DecideBy(decider, op, ToWallet(op.wallet, snap), view, env.now);
    var row := NewRow(op, CanonicalOf(op), d, w, env);
    EventsOfWait(env.txId, row, Completed(env.txId, row, snap, d, w, causation, env).value.entry, causation, env);
  }

  /** What a call added to the outbox carries the call's causation. */
  lemma ExecutedCauses(a: Db, op: Operation, decider: Decider, causation: string, env: Env, p: Plan, r: Result<Reply>, b: Db, i: nat)
    requires Sound(a) && op.money.Valid() && EnvOk(a, env) && Planned(a, op, CanonicalOf(op), decider, causation, env, p)
    requires Executed(a, p, r, b)
    ensures a.outbox <= b.outbox && b.inbox == a.inbox && (r.Err? ==> b == a)
    ensures |a.outbox| <= i < |b.outbox| ==> b.outbox[i].causation == causation
  {
    if p.Do? {
      SoundExecution(a, op, decider, causation, env, p, r, b);
      var view := PlanReads(a, op, CanonicalOf(op), decider, causation, env, p);
      DraftCauses(op, a.wallets[op.wallet], view, decider, causation, env);
      assert i >= |a.outbox| && i < |b.outbox| ==> b.outbox[i] == p.write.events[i - |a.outbox|];
    }
  }

  /** A message is handled under its consumer's name and its own id, and nothing else: a body other than the one on record
      conflicts, success records the body and completes the message, and every event it causes names its id. */
  lemma ProcessingExact(a: Db, m: Incoming, b: Db, o: Outcome)
    requires Sound(a) && Processing(a, m, b, o)
    ensures !(m.content.Envelope? && m.content.message != "" && m.content.kind == "WagerTransactionRequested" && m.content.data.Some?) ==>
              o == Permanent && b == a
    ensures m.content.Envelope? && m.content.message != "" && m.content.kind == "WagerTransactionRequested" && m.content.data.Some? ==>
              && (!Admissible(m.content.data.value) ==> o == Denied(InvalidInput))
              && (Admissible(m.content.data.value) && !Admits(a, m.content.message, m.text) ==> o == Denied(Conflict))
    ensures o != Done ==> b == a
    ensures o == Done ==>
              && m.content.Envelope? && Admits(a, m.content.message, m.text)
              && Finishes(a, b, m.content.message, m.text)
              && a.outbox <= b.outbox && forall i | |a.outbox| <= i < |b.outbox| :: b.outbox[i].causation == m.content.message
  {
    if Decoded(m).Some? && Admissible(Decoded(m).value) && Recorded(a, KeyOf(m), m.text) == m.text {
      var op := Decoded(m).value;
      var env, p, r :| ProcessedAs(a, m, op, env, p, r, b) && o == (if r.Ok? then Done else Denied(r.error));
      var mid := b.(inbox := a.inbox);
      forall i ensures |a.outbox| <= i < |b.outbox| ==> b.outbox[i].causation == m.content.message {
        if |a.outbox| <= i {
          ExecutedCauses(a, op, ByRules, KeyOf(m).message, env, p, r, mid, i);
        }
      }
      ExecutedCauses(a, op, ByRules, KeyOf(m).message, env, p, r, mid, 0);
    }
  }

  /** A handling that had an effect, whatever it answered, found no other body under the id and left its own. */
  lemma EffectRemembers(a: Db, m: Incoming, b: Db, o: Outcome)
    requires Sound(a) && Attempted(a, m, b, o) && (o == Done || b != a)
    ensures m.content.Envelope? && Admits(a, m.content.message, m.text) && Finishes(a, b, m.content.message, m.text)
  {
    if !SeenEarlier(a, m, b) {
      var actual :| Processing(a, m, b, actual);
      ProcessingExact(a, m, b, actual);
      if o == Done && Processing(a, m, b, o) {
        ProcessingExact(a, m, b, o);
      }
    }
  }

  lemma RecordingKeepsInbox(a: Db, m: Incoming, b: Db, ok: bool)
    requires Sound(a) && RecordingFailure(a, m, b, ok)
    ensures b.inbox == a.inbox
  {
    if b != a {
      var env, p, r :| FailedAs(a, DecodedForFailure(m).value, env, p, r, b) && ok == r.Ok?;
      ExecutedCauses(a, DecodedForFailure(m).value, FailWith(EXHAUSTED), "", env, p, r, b, 0);
    }
  }

  /** Recording a failure leaves the inbox alone. */
  lemma FailureForgetsNothing(a: Db, m: Incoming, b: Db, ok: bool)
    requires Sound(a) && FailureAttempted(a, m, b, ok)
    ensures b.inbox == a.inbox
  {
    if RecordingFailure(a, m, b, ok) {
      RecordingKeepsInbox(a, m, b, ok);
    } else if RecordingFailure(a, m, b, true) {
      RecordingKeepsInbox(a, m, b, true);
    }
  }

  /** The operation a message carries is new and can be taken down. */
  ghost predicate Carries(a: Db, m: Incoming, op: Operation) {
    && m.content.Envelope? && m.content.kind == "WagerTransactionRequested" && m.content.data == Some(op)
    && Admissible(op) && op.wallet in a.wallets && a.wallets[op.wallet].currency == op.money.currency && !Acceptance.IdentityTaken(a, op)
  }

  ghost predicate HandledTo(a: Db, m: Incoming, op: Operation, env: Env, e: Acceptance.Ending, w: Write, b: Db)
    requires Carries(a, m, op)
  {
    Acceptance.Ruled(a, op, env.now, e) && Acceptance.Accepts(a, op, e, m.content.message, env, w) && Acceptance.Leaves(a, w, b.(inbox := a.inbox))
  }

  /** A new operation in a new message is handled to exactly what the rules say of it. */
  lemma HandledExact(a: Db, m: Incoming, b: Db, o: Outcome, op: Operation)
    requires Sound(a) && Processing(a, m, b, o) && Carries(a, m, op) && m.content.message != "" && Admits(a, m.content.message, m.text)
    ensures o == Done && exists env, e, w :: HandledTo(a, m, op, env, e, w, b)
  {
    var env, p, r :| ProcessedAs(a, m, op, env, p, r, b) && o == (if r.Ok? then Done else Denied(r.error));
    var e := Acceptance.ExecutionExact(a, op, m.content.message, env, p, r, b.(inbox := a.inbox));
    assert HandledTo(a, m, op, env, e, p.write, b);
  }

  ghost predicate FailedTo(a: Db, op: Operation, env: Env, w: Write, b: Db)
    requires op.wallet in a.wallets && op.money.Valid()
  {
    Acceptance.Accepts(a, op, Acceptance.Ending(Failed, Some("PROCESSING_RETRIES_EXHAUSTED"), None, 0), "", env, w)
    && w.events == [] && Acceptance.Leaves(a, w, b)
  }

  /** Given up on, it leaves a FAILED row that says why and moves nothing. */
  lemma GivenUpExact(a: Db, m: Incoming, b: Db, ok: bool, op: Operation)
    requires Sound(a) && RecordingFailure(a, m, b, ok) && Carries(a, m, op)
    ensures ok && exists env, w :: FailedTo(a, op, env, w, b)
  {
    assert EXHAUSTED[0] in EXHAUSTED && !IsSpace(EXHAUSTED[0]);
    var env, p, r :| FailedAs(a, op, env, p, r, b) && ok == r.Ok?;
    Acceptance.FailureExact(a, op, EXHAUSTED, "", env, p);
    SoundExecution(a, op, FailWith(EXHAUSTED), "", env, p, r, b);
    assert FailedTo(a, op, env, p.write, b);
  }

  lemma AccountedStays(a: Db, b: Db, op: Operation)
    requires Sound(a) && Step(a, b) && Accounted(a, op)
    ensures Accounted(b, op)
  {
    var id :| id in a.txs && IsOp(a.txs[id], op);
    StepEvolves(a, b, id);
    assert IsOp(b.txs[id], op);
  }

  lemma AccountedStays2(a: Db, b: Db, op: Operation)
    requires Sound(a) && Steps2(a, b) && Accounted(a, op)
    ensures Accounted(b, op)
  {
    var mid :| StepOrNone(a, mid) && StepOrNone(mid, b);
    if mid != a {
      StepKeepsSound(a, mid);
      AccountedStays(a, mid, op);
    }
    if b != mid {
      AccountedStays(mid, b, op);
    }
  }
}
