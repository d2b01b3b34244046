/** One transaction's statements in sequence: how they fail, and how inbox statements stay out of the rest's way. */
module Statements {
  import opened Prelude
  import opened Schema
  import opened Invariant

  datatype SqlError = UniqueViolation | OtherViolation

  /** The statement breaks a unique index and no check before it. */
  predicate BreaksUnique(db: Db, c: Change) {
    match c
    case InsertWallet(id, w) =>
      WalletCheck(w)
      && (id in db.wallets || exists o | o in db.wallets :: db.wallets[o].player == w.player && db.wallets[o].currency == w.currency)
    case InsertTx(id, t) => TxCheck(t) && (id in db.txs || exists o | o in db.txs :: Clash(db.txs[o], t))
    case _ => false
  }

  function SqlErrorOf(db: Db, c: Change): SqlError {
    if BreaksUnique(db, c) then UniqueViolation else OtherViolation
  }

  /** classify(err) */
  function Classify(e: SqlError): Error {
    if e == UniqueViolation then Conflict else DatabaseError
  }

  /** A statement that went through broke no unique index. */
  lemma AllowedBreaksNothing(db: Db, c: Change)
    requires Allowed(db, c)
    ensures !BreaksUnique(db, c)
  {
  }

  lemma ImmediateSnoc(db: Db, b: seq<Change>, c: Change)
    ensures Final(db, b + [c]) == Apply(Final(db, b), c)
    ensures Immediate(db, b + [c]) <==> Immediate(db, b) && Allowed(Final(db, b), c)
  {
    var d := b + [c];
    StatePrefix(db, b, [c], |b|);
    StateSteps(db, d, |b|);
    forall k | 0 <= k < |b| ensures AllowedAt(db, d, k) == AllowedAt(db, b, k) {
      StatePrefix(db, b, [c], k);
    }
    assert AllowedAt(db, d, |b|) == Allowed(Final(db, b), c);
    if Immediate(db, d) {
      forall k | 0 <= k < |b| ensures AllowedAt(db, b, k) {
        assert AllowedAt(db, d, k);
      }
    }
    if Immediate(db, b) && Allowed(Final(db, b), c) {
      forall k | 0 <= k < |d| ensures AllowedAt(db, d, k) {
        assert k < |b| ==> AllowedAt(db, b, k);
      }
    }
  }

  /** No batch that begins with `b` gets through its statements. */
  ghost predicate Doomed(db: Db, b: seq<Change>) {
    forall rest :: !Immediate(db, b + rest)
  }

  lemma FailureIsFinal(db: Db, b: seq<Change>, c: Change)
    requires !Allowed(Final(db, b), c)
    ensures Doomed(db, b + [c])
  {
    forall rest ensures !Immediate(db, b + [c] + rest) {
      var d := b + [c] + rest;
      StatePrefix(db, b, [c] + rest, |b|);
      assert d == b + ([c] + rest);
      assert !AllowedAt(db, d, |b|);
    }
  }

  lemma DoomedExtends(db: Db, b: seq<Change>, more: seq<Change>)
    requires Doomed(db, b)
    ensures Doomed(db, b + more)
    ensures !Immediate(db, b)
  {
    forall rest ensures !Immediate(db, b + more + rest) {
      assert b + more + rest == b + (more + rest);
    }
    assert b + [] == b;
  }

  // ---- inbox statements around a batch ----

  ghost predicate NoInbox(b: seq<Change>) {
    forall k | 0 <= k < |b| :: !b[k].WriteInbox?
  }

  lemma EmptyAccepted(db: Db)
    ensures Accepted(db, []) && Final(db, []) == db
  {
  }

  lemma {:induction false} InboxAside(db: Db, i: map<InboxKey, InboxRow>, b: seq<Change>, k: nat)
    requires NoInbox(b) && k <= |b|
    ensures State(db.(inbox := i), b, k) == State(db, b, k).(inbox := i)
  {
    if k > 0 {
      InboxAside(db, i, b, k - 1);
    }
  }

  lemma {:induction false} BatchLeavesInbox(db: Db, b: seq<Change>, k: nat)
    requires NoInbox(b) && k <= |b|
    ensures State(db, b, k).inbox == db.inbox
  {
    if k > 0 {
      BatchLeavesInbox(db, b, k - 1);
    }
  }

  lemma {:induction false} StateShift(db: Db, c: Change, b: seq<Change>, k: nat)
    requires k <= |b|
    ensures State(db, [c] + b, k + 1) == State(Apply(db, c), b, k)
  {
    if k == 0 {
      StateSteps(db, [c] + b, 0);
    } else {
      StateShift(db, c, b, k - 1);
      StateSteps(db, [c] + b, k);
    }
  }

  /** Position by position, the batch fares the same with the inbox statements around it. */
  lemma AroundAt(db: Db, i: map<InboxKey, InboxRow>, b: seq<Change>, post: seq<Change>, k: nat)
    requires NoInbox(b) && k <= |b|
    ensures State(db, [WriteInbox(i)] + b + post, k + 1) == State(db, b, k).(inbox := i)
  {
    StatePrefix(db, [WriteInbox(i)] + b, post, k + 1);
    StateShift(db, WriteInbox(i), b, k);
    InboxAside(db, i, b, k);
  }

  lemma AroundFinal(db: Db, i: map<InboxKey, InboxRow>, b: seq<Change>, post: seq<Change>)
    requires NoInbox(b) && (post == [] || (|post| == 1 && post[0].WriteInbox?))
    ensures Final(db, [WriteInbox(i)] + b + post) == Final(db, b).(inbox := if post == [] then i else post[0].inbox)
  {
    var d := [WriteInbox(i)] + b + post;
    AroundAt(db, i, b, post, |b|);
    if post != [] {
      StateSteps(db, d, |b| + 1);
      assert d[|b| + 1] == post[0];
    }
  }

  lemma AroundFares(db: Db, i: map<InboxKey, InboxRow>, b: seq<Change>, post: seq<Change>, k: nat)
    requires NoInbox(b) && (post == [] || (|post| == 1 && post[0].WriteInbox?)) && k < |b|
    ensures var d := [WriteInbox(i)] + b + post;
            AllowedAt(db, d, k + 1) == AllowedAt(db, b, k) && DeferredAt(db, d, k + 1) == DeferredAt(db, b, k)
  {
    AroundFinal(db, i, b, post);
    AroundAt(db, i, b, post, k);
  }

  lemma InboxAround(db: Db, i: map<InboxKey, InboxRow>, b: seq<Change>, post: seq<Change>)
    requires NoInbox(b) && (post == [] || (|post| == 1 && post[0].WriteInbox?))
    ensures var d := [WriteInbox(i)] + b + post;
            && (Immediate(db, d) <==> Immediate(db, b)) && (Deferred(db, d) <==> Deferred(db, b))
            && Final(db, d) == Final(db, b).(inbox := if post == [] then i else post[0].inbox)
  {
    var d := [WriteInbox(i)] + b + post;
    AroundFinal(db, i, b, post);
    forall k | 0 <= k < |b| ensures AllowedAt(db, d, k + 1) == AllowedAt(db, b, k) && DeferredAt(db, d, k + 1) == DeferredAt(db, b, k) {
      AroundFares(db, i, b, post, k);
    }
    forall k | 0 <= k < |d| && (k == 0 || k == |b| + 1) ensures AllowedAt(db, d, k) && DeferredAt(db, d, k) {
      assert d[k].WriteInbox?;
    }
    AroundQuantified(db, b, d);
  }

  lemma AroundQuantified(db: Db, b: seq<Change>, d: seq<Change>)
    requires |b| + 1 <= |d| <= |b| + 2
    requires forall k | 0 <= k < |b| :: AllowedAt(db, d, k + 1) == AllowedAt(db, b, k) && DeferredAt(db, d, k + 1) == DeferredAt(db, b, k)
    requires forall k | 0 <= k < |d| && (k == 0 || k == |b| + 1) :: AllowedAt(db, d, k) && DeferredAt(db, d, k)
    ensures (Immediate(db, d) <==> Immediate(db, b)) && (Deferred(db, d) <==> Deferred(db, b))
  {
    forall k | 0 <= k < |d| ensures k == 0 || k == |b| + 1 || (AllowedAt(db, d, k) == AllowedAt(db, b, k - 1) && DeferredAt(db, d, k) == DeferredAt(db, b, k - 1)) {
      if 0 < k <= |b| {
        var j := k - 1;
        assert AllowedAt(db, d, j + 1) == AllowedAt(db, b, j);
      }
    }
    if Immediate(db, d) {
      forall k | 0 <= k < |b| ensures AllowedAt(db, b, k) {
        assert AllowedAt(db, d, k + 1);
      }
    }
    if Deferred(db, d) {
      forall k | 0 <= k < |b| ensures DeferredAt(db, b, k) {
        assert DeferredAt(db, d, k + 1);
      }
    }
  }

  lemma InboxFirst(db: Db, i: map<InboxKey, InboxRow>)
    ensures Final(db, [WriteInbox(i)]) == db.(inbox := i)
  {
    StateSteps(db, [WriteInbox(i)], 0);
  }
}
