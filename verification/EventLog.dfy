/** The outbox is a faithful projection of the ledger and of every row's life. */
module EventLog {
  import opened Prelude
  import opened MoneyModel
  import opened Domain
  import opened Schema
  import opened Integrity
  import opened Writes
  import opened Invariant
  import opened Preservation

  function Balances(outbox: seq<OutboxRow>): seq<Event> {
    if outbox == [] then []
    else Balances(outbox[..|outbox| - 1])
         + (if outbox[|outbox| - 1].event.BalanceChanged? then [outbox[|outbox| - 1].event] else [])
  }

  /** How many pending announcements a transaction has. */
  function PendingCount(outbox: seq<OutboxRow>, t: Id): nat {
    if outbox == [] then 0
    else PendingCount(outbox[..|outbox| - 1], t)
         + (var e := outbox[|outbox| - 1].event; if e.TxPendingReference? && e.tx == t then 1 else 0)
  }

  /** How many final announcements it has. */
  function FinalCount(outbox: seq<OutboxRow>, t: Id): nat {
    if outbox == [] then 0
    else FinalCount(outbox[..|outbox| - 1], t)
         + (var e := outbox[|outbox| - 1].event; if (e.TxProcessed? || e.TxRejected?) && e.tx == t then 1 else 0)
  }

  function EventFor(e: LedgerRow, currency: string): Event {
    BalanceChanged(e.wallet, e.tx, e.direction, Money(e.amount, currency), Money(e.before, currency), Money(e.after, currency), e.version)
  }

  /** The i-th balance event is the i-th ledger entry. */
  predicate BalanceEventAt(db: Db, i: nat)
    requires i < |db.ledger|
  {
    && i < |Balances(db.outbox)| && db.ledger[i].wallet in db.wallets
    && Balances(db.outbox)[i] == EventFor(db.ledger[i], db.wallets[db.ledger[i].wallet].currency)
  }

  predicate CountsAt(db: Db, t: Id) {
    var pending, final := PendingCount(db.outbox, t), FinalCount(db.outbox, t);
    if t !in db.txs then pending == 0 && final == 0
    else match db.txs[t].status
         case PendingReference => pending == 1 && final == 0
         case Processed => pending <= 1 && final == 1
         case Rejected => pending <= 1 && final == 1
         case _ => pending == 0 && final == 0
  }

  /** What an announcement says of its row is what the row says, for good. */
  predicate Truthful(txs: map<Id, TxRow>, e: Event) {
    match e
    case BalanceChanged(_, _, _, _, _, _, _) => true
    case TxProcessed(t, provider, kind) =>
      t in txs && txs[t].status == Processed && provider == Text(txs[t].provider) && kind == txs[t].kind
    case TxRejected(t, provider, kind, failure) =>
      t in txs && txs[t].status == Rejected && provider == Text(txs[t].provider) && kind == txs[t].kind && failure == Text(txs[t].failure)
    case TxPendingReference(t, provider, kind) =>
      t in txs && provider == Text(txs[t].provider) && kind == txs[t].kind
  }

  ghost predicate BalanceLogOk(db: Db) {
    && |Balances(db.outbox)| == |db.ledger|
    && (forall i {:trigger BalanceEventAt(db, i)} | 0 <= i < |db.ledger| :: BalanceEventAt(db, i))
  }

  ghost predicate LogOk(db: Db) {
    && BalanceLogOk(db)
    && (forall t {:trigger CountsAt(db, t)} :: CountsAt(db, t))
    && (forall i {:trigger Truthful(db.txs, db.outbox[i].event)} | 0 <= i < |db.outbox| :: Truthful(db.txs, db.outbox[i].event))
  }

  /** A new pending row is announced once; a row becoming processed or rejected is announced once. */
  predicate AnnouncedAt(mode: Mode, w: Write, t: Id) {
    && PendingCount(w.events, t) == (if t == w.id && w.row.status == PendingReference && mode != Settle then 1 else 0)
    && FinalCount(w.events, t) == (if t == w.id && (w.row.status == Processed || w.row.status == Rejected) then 1 else 0)
  }

  /** The events of a write announce exactly what it did. */
  ghost predicate EventsFit(mode: Mode, w: Write) {
    && Balances(w.events) == (if w.entry.Some? then [EventFor(w.entry.value, w.row.currency)] else [])
    && (forall t {:trigger AnnouncedAt(mode, w, t)} :: AnnouncedAt(mode, w, t))
    && (forall i | 0 <= i < |w.events| :: Truthful(map[w.id := w.row], w.events[i].event))
  }

  lemma LogSplit(a: seq<OutboxRow>, b: seq<OutboxRow>, t: Id)
    ensures Balances(a + b) == Balances(a) + Balances(b)
    ensures PendingCount(a + b, t) == PendingCount(a, t) + PendingCount(b, t)
    ensures FinalCount(a + b, t) == FinalCount(a, t) + FinalCount(b, t)
  {
    if b == [] {
      assert a + b == a;
    } else {
      assert (a + b)[..|a + b| - 1] == a + b[..|b| - 1];
      LogSplit(a, b[..|b| - 1], t);
    }
  }

  lemma LogShort(es: seq<OutboxRow>, t: Id)
    requires |es| <= 1
    ensures Balances(es) == if |es| == 1 && es[0].event.BalanceChanged? then [es[0].event] else []
    ensures PendingCount(es, t) == if |es| == 1 && es[0].event.TxPendingReference? && es[0].event.tx == t then 1 else 0
    ensures FinalCount(es, t) == if |es| == 1 && (es[0].event.TxProcessed? || es[0].event.TxRejected?) && es[0].event.tx == t then 1 else 0
  {
    if |es| == 1 {
      assert es[..0] == [];
    }
  }

  lemma BalancePart(row: TxRow, entry: Option<LedgerRow>, causation: string, env: Env, t: Id)
    ensures var es := BalanceEvents(row, entry, causation, env);
            && Balances(es) == (if entry.Some? then [EventFor(entry.value, row.currency)] else [])
            && PendingCount(es, t) == 0 && FinalCount(es, t) == 0
  {
    LogShort(BalanceEvents(row, entry, causation, env), t);
  }

  lemma WagerPart(id: Id, row: TxRow, causation: string, env: Env, t: Id)
    ensures var es := WagerEvents(id, row, causation, env);
            && Balances(es) == []
            && PendingCount(es, t) == (if t == id && row.status == PendingReference then 1 else 0)
            && FinalCount(es, t) == (if t == id && (row.status == Processed || row.status == Rejected) then 1 else 0)
  {
    LogShort(WagerEvents(id, row, causation, env), t);
  }

  lemma EventsOfAt(mode: Mode, id: Id, row: TxRow, snap: WalletRow, entry: Option<LedgerRow>, causation: string, env: Env, t: Id)
    requires mode != Open && (mode == Settle ==> row.status != PendingReference)
    ensures AnnouncedAt(mode, Write(id, row, snap, entry, EventsOf(id, row, entry, causation, env)), t)
    ensures Balances(EventsOf(id, row, entry, causation, env)) == if entry.Some? then [EventFor(entry.value, row.currency)] else []
  {
    LogSplit(BalanceEvents(row, entry, causation, env), WagerEvents(id, row, causation, env), t);
    BalancePart(row, entry, causation, env, t);
    WagerPart(id, row, causation, env, t);
  }

  lemma EventsOfTruthful(id: Id, row: TxRow, entry: Option<LedgerRow>, causation: string, env: Env, i: nat)
    requires i < |EventsOf(id, row, entry, causation, env)|
    ensures Truthful(map[id := row], EventsOf(id, row, entry, causation, env)[i].event)
  {
    var a, b := BalanceEvents(row, entry, causation, env), WagerEvents(id, row, causation, env);
    assert (a + b)[i] == if i < |a| then a[i] else b[i - |a|];
  }

  lemma EventsOfFit(mode: Mode, id: Id, row: TxRow, snap: WalletRow, entry: Option<LedgerRow>, causation: string, env: Env)
    requires mode != Open && (mode == Settle ==> row.status != PendingReference)
    ensures EventsFit(mode, Write(id, row, snap, entry, EventsOf(id, row, entry, causation, env)))
  {
    var w := Write(id, row, snap, entry, EventsOf(id, row, entry, causation, env));
    EventsOfAt(mode, id, row, snap, entry, causation, env, NIL);
    forall t ensures AnnouncedAt(mode, w, t) {
      EventsOfAt(mode, id, row, snap, entry, causation, env, t);
    }
    forall i | 0 <= i < |w.events| ensures Truthful(map[id := row], w.events[i].event) {
      EventsOfTruthful(id, row, entry, causation, env, i);
    }
  }

  /** An event as a transaction stores it: about the wallet, caused by the message, unpublished, unclaimed and due at once. */
  predicate Waiting(e: OutboxRow, wallet: Id, causation: string, began: Time) {
    && e.aggregate == wallet && e.causation == causation && e.occurredAt == began
    && e.attempts == 0 && e.published.None? && e.claimed.None? && e.nextAttempt == began
  }

  /** What a write leaves beside its status: the row keeps the balance its verdict left, and every event is about the row and
      its wallet, was never tried, sent or leased, and is due from the instant it is stored. */
  ghost predicate LeftInOrder(mode: Mode, w: Write) {
    && (w.row.result == Some(w.wallet.balance) || (mode == Settle && w.row.status == PendingReference))
    && (forall e | e in w.events ::
          e.event.tx == w.id && e.aggregate == w.row.wallet && e.attempts == 0 && e.published.None? && e.claimed.None? && e.nextAttempt == e.occurredAt)
  }

  lemma EventsOfWait(tx: Id, row: TxRow, entry: Option<LedgerRow>, causation: string, env: Env)
    ensures forall e | e in EventsOf(tx, row, entry, causation, env) :: Waiting(e, row.wallet, causation, env.began)
  {
    forall e | e in EventsOf(tx, row, entry, causation, env) ensures Waiting(e, row.wallet, causation, env.began) {
      assert e in BalanceEvents(row, entry, causation, env) || e in WagerEvents(tx, row, causation, env);
    }
  }

  lemma OpeningAt(w: WalletVal, env: Env, t: Id)
    requires w.balance.minor > 0
    ensures AnnouncedAt(Open, OpeningWrite(w, env), t)
    ensures var o := OpeningWrite(w, env); Balances(o.events) == [EventFor(o.entry.value, o.row.currency)]
  {
    var o := OpeningWrite(w, env);
    assert o.events == o.events[..1] + o.events[1..];
    LogSplit(o.events[..1], o.events[1..], t);
    LogShort(o.events[..1], t);
    LogShort(o.events[1..], t);
  }

  lemma OpeningFits(w: WalletVal, env: Env)
    requires w.balance.minor > 0
    ensures EventsFit(Open, OpeningWrite(w, env)) && LeftInOrder(Open, OpeningWrite(w, env))
  {
    var o := OpeningWrite(w, env);
    OpeningAt(w, env, NIL);
    forall t ensures AnnouncedAt(Open, o, t) {
      OpeningAt(w, env, t);
    }
  }

  lemma PostponeFits(id: Id, row: TxRow, snap: WalletRow)
    requires row.status == PendingReference
    ensures EventsFit(Settle, Write(id, row, snap, None, []))
  {
  }

  // ---- a write keeps the projection ----

  lemma TruthKept(db: Db, mode: Mode, w: Write, e: Event)
    requires TargetOk(db, mode, w) && (Truthful(db.txs, e) || Truthful(map[w.id := w.row], e))
    ensures Truthful(db.txs[w.id := w.row], e)
  {
  }

  /** The counts after a write, from those before and what the write announces. */
  lemma CountsAfter(db: Db, mode: Mode, w: Write, t: Id)
    requires EventsFit(mode, w)
    ensures var o := Record(db, w).outbox;
            && PendingCount(o, t) == PendingCount(db.outbox, t) + (if t == w.id && w.row.status == PendingReference && mode != Settle then 1 else 0)
            && FinalCount(o, t) == FinalCount(db.outbox, t) + (if t == w.id && (w.row.status == Processed || w.row.status == Rejected) then 1 else 0)
  {
    LogSplit(db.outbox, w.events, t);
    assert AnnouncedAt(mode, w, t);
  }

  lemma CountsKept(db: Db, mode: Mode, w: Write, t: Id)
    requires TargetOk(db, mode, w) && EventsFit(mode, w) && CountsAt(db, t) && w.row.status != Pending
    requires mode == Settle ==> w.row.status != Failed
    ensures CountsAt(Record(db, w), t)
  {
    CountsAfter(db, mode, w, t);
  }

  lemma BalancesAfter(db: Db, mode: Mode, w: Write)
    requires EventsFit(mode, w)
    ensures Balances(Record(db, w).outbox)
         == Balances(db.outbox) + (if w.entry.Some? then [EventFor(w.entry.value, w.row.currency)] else [])
  {
    LogSplit(db.outbox, w.events, 0);
  }

  lemma BalanceLogKept(db: Db, mode: Mode, w: Write, i: nat)
    requires BalanceLogOk(db) && WriteOk(db, mode, w) && EventsFit(mode, w) && i < |Record(db, w).ledger|
    ensures |Balances(Record(db, w).outbox)| == |Record(db, w).ledger| && BalanceEventAt(Record(db, w), i)
  {
    BalancesAfter(db, mode, w);
    LedgerAfter(db, w);
    if i < |db.ledger| {
      assert BalanceEventAt(db, i);
    }
  }

  lemma WriteKeepsLog(db: Db, mode: Mode, w: Write)
    requires LogOk(db) && WriteOk(db, mode, w) && EventsFit(mode, w) && (mode == Settle ==> w.row.status != Failed)
    ensures LogOk(Record(db, w))
  {
    var after := Record(db, w);
    BalancesAfter(db, mode, w);
    forall i | 0 <= i < |after.ledger| ensures BalanceEventAt(after, i) {
      BalanceLogKept(db, mode, w, i);
    }
    forall t ensures CountsAt(after, t) {
      assert CountsAt(db, t);
      CountsKept(db, mode, w, t);
    }
    forall i | 0 <= i < |after.outbox| ensures Truthful(after.txs, after.outbox[i].event) {
      if i < |db.outbox| {
        assert Truthful(db.txs, db.outbox[i].event);
      }
      TruthKept(db, mode, w, after.outbox[i].event);
    }
  }

  lemma ZeroOpenKeepsLog(db: Db, id: Id, row: WalletRow)
    requires LogOk(db) && id !in db.wallets
    ensures LogOk(db.(wallets := db.wallets[id := row]))
  {
    var after := db.(wallets := db.wallets[id := row]);
    forall i | 0 <= i < |after.ledger| ensures BalanceEventAt(after, i) {
      assert BalanceEventAt(db, i);
    }
    forall t ensures CountsAt(after, t) {
      assert CountsAt(db, t);
    }
  }

  // ---- delivery never touches what the log says ----

  ghost predicate SameEvents(a: seq<OutboxRow>, b: seq<OutboxRow>) {
    |a| == |b| && forall i | 0 <= i < |a| :: a[i].event == b[i].event && a[i].id == b[i].id
  }

  lemma {:induction false} SameEventsSameLog(a: seq<OutboxRow>, b: seq<OutboxRow>, t: Id)
    requires SameEvents(a, b)
    ensures Balances(a) == Balances(b) && PendingCount(a, t) == PendingCount(b, t) && FinalCount(a, t) == FinalCount(b, t)
  {
    if a != [] {
      SameEventsSameLog(a[..|a| - 1], b[..|b| - 1], t);
    }
  }

  lemma DeliveryKeepsLog(db: Db, outbox: seq<OutboxRow>)
    requires LogOk(db) && SameEvents(db.outbox, outbox)
    ensures LogOk(db.(outbox := outbox))
  {
    var after := db.(outbox := outbox);
    SameEventsSameLog(db.outbox, outbox, 0);
    forall i | 0 <= i < |after.ledger| ensures BalanceEventAt(after, i) {
      assert BalanceEventAt(db, i);
    }
    forall t ensures CountsAt(after, t) {
      assert CountsAt(db, t);
      SameEventsSameLog(db.outbox, outbox, t);
    }
    forall i | 0 <= i < |outbox| ensures Truthful(after.txs, outbox[i].event) {
      assert Truthful(db.txs, db.outbox[i].event);
    }
  }

  // ---- rebuilding wallets from the log ----

  datatype Rebuilt = Rebuilt(balance: int, version: int)

  /** A consumer folding one wallet's balance events, adding signed amounts to an empty wallet. */
  function Fold(events: seq<Event>, w: Id): Rebuilt {
    if events == [] then Rebuilt(0, 1)
    else
      var r, e := Fold(events[..|events| - 1], w), events[|events| - 1];
      if e.BalanceChanged? && e.wallet == w then Rebuilt(r.balance + Signed(e.direction, e.money.minor), e.version) else r
  }

  predicate Follows(h: seq<LedgerRow>, r: Rebuilt) {
    r.balance == Net(h) && r.version == if h == [] then 1 else h[|h| - 1].version
  }

  lemma FollowsSnoc(h: seq<LedgerRow>, e: LedgerRow, r: Rebuilt)
    requires Follows(h, r)
    ensures Follows(h + [e], Rebuilt(r.balance + Signed(e.direction, e.amount), e.version))
  {
    assert (h + [e])[..|h|] == h;
  }

  predicate Mirrors(l: seq<LedgerRow>, events: seq<Event>, i: nat)
    requires i < |l| == |events|
  {
    events[i].BalanceChanged? && events[i] == EventFor(l[i], events[i].money.currency)
  }

  ghost predicate AllMirror(l: seq<LedgerRow>, events: seq<Event>) {
    |events| == |l| && forall i: nat {:trigger Mirrors(l, events, i)} | i < |l| :: Mirrors(l, events, i)
  }

  lemma MirrorPrefix(l: seq<LedgerRow>, events: seq<Event>)
    requires AllMirror(l, events) && l != []
    ensures AllMirror(l[..|l| - 1], events[..|l| - 1])
  {
    var n := |l| - 1;
    forall i: nat | i < n ensures Mirrors(l[..n], events[..n], i) {
      assert Mirrors(l, events, i);
    }
  }

  /** Entry by entry, the folded state follows the wallet's history. */
  lemma {:induction false} FoldFollows(l: seq<LedgerRow>, events: seq<Event>, w: Id)
    requires AllMirror(l, events)
    ensures Follows(History(l, w), Fold(events, w))
  {
    if l != [] {
      var n := |l| - 1;
      MirrorPrefix(l, events);
      FoldFollows(l[..n], events[..n], w);
      assert Mirrors(l, events, n);
      FollowsSnoc(History(l[..n], w), l[n], Fold(events[..n], w));
      assert History(l[..n], w) + [] == History(l[..n], w);
    }
  }

  /** Folding the balance events rebuilds every wallet's stored balance and version. */
  lemma EventsRebuildWallets(db: Db, w: Id)
    requires Intact(db) && LogOk(db) && w in db.wallets
    ensures Fold(Balances(db.outbox), w) == Rebuilt(db.wallets[w].balance, db.wallets[w].version)
  {
    var l, events := db.ledger, Balances(db.outbox);
    forall i: nat | i < |l| ensures Mirrors(l, events, i) {
      assert BalanceEventAt(db, i);
    }
    FoldFollows(l, events, w);
    Conserved(db, w);
    assert ChainAt(db, w);
  }
}
