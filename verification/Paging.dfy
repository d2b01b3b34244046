/** Keyset paging over one wallet's ledger. */
module Paging {
  import opened Prelude
  import opened Schema
  import opened Integrity

  datatype Cursor = Cursor(at: Time, id: Id)
  datatype Page = Page(entries: seq<LedgerRow>, next: Option<Cursor>)

  function KeyOf(e: LedgerRow): Cursor {
    Cursor(e.createdAt, e.id)
  }

  /** (a.created_at, a.id) < (b.created_at, b.id) */
  predicate Less(a: Cursor, b: Cursor) {
    a.at < b.at || (a.at == b.at && a.id < b.id)
  }

  predicate Beyond(c: Option<Cursor>, e: LedgerRow) {
    c.Some? ==> Less(c.value, KeyOf(e))
  }

  function Insert(s: seq<LedgerRow>, e: LedgerRow): seq<LedgerRow> {
    if s == [] then [e]
    else
      var n := |s| - 1;
      if Less(KeyOf(e), KeyOf(s[n])) then Insert(s[..n], e) + [s[n]] else s + [e]
  }

  /** SELECT ... WHERE wallet_id = w ORDER BY created_at, id */
  function Ordered(ledger: seq<LedgerRow>, w: Id): seq<LedgerRow> {
    if ledger == [] then []
    else
      var n := |ledger| - 1;
      if ledger[n].wallet == w then Insert(Ordered(ledger[..n], w), ledger[n]) else Ordered(ledger[..n], w)
  }

  /** ... AND (created_at, id) > cursor */
  function Remaining(s: seq<LedgerRow>, c: Option<Cursor>): (r: seq<LedgerRow>)
    ensures |r| <= |s| && forall e | e in r :: e in s && Beyond(c, e)
  {
    if s == [] then []
    else
      var n := |s| - 1;
      Remaining(s[..n], c) + (if Beyond(c, s[n]) then [s[n]] else [])
  }

  predicate InOrder(s: seq<LedgerRow>, i: nat, j: nat)
    requires i < j < |s|
  {
    Less(KeyOf(s[i]), KeyOf(s[j]))
  }

  ghost predicate Ascending(s: seq<LedgerRow>) {
    forall i: nat, j: nat {:trigger InOrder(s, i, j)} | i < j < |s| :: InOrder(s, i, j)
  }

  predicate DistinctIds(s: seq<LedgerRow>) {
    forall i, j | 0 <= i < j < |s| :: s[i].id != s[j].id
  }

  function Take(s: seq<LedgerRow>, n: nat): seq<LedgerRow> {
    if |s| <= n then s else s[..n]
  }

  /** The page the store answers from `s`, the wallet's ordered entries. */
  function PageOf(s: seq<LedgerRow>, c: Option<Cursor>, limit: nat): Page
    requires limit >= 1
  {
    var rest := Remaining(s, c);
    if |rest| > limit then Page(rest[..limit], Some(KeyOf(rest[limit - 1]))) else Page(rest, None)
  }

  // ---- the ordered list ----

  lemma AscendingPrefix(s: seq<LedgerRow>, n: nat)
    requires Ascending(s) && n <= |s|
    ensures Ascending(s[..n])
  {
    forall i: nat, j: nat | i < j < n ensures InOrder(s[..n], i, j) {
      assert InOrder(s, i, j);
    }
  }

  lemma AscendingSnoc(s: seq<LedgerRow>, e: LedgerRow)
    requires Ascending(s) && forall x | x in s :: Less(KeyOf(x), KeyOf(e))
    ensures Ascending(s + [e])
  {
    forall i: nat, j: nat | i < j < |s + [e]| ensures InOrder(s + [e], i, j) {
      assert s[i] in s;
      if j < |s| {
        assert InOrder(s, i, j);
      }
    }
  }

  lemma InsertMembers(s: seq<LedgerRow>, e: LedgerRow, x: LedgerRow)
    ensures |Insert(s, e)| == |s| + 1
    ensures x in Insert(s, e) <==> x in s || x == e
  {
    if s != [] {
      var n := |s| - 1;
      assert s == s[..n] + [s[n]];
      InsertMembers(s[..n], e, x);
    }
  }

  lemma LastIsGreatest(s: seq<LedgerRow>, x: LedgerRow)
    requires Ascending(s) && x in s
    ensures x == s[|s| - 1] || Less(KeyOf(x), KeyOf(s[|s| - 1]))
  {
    var i: nat :| i < |s| && s[i] == x;
    if i < |s| - 1 {
      assert InOrder(s, i, |s| - 1);
    }
  }

  lemma {:induction false} InsertKeeps(s: seq<LedgerRow>, e: LedgerRow)
    requires Ascending(s) && forall x | x in s :: x.id != e.id
    ensures Ascending(Insert(s, e))
  {
    if s != [] {
      var n := |s| - 1;
      assert s == s[..n] + [s[n]];
      if Less(KeyOf(e), KeyOf(s[n])) {
        AscendingPrefix(s, n);
        InsertKeeps(s[..n], e);
        forall x | x in Insert(s[..n], e) ensures Less(KeyOf(x), KeyOf(s[n])) {
          InsertMembers(s[..n], e, x);
          if x != e {
            var i: nat :| i < n && s[..n][i] == x;
            assert InOrder(s, i, n);
          }
        }
        AscendingSnoc(Insert(s[..n], e), s[n]);
      } else {
        assert s[n] in s;
        forall x | x in s ensures Less(KeyOf(x), KeyOf(e)) {
          LastIsGreatest(s, x);
        }
        AscendingSnoc(s, e);
      }
    }
  }

  /** The ordered list is the wallet's entries, each once, in strictly ascending key order. */
  lemma {:induction false} OrderedIsHistory(ledger: seq<LedgerRow>, w: Id)
    requires DistinctIds(ledger)
    ensures Ascending(Ordered(ledger, w)) && |Ordered(ledger, w)| == |History(ledger, w)|
    ensures forall x :: x in Ordered(ledger, w) <==> x in ledger && x.wallet == w
  {
    if ledger != [] {
      var n := |ledger| - 1;
      OrderedIsHistory(ledger[..n], w);
      assert ledger == ledger[..n] + [ledger[n]];
      forall x | x in ledger[..n] ensures x.id != ledger[n].id {
        var i :| 0 <= i < n && ledger[..n][i] == x;
      }
      if ledger[n].wallet == w {
        InsertKeeps(Ordered(ledger[..n], w), ledger[n]);
        InsertMembers(Ordered(ledger[..n], w), ledger[n], ledger[n]);
        forall x ensures x in Ordered(ledger, w) <==> x in Ordered(ledger[..n], w) || x == ledger[n] {
          InsertMembers(Ordered(ledger[..n], w), ledger[n], x);
        }
      }
    }
  }

  lemma LastLeavesNothing(s: seq<LedgerRow>)
    requires Ascending(s) && s != []
    ensures Remaining(s, Some(KeyOf(s[|s| - 1]))) == []
  {
    forall e | e in s ensures !Less(KeyOf(s[|s| - 1]), KeyOf(e)) {
      LastIsGreatest(s, e);
    }
    NoneRemaining(s, Some(KeyOf(s[|s| - 1])));
  }

  /** Past the cursor of its own i-th entry, an ascending list has exactly what follows it. */
  lemma {:induction false} RemainingIsSuffix(s: seq<LedgerRow>, i: nat, c: Option<Cursor>)
    requires Ascending(s) && i < |s| && c == Some(KeyOf(s[i]))
    ensures Remaining(s, c) == s[i + 1..]
  {
    var n := |s| - 1;
    if i < n {
      AscendingPrefix(s, n);
      RemainingIsSuffix(s[..n], i, c);
      assert InOrder(s, i, n);
      assert s[i + 1..] == s[..n][i + 1..] + [s[n]];
    } else {
      LastLeavesNothing(s);
    }
  }

  lemma {:induction false} NoneRemaining(s: seq<LedgerRow>, c: Option<Cursor>)
    requires forall e | e in s :: !Beyond(c, e)
    ensures Remaining(s, c) == []
  {
    if s != [] {
      assert s[|s| - 1] in s;
      NoneRemaining(s[..|s| - 1], c);
    }
  }

  lemma {:induction false} AllRemaining(s: seq<LedgerRow>)
    ensures Remaining(s, None) == s
  {
    if s != [] {
      AllRemaining(s[..|s| - 1]);
      assert s == s[..|s| - 1] + [s[|s| - 1]];
    }
  }

  // ---- one page ----

  /** Created earlier, or at the same instant with the smaller id. */
  predicate Precedes(a: LedgerRow, b: LedgerRow) {
    a.createdAt < b.createdAt || (a.createdAt == b.createdAt && a.id < b.id)
  }

  predicate After(c: Option<Cursor>, e: LedgerRow) {
    c.None? || c.value.at < e.createdAt || (c.value.at == e.createdAt && c.value.id < e.id)
  }

  lemma {:induction false} RemainingHas(s: seq<LedgerRow>, c: Option<Cursor>, e: LedgerRow)
    ensures e in Remaining(s, c) <==> e in s && After(c, e)
  {
    if s != [] {
      var n := |s| - 1;
      assert s == s[..n] + [s[n]];
      RemainingHas(s[..n], c, e);
    }
  }

  lemma {:induction false} RemainingAscends(s: seq<LedgerRow>, c: Option<Cursor>)
    requires Ascending(s)
    ensures Ascending(Remaining(s, c))
  {
    if s != [] {
      var n := |s| - 1;
      AscendingPrefix(s, n);
      RemainingAscends(s[..n], c);
      forall x | x in Remaining(s[..n], c) ensures Less(KeyOf(x), KeyOf(s[n])) {
        assert x in s[..n];
        var i: nat :| i < n && s[..n][i] == x;
        assert s[i] == x && InOrder(s, i, n);
      }
      AscendingSnoc(Remaining(s[..n], c), s[n]);
    }
  }

  /** A page holds the wallet's entries after the cursor, in order, as many as the limit allows and none before an earlier
      one it leaves out; it names a next cursor, its own last entry, exactly when it leaves any out. */
  lemma PageExact(ledger: seq<LedgerRow>, w: Id, c: Option<Cursor>, limit: nat)
    requires limit >= 1 && DistinctIds(ledger)
    ensures var p := PageOf(Ordered(ledger, w), c, limit);
            && |p.entries| <= limit && (forall i, j | 0 <= i < j < |p.entries| :: Precedes(p.entries[i], p.entries[j]))
            && (forall e | e in p.entries :: e in ledger && e.wallet == w && After(c, e))
            && (forall e | e in ledger && e.wallet == w && After(c, e) && e !in p.entries ::
                  p.next.Some? && forall x | x in p.entries :: Precedes(x, e))
            && (p.next.Some? ==>
                  && |p.entries| == limit && p.next == Some(Cursor(p.entries[limit - 1].createdAt, p.entries[limit - 1].id))
                  && exists e :: e in ledger && e.wallet == w && After(c, e) && e !in p.entries)
  {
    var s := Ordered(ledger, w);
    var p, rest := PageOf(s, c, limit), Remaining(s, c);
    OrderedIsHistory(ledger, w);
    RemainingAscends(s, c);
    forall e ensures e in rest <==> e in ledger && e.wallet == w && After(c, e) {
      RemainingHas(s, c, e);
    }
    forall i, j | 0 <= i < j < |rest| ensures Precedes(rest[i], rest[j]) {
      assert InOrder(rest, i, j);
    }
    if |rest| > limit {
      assert rest[limit] in rest && rest[limit] !in p.entries;
    }
  }

  // ---- following the cursor ----

  /** The cursor a reader holds after the first `from` entries of an ascending list. */
  predicate Position(s: seq<LedgerRow>, c: Option<Cursor>, from: nat) {
    if from == 0 then c.None? else from <= |s| && c == Some(KeyOf(s[from - 1]))
  }

  ghost predicate Placed(s: seq<LedgerRow>, c: Option<Cursor>) {
    Ascending(s) && exists from: nat :: Position(s, c, from)
  }

  lemma PositionRemaining(s: seq<LedgerRow>, c: Option<Cursor>, from: nat)
    requires Ascending(s) && Position(s, c, from)
    ensures from <= |s| && Remaining(s, c) == s[from..]
  {
    if from == 0 {
      AllRemaining(s);
    } else {
      RemainingIsSuffix(s, from - 1, c);
    }
  }

  /** The page a reader at `from` gets. */
  lemma PageAt(s: seq<LedgerRow>, c: Option<Cursor>, limit: nat, from: nat)
    requires limit >= 1 && Ascending(s) && Position(s, c, from)
    ensures from <= |s|
    ensures PageOf(s, c, limit)
         == if |s| > from + limit then Page(s[from..from + limit], Some(KeyOf(s[from + limit - 1]))) else Page(s[from..], None)
  {
    PositionRemaining(s, c, from);
    var rest := Remaining(s, c);
    if |rest| > limit {
      assert rest[..limit] == s[from..from + limit];
    }
  }

  lemma SliceSplit(s: seq<LedgerRow>, a: nat, b: nat)
    requires a <= b <= |s|
    ensures s[a..] == s[a..b] + s[b..]
  {
  }

  lemma ProgressAt(s: seq<LedgerRow>, c: Option<Cursor>, limit: nat, from: nat, to: nat)
    requires limit >= 1 && Ascending(s) && Position(s, c, from) && to == from + limit < |s|
    ensures var page := PageOf(s, c, limit);
            page.entries == s[from..to] && Position(s, page.next, to) && Remaining(s, c) == s[from..] && Remaining(s, page.next) == s[to..]
  {
    PageAt(s, c, limit, from);
    PositionRemaining(s, c, from);
    PositionRemaining(s, PageOf(s, c, limit).next, to);
  }

  lemma PlacedProgress(s: seq<LedgerRow>, c: Option<Cursor>, limit: nat)
    requires limit >= 1 && Placed(s, c)
    ensures var page := PageOf(s, c, limit);
            page.next.Some? ==>
              Placed(s, page.next) && |page.entries| == limit && Remaining(s, c) == page.entries + Remaining(s, page.next)
  {
    var from: nat :| Position(s, c, from);
    if |s| > from + limit {
      ProgressAt(s, c, limit, from, from + limit);
      SliceSplit(s, from, from + limit);
    } else {
      PageAt(s, c, limit, from);
    }
  }

  /** Every page from the cursor on, following `next` until there is none. */
  ghost function Walk(s: seq<LedgerRow>, c: Option<Cursor>, limit: nat): seq<LedgerRow>
    requires limit >= 1 && Placed(s, c)
    decreases |Remaining(s, c)|
  {
    var page := PageOf(s, c, limit);
    PlacedProgress(s, c, limit);
    if page.next.None? then page.entries else page.entries + Walk(s, page.next, limit)
  }

  lemma {:induction false} WalkIsRemaining(s: seq<LedgerRow>, c: Option<Cursor>, limit: nat)
    requires limit >= 1 && Placed(s, c)
    ensures Walk(s, c, limit) == Remaining(s, c)
    decreases |Remaining(s, c)|
  {
    PlacedProgress(s, c, limit);
    var page := PageOf(s, c, limit);
    if page.next.Some? {
      WalkIsRemaining(s, page.next, limit);
    }
  }

  /** Following the cursor from the start ends, and the pages together are the wallet's whole ledger, in order, once. */
  lemma PagesAreTheLedger(ledger: seq<LedgerRow>, w: Id, limit: nat)
    requires limit >= 1 && DistinctIds(ledger)
    ensures Placed(Ordered(ledger, w), None) && Walk(Ordered(ledger, w), None, limit) == Ordered(ledger, w)
  {
    OrderedIsHistory(ledger, w);
    assert Position(Ordered(ledger, w), None, 0);
    WalkIsRemaining(Ordered(ledger, w), None, limit);
    AllRemaining(Ordered(ledger, w));
  }

  // ---- paging while entries are appended ----

  /** The cursor sent with the k-th request. */
  function HeldAt(pages: seq<Page>, k: nat): Option<Cursor>
    requires k <= |pages|
  {
    if k == 0 then None else pages[k - 1].next
  }

  /** One walk whose k-th page is read from the k-th ledger. */
  ghost predicate Reading(ledgers: seq<seq<LedgerRow>>, w: Id, limit: nat, pages: seq<Page>) {
    && limit >= 1 && |pages| <= |ledgers|
    && (forall k: nat {:trigger ReadAt(ledgers, w, limit, pages, k)} | k < |pages| :: ReadAt(ledgers, w, limit, pages, k))
  }

  /** The k-th page is asked for at the cursor of the one before, which has one. */
  predicate ReadAt(ledgers: seq<seq<LedgerRow>>, w: Id, limit: nat, pages: seq<Page>, k: nat)
    requires limit >= 1 && k < |pages| <= |ledgers|
  {
    pages[k] == PageOf(Ordered(ledgers[k], w), HeldAt(pages, k), limit) && (k > 0 ==> pages[k - 1].next.Some?)
  }

  /** Each ledger extends the one before by entries that sort after all the wallet had. */
  ghost predicate GrowsLater(ledgers: seq<seq<LedgerRow>>, w: Id) {
    forall k: nat {:trigger GrowsAt(ledgers, w, k)} | k < |ledgers| :: GrowsAt(ledgers, w, k)
  }

  ghost predicate GrowsAt(ledgers: seq<seq<LedgerRow>>, w: Id, k: nat)
    requires k < |ledgers|
  {
    DistinctIds(ledgers[k]) && (k > 0 ==> Later(ledgers[k - 1], ledgers[k], w))
  }

  ghost predicate Later(a: seq<LedgerRow>, b: seq<LedgerRow>, w: Id) {
    a <= b && forall i, j | 0 <= i < |a| <= j < |b| && a[i].wallet == w && b[j].wallet == w :: Less(KeyOf(a[i]), KeyOf(b[j]))
  }

  lemma {:induction false} LaterExtends(a: seq<LedgerRow>, b: seq<LedgerRow>, w: Id)
    requires DistinctIds(b) && Later(a, b, w)
    ensures Ordered(a, w) <= Ordered(b, w)
    decreases |b|
  {
    if |a| == |b| {
      assert a == b;
    } else {
      var n := |b| - 1;
      LaterExtends(a, b[..n], w);
      OrderedIsHistory(b[..n], w);
      OrderedIsHistory(a, w);
      if b[n].wallet == w {
        InsertAfterPrefix(Ordered(a, w), Ordered(b[..n], w), b[n]);
      }
    }
  }

  lemma {:induction false} InsertAfterPrefix(p: seq<LedgerRow>, s: seq<LedgerRow>, e: LedgerRow)
    requires p <= s && forall x | x in p :: Less(KeyOf(x), KeyOf(e))
    ensures p <= Insert(s, e)
  {
    if |s| > |p| {
      InsertAfterPrefix(p, s[..|s| - 1], e);
    } else if s != [] {
      assert s[|s| - 1] in p;
    }
  }

  function Concat(pages: seq<Page>): seq<LedgerRow> {
    if pages == [] then [] else Concat(pages[..|pages| - 1]) + pages[|pages| - 1].entries
  }

  /** How many entries `k` full pages hold. */
  function Done(k: nat, limit: nat): (n: nat)
    ensures k > 0 && limit > 0 ==> n > 0
  {
    if k == 0 then 0 else Done(k - 1, limit) + limit
  }

  /** `read` is the first `n` entries when there is a cursor to go on from, and all of them when there is none. */
  predicate Delivered(s: seq<LedgerRow>, read: seq<LedgerRow>, c: Option<Cursor>, n: nat) {
    if c.Some? then 0 < n < |s| && read == s[..n] && c == Some(KeyOf(s[n - 1])) else read == s
  }

  /** While later entries keep arriving, the pages read so far are exactly the first entries, without gap or repeat;
      a last page means the whole ledger as it then stands has been read. */
  lemma {:induction false} PagingUnderAppends(ledgers: seq<seq<LedgerRow>>, w: Id, limit: nat, pages: seq<Page>)
    requires Reading(ledgers, w, limit, pages) && GrowsLater(ledgers, w) && pages != []
    ensures Delivered(Ordered(ledgers[|pages| - 1], w), Concat(pages), HeldAt(pages, |pages|), Done(|pages|, limit))
  {
    PagingFacts(ledgers, w, limit, pages);
    if |pages| > 1 {
      PagingUnderAppends(ledgers, w, limit, pages[..|pages| - 1]);
    }
    PagingNext(ledgers, w, limit, pages);
  }

  lemma PagingNext(ledgers: seq<seq<LedgerRow>>, w: Id, limit: nat, pages: seq<Page>)
    requires Reading(ledgers, w, limit, pages) && GrowsLater(ledgers, w) && pages != []
    requires var n := |pages| - 1;
             n > 0 ==> Delivered(Ordered(ledgers[n - 1], w), Concat(pages[..n]), HeldAt(pages[..n], n), Done(n, limit))
    ensures Delivered(Ordered(ledgers[|pages| - 1], w), Concat(pages), HeldAt(pages, |pages|), Done(|pages|, limit))
  {
    var n := |pages| - 1;
    PagingFacts(ledgers, w, limit, pages);
    var s, read, c := Ordered(ledgers[n], w), Concat(pages[..n]), HeldAt(pages, n);
    PagingStep(if n == 0 then [] else Ordered(ledgers[n - 1], w), s, read, c, limit, Done(n, limit));
    assert Concat(pages) == read + pages[n].entries;
  }

  lemma PagingFacts(ledgers: seq<seq<LedgerRow>>, w: Id, limit: nat, pages: seq<Page>)
    requires Reading(ledgers, w, limit, pages) && GrowsLater(ledgers, w) && pages != []
    ensures var n := |pages| - 1;
            && Ascending(Ordered(ledgers[n], w)) && pages[n] == PageOf(Ordered(ledgers[n], w), HeldAt(pages, n), limit)
            && Reading(ledgers, w, limit, pages[..n])
            && (n > 0 ==> pages[n - 1].next.Some? && Ordered(ledgers[n - 1], w) <= Ordered(ledgers[n], w))
  {
    var n := |pages| - 1;
    assert GrowsAt(ledgers, w, n) && ReadAt(ledgers, w, limit, pages, n);
    OrderedIsHistory(ledgers[n], w);
    ReadingPrefix(ledgers, w, limit, pages);
    if n > 0 {
      LaterExtends(ledgers[n - 1], ledgers[n], w);
    }
  }

  /** One more page, from a list that has only grown past its end. */
  lemma PagingStep(before: seq<LedgerRow>, s: seq<LedgerRow>, read: seq<LedgerRow>, c: Option<Cursor>, limit: nat, from: nat)
    requires limit >= 1 && before <= s && Ascending(s)
    requires if from == 0 then c.None? && read == [] else c.Some? && Delivered(before, read, c, from)
    ensures Delivered(s, read + PageOf(s, c, limit).entries, PageOf(s, c, limit).next, from + limit)
  {
    PrefixPosition(before, s, c, from);
    PageAt(s, c, limit, from);
    PagesJoin(s, from, limit);
  }

  lemma PagesJoin(s: seq<LedgerRow>, from: nat, limit: nat)
    requires from <= |s|
    ensures |s| > from + limit ==> s[..from] + s[from..from + limit] == s[..from + limit]
    ensures s[..from] + s[from..] == s
  {
  }

  /** A cursor placed in a prefix is placed at the same position in the whole. */
  lemma PrefixPosition(p: seq<LedgerRow>, s: seq<LedgerRow>, c: Option<Cursor>, from: nat)
    requires p <= s && Position(p, c, from) && from <= |p|
    ensures Position(s, c, from) && p[..from] == s[..from]
  {
  }

  lemma ReadingPrefix(ledgers: seq<seq<LedgerRow>>, w: Id, limit: nat, pages: seq<Page>)
    requires Reading(ledgers, w, limit, pages) && pages != []
    ensures Reading(ledgers, w, limit, pages[..|pages| - 1])
  {
    var less := pages[..|pages| - 1];
    forall k: nat | k < |less| ensures ReadAt(ledgers, w, limit, less, k) {
      assert ReadAt(ledgers, w, limit, pages, k) && HeldAt(less, k) == HeldAt(pages, k);
    }
  }

  /** A walk interrupted at a cursor later delivers exactly the entries beyond it: of the entries appended meanwhile,
      those that sort at or before the cursor, and only those, are never delivered. */
  lemma {:induction false} DeliveredIffBeyond(ledger: seq<LedgerRow>, w: Id, c: Cursor, i: nat, e: LedgerRow, limit: nat)
    requires limit >= 1 && DistinctIds(ledger) && i < |Ordered(ledger, w)| && c == KeyOf(Ordered(ledger, w)[i])
    ensures Placed(Ordered(ledger, w), Some(c))
    ensures e in Walk(Ordered(ledger, w), Some(c), limit) <==> e in ledger && e.wallet == w && Less(c, KeyOf(e))
  {
    OrderedIsHistory(ledger, w);
    var s := Ordered(ledger, w);
    assert Position(s, Some(c), i + 1);
    WalkIsRemaining(s, Some(c), limit);
    RemainingIsSuffix(s, i, Some(c));
    if e in s && Less(c, KeyOf(e)) {
      var j :| 0 <= j < |s| && s[j] == e;
      assert j < i ==> InOrder(s, j, i);
      assert s[i + 1..][j - i - 1] == e;
    }
  }

  /** Two entries of one instant can be split by a cursor: appended with the smaller id, the second is skipped. */
  lemma SameInstantCanBeSkipped()
    ensures exists a: LedgerRow, b: LedgerRow ::
              a.createdAt == b.createdAt && DistinctIds([a, b]) && a.wallet == b.wallet
              && Remaining(Ordered([a], a.wallet), None) == [a]
              && b !in Remaining(Ordered([a, b], a.wallet), Some(KeyOf(a)))
  {
    var a := LedgerRow(2, 1, 1, Domain.Credit, 1, 0, 1, 1, 7);
    var b := LedgerRow(1, 1, 2, Domain.Credit, 1, 1, 2, 2, 7);
    assert [a][..0] == [] && [a, b][..1] == [a];
    assert Ordered([a], 1) == [a];
    AllRemaining([a]);
    assert !Beyond(Some(KeyOf(a)), b);
    assert b !in Remaining(Ordered([a, b], 1), Some(KeyOf(a)));
  }
}
