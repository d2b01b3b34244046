/** The schema alone keeps the ledger's integrity: whatever batch commits, from any client. */
module Integrity {
  import opened Prelude
  import opened Domain
  import opened Schema

  /** A wallet's entries in insertion order. */
  function History(ledger: seq<LedgerRow>, w: Id): (h: seq<LedgerRow>)
    ensures forall i | 0 <= i < |h| :: h[i] in ledger && h[i].wallet == w
  {
    if ledger == [] then []
    else
      var last := ledger[|ledger| - 1];
      History(ledger[..|ledger| - 1], w) + (if last.wallet == w then [last] else [])
  }

  /** The history and the wallet row agree: gapless versions from 1 or 2, each entry starting from
      the balance the one before left, the last one leaving the stored balance at the stored version. */
  predicate Chained(h: seq<LedgerRow>, balance: int, version: int) {
    if h == [] then balance == 0 && version == 1
    else
      && (h[0].version == 1 || h[0].version == 2) && h[0].before == 0
      && h[|h| - 1].after == balance && h[|h| - 1].version == version
      && (forall i | 0 <= i < |h| :: h[i].version == h[0].version + i)
      && (forall i: nat {:trigger Linked(h, i)} | 0 < i < |h| :: Linked(h, i))
  }

  /** The i-th entry starts from the balance the one before it left. */
  predicate Linked(h: seq<LedgerRow>, i: nat)
    requires 0 < i < |h|
  {
    h[i].before == h[i - 1].after
  }

  /** Unique indexes hold between stored rows. */
  ghost predicate KeysUnique(db: Db) {
    && (forall a, b {:trigger Clash(db.txs[a], db.txs[b])} | a in db.txs && b in db.txs && a != b :: !Clash(db.txs[a], db.txs[b]))
    && (forall i, j {:trigger LedgerClash(db.ledger[i], db.ledger[j])} | 0 <= i < j < |db.ledger| :: !LedgerClash(db.ledger[i], db.ledger[j]))
  }

  predicate EntrySound(db: Db, i: nat)
    requires i < |db.ledger|
  {
    LedgerCheck(db.ledger[i]) && LedgerTxOk(db.ledger[i], db)
  }

  predicate ChainAt(db: Db, w: Id)
    requires w in db.wallets
  {
    Chained(History(db.ledger, w), db.wallets[w].balance, db.wallets[w].version)
  }

  ghost predicate EntriesSound(db: Db) {
    forall i {:trigger EntrySound(db, i)} | 0 <= i < |db.ledger| :: EntrySound(db, i)
  }

  ghost predicate ChainsSound(db: Db) {
    forall w {:trigger ChainAt(db, w)} | w in db.wallets :: ChainAt(db, w)
  }

  ghost predicate Intact(db: Db) {
    KeysUnique(db) && EntriesSound(db) && ChainsSound(db)
  }

  // ---- histories ----

  lemma HistorySplit(l: seq<LedgerRow>, more: seq<LedgerRow>, w: Id)
    ensures History(l + more, w) == History(l, w) + History(more, w)
  {
    if more == [] {
      assert l + more == l;
    } else {
      assert (l + more)[..|l + more| - 1] == l + more[..|more| - 1];
      HistorySplit(l, more[..|more| - 1], w);
    }
  }

  lemma HistoryNone(l: seq<LedgerRow>, w: Id)
    requires forall i | 0 <= i < |l| :: l[i].wallet != w
    ensures History(l, w) == []
  {
  }

  lemma HistoryHas(l: seq<LedgerRow>, w: Id, i: nat)
    requires i < |l| && l[i].wallet == w
    ensures l[i] in History(l, w)
  {
    if i < |l| - 1 {
      HistoryHas(l[..|l| - 1], w, i);
    }
  }

  /** When only one of `l` belongs to `w`, it is the whole history. */
  lemma HistoryOne(l: seq<LedgerRow>, w: Id, i: nat)
    requires i < |l| && l[i].wallet == w
    requires forall j | 0 <= j < |l| && j != i :: l[j].wallet != w
    ensures History(l, w) == [l[i]]
  {
    if i == |l| - 1 {
      HistoryNone(l[..|l| - 1], w);
    } else {
      HistoryOne(l[..|l| - 1], w, i);
    }
  }

  /** In an intact database no entry is ahead of its wallet, and the wallet's version has an entry unless it is the first. */
  lemma EntryBehindWallet(db: Db, i: nat)
    requires ChainsSound(db) && i < |db.ledger| && db.ledger[i].wallet in db.wallets
    ensures db.ledger[i].version <= db.wallets[db.ledger[i].wallet].version
  {
    var w := db.ledger[i].wallet;
    HistoryHas(db.ledger, w, i);
    assert ChainAt(db, w);
    var h := History(db.ledger, w);
    var k :| 0 <= k < |h| && h[k] == db.ledger[i];
    assert h[|h| - 1].version == h[0].version + (|h| - 1);
  }

  // ---- along a batch ----

  /** Between two points of an accepted batch nothing financial is lost and versions only rise. */
  ghost predicate Grown(a: Db, c: Db) {
    && a.ledger <= c.ledger
    && (forall w | w in a.wallets :: w in c.wallets && a.wallets[w].version <= c.wallets[w].version
                                     && a.wallets[w].currency == c.wallets[w].currency && a.wallets[w].player == c.wallets[w].player)
    && (forall t | t in a.txs :: t in c.txs && SameTxIdentity(a.txs[t], c.txs[t])
                                 && (a.txs[t].status.Terminal() ==> a.txs[t] == c.txs[t]))
  }

  lemma StepGrows(a: Db, c: Change)
    requires Allowed(a, c)
    ensures Grown(a, Apply(a, c))
  {
  }

  lemma BatchGrows(db: Db, b: seq<Change>, j: nat, k: nat)
    requires Immediate(db, b) && j <= k <= |b|
    ensures Grown(State(db, b, j), State(db, b, k))
    decreases k
  {
    if j < k {
      BatchGrows(db, b, j, k - 1);
      assert AllowedAt(db, b, k - 1);
      StepGrows(State(db, b, k - 1), b[k - 1]);
    }
  }

  lemma StepKeepsKeys(a: Db, c: Change)
    requires Allowed(a, c) && KeysUnique(a)
    ensures KeysUnique(Apply(a, c))
  {
  }

  lemma BatchKeepsKeys(db: Db, b: seq<Change>, k: nat)
    requires Immediate(db, b) && KeysUnique(db) && k <= |b|
    ensures KeysUnique(State(db, b, k))
  {
    if k > 0 {
      BatchKeepsKeys(db, b, k - 1);
      assert AllowedAt(db, b, k - 1);
      StepKeepsKeys(State(db, b, k - 1), b[k - 1]);
    }
  }

  lemma LedgerStep(db: Db, b: seq<Change>, k: nat)
    requires k < |b| && AllowedAt(db, b, k)
    ensures State(db, b, k + 1).ledger == State(db, b, k).ledger + (if b[k].InsertLedger? then [b[k].entry] else [])
  {
  }

  lemma WalletStep(db: Db, b: seq<Change>, k: nat, w: Id)
    requires k < |b| && AllowedAt(db, b, k)
    ensures var at, after := State(db, b, k).wallets, State(db, b, k + 1).wallets;
            && (w in at ==> w in after && WalletTrigger(at[w], after[w]))
            && (w in at && !ChangesBalance(State(db, b, k), b[k], w) ==> after[w].balance == at[w].balance && after[w].version == at[w].version)
            && (ChangesBalance(State(db, b, k), b[k], w) ==> after[w] == b[k].wallet)
            && (w in after && w !in at ==> b[k] == InsertWallet(w, after[w]))
  {
  }

  /** Every ledger row beyond the first `|db.ledger|` was inserted by a statement of the batch. */
  lemma InsertedBy(db: Db, b: seq<Change>, k: nat, i: nat) returns (j: nat)
    requires Immediate(db, b) && k <= |b| && |db.ledger| <= i < |State(db, b, k).ledger|
    ensures j < k && b[j] == InsertLedger(State(db, b, k).ledger[i])
  {
    LedgerStep(db, b, k - 1);
    if i < |State(db, b, k - 1).ledger| {
      j := InsertedBy(db, b, k - 1, i);
    } else {
      j := k - 1;
    }
  }

  lemma NewEntry(db: Db, b: seq<Change>, i: nat)
    requires Accepted(db, b) && |db.ledger| <= i < |Final(db, b).ledger|
    ensures var e := Final(db, b).ledger[i];
            LedgerCheck(e) && LedgerChainOk(e, Final(db, b)) && LedgerTxOk(e, Final(db, b))
  {
    var j := InsertedBy(db, b, |b|, i);
    assert AllowedAt(db, b, j);
    assert DeferredAt(db, b, j);
  }

  predicate ChangesBalance(at: Db, c: Change, w: Id) {
    c.UpdateWallet? && c.id == w && w in at.wallets && at.wallets[w].balance != c.wallet.balance
  }

  /** A balance change writes the version the wallet has at commit, and carries its entry. */
  lemma ChangeIsLast(db: Db, b: seq<Change>, k: nat, w: Id) returns (i: nat)
    requires Accepted(db, b) && Intact(db) && k < |b| && ChangesBalance(State(db, b, k), b[k], w)
    ensures w in Final(db, b).wallets && b[k].wallet.version == Final(db, b).wallets[w].version
    ensures |db.ledger| <= i < |Final(db, b).ledger|
    ensures var e, at := Final(db, b).ledger[i], State(db, b, k);
            && e.wallet == w && e.version == b[k].wallet.version == at.wallets[w].version + 1
            && e.after == b[k].wallet.balance && e.before == at.wallets[w].balance
  {
    var final, at := Final(db, b), State(db, b, k);
    assert AllowedAt(db, b, k);
    assert DeferredAt(db, b, k);
    var e := EntryAt(final.ledger, w, b[k].wallet.version).value;
    i :| 0 <= i < |final.ledger| && final.ledger[i] == e;
    BatchGrows(db, b, 0, k);
    BatchGrows(db, b, 0, |b|);
    if i < |db.ledger| {
      assert db.ledger[i] == e;
      assert EntrySound(db, i);
      EntryBehindWallet(db, i);
      assert false;
    }
    NewEntry(db, b, i);
  }

  ghost predicate HasAt(db: Db, b: seq<Change>, k: nat, w: Id)
    requires k <= |b|
  {
    w in State(db, b, k).wallets
  }

  ghost function VersionAt(db: Db, b: seq<Change>, k: nat, w: Id): int
    requires k <= |b| && HasAt(db, b, k, w)
  {
    State(db, b, k).wallets[w].version
  }

  /** The k-th statement changes the wallet's balance. */
  ghost predicate ChangesAt(db: Db, b: seq<Change>, k: nat, w: Id)
    requires k < |b|
  {
    ChangesBalance(State(db, b, k), b[k], w)
  }

  /** After a balance change the wallet is already at its final version; before it, one version behind. */
  lemma ChangeReachesFinal(db: Db, b: seq<Change>, k: nat, w: Id)
    requires Accepted(db, b) && Intact(db) && k < |b| && ChangesAt(db, b, k, w)
    ensures HasAt(db, b, k, w) && HasAt(db, b, k + 1, w) && HasAt(db, b, |b|, w)
    ensures VersionAt(db, b, k, w) + 1 == VersionAt(db, b, |b|, w) == VersionAt(db, b, k + 1, w)
  {
    var _ := ChangeIsLast(db, b, k, w);
    assert AllowedAt(db, b, k);
    WalletStep(db, b, k, w);
  }

  lemma VersionRises(db: Db, b: seq<Change>, j: nat, k: nat, w: Id)
    requires Immediate(db, b) && j <= k <= |b| && HasAt(db, b, j, w)
    ensures HasAt(db, b, k, w) && VersionAt(db, b, j, w) <= VersionAt(db, b, k, w)
  {
    BatchGrows(db, b, j, k);
  }

  /** No accepted batch changes one wallet's balance twice. */
  lemma AtMostOneBalanceChange(db: Db, b: seq<Change>, j: nat, k: nat, w: Id)
    requires Accepted(db, b) && Intact(db) && j < k < |b|
    ensures !(ChangesAt(db, b, j, w) && ChangesAt(db, b, k, w))
  {
    if ChangesAt(db, b, j, w) && ChangesAt(db, b, k, w) {
      ChangeReachesFinal(db, b, j, w);
      ChangeReachesFinal(db, b, k, w);
      VersionRises(db, b, j + 1, k, w);
    }
  }

  /** The wallet moved from (balance, version) by the entry its new version names. */
  ghost predicate Stepped(final: Db, w: Id, from: int, version: int, at: Db)
    requires w in at.wallets
  {
    && at.wallets[w].version == version + 1
    && var e := EntryAt(final.ledger, w, version + 1);
       e.Some? && e.value.before == from && e.value.after == at.wallets[w].balance
  }

  /** How a wallet of the batch's intermediate state relates to the starting and final states. */
  ghost predicate Tracked(db: Db, final: Db, w: Id, at: Db)
    requires w in at.wallets
  {
    if w in db.wallets then
      || (at.wallets[w].balance == db.wallets[w].balance && at.wallets[w].version == db.wallets[w].version)
      || Stepped(final, w, db.wallets[w].balance, db.wallets[w].version, at)
    else
      || (at.wallets[w].version == 1 && WalletInsertOk(w, at.wallets[w], final))
      || (Stepped(final, w, 0, 1, at) && EntryAt(final.ledger, w, 1).None?)
  }

  lemma TrackStep(db: Db, b: seq<Change>, k: nat, w: Id)
    requires Accepted(db, b) && Intact(db) && k < |b|
    requires w in State(db, b, k).wallets && Tracked(db, Final(db, b), w, State(db, b, k))
    ensures w in State(db, b, k + 1).wallets && Tracked(db, Final(db, b), w, State(db, b, k + 1))
  {
    var at, after, final := State(db, b, k), State(db, b, k + 1), Final(db, b);
    assert AllowedAt(db, b, k);
    if ChangesBalance(at, b[k], w) {
      var i := ChangeIsLast(db, b, k, w);
      var e := EntryAt(final.ledger, w, b[k].wallet.version).value;
      assert DeferredAt(db, b, k);
      BatchGrows(db, b, 0, k);
      var first := EntryAt(final.ledger, w, 1);
      if w in db.wallets {
        if at.wallets[w].version != db.wallets[w].version {
          EntryAheadIsFinal(db, b, w, at.wallets[w].version);
          assert false;
        }
      } else if at.wallets[w].version != 1 {
        EntryAheadIsFinal(db, b, w, at.wallets[w].version);
        assert false;
      } else if first.Some? {
        EntryAheadIsFinal(db, b, w, 1);
        assert false;
      }
    } else if b[k].InsertWallet? && b[k].id == w {
      assert false;
    }
  }

  /** An entry for a version the wallet did not have at the start is new, so its version is the final one. */
  lemma EntryAheadIsFinal(db: Db, b: seq<Change>, w: Id, version: int)
    requires Accepted(db, b) && Intact(db) && EntryAt(Final(db, b).ledger, w, version).Some?
    requires w in db.wallets ==> db.wallets[w].version < version
    ensures w in Final(db, b).wallets && Final(db, b).wallets[w].version == version
  {
    var final := Final(db, b);
    var e := EntryAt(final.ledger, w, version).value;
    var i :| 0 <= i < |final.ledger| && final.ledger[i] == e;
    BatchGrows(db, b, 0, |b|);
    if i < |db.ledger| {
      assert db.ledger[i] == e;
      assert EntrySound(db, i);
      EntryBehindWallet(db, i);
      assert false;
    }
    NewEntry(db, b, i);
  }

  lemma TrackBirth(db: Db, b: seq<Change>, k: nat, w: Id)
    requires Accepted(db, b) && k < |b| && w !in State(db, b, k).wallets && w in State(db, b, k + 1).wallets
    ensures Tracked(db, Final(db, b), w, State(db, b, k + 1))
  {
    WalletStep(db, b, k, w);
    BatchGrows(db, b, 0, k);
    assert DeferredAt(db, b, k);
  }

  lemma Track(db: Db, b: seq<Change>, k: nat, w: Id)
    requires Accepted(db, b) && Intact(db) && k <= |b| && w in State(db, b, k).wallets
    ensures Tracked(db, Final(db, b), w, State(db, b, k))
  {
    if k > 0 {
      if w in State(db, b, k - 1).wallets {
        Track(db, b, k - 1, w);
        TrackStep(db, b, k - 1, w);
      } else {
        TrackBirth(db, b, k - 1, w);
      }
    }
  }

  /** Any two of a wallet's new entries are one entry. */
  lemma OneNewEntry(db: Db, b: seq<Change>, i: nat, j: nat)
    requires Accepted(db, b) && Intact(db) && |db.ledger| <= i < |Final(db, b).ledger| && |db.ledger| <= j < |Final(db, b).ledger|
    requires Final(db, b).ledger[i].wallet == Final(db, b).ledger[j].wallet
    ensures i == j
  {
    NewEntry(db, b, i);
    NewEntry(db, b, j);
    BatchKeepsKeys(db, b, |b|);
    var l := Final(db, b).ledger;
    assert i < j ==> !LedgerClash(l[i], l[j]);
    assert j < i ==> !LedgerClash(l[j], l[i]);
  }

  /** A wallet no new entry belongs to stands where it stood. */
  lemma UntouchedWallet(db: Db, b: seq<Change>, w: Id)
    requires Accepted(db, b) && Intact(db) && w in Final(db, b).wallets
    requires forall i | |db.ledger| <= i < |Final(db, b).ledger| :: Final(db, b).ledger[i].wallet != w
    ensures w in db.wallets ==> Final(db, b).wallets[w].balance == db.wallets[w].balance && Final(db, b).wallets[w].version == db.wallets[w].version
    ensures w !in db.wallets ==> Final(db, b).wallets[w].balance == 0 && Final(db, b).wallets[w].version == 1
  {
    var final := Final(db, b);
    Track(db, b, |b|, w);
    var e := EntryAt(final.ledger, w, final.wallets[w].version);
    if e.Some? {
      var i :| 0 <= i < |final.ledger| && final.ledger[i] == e.value;
      OldEntryBehind(db, b, i);
    }
  }

  lemma OldEntryBehind(db: Db, b: seq<Change>, i: nat)
    requires Immediate(db, b) && Intact(db) && i < |db.ledger|
    ensures i < |Final(db, b).ledger| && Final(db, b).ledger[i] == db.ledger[i]
    ensures var e := db.ledger[i]; e.wallet in db.wallets && e.version <= db.wallets[e.wallet].version
  {
    BatchGrows(db, b, 0, |b|);
    assert EntrySound(db, i);
    EntryBehindWallet(db, i);
  }

  lemma NoHistoryWithoutWallet(db: Db, w: Id)
    requires EntriesSound(db) && w !in db.wallets
    ensures History(db.ledger, w) == []
  {
    forall i | 0 <= i < |db.ledger| ensures db.ledger[i].wallet != w {
      assert EntrySound(db, i);
    }
    HistoryNone(db.ledger, w);
  }

  lemma LedgerAppended(db: Db, b: seq<Change>)
    requires Immediate(db, b)
    ensures |db.ledger| <= |Final(db, b).ledger|
    ensures Final(db, b).ledger == db.ledger + Final(db, b).ledger[|db.ledger|..]
  {
    BatchGrows(db, b, 0, |b|);
  }

  /** One entry, continuing from where the chain stood, is a chain again. */
  lemma ChainSnoc(h: seq<LedgerRow>, balance: int, version: int, e: LedgerRow)
    requires Chained(h, balance, version)
    requires e.before == balance && (e.version == version + 1 || (h == [] && e.version == 1))
    ensures Chained(h + [e], e.after, e.version)
  {
    forall i: nat | 0 < i < |h + [e]| ensures Linked(h + [e], i) {
      assert i < |h| ==> Linked(h, i);
    }
  }

  lemma ChainPrefix(h: seq<LedgerRow>, balance: int, version: int)
    requires Chained(h, balance, version) && |h| > 1
    ensures var p := h[..|h| - 1]; Chained(p, p[|p| - 1].after, p[|p| - 1].version) && h[|h| - 1].before == p[|p| - 1].after
  {
    var p := h[..|h| - 1];
    assert Linked(h, |h| - 1);
    forall i: nat | 0 < i < |p| ensures Linked(p, i) {
      assert Linked(h, i);
    }
  }

  lemma OnePerVersion(db: Db, i: nat, j: nat)
    requires KeysUnique(db) && i < |db.ledger| && j < |db.ledger|
    requires db.ledger[i].wallet == db.ledger[j].wallet && db.ledger[i].version == db.ledger[j].version
    ensures i == j
  {
    assert i < j ==> !LedgerClash(db.ledger[i], db.ledger[j]);
    assert j < i ==> !LedgerClash(db.ledger[j], db.ledger[i]);
  }

  /** The entry an intact wallet's own version names is the last of its history. */
  lemma LastEntry(db: Db, w: Id, h: seq<LedgerRow>)
    requires Intact(db) && w in db.wallets && h == History(db.ledger, w) && h != []
    ensures EntryAt(db.ledger, w, db.wallets[w].version) == Some(h[|h| - 1])
  {
    var last, v := h[|h| - 1], db.wallets[w].version;
    var j :| 0 <= j < |db.ledger| && db.ledger[j] == last;
    assert ChainAt(db, w);
    NamedEntry(db, j);
  }

  /** A new entry continues from the balance and version its wallet had. */
  lemma NewEntryContinues(db: Db, b: seq<Change>, w: Id, i: nat)
    requires Accepted(db, b) && Intact(db) && w in Final(db, b).wallets
    requires |db.ledger| <= i < |Final(db, b).ledger| && Final(db, b).ledger[i].wallet == w
    ensures var e, f := Final(db, b).ledger[i], Final(db, b);
            && f.wallets[w].balance == e.after && f.wallets[w].version == e.version
            && (w in db.wallets ==> e.before == db.wallets[w].balance && e.version == db.wallets[w].version + 1)
            && (w !in db.wallets ==> e.before == 0 && 1 <= e.version <= 2)
  {
    var e := Final(db, b).ledger[i];
    NewEntry(db, b, i);
    Track(db, b, |b|, w);
    BatchKeepsKeys(db, b, |b|);
    NamedEntry(Final(db, b), i);
    if w in db.wallets {
      NewEntryAdvances(db, b, w, i);
    }
  }

  /** Looking an entry up by its wallet and version finds it. */
  lemma NamedEntry(db: Db, i: nat)
    requires KeysUnique(db) && i < |db.ledger|
    ensures EntryAt(db.ledger, db.ledger[i].wallet, db.ledger[i].version) == Some(db.ledger[i])
  {
    var named := EntryAt(db.ledger, db.ledger[i].wallet, db.ledger[i].version).value;
    var p :| 0 <= p < |db.ledger| && db.ledger[p] == named;
    OnePerVersion(db, p, i);
  }

  /** A wallet that gained an entry is past the version it started with. */
  lemma NewEntryAdvances(db: Db, b: seq<Change>, w: Id, i: nat)
    requires Accepted(db, b) && Intact(db) && w in db.wallets && w in Final(db, b).wallets
    requires |db.ledger| <= i < |Final(db, b).ledger| && Final(db, b).ledger[i].wallet == w
    ensures Final(db, b).wallets[w].version != db.wallets[w].version
  {
    NewEntry(db, b, i);
    var h := History(db.ledger, w);
    assert ChainAt(db, w);
    if h == [] {
      Track(db, b, |b|, w);
    } else {
      var j :| 0 <= j < |db.ledger| && db.ledger[j] == h[|h| - 1];
      OldEntryBehind(db, b, j);
      BatchKeepsKeys(db, b, |b|);
      if Final(db, b).wallets[w].version == db.wallets[w].version {
        OnePerVersion(Final(db, b), i, j);
      }
    }
  }

  /** The rows beyond the first `n` hold one entry of `w`. */
  lemma HistorySnoc(l: seq<LedgerRow>, n: nat, w: Id, i: nat)
    requires n <= i < |l| && l[i].wallet == w && forall j | n <= j < |l| && j != i :: l[j].wallet != w
    ensures History(l, w) == History(l[..n], w) + [l[i]]
  {
    assert l == l[..n] + l[n..];
    HistorySplit(l[..n], l[n..], w);
    HistoryOne(l[n..], w, i - n);
  }

  lemma TouchedHistory(db: Db, b: seq<Change>, w: Id, i: nat)
    requires Accepted(db, b) && Intact(db)
    requires |db.ledger| <= i < |Final(db, b).ledger| && Final(db, b).ledger[i].wallet == w
    ensures History(Final(db, b).ledger, w) == History(db.ledger, w) + [Final(db, b).ledger[i]]
  {
    LedgerAppended(db, b);
    var l, n := Final(db, b).ledger, |db.ledger|;
    assert l[..n] == db.ledger;
    forall j | n <= j < |l| && j != i ensures l[j].wallet != w {
      if l[j].wallet == w {
        OneNewEntry(db, b, i, j);
      }
    }
    HistorySnoc(l, n, w, i);
  }

  lemma UntouchedHistory(db: Db, b: seq<Change>, w: Id)
    requires Immediate(db, b)
    requires forall i | |db.ledger| <= i < |Final(db, b).ledger| :: Final(db, b).ledger[i].wallet != w
    ensures History(Final(db, b).ledger, w) == History(db.ledger, w)
  {
    LedgerAppended(db, b);
    var added := Final(db, b).ledger[|db.ledger|..];
    HistorySplit(db.ledger, added, w);
    HistoryNone(added, w);
  }

  lemma ChainKept(db: Db, b: seq<Change>, w: Id)
    requires Accepted(db, b) && Intact(db) && w in Final(db, b).wallets
    ensures ChainAt(Final(db, b), w)
  {
    var h := History(db.ledger, w);
    if w !in db.wallets {
      NoHistoryWithoutWallet(db, w);
    } else {
      assert ChainAt(db, w);
    }
    if i :| |db.ledger| <= i < |Final(db, b).ledger| && Final(db, b).ledger[i].wallet == w {
      TouchedHistory(db, b, w, i);
      NewEntryContinues(db, b, w, i);
      ChainSnoc(h, if w in db.wallets then db.wallets[w].balance else 0, if w in db.wallets then db.wallets[w].version else 1,
                Final(db, b).ledger[i]);
    } else {
      UntouchedHistory(db, b, w);
      UntouchedWallet(db, b, w);
    }
  }

  lemma EntriesKept(db: Db, b: seq<Change>)
    requires Accepted(db, b) && Intact(db)
    ensures EntriesSound(Final(db, b))
  {
    var final := Final(db, b);
    BatchGrows(db, b, 0, |b|);
    forall i | 0 <= i < |final.ledger| ensures EntrySound(final, i) {
      if i < |db.ledger| {
        assert final.ledger[i] == db.ledger[i];
        assert EntrySound(db, i);
      } else {
        NewEntry(db, b, i);
      }
    }
  }

  /** Integrity is inductive for every client: an accepted batch leaves an intact database intact. */
  lemma SchemaInductive(db: Db, b: seq<Change>)
    requires Accepted(db, b) && Intact(db)
    ensures Intact(Final(db, b)) && Grown(db, Final(db, b))
  {
    BatchKeepsKeys(db, b, |b|);
    BatchGrows(db, b, 0, |b|);
    EntriesKept(db, b);
    forall w | w in Final(db, b).wallets ensures ChainAt(Final(db, b), w) {
      ChainKept(db, b, w);
    }
  }

  // ---- what an intact database guarantees ----

  function Net(h: seq<LedgerRow>): int {
    if h == [] then 0 else Net(h[..|h| - 1]) + Signed(h[|h| - 1].direction, h[|h| - 1].amount)
  }

  /** Credits minus debits is the balance the last entry left. */
  lemma {:induction false} NetIsBalance(h: seq<LedgerRow>, balance: int, version: int)
    requires Chained(h, balance, version) && forall e | e in h :: LedgerCheck(e)
    ensures Net(h) == balance
  {
    if h != [] {
      var p, e := h[..|h| - 1], h[|h| - 1];
      assert e in h;
      if p != [] {
        ChainPrefix(h, balance, version);
        NetIsBalance(p, p[|p| - 1].after, p[|p| - 1].version);
      }
    }
  }

  lemma Conserved(db: Db, w: Id)
    requires Intact(db) && w in db.wallets
    ensures Net(History(db.ledger, w)) == db.wallets[w].balance
    ensures |History(db.ledger, w)| == db.wallets[w].version || |History(db.ledger, w)| == db.wallets[w].version - 1
  {
    var h := History(db.ledger, w);
    forall e | e in h ensures LedgerCheck(e) {
      var i :| 0 <= i < |db.ledger| && db.ledger[i] == e;
      assert EntrySound(db, i);
    }
    assert ChainAt(db, w);
    NetIsBalance(h, db.wallets[w].balance, db.wallets[w].version);
  }

  /** The empty database and any run of accepted batches. */
  const EmptyDb := Db(map[], map[], [], map[], [])

  ghost predicate CommittedRun(run: seq<Db>, batches: seq<seq<Change>>) {
    |run| == |batches| + 1 && run[0] == EmptyDb
    && forall k | 0 <= k < |batches| :: Accepted(run[k], batches[k]) && run[k + 1] == Final(run[k], batches[k])
  }

  /** Whatever clients committed, every wallet's balance is its credits minus its debits. */
  lemma {:induction false} EveryCommittedRunConserves(run: seq<Db>, batches: seq<seq<Change>>, w: Id)
    requires CommittedRun(run, batches)
    ensures Intact(run[|batches|])
    ensures w in run[|batches|].wallets ==> Net(History(run[|batches|].ledger, w)) == run[|batches|].wallets[w].balance
  {
    var n := |batches|;
    if n > 0 {
      EveryCommittedRunConserves(run[..n], batches[..n - 1], w);
      SchemaInductive(run[n - 1], batches[n - 1]);
    }
    if w in run[n].wallets {
      Conserved(run[n], w);
    }
  }
}
