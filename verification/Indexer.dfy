/** The indexer's tail, apps/indexer/src/ingest/backfill.service.ts: paginated signature walk, replay, cursor.
    The process may die before any database write; the node may leave a query unanswered.
    */
module Indexer {
  import opened Machine
  import opened Replay
  import opened Refusals

  const PAGE_LIMIT: nat := 1000

  // ------------------------------------------------------------------ the RPC

  /** Position of a signature in a history, or its length. */
  function Find(txs: seq<Tx>, s: Signature): (i: nat)
    ensures i <= |txs| && (i < |txs| ==> txs[i].signature == s)
    ensures forall k :: 0 <= k < i ==> txs[k].signature != s
  {
    if txs == [] then 0 else if txs[0].signature == s then 0 else 1 + Find(txs[1..], s)
  }

  function Lower(view: seq<Tx>, until: Option<Signature>): (lo: nat)
    ensures lo <= |view|
  {
    if until.None? then 0
    else
      var i := Find(view, until.value);
      if i < |view| then i + 1 else 0
  }

  function Upper(view: seq<Tx>, before: Option<Signature>): (hi: nat)
    ensures hi <= |view|
  {
    if before.None? then |view| else Find(view, before.value)
  }

  function Reversed(s: seq<Tx>): (r: seq<Tx>)
    ensures |r| == |s| && forall i :: 0 <= i < |s| ==> r[i] == s[|s| - 1 - i]
  {
    if s == [] then [] else Reversed(s[1..]) + [s[0]]
  }

  /** `getSignaturesForAddress`: newest first, older than `before`, newer than `until`, at most a page. */
  function Page(view: seq<Tx>, before: Option<Signature>, until: Option<Signature>): (page: seq<Tx>)
    ensures |page| <= PAGE_LIMIT
  {
    var lo, hi := Lower(view, until), Upper(view, before);
    if hi <= lo then [] else Reversed(view[(if hi - lo > PAGE_LIMIT then hi - PAGE_LIMIT else lo)..hi])
  }

  /** What the node knows at the i-th page: the history grows while the walk is under way. */
  function View(history: seq<Tx>, growth: seq<seq<Tx>>, i: nat): (view: seq<Tx>)
    ensures history <= view
    decreases i
  {
    if i == 0 then history
    else if i > |growth| then View(history, growth, i - 1)
    else View(history, growth, i - 1) + growth[i - 1]
  }

  lemma FindAt(view: seq<Tx>, history: seq<Tx>, i: nat)
    requires history <= view && i < |history| && UniqueSignatures(history)
    ensures Find(view, history[i].signature) == i
  {
    assert view[i] == history[i];
    assert forall k :: 0 <= k < i ==> view[k] == history[k];
  }

  /** The walk returns every signature newer than the cursor, newest first, with no gap and no repeat, even
      while new transactions arrive between its pages. */
  method FetchSignaturesSince(history: seq<Tx>, growth: seq<seq<Tx>>, until: Option<Signature>) returns (all: seq<Tx>)
    requires UniqueSignatures(history) && (until.None? || Find(history, until.value) < |history|)
    ensures all == Reversed(history[Lower(history, until)..])
  {
    hide Find, Page, Reversed, Lower;
    all := [];
    var before: Option<Signature> := None;
    var pages := 0;
    ghost var lo, hi: nat := Lower(history, until), |history|;
    while true
      invariant lo <= hi <= |history| && lo == Lower(history, until)
      invariant (before.None? && hi == |history| && pages == 0) || (hi < |history| && before == Some(history[hi].signature))
      invariant |all| == |history| - hi && forall i :: 0 <= i < |all| ==> all[i] == history[|history| - 1 - i]
      decreases hi
    {
      var view := View(history, growth, pages);
      var page := Page(view, before, until);
      PageIsNext(history, view, before, until, lo, hi);
      all := all + page;
      if |page| < PAGE_LIMIT {
        hi := lo;
        break;
      }
      before := Some(page[|page| - 1].signature);
      hi := hi - PAGE_LIMIT;
      pages := pages + 1;
    }
    assert all == Reversed(history[lo..]);
  }

  lemma PageIsNext(history: seq<Tx>, view: seq<Tx>, before: Option<Signature>, until: Option<Signature>, lo: nat, hi: nat)
    requires UniqueSignatures(history) && history <= view && lo == Lower(history, until) && lo <= hi <= |history|
    requires until.None? || Find(history, until.value) < |history|
    requires (before.None? && hi == |history| && view == history) || (hi < |history| && before == Some(history[hi].signature))
    ensures var page := Page(view, before, until);
      && |page| == (if hi - lo > PAGE_LIMIT then PAGE_LIMIT else hi - lo)
      && forall i :: 0 <= i < |page| ==> page[i] == history[hi - 1 - i]
  {
    hide Find, Reversed, Lower, Upper, UniqueSignatures;
    LowerSame(view, history, until);
    UpperIs(view, history, before, hi);
    if lo < hi {
      var from := if hi - lo > PAGE_LIMIT then hi - PAGE_LIMIT else lo;
      assert Page(view, before, until) == Reversed(view[from..hi]);
      SliceBackwards(view, history, from, hi);
    }
  }

  lemma SliceBackwards(view: seq<Tx>, history: seq<Tx>, from: nat, hi: nat)
    requires history <= view && from <= hi <= |history|
    ensures |Reversed(view[from..hi])| == hi - from
    ensures forall i :: 0 <= i < hi - from ==> Reversed(view[from..hi])[i] == history[hi - 1 - i]
  {
    hide Reversed;
    var slice := view[from..hi];
    forall i | 0 <= i < hi - from ensures Reversed(slice)[i] == history[hi - 1 - i] {
      assert Reversed(slice)[i] == slice[|slice| - 1 - i];
    }
  }

  lemma LowerSame(view: seq<Tx>, history: seq<Tx>, until: Option<Signature>)
    requires UniqueSignatures(history) && history <= view
    requires until.None? || Find(history, until.value) < |history|
    ensures Lower(view, until) == Lower(history, until)
  {
    if until.Some? {
      FindAt(view, history, Find(history, until.value));
    }
  }

  lemma UpperIs(view: seq<Tx>, history: seq<Tx>, before: Option<Signature>, hi: nat)
    requires UniqueSignatures(history) && history <= view
    requires (before.None? && hi == |history| && view == history) || (hi < |history| && before == Some(history[hi].signature))
    ensures Upper(view, before) == hi
  {
    if before.Some? {
      FindAt(view, history, hi);
    }
  }

  // -------------------------------------------------------- points of progress

  /** Markets are created before anything happens on them, along a whole history. */
  predicate Orderly(known: set<MarketId>, txs: seq<Tx>)
    decreases |txs|
  {
    txs == [] ||
    ((!txs[0].failed ==> KnownMarkets(known, txs[0], 0)) && Orderly(known + Creations(txs[0], 0), txs[1..]))
  }

  /** The markets a transaction creates from event `from` on. */
  function Creations(tx: Tx, from: nat): set<MarketId>
    requires from <= |tx.events|
    decreases |tx.events| - from
  {
    if from == |tx.events| || tx.failed then {}
    else (if tx.events[from].Created? then {tx.events[from].market} else {}) + Creations(tx, from + 1)
  }

  /** Known markets never refuse a row. */
  lemma {:induction false} KnownPersists(db: Db, tx: Tx, from: nat, to: nat)
    requires from <= to <= |tx.events| && KnownMarkets(db.markets.Keys, tx, from)
    ensures PersistEvents(db, tx, from, to).Some?
    ensures to == |tx.events| && !tx.failed ==>
      PersistEvents(db, tx, from, to).value.markets.Keys == db.markets.Keys + Creations(tx, from)
    decreases |tx.events| - from
  {
    if from < to {
      KnownAfter(db, tx, from);
      KnownPersists(PersistEvent(db, Key(tx.signature, from), tx.events[from]).value, tx, from + 1, to);
    }
  }

  lemma {:induction false} CleanStep(db0: Db, txs: seq<Tx>, p: nat)
    requires p < |txs| && ReplayAll(db0, txs[..p]).Some?
    ensures ReplayAll(db0, txs[..p + 1]) == ReplayTx(ReplayAll(db0, txs[..p]).value, txs[p], true)
    decreases p
  {
    hide ReplayTx;
    if p == 0 {
      assert txs[..1] == [txs[0]] && txs[..0] == [] && txs[..1][1..] == [];
      OneTx(db0, txs[0], {});
    } else {
      assert txs[..p + 1][0] == txs[..p][0] == txs[0];
      assert txs[..p + 1][1..] == txs[1..][..p] && txs[..p][1..] == txs[1..][..p - 1];
      CleanStep(ReplayTx(db0, txs[0], true).value, txs[1..], p - 1);
    }
  }

  /** An orderly history leaves every clean pass defined, with the cursor on its last transaction and the
      next transaction's markets known. */
  lemma {:induction false} CleanIsDefined(db0: Db, txs: seq<Tx>, p: nat)
    requires p <= |txs| && Orderly(db0.markets.Keys, txs)
    ensures ReplayAll(db0, txs[..p]).Some?
    ensures var c := ReplayAll(db0, txs[..p]).value;
      && c.cursor == (if p == 0 then db0.cursor else Some(txs[p - 1].signature))
      && (p < |txs| && !txs[p].failed ==> KnownMarkets(c.markets.Keys, txs[p], 0))
    decreases p
  {
    if p > 0 {
      var first := txs[0];
      assert txs[..p][0] == first && txs[..p][1..] == txs[1..][..p - 1];
      FirstStep(db0, first);
      CleanIsDefined(ReplayTx(db0, first, true).value, txs[1..], p - 1);
    }
  }

  lemma CleanFromEmpty(txs: seq<Tx>, p: nat)
    requires p <= |txs| && Orderly({}, txs)
    ensures ReplayAll(EMPTY_DB, txs[..p]).Some?
    ensures var c := ReplayAll(EMPTY_DB, txs[..p]).value;
      && c.cursor == (if p == 0 then None else Some(txs[p - 1].signature))
      && (p < |txs| && !txs[p].failed ==> KnownMarkets(c.markets.Keys, txs[p], 0))
  {
    assert EMPTY_DB.markets.Keys == {};
    CleanIsDefined(EMPTY_DB, txs, p);
  }

  lemma FirstStep(db: Db, tx: Tx)
    requires !tx.failed ==> KnownMarkets(db.markets.Keys, tx, 0)
    ensures ReplayTx(db, tx, true).Some?
    ensures ReplayTx(db, tx, true).value.markets.Keys == db.markets.Keys + Creations(tx, 0)
    ensures ReplayTx(db, tx, true).value.cursor == Some(tx.signature)
  {
    if !tx.failed {
      KnownPersists(db, tx, 0, |tx.events|);
    }
  }

  /** Somewhere along the history: clean up to transaction `p`, and `k` of its events written. */
  ghost predicate AtPoint(db: Db, txs: seq<Tx>, p: nat, k: nat) {
    && p <= |txs| && ReplayAll(EMPTY_DB, txs[..p]).Some?
    && (if p == |txs| then k == 0 && db == ReplayAll(EMPTY_DB, txs[..p]).value
        else k <= EventsSeen(txs[p], true) && PersistEvents(ReplayAll(EMPTY_DB, txs[..p]).value, txs[p], 0, k) == Some(db))
  }

  /** A row for the event, under its own key. */
  predicate HasRow(db: Db, key: Key, ev: Event) {
    (ev.Trade? ==> key in db.trades) && (ev.Redeem? ==> key in db.redemptions)
  }

  lemma {:induction false} EventsHaveRows(db: Db, tx: Tx, from: nat, to: nat, i: nat)
    requires from <= i < to <= |tx.events| && KnownMarkets(db.markets.Keys, tx, from)
    requires PersistEvents(db, tx, from, to).Some?
    ensures HasRow(PersistEvents(db, tx, from, to).value, Key(tx.signature, i), tx.events[i])
    decreases |tx.events| - from
  {
    var next := PersistEvent(db, Key(tx.signature, from), tx.events[from]).value;
    EventsGrow(next, tx, from + 1, to);
    if from < i {
      KnownAfter(db, tx, from);
      EventsHaveRows(next, tx, from + 1, to, i);
    }
  }

  lemma {:induction false} RowsStay(db: Db, txs: seq<Tx>, key: Key, ev: Event)
    requires HasRow(db, key, ev) && ReplayAll(db, txs).Some?
    ensures HasRow(ReplayAll(db, txs).value, key, ev)
    decreases |txs|
  {
    if txs != [] {
      EventsGrow(db, txs[0], 0, EventsSeen(txs[0], true));
      RowsStay(ReplayTx(db, txs[0], true).value, txs[1..], key, ev);
    }
  }

  /** A clean pass misses nothing: every trade and redemption of the history has its row. */
  lemma {:induction false} CleanPassIsComplete(db0: Db, txs: seq<Tx>, i: nat, e: nat)
    requires Orderly(db0.markets.Keys, txs) && ReplayAll(db0, txs).Some?
    requires i < |txs| && !txs[i].failed && e < |txs[i].events|
    ensures HasRow(ReplayAll(db0, txs).value, Key(txs[i].signature, e), txs[i].events[e])
    decreases |txs|
  {
    var first := txs[0];
    FirstStep(db0, first);
    var next := ReplayTx(db0, first, true).value;
    if i == 0 {
      EventsHaveRows(db0, first, 0, |first.events|, e);
      RowsStay(next, txs[1..], Key(first.signature, e), first.events[e]);
    } else {
      CleanPassIsComplete(next, txs[1..], i - 1, e);
    }
  }

  /** More history changes nothing of where the database stands. */
  lemma GrowthKeepsPoint(db: Db, txs: seq<Tx>, more: seq<Tx>, p: nat, k: nat)
    requires AtPoint(db, txs, p, k)
    ensures AtPoint(db, txs + more, p, k)
  {
    assert (txs + more)[..p] == txs[..p];
  }

  /** The i-th transaction carries the event a row is keyed by. */
  predicate Carries(tx: Tx, k: Key) {
    tx.signature == k.signature && !tx.failed && k.eventIndex < |tx.events|
  }

  ghost predicate TradeOnChain(txs: seq<Tx>, k: Key, row: TradeRow) {
    exists i :: 0 <= i < |txs| && Carries(txs[i], k) && IsTradeOf(txs[i].events[k.eventIndex], row)
  }

  ghost predicate RedeemOnChain(txs: seq<Tx>, k: Key, row: RedeemRow) {
    exists i :: 0 <= i < |txs| && Carries(txs[i], k) && IsRedeemOf(txs[i].events[k.eventIndex], row)
  }

  /** Rows come from the chain: each is the event with that signature and position. */
  ghost predicate Faithful(db: Db, txs: seq<Tx>) {
    && (forall k :: k in db.trades ==> TradeOnChain(txs, k, db.trades[k]))
    && (forall k :: k in db.redemptions ==> RedeemOnChain(txs, k, db.redemptions[k]))
  }

  predicate IsTradeOf(ev: Event, row: TradeRow) {
    ev.Trade? && row == TradeRow(ev.market, ev.trader, ev.outcome, ev.isBuy, ev.usdt, ev.tokens)
  }

  predicate IsRedeemOf(ev: Event, row: RedeemRow) {
    ev.Redeem? && row == RedeemRow(ev.market, ev.owner, ev.payout)
  }

  lemma {:induction false} EventsFaithful(db: Db, txs: seq<Tx>, i: nat, from: nat, to: nat)
    requires Faithful(db, txs) && i < |txs| && !txs[i].failed && from <= to <= |txs[i].events|
    requires PersistEvents(db, txs[i], from, to).Some?
    ensures Faithful(PersistEvents(db, txs[i], from, to).value, txs)
    decreases |txs[i].events| - from
  {
    if from < to {
      var key, ev := Key(txs[i].signature, from), txs[i].events[from];
      var next := PersistEvent(db, key, ev).value;
      assert Carries(txs[i], key);
      assert key !in db.trades && key in next.trades ==> IsTradeOf(txs[i].events[key.eventIndex], next.trades[key]);
      assert key !in db.redemptions && key in next.redemptions ==> IsRedeemOf(txs[i].events[key.eventIndex], next.redemptions[key]);
      EventsFaithful(next, txs, i, from + 1, to);
    }
  }

  lemma GrowthKeepsFaithful(db: Db, txs: seq<Tx>, more: seq<Tx>)
    requires Faithful(db, txs)
    ensures Faithful(db, txs + more)
  {
    forall k | k in db.trades ensures TradeOnChain(txs + more, k, db.trades[k]) {
      assert TradeOnChain(txs, k, db.trades[k]);
      var i :| 0 <= i < |txs| && Carries(txs[i], k) && IsTradeOf(txs[i].events[k.eventIndex], db.trades[k]);
      assert (txs + more)[i] == txs[i];
    }
    forall k | k in db.redemptions ensures RedeemOnChain(txs + more, k, db.redemptions[k]) {
      assert RedeemOnChain(txs, k, db.redemptions[k]);
      var i :| 0 <= i < |txs| && Carries(txs[i], k) && IsRedeemOf(txs[i].events[k.eventIndex], db.redemptions[k]);
      assert (txs + more)[i] == txs[i];
    }
  }

  /** The cursor of a point of progress marks where the next walk starts. */
  lemma PointCursor(db: Db, txs: seq<Tx>, p: nat, k: nat)
    requires UniqueSignatures(txs) && Orderly({}, txs) && AtPoint(db, txs, p, k)
    ensures db.cursor.None? || Find(txs, db.cursor.value) < |txs|
    ensures Lower(txs, db.cursor) == p
  {
    CleanFromEmpty(txs, p);
    if p < |txs| {
      EventsGrow(ReplayAll(EMPTY_DB, txs[..p]).value, txs[p], 0, k);
    }
    if p > 0 {
      FindAt(txs, txs, p - 1);
    }
  }

  /** A replay that stops anywhere inside a transaction leaves a point of progress, no earlier than before;
      one that ends leaves exactly the clean pass's rows. */
  lemma ReplayMovesOn(db: Db, db': Db, txs: seq<Tx>, p: nat, k: nat, done: nat) returns (k': nat)
    requires Orderly({}, txs) && p < |txs| && AtPoint(db, txs, p, k)
    requires done <= EventsSeen(txs[p], true) && PersistEvents(db, txs[p], 0, done) == Some(db')
    ensures AtPoint(db', txs, p, k') && k <= k' && done <= k'
  {
    var c, tx := ReplayAll(EMPTY_DB, txs[..p]).value, txs[p];
    CleanFromEmpty(txs, p);
    k' := if done > k then done else k;
    if tx.failed {
    } else if done > k {
      PrefixThenAll(c, tx, k, done);
    } else {
      forall i | 0 <= i < done ensures Recorded(db, Key(tx.signature, i), tx.events[i]) {
        EventsRecorded(c, tx, 0, k, i);
      }
      SkipRecorded(db, tx, 0, done, done);
    }
  }

  /** Writing the cursor after a whole transaction completes it. */
  lemma CursorMovesOn(db: Db, txs: seq<Tx>, p: nat)
    requires Orderly({}, txs) && p < |txs| && AtPoint(db, txs, p, EventsSeen(txs[p], true))
    ensures AtPoint(db.(cursor := Some(txs[p].signature)), txs, p + 1, 0)
  {
    CleanFromEmpty(txs, p);
    CleanStep(EMPTY_DB, txs, p);
  }

  // ------------------------------------------------------------------ process

  datatype Status = Finished | Died | Threw

  class Process {
    var db: Db
    var writesLeft: nat   // database writes before this process dies

    constructor (d: Db, writes: nat)
      ensures db == d && writesLeft == writes
    {
      db, writesLeft := d, writes;
    }

    /** One atomic write, or death before it. */
    method Write(next: Db) returns (alive: bool)
      modifies this
      ensures db == if alive then next else old(db)
      ensures !alive ==> writesLeft == 0
    {
      if writesLeft == 0 {
        return false;
      }
      db, writesLeft := next, writesLeft - 1;
      return true;
    }

    method PersistCreated(market: MarketId, ghost key: Key) returns (s: Status)
      modifies this
      ensures s == Finished ==> PersistEvent(old(db), key, Created(market)) == Some(db)
      ensures s != Finished ==> db == old(db) && s == Died && writesLeft == 0
    {
      // upsert with an empty update
      var alive := Write(if market in db.markets then db else db.(markets := db.markets[market := 0]));
      s := if alive then Finished else Died;
    }

    method PersistTrade(key: Key, ev: Event) returns (s: Status)
      requires ev.Trade?
      modifies this
      ensures s == Finished ==> PersistEvent(old(db), key, ev) == Some(db)
      ensures s != Finished ==> db == old(db) && s == Died && writesLeft == 0
    {
      if key in db.trades {
        return Finished;
      }
      if ev.market !in db.markets {
        return Finished;
      }
      // one transaction: trade row, volume point, market total
      var alive := Write(db.(
        trades := db.trades[key := TradeRow(ev.market, ev.trader, ev.outcome, ev.isBuy, ev.usdt, ev.tokens)],
        volume := db.volume + [(ev.market, ev.usdt)],
        markets := db.markets[ev.market := db.markets[ev.market] + ev.usdt]));
      s := if alive then Finished else Died;
    }

    method PersistRedeem(key: Key, ev: Event) returns (s: Status)
      requires ev.Redeem?
      modifies this
      ensures s == Finished ==> PersistEvent(old(db), key, ev) == Some(db)
      ensures s != Finished ==> db == old(db)
      ensures s == Threw ==> PersistEvent(old(db), key, ev).None?
      ensures s == Died ==> writesLeft == 0
    {
      if key !in db.redemptions && ev.market !in db.markets {
        return Threw;
      }
      var next := if key in db.redemptions then db
        else db.(redemptions := db.redemptions[key := RedeemRow(ev.market, ev.owner, ev.payout)]);
      var alive := Write(next);
      s := if alive then Finished else Died;
    }

    /** The loop over a transaction's events. `done` events are written when it stops. */
    method Persist(tx: Tx) returns (s: Status, ghost done: nat)
      modifies this
      ensures done <= |tx.events| && PersistEvents(old(db), tx, 0, done) == Some(db)
      ensures s == Finished ==> done == |tx.events|
      ensures s == Threw ==> PersistEvents(old(db), tx, 0, |tx.events|).None?
      ensures s == Died ==> writesLeft == 0
    {
      done := 0;
      for i := 0 to |tx.events|
        invariant done == i && PersistEvents(old(db), tx, 0, i) == Some(db)
      {
        EventsSplit(old(db), tx, 0, i, i + 1);
        EventsSplit(old(db), tx, 0, i, |tx.events|);
        var key, ev := Key(tx.signature, i), tx.events[i];
        assert PersistEvents(db, tx, i, i + 1) == PersistEvent(db, key, ev);
        match ev {
          case Created(market) => s := PersistCreated(market, key);
          case Trade(_, _, _, _, _, _) => s := PersistTrade(key, ev);
          case Redeem(_, _, _) => s := PersistRedeem(key, ev);
          case Other => s := Finished;
        }
        if s != Finished {
          return;
        }
        done := i + 1;
      }
      s := Finished;
    }

    /** `replayTransaction`: an unanswered query and a failed transaction both count as empty. */
    method ReplayTransaction(tx: Tx, answered: bool) returns (s: Status, ghost done: nat)
      modifies this
      ensures done <= EventsSeen(tx, answered) && PersistEvents(old(db), tx, 0, done) == Some(db)
      ensures s == Finished ==> done == EventsSeen(tx, answered)
      ensures s == Threw ==> PersistEvents(old(db), tx, 0, EventsSeen(tx, answered)).None?
      ensures s == Died ==> writesLeft == 0
    {
      if !answered || tx.failed {
        return Finished, 0;
      }
      s, done := Persist(tx);
    }

    /** One turn of the tail: a transaction's events, then the cursor. */
    method Advance(tx: Tx, answered: bool, ghost history: seq<Tx>, ghost q: nat, ghost clean: bool, ghost k: nat)
      returns (s: Status, ghost p': nat, ghost k': nat)
      requires q < |history| && tx == history[q] && Consistent(db) && Faithful(db, history)
      requires clean ==> answered && Orderly({}, history) && AtPoint(db, history, q, k)
      modifies this
      ensures Consistent(db) && Faithful(db, history)
      ensures db.cursor == if s == Finished then Some(history[q].signature) else old(db.cursor)
      ensures s == Finished ==> ReplayTx(old(db), history[q], answered) == Some(db)
      ensures s == Threw ==> ReplayTx(old(db), history[q], answered).None?
      ensures s == Died ==> writesLeft == 0
      ensures HasOrphan(old(db), EventsOf(history[q], 0, EventsSeen(history[q], answered))) ==>
        HasOrphan(db, EventsOf(history[q], 0, EventsSeen(history[q], answered)))
      ensures clean ==> s != Threw && AtPoint(db, history, p', k') && p' == (if s == Finished then q + 1 else q)
    {
      hide Consistent, Faithful, AtPoint, Orderly, PersistEvents, HasOrphan, EventsOf;
      ghost var before := db;
      ghost var done: nat;
      p', k' := q, k;
      s, done := ReplayTransaction(tx, answered);
      ReplayKeeps(before, db, history, q, done);
      if HasOrphan(before, EventsOf(tx, 0, EventsSeen(tx, answered))) {
        OrphanStays(before, tx, done, EventsSeen(tx, answered));
        OrphanRefuses(before, tx, EventsSeen(tx, answered));
      }
      if clean {
        CleanNeverRefuses(before, history, q, k);
        k' := ReplayMovesOn(before, db, history, q, k, done);
      }
      if s != Finished {
        return;
      }
      var moved := db.(cursor := Some(tx.signature));
      CursorIsFree(db, moved, history);
      if clean {
        PointIsBounded(db, history, q, k');
        CursorMovesOn(db, history, q);
      }
      var alive := Write(moved);
      if !alive {
        s := Died;
        return;
      }
      p', k' := q + 1, 0;
    }

    /** `tailOnceInner`: every transaction newer than the cursor, oldest first, each followed by the cursor.
        `p` and `k` name the point of progress the run starts from, if it is a clean one. */
    method TailOnce(history: seq<Tx>, growth: seq<seq<Tx>>, lost: set<Signature>, ghost p: nat, ghost k: nat)
      returns (s: Status, ghost p': nat, ghost k': nat)
      requires UniqueSignatures(history) && CursorKnown(db, history)
      requires Consistent(db) && Faithful(db, history)
      modifies this
      // Whatever is lost and wherever the process dies, rows are the chain's and totals are their sums.
      ensures Consistent(db) && Faithful(db, history) && CursorKnown(db, history)
      // With every query answered progress is never lost, and a finished run is a clean pass.
      ensures lost == {} && Orderly({}, history) && AtPoint(old(db), history, p, k) ==>
        s != Threw && AtPoint(db, history, p', k') && p <= p' && (s == Finished ==> p' == |history|)
      // Unless it dies, the run throws exactly when the events it walks hold a redemption of a market that
      // neither the tables nor an earlier one of these events knows; else it has written them all.
      ensures var walked := history[Lower(history, old(db).cursor)..];
        && (s == Died ==> writesLeft == 0)
        && (s != Died ==> (s == Threw <==> HasOrphan(old(db), Feed(walked, lost))))
        && (s == Finished ==> ReplayWalk(old(db), walked, lost) == Some(db))
      // Such a redemption in the next transaction stops the tail for good.
      ensures Refused(old(db), history, lost) ==>
        s != Finished && db.cursor == old(db).cursor && Refused(db, history, lost)
    {
      hide Consistent, Faithful, AtPoint, Orderly, UniqueSignatures, Find, Lower, ReplayTx, ReplayWalk, HasOrphan, Feed,
        EventsOf, EventsSeen, Refused, Reversed, CursorKnown, Walking;
      ghost var clean := lost == {} && Orderly({}, history) && AtPoint(db, history, p, k);
      if clean {
        PointCursor(db, history, p, k);
      }
      ghost var refused := Refused(db, history, lost);
      assert db.cursor.None? || Find(history, db.cursor.value) < |history| by { CursorMeans(db, history); }
      var signatures := FetchSignaturesSince(history, growth, db.cursor);
      ghost var lo := Lower(history, db.cursor);
      WalkStarts(db, history, lost);
      p', k' := p, k;
      for i := 0 to |signatures|
        invariant Walking(old(db), db, history, lost, lo, i)
        invariant refused ==> i == 0
        invariant clean ==> p' == lo + i && AtPoint(db, history, p', k')
      {
        var tx := signatures[|signatures| - 1 - i];
        assert tx == history[lo + i];
        ghost var before := db;
        WalkParts(old(db), db, history, lost, lo, i);
        s, p', k' := Advance(tx, Answered(tx, lost), history, lo + i, clean, k');
        if s != Finished {
          TurnStops(old(db), before, db, history, lost, lo, i, s);
          return;
        }
        TurnEnds(old(db), before, db, history, lost, lo, i);
      }
      WalkEnds(old(db), db, history, lost, lo);
      s := Finished;
    }
  }

  ghost predicate CursorKnown(db: Db, history: seq<Tx>) {
    db.cursor.None? || Find(history, db.cursor.value) < |history|
  }

  /** The next transaction holds a redemption of a market that neither the tables nor its own earlier events
      know. */
  ghost predicate Refused(db: Db, history: seq<Tx>, lost: set<Signature>) {
    var next := Lower(history, db.cursor);
    next < |history| && HasOrphan(db, EventsOf(history[next], 0, EventsSeen(history[next], Answered(history[next], lost))))
  }

  lemma OrphanRefuses(db: Db, tx: Tx, to: nat)
    requires to <= |tx.events| && HasOrphan(db, EventsOf(tx, 0, to))
    ensures PersistEvents(db, tx, 0, to).None?
  {
    hide HasOrphan;
    FeedIsEvents(db, tx, 0, to);
    RefusedExactlyWhen(db, EventsOf(tx, 0, to));
  }

  lemma NextIsRefused(db: Db, history: seq<Tx>, lost: set<Signature>)
    requires Refused(db, history, lost)
    ensures var next := Lower(history, db.cursor);
      next < |history| && ReplayTx(db, history[next], Answered(history[next], lost)).None?
  {
    hide HasOrphan, Lower;
    var tx := history[Lower(history, db.cursor)];
    OrphanRefuses(db, tx, EventsSeen(tx, Answered(tx, lost)));
  }

  lemma CursorIsKnown(db: Db, history: seq<Tx>, i: nat)
    requires UniqueSignatures(history) && i < |history| && db.cursor == Some(history[i].signature)
    ensures CursorKnown(db, history)
  {
    FindAt(history, history, i);
  }

  lemma CursorMeans(db: Db, history: seq<Tx>)
    requires CursorKnown(db, history)
    ensures db.cursor.None? || Find(history, db.cursor.value) < |history|
  {
  }

  /** After `i` turns of a walk from `db0`. */
  ghost predicate Walking(db0: Db, db: Db, history: seq<Tx>, lost: set<Signature>, lo: nat, i: nat) {
    && Consistent(db) && Faithful(db, history) && CursorKnown(db, history)
    && lo == Lower(history, db0.cursor) && lo + i <= |history| && (i == 0 ==> db == db0)
    && ReplayWalk(db0, history[lo..][..i], lost) == Some(db)
  }

  lemma WalkParts(db0: Db, db: Db, history: seq<Tx>, lost: set<Signature>, lo: nat, i: nat)
    requires Walking(db0, db, history, lost, lo, i)
    ensures Consistent(db) && Faithful(db, history)
  {
  }

  lemma WalkStarts(db: Db, history: seq<Tx>, lost: set<Signature>)
    requires Consistent(db) && Faithful(db, history) && CursorKnown(db, history)
    ensures Walking(db, db, history, lost, Lower(history, db.cursor), 0)
    ensures Refused(db, history, lost) ==> Lower(history, db.cursor) < |history|
  {
    hide Consistent, Faithful, CursorKnown, HasOrphan;
    EmptyWalk(db, history[Lower(history, db.cursor)..], lost);
  }

  /** The turn ended: one transaction further, and it was not refused. */
  lemma TurnEnds(db0: Db, before: Db, db: Db, history: seq<Tx>, lost: set<Signature>, lo: nat, i: nat)
    requires UniqueSignatures(history) && Walking(db0, before, history, lost, lo, i) && lo + i < |history|
    requires Consistent(db) && Faithful(db, history) && db.cursor == Some(history[lo + i].signature)
    requires ReplayTx(before, history[lo + i], Answered(history[lo + i], lost)) == Some(db)
    ensures Walking(db0, db, history, lost, lo, i + 1)
    ensures i == 0 ==> !Refused(db0, history, lost)
  {
    hide Consistent, Faithful, UniqueSignatures, Lower, HasOrphan, EventsOf, ReplayTx, ReplayWalk, Find;
    CursorIsKnown(db, history, lo + i);
    WalkSteps(db0, before, history[lo..], i, lost);
    if i == 0 && Refused(db0, history, lost) {
      NextIsRefused(db0, history, lost);
      assert false;
    }
  }

  /** The turn did not end. */
  lemma TurnStops(db0: Db, before: Db, db: Db, history: seq<Tx>, lost: set<Signature>, lo: nat, i: nat, s: Status)
    requires UniqueSignatures(history) && Walking(db0, before, history, lost, lo, i) && lo + i < |history|
    requires db.cursor == before.cursor && Consistent(db) && Faithful(db, history)
    requires s == Threw ==> ReplayTx(before, history[lo + i], Answered(history[lo + i], lost)).None?
    requires var feed := EventsOf(history[lo + i], 0, EventsSeen(history[lo + i], Answered(history[lo + i], lost)));
      HasOrphan(before, feed) ==> HasOrphan(db, feed)
    ensures CursorKnown(db, history)
    ensures s == Threw ==> HasOrphan(db0, Feed(history[lo..], lost))
    ensures i == 0 && Refused(db0, history, lost) ==> db.cursor == db0.cursor && Refused(db, history, lost)
  {
    hide Consistent, Faithful, Lower, HasOrphan, EventsOf, ReplayTx, ReplayWalk, Find, Feed;
    SuffixIsUnique(history, lo);
    WalkSteps(db0, before, history[lo..], i, lost);
    WalkRefusedExactlyWhen(db0, history[lo..], lost);
  }

  /** Every turn ended. */
  lemma WalkEnds(db0: Db, db: Db, history: seq<Tx>, lost: set<Signature>, lo: nat)
    requires UniqueSignatures(history) && lo <= |history| && Walking(db0, db, history, lost, lo, |history| - lo)
    ensures Consistent(db) && Faithful(db, history) && CursorKnown(db, history)
    ensures ReplayWalk(db0, history[lo..], lost) == Some(db) && !HasOrphan(db0, Feed(history[lo..], lost))
  {
    hide Consistent, Faithful, Lower, HasOrphan, ReplayWalk, Find, Feed, CursorKnown;
    assert history[lo..][..|history| - lo] == history[lo..];
    SuffixIsUnique(history, lo);
    WalkRefusedExactlyWhen(db0, history[lo..], lost);
  }

  lemma SuffixIsUnique(txs: seq<Tx>, lo: nat)
    requires lo <= |txs| && UniqueSignatures(txs)
    ensures UniqueSignatures(txs[lo..])
  {
  }

  lemma EmptyWalk(db: Db, txs: seq<Tx>, lost: set<Signature>)
    ensures ReplayWalk(db, txs[..0], lost) == Some(db)
  {
  }

  /** One transaction further along a walk, or the end of it. */
  lemma WalkSteps(db0: Db, db: Db, txs: seq<Tx>, i: nat, lost: set<Signature>)
    requires i < |txs| && ReplayWalk(db0, txs[..i], lost) == Some(db)
    ensures var r := ReplayTx(db, txs[i], Answered(txs[i], lost));
      ReplayWalk(db0, txs[..i + 1], lost) == r && (r.None? ==> ReplayWalk(db0, txs, lost).None?)
  {
    assert txs[..i] + [txs[i]] == txs[..i + 1] && txs[..i + 1] + txs[i + 1..] == txs;
    WalkSplits(db0, txs[..i], [txs[i]], lost);
    WalkSplits(db0, txs[..i + 1], txs[i + 1..], lost);
    OneTx(db, txs[i], lost);
  }

  lemma OneTx(db: Db, tx: Tx, lost: set<Signature>)
    ensures ReplayWalk(db, [tx], lost) == ReplayTx(db, tx, Answered(tx, lost))
  {
    hide ReplayTx;
    var r := ReplayTx(db, tx, Answered(tx, lost));
    assert r.Some? ==> ReplayWalk(r.value, [], lost) == r;
  }

  /** Later history changes nothing: the tail stays where it is for as long as the node answers for that
      transaction, even if it answers for everything. */
  lemma RefusedForGood(db: Db, history: seq<Tx>, more: seq<Tx>, lost: set<Signature>, lost': set<Signature>)
    requires UniqueSignatures(history) && CursorKnown(db, history) && Refused(db, history, lost)
    requires history[Lower(history, db.cursor)].signature !in lost'
    ensures Refused(db, history + more, lost')
  {
    hide HasOrphan, Lower;
    LowerSame(history + more, history, db.cursor);
    var next := Lower(history, db.cursor);
    assert (history + more)[next] == history[next];
    if history[next].signature in lost {
      NothingIsNoOrphan(db, history[next]);
    }
  }

  lemma NothingIsNoOrphan(db: Db, tx: Tx)
    ensures !HasOrphan(db, EventsOf(tx, 0, 0))
  {
  }

  /** How the tail gets there: the node once leaves the creation of a market unanswered, the cursor passes it,
      and the first redemption of that market stops every later run, although the history is in order and
      every query is answered from then on. */
  lemma LostCreationStops(history: seq<Tx>, more: seq<Tx>)
    requires history == [Tx(1, false, [Created(7)]), Tx(2, false, [Redeem(7, 3, 5)])]
    ensures UniqueSignatures(history) && Orderly({}, history)
    ensures ReplayWalk(EMPTY_DB, history[..1], {1}) == Some(EMPTY_DB.(cursor := Some(1)))
    ensures HasOrphan(EMPTY_DB, Feed(history, {1}))
    ensures Refused(EMPTY_DB.(cursor := Some(1)), history + more, {})
  {
    var stuck := EMPTY_DB.(cursor := Some(1));
    assert history[..1] == [history[0]];
    OneTx(EMPTY_DB, history[0], {1});
    assert EventsOf(history[1], 0, 1) == [Entry(Key(2, 0), Redeem(7, 3, 5))];
    assert Feed(history, {1}) == [Entry(Key(2, 0), Redeem(7, 3, 5))] by { TwoFeeds(history); }
    assert OrphanAt(EMPTY_DB, Feed(history, {1}), 0);
    assert OrphanAt(stuck, EventsOf(history[1], 0, 1), 0);
    assert Lower(history, Some(1)) == 1 by { FindAt(history, history, 0); }
    assert Refused(stuck, history, {});
    RefusedForGood(stuck, history, more, {}, {});
    OrderlyTwo(history);
  }

  lemma TwoFeeds(history: seq<Tx>)
    requires history == [Tx(1, false, [Created(7)]), Tx(2, false, [Redeem(7, 3, 5)])]
    ensures Feed(history, {1}) == [Entry(Key(2, 0), Redeem(7, 3, 5))]
  {
    assert history[1..] == [history[1]] && history[1..][1..] == [];
    assert Feed([], {1}) == [];
    assert EventsOf(history[1], 0, 1) == [Entry(Key(2, 0), Redeem(7, 3, 5))];
    assert EventsOf(history[0], 0, 0) == [];
  }

  lemma OrderlyTwo(history: seq<Tx>)
    requires history == [Tx(1, false, [Created(7)]), Tx(2, false, [Redeem(7, 3, 5)])]
    ensures Orderly({}, history)
  {
    assert KnownMarkets({7}, history[0], 1) && KnownMarkets({}, history[0], 0);
    assert Creations(history[0], 1) == {} && Creations(history[0], 0) == {7};
    assert KnownMarkets({7}, history[1], 1) && KnownMarkets({} + {7}, history[1], 0);
    assert history[1..] == [history[1]] && history[1..][1..] == [];
    assert Orderly({7} + Creations(history[1], 0), []);
  }

  lemma ReplayKeeps(db: Db, db': Db, history: seq<Tx>, q: nat, done: nat)
    requires q < |history| && Consistent(db) && Faithful(db, history)
    requires done <= EventsSeen(history[q], true) && PersistEvents(db, history[q], 0, done) == Some(db')
    ensures Consistent(db') && Faithful(db', history) && db'.cursor == db.cursor
  {
    hide Consistent, Faithful;
    EventsGrow(db, history[q], 0, done);
    EventsKeepConsistent(db, history[q], 0, done);
    if !history[q].failed {
      EventsFaithful(db, history, q, 0, done);
    }
  }

  lemma CursorIsFree(db: Db, moved: Db, history: seq<Tx>)
    requires Consistent(db) && Faithful(db, history) && moved == db.(cursor := moved.cursor)
    ensures Consistent(moved) && Faithful(moved, history)
  {
    assert forall m :: VolumeAgrees(db, m) <==> VolumeAgrees(moved, m);
  }

  lemma CleanNeverRefuses(db: Db, history: seq<Tx>, p: nat, k: nat)
    requires Orderly({}, history) && p < |history| && AtPoint(db, history, p, k)
    ensures PersistEvents(db, history[p], 0, EventsSeen(history[p], true)).Some?
  {
    var c, tx := ReplayAll(EMPTY_DB, history[..p]).value, history[p];
    CleanFromEmpty(history, p);
    if !tx.failed {
      PrefixThenAll(c, tx, k, |tx.events|);
      KnownPersists(c, tx, 0, |tx.events|);
    }
  }

  lemma PointIsBounded(db: Db, history: seq<Tx>, p: nat, k: nat)
    requires p < |history| && AtPoint(db, history, p, k) && k >= EventsSeen(history[p], true)
    ensures AtPoint(db, history, p, EventsSeen(history[p], true))
  {
  }

  // -------------------------------------------------------------- many rounds

  /** New transactions; then a process: more of them arrive between the pages it reads, the node leaves some
      queries unanswered, and it may die after so many writes. */
  datatype Round = Round(grown: seq<Tx>, during: seq<seq<Tx>>, lost: set<Signature>, writes: nat)

  function Joined(parts: seq<seq<Tx>>): seq<Tx>
    decreases |parts|
  {
    if parts == [] then [] else Joined(parts[..|parts| - 1]) + parts[|parts| - 1]
  }

  function Chain(rounds: seq<Round>): seq<Tx>
    decreases |rounds|
  {
    if rounds == [] then [] else Walked(rounds) + Joined(rounds[|rounds| - 1].during)
  }

  /** What was there when the last process read its first page. */
  function Walked(rounds: seq<Round>): seq<Tx>
    requires rounds != []
    decreases |rounds|, 0
  {
    Chain(rounds[..|rounds| - 1]) + rounds[|rounds| - 1].grown
  }

  predicate AllAnswered(rounds: seq<Round>) {
    forall i :: 0 <= i < |rounds| ==> rounds[i].lost == {}
  }

  /** Growth, losses and crashes in any interleaving. Always: every trade and redemption takes effect at most
      once (rows are keyed by where on the chain they come from, and totals and points are their sums). With
      every query answered: the database is at a point of progress, and if the last process finished it
      holds exactly what one clean pass over what it walked writes, each trade and redemption once. */
  method Interleave(rounds: seq<Round>) returns (db: Db, last: Status, ghost p: nat, ghost k: nat)
    requires UniqueSignatures(Chain(rounds))
    ensures Consistent(db) && Faithful(db, Chain(rounds)) && CursorKnown(db, Chain(rounds))
    ensures AllAnswered(rounds) && Orderly({}, Chain(rounds)) ==>
      && last != Threw && AtPoint(db, Chain(rounds), p, k)
      && (|rounds| > 0 && last == Finished ==> ReplayAll(EMPTY_DB, Walked(rounds)) == Some(db))
  {
    hide AtPoint, Consistent, Faithful, Orderly, UniqueSignatures, CursorKnown, ReplayAll, Chain, Walked, Joined;
    db, last, p, k := EMPTY_DB, Finished, 0, 0;
    ghost var clean := AllAnswered(rounds) && Orderly({}, Chain(rounds));
    NoRounds(rounds, clean);
    for i := 0 to |rounds|
      invariant After(rounds[..i], clean, db, last, p, k)
    {
      hide After;
      ChainSteps(rounds, i);
      PrefixIsUnique(Chain(rounds), Chain(rounds[..i + 1]));
      if clean {
        PrefixIsOrderly({}, Chain(rounds), Chain(rounds[..i + 1]));
      }
      assert rounds[..i + 1][..i] == rounds[..i];
      db, last, p, k := NextRound(rounds[..i + 1], clean, db, last, p, k);
    }
    assert rounds[..|rounds|] == rounds;
  }

  /** Where the rounds have brought the database. */
  ghost predicate After(rounds: seq<Round>, clean: bool, db: Db, last: Status, p: nat, k: nat) {
    && Consistent(db) && Faithful(db, Chain(rounds)) && CursorKnown(db, Chain(rounds))
    && (clean ==>
      && last != Threw && AtPoint(db, Chain(rounds), p, k)
      && (|rounds| > 0 && last == Finished ==> ReplayAll(EMPTY_DB, Walked(rounds)) == Some(db)))
  }

  lemma NoRounds(rounds: seq<Round>, clean: bool)
    ensures After(rounds[..0], clean, EMPTY_DB, Finished, 0, 0)
  {
    EmptyIsClean();
    assert Chain(rounds[..0]) == [];
  }

  /** The last of these rounds, after the others. */
  method NextRound(rounds: seq<Round>, ghost clean: bool, db: Db, last: Status, ghost p: nat, ghost k: nat)
    returns (db': Db, s: Status, ghost p': nat, ghost k': nat)
    requires rounds != [] && UniqueSignatures(Chain(rounds)) && After(rounds[..|rounds| - 1], clean, db, last, p, k)
    requires clean ==> rounds[|rounds| - 1].lost == {} && Orderly({}, Chain(rounds))
    ensures After(rounds, clean, db', s, p', k')
  {
    hide AtPoint, Consistent, Faithful, Orderly, UniqueSignatures, CursorKnown, ReplayAll, Joined;
    PrefixIsUnique(Chain(rounds), Walked(rounds));
    if clean {
      PrefixIsOrderly({}, Chain(rounds), Walked(rounds));
    }
    db', s, p', k' := OneRound(db, Chain(rounds[..|rounds| - 1]), rounds[|rounds| - 1], p, k, clean);
  }

  lemma EmptyIsClean()
    ensures AtPoint(EMPTY_DB, [], 0, 0) && Consistent(EMPTY_DB) && Faithful(EMPTY_DB, []) && CursorKnown(EMPTY_DB, [])
  {
  }

  /** One round: a process starts from what the last one left, and runs until it ends, throws or dies. */
  method OneRound(db: Db, before: seq<Tx>, round: Round, ghost p: nat, ghost k: nat, ghost clean: bool)
    returns (db': Db, s: Status, ghost p': nat, ghost k': nat)
    requires Consistent(db) && Faithful(db, before) && CursorKnown(db, before)
    requires UniqueSignatures(before + round.grown)
    requires clean ==> round.lost == {} && Orderly({}, before + round.grown) && AtPoint(db, before, p, k)
    ensures var history := before + round.grown + Joined(round.during);
      && Consistent(db') && Faithful(db', history) && CursorKnown(db', history)
      && (clean ==> s != Threw && AtPoint(db', history, p', k'))
      && (clean && s == Finished ==> ReplayAll(EMPTY_DB, before + round.grown) == Some(db'))
  {
    hide AtPoint, Consistent, Faithful, Orderly, UniqueSignatures, CursorKnown, HasOrphan, Feed, ReplayWalk, Refused;
    var start := before + round.grown;
    GrowthKeepsFaithful(db, before, round.grown);
    GrowthKeepsCursor(db, before, round.grown);
    if clean {
      GrowthKeepsPoint(db, before, round.grown, p, k);
    }
    var process := new Process(db, round.writes);
    s, p', k' := process.TailOnce(start, round.during, round.lost, p, k);
    db' := process.db;
    if clean {
      EndOfPoint(db', start, p', k');
      GrowthKeepsPoint(db', start, Joined(round.during), p', k');
    }
    GrowthKeepsFaithful(db', start, Joined(round.during));
    GrowthKeepsCursor(db', start, Joined(round.during));
  }

  lemma EndOfPoint(db: Db, txs: seq<Tx>, p: nat, k: nat)
    requires AtPoint(db, txs, p, k)
    ensures p == |txs| ==> ReplayAll(EMPTY_DB, txs) == Some(db)
  {
    assert txs[..|txs|] == txs;
  }

  lemma GrowthKeepsCursor(db: Db, txs: seq<Tx>, more: seq<Tx>)
    requires CursorKnown(db, txs)
    ensures CursorKnown(db, txs + more)
  {
    if db.cursor.Some? {
      var i := Find(txs, db.cursor.value);
      assert (txs + more)[i] == txs[i];
    }
  }

  lemma ChainSteps(rounds: seq<Round>, i: nat)
    requires i < |rounds|
    ensures Walked(rounds[..i + 1]) == Chain(rounds[..i]) + rounds[i].grown
    ensures Chain(rounds[..i + 1]) == Walked(rounds[..i + 1]) + Joined(rounds[i].during)
    ensures Chain(rounds[..i + 1]) <= Chain(rounds)
  {
    var front := rounds[..i + 1];
    assert front[..|front| - 1] == rounds[..i] && front[|front| - 1] == rounds[i];
    ChainPrefix(rounds, i + 1);
  }

  lemma {:induction false} ChainPrefix(rounds: seq<Round>, i: nat)
    requires i <= |rounds|
    ensures Chain(rounds[..i]) <= Chain(rounds)
    decreases |rounds|
  {
    if i < |rounds| {
      assert rounds[..|rounds| - 1][..i] == rounds[..i];
      ChainPrefix(rounds[..|rounds| - 1], i);
    } else {
      assert rounds[..i] == rounds;
    }
  }

  lemma {:induction false} PrefixIsOrderly(known: set<MarketId>, txs: seq<Tx>, prefix: seq<Tx>)
    requires Orderly(known, txs) && prefix <= txs
    ensures Orderly(known, prefix)
    decreases |prefix|
  {
    if prefix != [] {
      assert prefix[1..] <= txs[1..];
      PrefixIsOrderly(known + Creations(txs[0], 0), txs[1..], prefix[1..]);
    }
  }

  lemma PrefixIsUnique(txs: seq<Tx>, prefix: seq<Tx>)
    requires UniqueSignatures(txs) && prefix <= txs
    ensures UniqueSignatures(prefix)
  {
    forall i, j | 0 <= i < j < |prefix| ensures prefix[i].signature != prefix[j].signature {
      assert prefix[i] == txs[i] && prefix[j] == txs[j];
    }
  }
}
