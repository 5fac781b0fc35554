/** What the indexer's database should hold: the effect of chain events on the rows, and of replaying them
    again. apps/indexer/src/ingest/persister.service.ts.
    */
module Replay {
  import opened Machine
  import opened Sums

  type Signature = nat
  type MarketId = nat

  datatype Event =
    | Created(market: MarketId)
    | Trade(market: MarketId, trader: nat, outcome: nat, isBuy: bool, usdt: nat, tokens: nat)
    | Redeem(market: MarketId, owner: nat, payout: nat)
    | Other

  /** A transaction that touched the program; `failed` ones carry no events. */
  datatype Tx = Tx(signature: Signature, failed: bool, events: seq<Event>)

  datatype Key = Key(signature: Signature, eventIndex: nat)
  datatype TradeRow = TradeRow(market: MarketId, trader: nat, outcome: nat, isBuy: bool, usdt: nat, tokens: nat)
  datatype RedeemRow = RedeemRow(market: MarketId, owner: nat, payout: nat)

  /** The tables. `markets` maps a market to its total volume; `volume` is the volume points in order. */
  datatype Db = Db(
    cursor: Option<Signature>, markets: map<MarketId, nat>, trades: map<Key, TradeRow>,
    volume: seq<(MarketId, nat)>, redemptions: map<Key, RedeemRow>)

  const EMPTY_DB: Db := Db(None, map[], map[], [], map[])

  /** One event's writes; None when the database refuses the row (a redemption of an unknown market breaks
      the foreign key). A trade on an unknown market is skipped. */
  function PersistEvent(db: Db, key: Key, ev: Event): Option<Db> {
    match ev
    case Created(market) =>
      Some(if market in db.markets then db else db.(markets := db.markets[market := 0]))
    case Trade(market, trader, outcome, isBuy, usdt, tokens) =>
      if key in db.trades || market !in db.markets then Some(db)
      else Some(db.(
        trades := db.trades[key := TradeRow(market, trader, outcome, isBuy, usdt, tokens)],
        volume := db.volume + [(market, usdt)],
        markets := db.markets[market := db.markets[market] + usdt]))
    case Redeem(market, owner, payout) =>
      if key in db.redemptions then Some(db)
      else if market !in db.markets then None
      else Some(db.(redemptions := db.redemptions[key := RedeemRow(market, owner, payout)]))
    case Other => Some(db)
  }

  /** Events `from` up to `to` of a transaction. */
  function PersistEvents(db: Db, tx: Tx, from: nat, to: nat): (r: Option<Db>)
    requires from <= to <= |tx.events|
    decreases |tx.events| - from
  {
    if from == to then Some(db)
    else
      var next := PersistEvent(db, Key(tx.signature, from), tx.events[from]);
      if next.None? then None else PersistEvents(next.value, tx, from + 1, to)
  }

  /** A transaction's events that count: none if it failed, or if the node did not answer for it. */
  function EventsSeen(tx: Tx, answered: bool): nat {
    if tx.failed || !answered then 0 else |tx.events|
  }

  /** One whole transaction: its events, then the cursor. */
  function ReplayTx(db: Db, tx: Tx, answered: bool): Option<Db> {
    var r := PersistEvents(db, tx, 0, EventsSeen(tx, answered));
    if r.None? then None else Some(r.value.(cursor := Some(tx.signature)))
  }

  predicate Answered(tx: Tx, lost: set<Signature>) {
    tx.signature !in lost
  }

  /** A walk over transactions, those in `lost` unanswered. */
  function ReplayWalk(db: Db, txs: seq<Tx>, lost: set<Signature>): Option<Db>
    decreases |txs|
  {
    if txs == [] then Some(db)
    else
      var r := ReplayTx(db, txs[0], Answered(txs[0], lost));
      if r.None? then None else ReplayWalk(r.value, txs[1..], lost)
  }

  /** A clean pass over a history: every query is answered. */
  function ReplayAll(db: Db, txs: seq<Tx>): Option<Db> {
    ReplayWalk(db, txs, {})
  }

  // -------------------------------------------------------------- consistency

  ghost function VolumesOf(trades: map<Key, TradeRow>, market: MarketId): map<Key, int> {
    map k | k in trades && trades[k].market == market :: trades[k].usdt
  }

  function PointsOf(volume: seq<(MarketId, nat)>, market: MarketId): nat {
    if volume == [] then 0
    else
      var last := volume[|volume| - 1];
      PointsOf(volume[..|volume| - 1], market) + (if last.0 == market then last.1 else 0)
  }

  ghost predicate VolumeAgrees(db: Db, m: MarketId) {
    && m in db.markets
    && db.markets[m] == Total(VolumesOf(db.trades, m)) && db.markets[m] == PointsOf(db.volume, m)
  }

  /** A market's total volume is the sum of its trade rows and of its volume points; every row belongs to a
      known market, and there is one point per trade. */
  ghost predicate Consistent(db: Db) {
    && (forall m :: m in db.markets ==> VolumeAgrees(db, m))
    && (forall k :: k in db.trades ==> db.trades[k].market in db.markets)
    && (forall k :: k in db.redemptions ==> db.redemptions[k].market in db.markets)
    && |db.volume| == |db.trades|
    && (forall i :: 0 <= i < |db.volume| ==> db.volume[i].0 in db.markets)
  }

  lemma PointsOfUnknown(volume: seq<(MarketId, nat)>, market: MarketId)
    requires forall i :: 0 <= i < |volume| ==> volume[i].0 != market
    ensures PointsOf(volume, market) == 0
  {
  }

  /** One more point adds its volume to its own market. */
  lemma PointAdds(volume: seq<(MarketId, nat)>, point: (MarketId, nat), m: MarketId)
    ensures PointsOf(volume + [point], m) == PointsOf(volume, m) + (if point.0 == m then point.1 else 0)
  {
    assert (volume + [point])[..|volume|] == volume;
  }

  /** One more trade row adds its volume to its own market. */
  lemma RowAdds(trades: map<Key, TradeRow>, key: Key, row: TradeRow, m: MarketId)
    requires key !in trades
    ensures Total(VolumesOf(trades[key := row], m)) == Total(VolumesOf(trades, m)) + (if row.market == m then row.usdt else 0)
  {
    if row.market == m {
      assert VolumesOf(trades[key := row], m) == VolumesOf(trades, m)[key := row.usdt];
      TotalUpdate(VolumesOf(trades, m), key, row.usdt);
    } else {
      assert VolumesOf(trades[key := row], m) == VolumesOf(trades, m);
    }
  }

  lemma TradeKeepsVolume(db: Db, key: Key, ev: Event, m: MarketId)
    requires ev.Trade? && key !in db.trades && ev.market in db.markets && VolumeAgrees(db, m)
    ensures VolumeAgrees(PersistEvent(db, key, ev).value, m)
  {
    hide PointsOf, VolumesOf, Total;
    PointAdds(db.volume, (ev.market, ev.usdt), m);
    RowAdds(db.trades, key, TradeRow(ev.market, ev.trader, ev.outcome, ev.isBuy, ev.usdt, ev.tokens), m);
  }

  lemma CreationStartsEmpty(db: Db, key: Key, ev: Event)
    requires ev.Created? && ev.market !in db.markets && Consistent(db)
    ensures VolumeAgrees(PersistEvent(db, key, ev).value, ev.market)
  {
    assert VolumesOf(db.trades, ev.market) == map[];
    PointsOfUnknown(db.volume, ev.market);
  }

  lemma CreatedKeepsConsistent(db: Db, key: Key, ev: Event)
    requires Consistent(db) && ev.Created? && ev.market !in db.markets
    ensures Consistent(PersistEvent(db, key, ev).value)
  {
    var db' := PersistEvent(db, key, ev).value;
    CreationStartsEmpty(db, key, ev);
    forall m | m in db.markets ensures VolumeAgrees(db', m) {
      assert VolumeAgrees(db, m);
    }
  }

  lemma TradeKeepsConsistent(db: Db, key: Key, ev: Event)
    requires Consistent(db) && ev.Trade? && key !in db.trades && ev.market in db.markets
    ensures Consistent(PersistEvent(db, key, ev).value)
  {
    hide VolumeAgrees;
    var db' := PersistEvent(db, key, ev).value;
    forall m | m in db'.markets ensures VolumeAgrees(db', m) {
      TradeKeepsVolume(db, key, ev, m);
    }
  }

  lemma EventKeepsConsistent(db: Db, key: Key, ev: Event)
    requires Consistent(db) && PersistEvent(db, key, ev).Some?
    ensures Consistent(PersistEvent(db, key, ev).value)
  {
    if ev.Created? && ev.market !in db.markets {
      CreatedKeepsConsistent(db, key, ev);
    } else if ev.Trade? && key !in db.trades && ev.market in db.markets {
      TradeKeepsConsistent(db, key, ev);
    } else {
      var db' := PersistEvent(db, key, ev).value;
      forall m | m in db'.markets ensures VolumeAgrees(db', m) {
        assert VolumeAgrees(db, m);
      }
    }
  }

  lemma {:induction false} EventsKeepConsistent(db: Db, tx: Tx, from: nat, to: nat)
    requires from <= to <= |tx.events| && Consistent(db) && PersistEvents(db, tx, from, to).Some?
    ensures Consistent(PersistEvents(db, tx, from, to).value)
    decreases |tx.events| - from
  {
    hide Consistent, PersistEvent;
    if from < to {
      EventKeepsConsistent(db, Key(tx.signature, from), tx.events[from]);
      EventsKeepConsistent(PersistEvent(db, Key(tx.signature, from), tx.events[from]).value, tx, from + 1, to);
    }
  }

  // -------------------------------------------------------------- idempotence

  /** Every event's rows are there already, so persisting it again writes nothing. */
  predicate Recorded(db: Db, key: Key, ev: Event) {
    match ev
    case Created(market) => market in db.markets
    case Trade(market, _, _, _, _, _) => key in db.trades || market !in db.markets
    case Redeem(_, _, _) => key in db.redemptions
    case Other => true
  }

  lemma RecordedIsNoOp(db: Db, key: Key, ev: Event)
    requires Recorded(db, key, ev)
    ensures PersistEvent(db, key, ev) == Some(db)
  {
  }

  /** The tables only grow, and a market once known stays known. */
  ghost predicate Grown(db: Db, db': Db) {
    && (forall k :: k in db.trades ==> k in db'.trades && db'.trades[k] == db.trades[k])
    && (forall k :: k in db.redemptions ==> k in db'.redemptions && db'.redemptions[k] == db.redemptions[k])
    && (forall m :: m in db.markets ==> m in db'.markets)
    && db'.cursor == db.cursor
  }

  lemma {:induction false} EventsGrow(db: Db, tx: Tx, from: nat, to: nat)
    requires from <= to <= |tx.events| && PersistEvents(db, tx, from, to).Some?
    ensures Grown(db, PersistEvents(db, tx, from, to).value)
    decreases |tx.events| - from
  {
    if from < to {
      EventsGrow(PersistEvent(db, Key(tx.signature, from), tx.events[from]).value, tx, from + 1, to);
    }
  }

  /** What the program's own order guarantees: a market is created before anything happens on it. */
  predicate KnownMarkets(known: set<MarketId>, tx: Tx, from: nat)
    requires from <= |tx.events|
    decreases |tx.events| - from
  {
    from == |tx.events| ||
    match tx.events[from]
    case Created(m) => KnownMarkets(known + {m}, tx, from + 1)
    case Trade(m, _, _, _, _, _) => m in known && KnownMarkets(known, tx, from + 1)
    case Redeem(m, _, _) => m in known && KnownMarkets(known, tx, from + 1)
    case Other => KnownMarkets(known, tx, from + 1)
  }

  /** Persisting the first `to` events records each of them, when their markets are known. */
  lemma {:induction false} EventsRecorded(db: Db, tx: Tx, from: nat, to: nat, i: nat)
    requires from <= to <= |tx.events| && PersistEvents(db, tx, from, to).Some?
    requires KnownMarkets(db.markets.Keys, tx, from) && from <= i < to
    ensures Recorded(PersistEvents(db, tx, from, to).value, Key(tx.signature, i), tx.events[i])
    decreases |tx.events| - from
  {
    var next := PersistEvent(db, Key(tx.signature, from), tx.events[from]).value;
    EventsGrow(next, tx, from + 1, to);
    if from < i {
      assert KnownMarkets(next.markets.Keys, tx, from + 1) by { KnownAfter(db, tx, from); }
      EventsRecorded(next, tx, from + 1, to, i);
    } else {
      assert Recorded(next, Key(tx.signature, from), tx.events[from]);
      assert tx.events[from].Trade? ==> Key(tx.signature, from) in next.trades;
    }
  }

  lemma KnownAfter(db: Db, tx: Tx, from: nat)
    requires from < |tx.events| && KnownMarkets(db.markets.Keys, tx, from)
    requires PersistEvent(db, Key(tx.signature, from), tx.events[from]).Some?
    ensures KnownMarkets(PersistEvent(db, Key(tx.signature, from), tx.events[from]).value.markets.Keys, tx, from + 1)
  {
    var next := PersistEvent(db, Key(tx.signature, from), tx.events[from]).value;
    if tx.events[from].Created? {
      assert next.markets.Keys == db.markets.Keys + {tx.events[from].market};
    } else {
      assert next.markets.Keys == db.markets.Keys;
    }
  }

  /** Events already recorded are skipped. */
  lemma {:induction false} SkipRecorded(db: Db, tx: Tx, from: nat, mid: nat, to: nat)
    requires from <= mid <= to <= |tx.events|
    requires forall i :: from <= i < mid ==> Recorded(db, Key(tx.signature, i), tx.events[i])
    ensures PersistEvents(db, tx, from, to) == PersistEvents(db, tx, mid, to)
    decreases |tx.events| - from
  {
    if from < mid {
      RecordedIsNoOp(db, Key(tx.signature, from), tx.events[from]);
      SkipRecorded(db, tx, from + 1, mid, to);
    }
  }

  lemma {:induction false} EventsSplit(db: Db, tx: Tx, from: nat, mid: nat, to: nat)
    requires from <= mid <= to <= |tx.events| && PersistEvents(db, tx, from, mid).Some?
    ensures PersistEvents(db, tx, from, to) == PersistEvents(PersistEvents(db, tx, from, mid).value, tx, mid, to)
    decreases |tx.events| - from
  {
    if from < mid {
      EventsSplit(PersistEvent(db, Key(tx.signature, from), tx.events[from]).value, tx, from + 1, mid, to);
    }
  }

  /** The heart of crash recovery: persisting a transaction again after any prefix of its events gives what
      one clean pass gives. */
  lemma PrefixThenAll(db: Db, tx: Tx, done: nat, to: nat)
    requires done <= to <= |tx.events| && PersistEvents(db, tx, 0, done).Some? && KnownMarkets(db.markets.Keys, tx, 0)
    ensures PersistEvents(PersistEvents(db, tx, 0, done).value, tx, 0, to) == PersistEvents(db, tx, 0, to)
  {
    var partial := PersistEvents(db, tx, 0, done).value;
    forall i | 0 <= i < done ensures Recorded(partial, Key(tx.signature, i), tx.events[i]) {
      EventsRecorded(db, tx, 0, done, i);
    }
    SkipRecorded(partial, tx, 0, done, to);
    EventsSplit(db, tx, 0, done, to);
  }

  predicate UniqueSignatures(txs: seq<Tx>) {
    forall i, j :: 0 <= i < j < |txs| ==> txs[i].signature != txs[j].signature
  }
}
