/** When the indexer's database refuses a row: a redemption of a market it has never heard of, in one
    transaction or along a whole walk. apps/indexer/src/ingest/persister.service.ts.
    */
module Refusals {
  import opened Machine
  import opened Replay

  /** An event on its way into the tables. */
  datatype Entry = Entry(key: Key, ev: Event)

  function EventsOf(tx: Tx, from: nat, to: nat): (feed: seq<Entry>)
    requires from <= to <= |tx.events|
    ensures |feed| == to - from
    ensures forall i :: 0 <= i < |feed| ==> feed[i] == Entry(Key(tx.signature, from + i), tx.events[from + i])
    decreases |tx.events| - from
  {
    if from == to then [] else [Entry(Key(tx.signature, from), tx.events[from])] + EventsOf(tx, from + 1, to)
  }

  function PersistFeed(db: Db, feed: seq<Entry>): Option<Db>
    decreases |feed|
  {
    if feed == [] then Some(db)
    else
      var next := PersistEvent(db, feed[0].key, feed[0].ev);
      if next.None? then None else PersistFeed(next.value, feed[1..])
  }

  predicate DistinctKeys(feed: seq<Entry>) {
    forall i, j :: 0 <= i < j < |feed| ==> feed[i].key != feed[j].key
  }

  /** A redemption without a row yet, of a market neither the tables nor an earlier event of the feed knows. */
  predicate OrphanAt(db: Db, feed: seq<Entry>, n: nat) {
    && n < |feed| && feed[n].ev.Redeem? && feed[n].key !in db.redemptions && feed[n].ev.market !in db.markets
    && forall c :: 0 <= c < n ==> feed[c].ev != Created(feed[n].ev.market)
  }

  ghost predicate HasOrphan(db: Db, feed: seq<Entry>) {
    exists n: nat :: OrphanAt(db, feed, n)
  }

  /** The database refuses a row exactly when the feed holds an orphan. */
  lemma {:induction false} RefusedExactlyWhen(db: Db, feed: seq<Entry>)
    requires DistinctKeys(feed)
    ensures PersistFeed(db, feed).None? <==> HasOrphan(db, feed)
    decreases |feed|
  {
    if feed != [] {
      var next := PersistEvent(db, feed[0].key, feed[0].ev);
      if next.None? {
        assert OrphanAt(db, feed, 0);
      } else {
        RefusedExactlyWhen(next.value, feed[1..]);
        forall n: nat ensures OrphanAt(db, feed, n + 1) <==> OrphanAt(next.value, feed[1..], n) {
          OrphanLater(db, feed, n);
        }
        assert !OrphanAt(db, feed, 0);
        assert HasOrphan(db, feed) ==> HasOrphan(next.value, feed[1..]) by {
          if n: nat :| OrphanAt(db, feed, n) { assert OrphanAt(next.value, feed[1..], n - 1); }
        }
      }
    }
  }

  lemma OrphanLater(db: Db, feed: seq<Entry>, n: nat)
    requires feed != [] && DistinctKeys(feed) && PersistEvent(db, feed[0].key, feed[0].ev).Some?
    ensures OrphanAt(db, feed, n + 1) <==> OrphanAt(PersistEvent(db, feed[0].key, feed[0].ev).value, feed[1..], n)
  {
    var next, rest := PersistEvent(db, feed[0].key, feed[0].ev).value, feed[1..];
    if n < |rest| && rest[n].ev.Redeem? {
      assert rest[n] == feed[n + 1];
      assert rest[n].key in next.redemptions <==> rest[n].key in db.redemptions;
      assert rest[n].ev.market in next.markets <==> rest[n].ev.market in db.markets || feed[0].ev == Created(rest[n].ev.market);
      if OrphanAt(next, rest, n) {
        forall c | 0 <= c < n + 1 ensures feed[c].ev != Created(feed[n + 1].ev.market) {
          if c > 0 { assert rest[c - 1] == feed[c]; }
        }
      }
    }
  }

  lemma {:induction false} FeedIsEvents(db: Db, tx: Tx, from: nat, to: nat)
    requires from <= to <= |tx.events|
    ensures PersistEvents(db, tx, from, to) == PersistFeed(db, EventsOf(tx, from, to))
    decreases |tx.events| - from
  {
    if from < to {
      var next := PersistEvent(db, Key(tx.signature, from), tx.events[from]);
      assert EventsOf(tx, from, to)[1..] == EventsOf(tx, from + 1, to);
      if next.Some? {
        FeedIsEvents(next.value, tx, from + 1, to);
      }
    }
  }

  lemma {:induction false} FeedSplits(db: Db, front: seq<Entry>, back: seq<Entry>)
    ensures PersistFeed(db, front + back)
         == if PersistFeed(db, front).None? then None else PersistFeed(PersistFeed(db, front).value, back)
    decreases |front|
  {
    if front == [] {
      assert front + back == back;
    } else {
      assert (front + back)[1..] == front[1..] + back;
      var next := PersistEvent(db, front[0].key, front[0].ev);
      if next.Some? {
        FeedSplits(next.value, front[1..], back);
      }
    }
  }

  /** The tables do not depend on the cursor. */
  lemma {:induction false} FeedIgnoresCursor(db: Db, feed: seq<Entry>, cursor: Option<Signature>)
    ensures PersistFeed(db.(cursor := cursor), feed)
         == if PersistFeed(db, feed).None? then None else Some(PersistFeed(db, feed).value.(cursor := cursor))
    decreases |feed|
  {
    if feed != [] {
      var next := PersistEvent(db, feed[0].key, feed[0].ev);
      assert PersistEvent(db.(cursor := cursor), feed[0].key, feed[0].ev)
          == if next.None? then None else Some(next.value.(cursor := cursor));
      if next.Some? {
        FeedIgnoresCursor(next.value, feed[1..], cursor);
      }
    }
  }

  // ------------------------------------------------------------------- a walk

  /** The events a walk brings, in order. */
  function Feed(txs: seq<Tx>, lost: set<Signature>): seq<Entry>
    decreases |txs|
  {
    if txs == [] then []
    else EventsOf(txs[0], 0, EventsSeen(txs[0], Answered(txs[0], lost))) + Feed(txs[1..], lost)
  }

  lemma {:induction false} WalkSplits(db: Db, front: seq<Tx>, back: seq<Tx>, lost: set<Signature>)
    ensures ReplayWalk(db, front + back, lost)
         == if ReplayWalk(db, front, lost).None? then None else ReplayWalk(ReplayWalk(db, front, lost).value, back, lost)
    decreases |front|
  {
    if front == [] {
      assert front + back == back;
    } else {
      assert (front + back)[1..] == front[1..] + back;
      var next := ReplayTx(db, front[0], Answered(front[0], lost));
      if next.Some? {
        WalkSplits(next.value, front[1..], back, lost);
      }
    }
  }

  lemma {:induction false} WalkIsFeed(db: Db, txs: seq<Tx>, lost: set<Signature>)
    ensures ReplayWalk(db, txs, lost).None? <==> PersistFeed(db, Feed(txs, lost)).None?
    decreases |txs|
  {
    if txs != [] {
      var tx := txs[0];
      var seen := EventsSeen(tx, Answered(tx, lost));
      FeedIsEvents(db, tx, 0, seen);
      FeedSplits(db, EventsOf(tx, 0, seen), Feed(txs[1..], lost));
      var r := PersistEvents(db, tx, 0, seen);
      if r.Some? {
        FeedIgnoresCursor(r.value, Feed(txs[1..], lost), Some(tx.signature));
        WalkIsFeed(r.value.(cursor := Some(tx.signature)), txs[1..], lost);
      }
    }
  }

  /** Every entry of a feed carries the signature of one of its transactions. */
  lemma {:induction false} FeedSignatures(txs: seq<Tx>, lost: set<Signature>, n: nat) returns (i: nat)
    requires n < |Feed(txs, lost)|
    ensures i < |txs| && Feed(txs, lost)[n].key.signature == txs[i].signature
    decreases |txs|
  {
    var first := EventsOf(txs[0], 0, EventsSeen(txs[0], Answered(txs[0], lost)));
    if n < |first| {
      i := 0;
    } else {
      var j := FeedSignatures(txs[1..], lost, n - |first|);
      i := j + 1;
    }
  }

  lemma {:induction false} FeedIsDistinct(txs: seq<Tx>, lost: set<Signature>)
    requires UniqueSignatures(txs)
    ensures DistinctKeys(Feed(txs, lost))
    decreases |txs|
  {
    if txs != [] {
      var first, rest := EventsOf(txs[0], 0, EventsSeen(txs[0], Answered(txs[0], lost))), Feed(txs[1..], lost);
      FeedIsDistinct(txs[1..], lost);
      var all: seq<Entry> := first + rest;
      forall i, j | 0 <= i < j < |all| ensures all[i].key != all[j].key {
        if i < |first| <= j {
          var k := FeedSignatures(txs[1..], lost, j - |first|);
          assert txs[1..][k] == txs[k + 1];
        }
      }
    }
  }

  /** A walk is refused exactly when, among the events it brings, there is a redemption without a row whose
      market neither the tables nor an earlier event of the walk knows. */
  lemma WalkRefusedExactlyWhen(db: Db, txs: seq<Tx>, lost: set<Signature>)
    requires UniqueSignatures(txs)
    ensures ReplayWalk(db, txs, lost).None? <==> HasOrphan(db, Feed(txs, lost))
  {
    WalkIsFeed(db, txs, lost);
    FeedIsDistinct(txs, lost);
    RefusedExactlyWhen(db, Feed(txs, lost));
  }

  /** An orphan behind the events already written is still one. */
  lemma OrphanStays(db: Db, tx: Tx, done: nat, to: nat)
    requires done <= to <= |tx.events| && PersistEvents(db, tx, 0, done).Some?
    requires HasOrphan(db, EventsOf(tx, 0, to))
    ensures HasOrphan(PersistEvents(db, tx, 0, done).value, EventsOf(tx, 0, to))
  {
    var n: nat :| OrphanAt(db, EventsOf(tx, 0, to), n);
    var feed, front := EventsOf(tx, 0, to), EventsOf(tx, 0, done);
    FeedIsEvents(db, tx, 0, done);
    RefusedExactlyWhen(db, front);
    if n < done {
      assert forall c :: 0 <= c < done ==> front[c] == feed[c];
      assert OrphanAt(db, front, n);
    }
    WritesOnlyWhatComes(db, tx, 0, done);
    forall c | 0 <= c < done ensures tx.events[c] != Created(feed[n].ev.market) {
      assert feed[c].ev == tx.events[c];
    }
    assert OrphanAt(PersistEvents(db, tx, 0, done).value, feed, n);
  }

  /** New markets and redemptions in the tables are those of the events written. */
  lemma {:induction false} WritesOnlyWhatComes(db: Db, tx: Tx, from: nat, to: nat)
    requires from <= to <= |tx.events| && PersistEvents(db, tx, from, to).Some?
    ensures var db' := PersistEvents(db, tx, from, to).value;
      && (forall m :: m in db'.markets ==> m in db.markets || exists c :: from <= c < to && tx.events[c] == Created(m))
      && (forall k: Key :: k in db'.redemptions ==> k in db.redemptions || (k.signature == tx.signature && from <= k.eventIndex < to))
    decreases |tx.events| - from
  {
    if from < to {
      var next := PersistEvent(db, Key(tx.signature, from), tx.events[from]).value;
      assert forall m :: m in next.markets ==> m in db.markets || tx.events[from] == Created(m);
      WritesOnlyWhatComes(next, tx, from + 1, to);
    }
  }
}
