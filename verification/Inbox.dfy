/** The durable per-peer receive log (daemon/store.go): it retains the newest
    `capacity` messages and remembers the seqs it trimmed as a bounded replay guard. */
module Inbox {
  import opened Bytes
  import opened Ranks

  datatype Entry = Entry(ts: i64, payload: bytes)

  /** The `inbox` and `inbox_seen` rows of one peer. */
  datatype Log = Log(rows: map<int, Entry>, seen: set<int>)

  const SEEN_FACTOR: nat := 4

  function Restrict(rows: map<int, Entry>, keep: set<int>): (r: map<int, Entry>)
    ensures r.Keys == rows.Keys * keep
    ensures forall k :: k in r ==> r[k] == rows[k]
  {
    map k | k in rows && k in keep :: rows[k]
  }

  lemma RestrictIs(rows: map<int, Entry>, kept: map<int, Entry>, keep: set<int>)
    requires kept.Keys == rows.Keys * keep
    requires forall k :: k in kept ==> kept[k] == rows[k]
    ensures kept == Restrict(rows, keep)
  {
    var r := Restrict(rows, keep);
    assert kept.Keys == r.Keys;
    forall k | k in kept ensures kept[k] == r[k] {}
  }

  /** What one trim computes: everything past the newest `capacity` rows moves to
      the guard, and the guard keeps its `4 * capacity` newest seqs. */
  function Trim(log: Log, capacity: nat): Log {
    var keep := Top(log.rows.Keys, capacity);
    Log(Restrict(log.rows, keep),
        Top(log.seen + (log.rows.Keys - keep), SEEN_FACTOR * capacity))
  }

  function AddTo(log: Log, capacity: nat, sn: int, e: Entry): (Log, bool) {
    if sn in log.rows || sn in log.seen then (log, false)
    else (Trim(Log(log.rows[sn := e], log.seen), capacity), true)
  }

  /** The log is the pure function of the set of accepted seqs it is meant to be. */
  ghost predicate Reflects(log: Log, accepted: set<int>, capacity: nat) {
    && log.rows.Keys == Top(accepted, capacity)
    && log.seen == Top(accepted, 5 * capacity) - Top(accepted, capacity)
  }

  /** The incremental two-tier structure tracks the declarative one through every
      Add, whether the seq is fresh, remembered, or accepted long ago and forgotten. */
  lemma AddReflects(log: Log, capacity: nat, sn: int, e: Entry, accepted: set<int>)
    requires Reflects(log, accepted, capacity)
    ensures Reflects(AddTo(log, capacity, sn, e).0, accepted + {sn}, capacity)
  {
    if sn in log.rows || sn in log.seen {
      assert accepted + {sn} == accepted;
    } else {
      var all := accepted + {sn};
      TopOfTop(accepted, capacity, 5 * capacity);
      var known := Top(accepted, 5 * capacity) + {sn};
      assert log.rows[sn := e].Keys == Top(accepted, capacity) + {sn};
      var keep := Top(log.rows[sn := e].Keys, capacity);
      TopAfterInsert(accepted, capacity, capacity, sn);
      TopAfterInsert(accepted, 5 * capacity, capacity, sn);
      TopAfterInsert(accepted, 5 * capacity, 5 * capacity, sn);
      assert keep == Top(all, capacity) == Top(known, capacity);
      assert log.seen + (log.rows[sn := e].Keys - keep) == known - keep;
      TopOfRest(known, capacity, SEEN_FACTOR * capacity);
      assert capacity + SEEN_FACTOR * capacity == 5 * capacity;
    }
  }

  /** Exactly when an already accepted seq is taken for new again: at least
      `5 * capacity` larger seqs have been accepted. A seq never accepted is always new. */
  lemma NewExactlyWhen(log: Log, capacity: nat, sn: int, e: Entry, accepted: set<int>)
    requires Reflects(log, accepted, capacity)
    ensures AddTo(log, capacity, sn, e).1 <==>
            sn !in accepted || Rank(accepted, sn) >= 5 * capacity
  {
    TopOfTop(accepted, capacity, 5 * capacity);
  }

  // ---------------------------------------------------------------- arrivals

  datatype Arrival = Arrival(sn: int, entry: Entry)

  function Rows(rows: map<int, Entry>, keys: seq<int>): (out: seq<Arrival>)
    requires forall k :: k in keys ==> k in rows
    ensures |out| == |keys|
    ensures forall i :: 0 <= i < |keys| ==> out[i].sn == keys[i] && out[i].entry == rows[keys[i]]
  {
    if keys == [] then []
    else
      var k := keys[0];
      assert k in keys;
      [Arrival(k, rows[k])] + Rows(rows, keys[1..])
  }

  function KeysAbove(rows: map<int, Entry>, after: int): (keys: seq<int>)
    ensures Increasing(keys)
    ensures forall k :: k in keys <==> k in rows && k > after
  {
    Ascending(Above(rows.Keys, after))
  }

  /** The rows with seq strictly above `after`, in seq order. */
  function Listing(rows: map<int, Entry>, after: int): (out: seq<Arrival>)
    ensures forall i, j :: 0 <= i < j < |out| ==> out[i].sn < out[j].sn
  {
    Rows(rows, KeysAbove(rows, after))
  }

  lemma RowAt(rows: map<int, Entry>, keys: seq<int>, i: nat)
    requires i < |keys|
    requires forall k :: k in keys ==> k in rows
    ensures keys[i] in rows && Rows(rows, keys)[i] == Arrival(keys[i], rows[keys[i]])
  {
    var k := keys[i];
    assert k in keys;
  }

  lemma ListingHolds(rows: map<int, Entry>, after: int, a: Arrival)
    ensures a in Listing(rows, after) <==> a.sn in rows && a.sn > after && rows[a.sn] == a.entry
  {
    RowsHold(rows, KeysAbove(rows, after), a);
  }

  lemma RowsHold(rows: map<int, Entry>, keys: seq<int>, a: Arrival)
    requires forall k :: k in keys ==> k in rows
    ensures a in Rows(rows, keys) <==> a.sn in keys && rows[a.sn] == a.entry
  {
    var out := Rows(rows, keys);
    if a in out {
      var i :| 0 <= i < |out| && out[i] == a;
      assert keys[i] in keys;
    }
    if a.sn in keys && rows[a.sn] == a.entry {
      var i :| 0 <= i < |keys| && keys[i] == a.sn;
      assert out[i] == a;
    }
  }

  function Seqs(arrivals: seq<Arrival>): set<int> {
    set i | 0 <= i < |arrivals| :: arrivals[i].sn
  }

  function Receive(arrivals: seq<Arrival>, capacity: nat): Log {
    if arrivals == [] then Log(map[], {})
    else
      var last := arrivals[|arrivals| - 1];
      AddTo(Receive(arrivals[..|arrivals| - 1], capacity), capacity, last.sn, last.entry).0
  }

  /** After any arrivals, in any order and with any repeats, the log holds the
      newest `capacity` distinct seqs and the guard the next `4 * capacity`. */
  lemma {:induction false} ReceiveReflects(arrivals: seq<Arrival>, capacity: nat)
    ensures Reflects(Receive(arrivals, capacity), Seqs(arrivals), capacity)
  {
    if arrivals != [] {
      var init, last := arrivals[..|arrivals| - 1], arrivals[|arrivals| - 1];
      ReceiveReflects(init, capacity);
      assert Seqs(arrivals) == Seqs(init) + {last.sn};
      AddReflects(Receive(init, capacity), capacity, last.sn, last.entry, Seqs(init));
    }
  }

  /** Every retained row is the content of some arrival with that seq. */
  lemma {:induction false} ReceiveContent(arrivals: seq<Arrival>, capacity: nat)
    ensures forall k :: k in Receive(arrivals, capacity).rows ==>
              Arrival(k, Receive(arrivals, capacity).rows[k]) in arrivals
  {
    if arrivals != [] {
      ReceiveContent(arrivals[..|arrivals| - 1], capacity);
    }
  }

  ghost predicate Consistent(arrivals: seq<Arrival>) {
    forall a, b :: a in arrivals && b in arrivals && a.sn == b.sn ==> a == b
  }

  /** Arrival order and repetition leave no trace: two histories carrying the same
      messages end in the same log. */
  lemma OrderDoesNotMatter(one: seq<Arrival>, two: seq<Arrival>, capacity: nat)
    requires Consistent(one)
    requires forall a :: a in one <==> a in two
    ensures Receive(one, capacity) == Receive(two, capacity)
  {
    hide Receive, Consistent, Seqs;
    var l1, l2 := Receive(one, capacity), Receive(two, capacity);
    ReceiveReflects(one, capacity);
    ReceiveReflects(two, capacity);
    SeqsWithin(one, two);
    SeqsWithin(two, one);
    assert Seqs(one) == Seqs(two);
    hide Reflects;
    ReflectsAlike(l1, l2, Seqs(one), capacity);
    ReceiveContent(one, capacity);
    ReceiveContent(two, capacity);
    forall k | k in l1.rows ensures l1.rows[k] == l2.rows[k] {
      SameContent(one, k, l1.rows[k], l2.rows[k]);
    }
    assert l1.rows == l2.rows;
  }

  lemma SeqsWithin(one: seq<Arrival>, two: seq<Arrival>)
    requires forall a :: a in one ==> a in two
    ensures Seqs(one) <= Seqs(two)
  {
    forall k | k in Seqs(one) ensures k in Seqs(two) {
      var i :| 0 <= i < |one| && one[i].sn == k;
      assert one[i] in two;
    }
  }

  lemma ReflectsAlike(l1: Log, l2: Log, accepted: set<int>, capacity: nat)
    requires Reflects(l1, accepted, capacity) && Reflects(l2, accepted, capacity)
    ensures l1.rows.Keys == l2.rows.Keys && l1.seen == l2.seen
  {
  }

  lemma SameContent(arrivals: seq<Arrival>, k: int, a: Entry, b: Entry)
    requires Consistent(arrivals) && Arrival(k, a) in arrivals && Arrival(k, b) in arrivals
    ensures a == b
  {
  }

  // ---------------------------------------------------------------- the store

  /** `capacity` and `seenCap` are fixed; the tables are replaced transaction by
      transaction. A uint64 seq is stored, compared and ordered as the int64 it converts
      to, so seqs of 2^63 and above sort below all others. */
  class InboxStore {
    const capacity: nat
    const seenCap: nat
    var rows: map<int, Entry>
    var seen: set<int>
    var retainedMin: int
    ghost var accepted: set<int>

    ghost function Contents(): Log
      reads this
    {
      Log(rows, seen)
    }

    ghost predicate Valid()
      reads this
    {
      && capacity >= 1 && seenCap == SEEN_FACTOR * capacity
      && (forall k :: k in accepted ==> -TWO_63 <= k < TWO_63)
      && Reflects(Contents(), accepted, capacity)
      && retainedMin == (if rows.Keys == {} then 0 else Min(rows.Keys))
    }

    constructor (requested: int)
      ensures Valid() && accepted == {}
      ensures capacity == if requested < 1 then 1 else requested
    {
      capacity := if requested < 1 then 1 else requested;
      seenCap := SEEN_FACTOR * (if requested < 1 then 1 else requested);
      rows, seen, retainedMin := map[], {}, 0;
      accepted := {};
    }

    lemma RowsAreInt64()
      requires Valid()
      ensures forall k :: k in rows ==> -TWO_63 <= k < TWO_63
    {
    }

    /** Stores one message; a duplicate, retained or remembered, changes nothing. */
    method Add(sn: u64, ts: i64, payload: bytes) returns (isNew: bool)
      requires Valid()
      modifies this
      ensures Valid()
      ensures accepted == old(accepted) + {ToSigned(sn)}
      ensures (Contents(), isNew) == AddTo(old(Contents()), capacity, ToSigned(sn), Entry(ts, payload))
      ensures isNew <==> ToSigned(sn) !in old(accepted) || Rank(old(accepted), ToSigned(sn)) >= 5 * capacity
    {
      hide Top, Rank, Above;
      ghost var before := Contents();
      var key := ToSigned(sn);
      AddReflects(before, capacity, key, Entry(ts, payload), accepted);
      NewExactlyWhen(before, capacity, key, Entry(ts, payload), accepted);
      accepted := accepted + {key};
      if key in rows {
        return false;
      }
      if key in seen {
        return false;
      }
      rows := rows[key := Entry(ts, payload)];
      TrimTx();
      return true;
    }

    method TrimTx()
      requires capacity >= 1 && seenCap == SEEN_FACTOR * capacity
      modifies this`rows, this`seen, this`retainedMin
      ensures Contents() == Trim(old(Contents()), capacity)
      ensures retainedMin == if rows.Keys == {} then 0 else Min(rows.Keys)
    {
      EvictOldest();
      seen := Top(seen, seenCap);
      retainedMin := if rows.Keys == {} then 0 else Min(rows.Keys);
    }

    /** The eviction loop of the trim: the smallest seq goes, one at a time. */
    method EvictOldest()
      modifies this`rows, this`seen
      ensures rows == Restrict(old(rows), Top(old(rows).Keys, capacity))
      ensures seen == old(seen) + (old(rows).Keys - Top(old(rows).Keys, capacity))
    {
      hide Top, Rank, Above;
      var count := |rows|;
      ghost var rows0, seen0 := rows, seen;
      while count > capacity
        invariant count == |rows| == |rows.Keys|
        invariant rows.Keys <= rows0.Keys && forall k :: k in rows ==> rows[k] == rows0[k]
        invariant Top(rows.Keys, capacity) == Top(rows0.Keys, capacity)
        invariant seen == seen0 + (rows0.Keys - rows.Keys)
      {
        TopDropMin(rows.Keys, capacity);
        var oldest := Min(rows.Keys);
        seen := seen + {oldest};
        ghost var keys := rows.Keys;
        rows := rows - {oldest};
        assert rows.Keys == keys - {oldest};
        count := count - 1;
      }
      TopAll(rows.Keys, capacity);
      TopIsWithin(rows0.Keys, capacity);
      RestrictIs(rows0, rows, Top(rows0.Keys, capacity));
    }

    method After(afterSeq: u64) returns (out: seq<Arrival>)
      ensures out == Listing(rows, ToSigned(afterSeq))
    {
      hide Rows;
      var keys := KeysAbove(rows, ToSigned(afterSeq));
      ghost var all := Rows(rows, keys);
      out := [];
      for i := 0 to |keys|
        invariant out == all[..i]
      {
        RowAt(rows, keys, i);
        out := out + [Arrival(keys[i], rows[keys[i]])];
      }
    }

    /** The newest retained seq is the newest ever accepted. */
    method Latest() returns (r: u64)
      requires Valid()
      ensures accepted == {} ==> r == 0
      ensures accepted != {} ==> ToSigned(r) in accepted && forall x :: x in accepted ==> x <= ToSigned(r)
    {
      var keys := Ascending(rows.Keys);
      TopSize(accepted, capacity);
      if |keys| == 0 {
        return 0;
      }
      var newest := keys[|keys| - 1];
      assert newest in keys;
      forall x | x in accepted ensures x <= newest {
        if x > newest {
          TopIsUpwardClosed(accepted, capacity, newest, x);
        }
      }
      r := ToUnsigned(newest);
    }

    /** The oldest retained seq: exactly the accepted seqs from it upward are retained. */
    method Oldest() returns (r: u64)
      requires Valid()
      ensures accepted == {} ==> r == 0
      ensures accepted != {} ==> ToSigned(r) in accepted
      ensures accepted != {} ==> forall x :: x in rows <==> x in accepted && ToSigned(r) <= x
    {
      TopSize(accepted, capacity);
      if rows.Keys == {} {
        return 0;
      }
      var oldest := Min(rows.Keys);
      forall x | x in accepted && oldest <= x ensures x in rows {
        if oldest < x { TopIsUpwardClosed(accepted, capacity, oldest, x); }
      }
      r := ToUnsigned(oldest);
    }
  }
}
