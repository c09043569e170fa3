/** The durable per-peer send queue (daemon/store.go). A row exists until the peer
    acknowledges its seq; `sent` is the transient time of the last successful enqueue. */
module Outbox {
  import opened Bytes
  import opened Ranks

  datatype Row = Row(ts: i64, typ: byte, payload: bytes)

  /** `next` is the counter of its own table; `sent` does not survive a restart. */
  datatype Journal = Journal(next: nat, rows: map<nat, Row>, sent: map<nat, int>)

  const FRESH := Journal(1, map[], map[])

  datatype Item = Item(sn: nat, row: Row, sentAt: int)

  function SentAt(sent: map<nat, int>, sn: nat): int {
    if sn in sent then sent[sn] else 0
  }

  function Items(j: Journal, keys: seq<nat>): (r: seq<Item>)
    requires forall k :: k in keys ==> k in j.rows
    ensures |r| == |keys|
    ensures forall i :: 0 <= i < |r| ==>
              keys[i] in j.rows && r[i] == Item(keys[i], j.rows[keys[i]], SentAt(j.sent, keys[i]))
  {
    if keys == [] then []
    else
      assert keys[0] in keys;
      [Item(keys[0], j.rows[keys[0]], SentAt(j.sent, keys[0]))] + Items(j, keys[1..])
  }

  /** Every unacknowledged row in seq order, with its pacing stamp. */
  function PendingItems(j: Journal): (r: seq<Item>)
    ensures |r| == |j.rows|
    ensures forall i, k :: 0 <= i < k < |r| ==> r[i].sn < r[k].sn
    ensures forall i :: 0 <= i < |r| ==>
              r[i].sn in j.rows && r[i] == Item(r[i].sn, j.rows[r[i].sn], SentAt(j.sent, r[i].sn))
  {
    Items(j, AscendingNats(j.rows.Keys))
  }

  lemma PendingHolds(j: Journal, n: nat)
    requires n in j.rows
    ensures Item(n, j.rows[n], SentAt(j.sent, n)) in PendingItems(j)
  {
    var keys := AscendingNats(j.rows.Keys);
    assert n in keys;
    var i :| 0 <= i < |keys| && keys[i] == n;
    assert PendingItems(j)[i].sn == n;
  }

  lemma PendingIsSorted(j: Journal)
    ensures forall i, k :: 0 <= i < k < |PendingItems(j)| ==> PendingItems(j)[i].sn < PendingItems(j)[k].sn
  {
  }

  lemma PendingMember(j: Journal, e: Item)
    requires e in PendingItems(j)
    ensures e.sn in j.rows && e == Item(e.sn, j.rows[e.sn], SentAt(j.sent, e.sn))
  {
  }

  function Acked(j: Journal, sn: nat): Journal {
    j.(rows := j.rows - {sn}, sent := j.sent - {sn})
  }

  class OutboxJournal {
    var next: nat
    var rows: map<nat, Row>
    var sent: map<nat, int>

    ghost function Contents(): Journal
      reads this
    {
      Journal(next, rows, sent)
    }

    /** No row sits at or above the counter, so a queued row is never overwritten. */
    ghost predicate Valid()
      reads this
    {
      forall n :: n in rows ==> n < next
    }

    constructor ()
      ensures Valid() && Contents() == FRESH
    {
      next, rows, sent := 1, map[], map[];
    }

    method NextSeq() returns (sn: nat)
      requires Valid()
      modifies this`next
      ensures Valid()
      ensures sn == old(next) && next == sn + 1 && sn !in rows
    {
      sn := next;
      next := next + 1;
    }

    method QueueAs(sn: nat, ts: i64, payload: bytes, typ: byte)
      requires Valid() && sn < next
      modifies this`rows
      ensures Valid()
      ensures rows == old(rows)[sn := Row(ts, typ, payload)]
    {
      rows := rows[sn := Row(ts, typ, payload)];
    }

    method Pending() returns (out: seq<Item>)
      ensures out == PendingItems(Contents())
    {
      hide AscendingNats, Items, SentAt;
      var keys := AscendingNats(rows.Keys);
      ghost var all := Items(Contents(), keys);
      out := [];
      for i := 0 to |keys|
        invariant out == all[..i]
      {
        assert keys[i] in keys;
        out := out + [Item(keys[i], rows[keys[i]], SentAt(sent, keys[i]))];
      }
    }

    method MarkSent(sn: nat, at: int)
      modifies this`sent
      ensures sent == old(sent)[sn := at]
    {
      sent := sent[sn := at];
    }

    method Ack(sn: nat) returns (removed: bool)
      requires Valid()
      modifies this`rows, this`sent
      ensures Valid()
      ensures Contents() == Acked(old(Contents()), sn)
      ensures removed == (sn in old(rows))
    {
      removed := sn in rows;
      rows := rows - {sn};
      sent := sent - {sn};
    }
  }
}
