/** The outbound side of a node (daemon/node.go): two bounded queues and the one
    writer goroutine that drains them, control traffic first. */
module Nodes {
  import opened Bytes

  const CONTROL_BOUND: nat := 64
  const BULK_BOUND: nat := 512

  datatype Lane = Control | Bulk

  /** Where the writer stands: at the head of its loop, or blocked in the second select. */
  datatype Point = Head | Blocked

  datatype Queues = Queues(control: seq<bytes>, bulk: seq<bytes>, at: Point)

  const EMPTY := Queues([], [], Head)

  function Line(q: Queues, lane: Lane): seq<bytes> {
    match lane case Control => q.control case Bulk => q.bulk
  }

  function Bound(lane: Lane): nat {
    match lane case Control => CONTROL_BOUND case Bulk => BULK_BOUND
  }

  /** A non-blocking channel send: refused when the packet exceeds the MTU or the lane is full. */
  function Enqueue(q: Queues, lane: Lane, data: bytes, mtu: nat): Result<Queues> {
    if |data| > mtu then Err
    else match lane
      case Control => if |q.control| < CONTROL_BOUND then Ok(q.(control := q.control + [data])) else Err
      case Bulk => if |q.bulk| < BULK_BOUND then Ok(q.(bulk := q.bulk + [data])) else Err
  }

  /** One move of writeLoop. In the second select both lanes may be ready, and the
      runtime picks either: `pick` is that choice. */
  function Advance(q: Queues, pick: Lane): (Queues, Option<(Lane, bytes)>) {
    match q.at
    case Head =>
      if q.control != [] then (q.(control := q.control[1..]), Some((Control, q.control[0])))
      else (q.(at := Blocked), None)
    case Blocked =>
      if q.control != [] && (pick.Control? || q.bulk == []) then
        (q.(control := q.control[1..], at := Head), Some((Control, q.control[0])))
      else if q.bulk != [] then
        (q.(bulk := q.bulk[1..], at := Head), Some((Bulk, q.bulk[0])))
      else (q, None)
  }

  // ------------------------------------------------------------ interleavings

  datatype Event = Offer(lane: Lane, data: bytes) | Move(pick: Lane)

  /** Per lane, every packet accepted so far and every packet handed to writeFn so far. */
  datatype Trace = Trace(q: Queues, acceptedControl: seq<bytes>, acceptedBulk: seq<bytes>,
                         writtenControl: seq<bytes>, writtenBulk: seq<bytes>)

  function After(t: Trace, e: Event, mtu: nat): Trace {
    match e
    case Offer(lane, data) =>
      (match Enqueue(t.q, lane, data, mtu)
       case Err => t
       case Ok(q) =>
         match lane
         case Control => t.(q := q, acceptedControl := t.acceptedControl + [data])
         case Bulk => t.(q := q, acceptedBulk := t.acceptedBulk + [data]))
    case Move(pick) =>
      var (q, out) := Advance(t.q, pick);
      match out
      case None => t.(q := q)
      case Some((Control, data)) => t.(q := q, writtenControl := t.writtenControl + [data])
      case Some((Bulk, data)) => t.(q := q, writtenBulk := t.writtenBulk + [data])
  }

  function RunEvents(events: seq<Event>, mtu: nat): Trace {
    if events == [] then Trace(EMPTY, [], [], [], [])
    else After(RunEvents(events[..|events| - 1], mtu), events[|events| - 1], mtu)
  }

  ghost predicate Fifo(t: Trace) {
    && t.acceptedControl == t.writtenControl + t.q.control
    && t.acceptedBulk == t.writtenBulk + t.q.bulk
    && |t.q.control| <= CONTROL_BOUND && |t.q.bulk| <= BULK_BOUND
  }

  lemma MoveKeepsFifo(t: Trace, pick: Lane, mtu: nat)
    requires Fifo(t)
    ensures Fifo(After(t, Move(pick), mtu))
  {
    if t.q.control != [] {
      assert t.writtenControl + t.q.control == (t.writtenControl + [t.q.control[0]]) + t.q.control[1..];
    }
    if t.q.bulk != [] {
      assert t.writtenBulk + t.q.bulk == (t.writtenBulk + [t.q.bulk[0]]) + t.q.bulk[1..];
    }
  }

  lemma OfferKeepsFifo(t: Trace, lane: Lane, data: bytes, mtu: nat)
    requires Fifo(t)
    ensures Fifo(After(t, Offer(lane, data), mtu))
  {
    assert (t.writtenControl + t.q.control) + [data] == t.writtenControl + (t.q.control + [data]);
    assert (t.writtenBulk + t.q.bulk) + [data] == t.writtenBulk + (t.q.bulk + [data]);
  }

  /** In every interleaving of senders and writer, each lane stays within its bound
      and hands over exactly what it accepted, once, in order. */
  lemma {:induction false} EachLaneIsFifo(events: seq<Event>, mtu: nat)
    ensures Fifo(RunEvents(events, mtu))
  {
    if events != [] {
      var init, last := events[..|events| - 1], events[|events| - 1];
      EachLaneIsFifo(init, mtu);
      match last
      case Offer(lane, data) => OfferKeepsFifo(RunEvents(init, mtu), lane, data, mtu);
      case Move(pick) => MoveKeepsFifo(RunEvents(init, mtu), pick, mtu);
    }
  }

  lemma OneMoreEvent(events: seq<Event>, j: nat, mtu: nat)
    requires j < |events|
    ensures RunEvents(events[..j + 1], mtu) == After(RunEvents(events[..j], mtu), events[j], mtu)
  {
    assert events[..j + 1][..j] == events[..j];
  }

  ghost predicate OvertakenAtMostOnce(before: Trace, now: Trace) {
    && |before.acceptedControl| <= |now.acceptedControl|
    && |before.writtenBulk| <= |now.writtenBulk| <= |before.writtenBulk| + 1
    && (|now.writtenBulk| == |before.writtenBulk| + 1 ==> now.q.at == Head)
  }

  lemma NextOvertaking(before: Trace, t: Trace, e: Event, k: nat, mtu: nat)
    requires Fifo(t)
    requires k < |before.acceptedControl|
    requires |After(t, e, mtu).writtenControl| <= k
    ensures |t.writtenControl| <= k
    ensures OvertakenAtMostOnce(before, t) ==> OvertakenAtMostOnce(before, After(t, e, mtu))
  {
  }

  /** Once the `k`-th control packet is accepted, at most one bulk packet leaves the
      bulk lane before it does, whatever else is sent meanwhile. */
  lemma {:induction false} BulkOvertakesAtMostOnce(events: seq<Event>, i: nat, j: nat, k: nat, mtu: nat)
    requires i <= j <= |events|
    requires k < |RunEvents(events[..i], mtu).acceptedControl|
    requires |RunEvents(events[..j], mtu).writtenControl| <= k
    ensures OvertakenAtMostOnce(RunEvents(events[..i], mtu), RunEvents(events[..j], mtu))
  {
    hide RunEvents, After, Fifo;
    if i < j {
      OneMoreEvent(events, j - 1, mtu);
      EachLaneIsFifo(events[..j - 1], mtu);
      NextOvertaking(RunEvents(events[..i], mtu), RunEvents(events[..j - 1], mtu), events[j - 1], k, mtu);
      BulkOvertakesAtMostOnce(events, i, j - 1, k, mtu);
    }
  }

  // ---------------------------------------------------------------- the object

  class Node {
    const mtu: nat
    var queues: Queues
    ghost var wire: set<bytes>

    ghost predicate Valid()
      reads this
    {
      |queues.control| <= CONTROL_BOUND && |queues.bulk| <= BULK_BOUND
    }

    constructor (mtu: nat)
      ensures Valid() && queues == EMPTY && wire == {} && this.mtu == mtu
    {
      this.mtu := mtu;
      queues := EMPTY;
      wire := {};
    }

    method Send(lane: Lane, data: bytes) returns (ok: bool)
      requires Valid()
      modifies this`queues
      ensures Valid()
      ensures ok == Enqueue(old(queues), lane, data, mtu).Ok?
      ensures queues == if ok then Enqueue(old(queues), lane, data, mtu).value else old(queues)
      ensures ok <==> |data| <= mtu && if lane.Control? then |old(queues).control| < 64 else |old(queues).bulk| < 512
      ensures ok ==> queues == if lane.Control? then old(queues).(control := old(queues).control + [data])
                               else old(queues).(bulk := old(queues).bulk + [data])
    {
      if |data| > mtu {
        return false;
      }
      match lane
      case Control =>
        if |queues.control| >= CONTROL_BOUND { return false; }
        queues := queues.(control := queues.control + [data]);
        return true;
      case Bulk =>
        if |queues.bulk| >= BULK_BOUND { return false; }
        queues := queues.(bulk := queues.bulk + [data]);
        return true;
    }

    /** One pass of writeLoop up to and including its writeFn call. */
    method WriteOnce(pick: Lane) returns (out: Option<(Lane, bytes)>)
      requires Valid()
      modifies this
      ensures Valid()
      ensures (queues, out) == Advance(old(queues), pick)
      ensures wire == old(wire) + if out.Some? then {out.value.1} else {}
      ensures out.None? ==> old(queues).control == [] && (old(queues).at.Head? || old(queues).bulk == [])
      ensures out.None? ==> queues == old(queues).(at := Blocked)
      ensures out.Some? && out.value.0.Control? ==>
                old(queues).control == [out.value.1] + queues.control && queues.bulk == old(queues).bulk && queues.at.Head?
      ensures out.Some? && out.value.0.Bulk? ==>
                old(queues).bulk == [out.value.1] + queues.bulk && queues.control == old(queues).control && queues.at.Head?
      ensures out.Some? ==>
                out.value.0 == if old(queues).at.Head? then Control
                               else if old(queues).control != [] && old(queues).bulk != [] then pick
                               else if old(queues).control != [] then Control else Bulk
    {
      if queues.at == Head && queues.control == [] {
        queues := queues.(at := Blocked);
        return None;
      }
      if queues.control != [] && (queues.at == Head || pick.Control? || queues.bulk == []) {
        out := Some((Control, queues.control[0]));
        queues := queues.(control := queues.control[1..], at := Head);
      } else if queues.bulk != [] {
        out := Some((Bulk, queues.bulk[0]));
        queues := queues.(bulk := queues.bulk[1..], at := Head);
      } else {
        return None;
      }
      wire := wire + {out.value.1};
    }
  }
}
