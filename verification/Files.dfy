/** File transfers end to end: the client splits and frames (client/aimless/gtkui.py,
    client/aimless/protocol.py), the daemon parses, stores and lists
    (daemon/attachments.go), and the client reassembles. */
module Files {
  import opened Bytes
  import opened Ranks
  import opened Attachments

  const CHUNK: nat := 32 * 1024
  const MAX_SEND: nat := 20 * 1024 * 1024
  const TID_SIZE: nat := 16

  // -------------------------------------------------------------------- splitting

  function Pieces(data: bytes): (r: seq<bytes>)
    ensures |r| == (|data| + CHUNK - 1) / CHUNK
    decreases |data|
  {
    if data == [] then []
    else if |data| <= CHUNK then [data]
    else [data[..CHUNK]] + Pieces(data[CHUNK..])
  }

  lemma PieceCount(data: bytes)
    requires 0 < |data| <= MAX_SEND
    ensures 1 <= |Pieces(data)| <= 640
  {
  }

  /** Piece `i` is the `i`-th 32 KiB of the file, the last one what is left. */
  lemma {:induction false} PieceIs(data: bytes, i: nat)
    requires i < |Pieces(data)|
    ensures var end := if 32768 * (i + 1) < |data| then 32768 * (i + 1) else |data|;
            32768 * i < end && Pieces(data)[i] == data[32768 * i..end]
    decreases |data|
  {
    if |data| <= CHUNK {
      assert data[0..|data|] == data;
    } else if i > 0 {
      PieceIs(data[CHUNK..], i - 1);
      var end := if 32768 * (i + 1) < |data| then 32768 * (i + 1) else |data|;
      assert data[CHUNK..][32768 * (i - 1)..end - CHUNK] == data[32768 * i..end];
    }
  }

  function Join(pieces: seq<bytes>): bytes {
    if pieces == [] then [] else pieces[0] + Join(pieces[1..])
  }

  lemma {:induction false} JoinOfPieces(data: bytes)
    ensures Join(Pieces(data)) == data
    decreases |data|
  {
    if |data| > CHUNK {
      JoinOfPieces(data[CHUNK..]);
      assert Pieces(data)[1..] == Pieces(data[CHUNK..]);
    } else if data != [] {
      assert Join([data]) == data + Join([]);
    }
  }

  // --------------------------------------------------------------------- framing

  /** A header is made exactly for a 16-byte id, an index in range and a 16-bit total. */
  lemma HeaderMadeWhen(tid: bytes, index: int, total: int)
    ensures FileHeader(tid, index, total).Ok? <==> |tid| == 16 && 0 <= index < total < 65536
  {
  }

  /** file_header: raises unless the id has 16 bytes, the index is in range and both
      numbers fit an unsigned 16-bit field. */
  function FileHeader(tid: bytes, index: int, total: int): Result<bytes> {
    if |tid| != TID_SIZE || !(0 <= index < total) || total >= TWO_16 then Err
    else Ok(tid + LittleEndian(index, 2) + LittleEndian(total, 2))
  }

  datatype Parsed = Parsed(tid: bytes, index: nat, total: nat, sealed: bytes)

  function ParsePayload(raw: bytes): Result<Parsed> {
    if |raw| < HEADER_SIZE then Err
    else
      var index, total := FromLittleEndian(raw[16..18]), FromLittleEndian(raw[18..20]);
      if total == 0 || index >= total then Err
      else Ok(Parsed(raw[..16], index, total, raw[20..]))
  }

  /** Both parsers read back what the header was built from. */
  lemma HeaderRoundTrip(tid: bytes, index: int, total: int, sealed: bytes)
    requires FileHeader(tid, index, total).Ok?
    ensures var raw := FileHeader(tid, index, total).value + sealed;
            && ParsePayload(raw) == Ok(Parsed(tid, index, total, sealed))
            && ParseHeader(raw) == Some(Routing(Hex(tid), index, total))
  {
    var raw := FileHeader(tid, index, total).value + sealed;
    assert raw[..16] == tid && raw[20..] == sealed;
    assert raw[16..18] == LittleEndian(index, 2) && raw[18..20] == LittleEndian(total, 2);
    Widths();
    LittleEndianRoundTrip(index, 2);
    LittleEndianRoundTrip(total, 2);
  }

  /** The client's parser and the daemon's accept the same payloads, and read the same
      transfer, index and total from them: a 20-byte header with its index below its total. */
  lemma ParsersAgree(raw: bytes)
    ensures ParsePayload(raw).Ok? <==> ParseHeader(raw).Some?
    ensures ParsePayload(raw).Ok? <==>
            |raw| >= 20 && FromLittleEndian(raw[16..18]) < FromLittleEndian(raw[18..20])
    ensures ParsePayload(raw).Ok? ==>
              var p := ParsePayload(raw).value;
              && ParseHeader(raw).value == Routing(Hex(p.tid), p.index, p.total)
              && raw[..16] == p.tid && raw[20..] == p.sealed
              && p.index == FromLittleEndian(raw[16..18]) && p.total == FromLittleEndian(raw[18..20])
  {
    hide FromLittleEndian, Hex;
  }

  /** The sealed body of one chunk. */
  datatype Body = Body(tid: string, index: nat, total: nat, data: bytes)

  type Seal = Body -> bytes
  type Open = bytes -> Option<Body>

  ghost predicate Opens(seal: Seal, open: Open) {
    forall b :: open(seal(b)) == Some(b)
  }

  /** The wire payload of piece `i`. */
  function Payload(data: bytes, tid: bytes, seal: Seal, i: nat): (r: bytes)
    requires |tid| == TID_SIZE && i < |Pieces(data)| < TWO_16
  {
    var total := |Pieces(data)|;
    FileHeader(tid, i, total).value + seal(Body(Hex(tid), i, total, Pieces(data)[i]))
  }

  lemma PayloadParses(data: bytes, tid: bytes, seal: Seal, i: nat)
    requires |tid| == TID_SIZE && i < |Pieces(data)| < TWO_16
    ensures var p, total := Payload(data, tid, seal, i), |Pieces(data)|;
            && ParseHeader(p) == Some(Routing(Hex(tid), i, total))
            && ParsePayload(p) == Ok(Parsed(tid, i, total, seal(Body(Hex(tid), i, total, Pieces(data)[i]))))
  {
    HeaderRoundTrip(tid, i, |Pieces(data)|, seal(Body(Hex(tid), i, |Pieces(data)|, Pieces(data)[i])));
  }

  // --------------------------------------------------------------------- storing

  datatype Arrival = Arrival(index: nat, sn: nat, ts: int)

  /** The daemon's table after TypeFile packets carrying these pieces arrive. */
  ghost function StoreAll(t: Table, budget: int, data: bytes, tid: bytes, seal: Seal, arrivals: seq<Arrival>): Table
    requires |tid| == TID_SIZE && |Pieces(data)| < TWO_16
    requires forall a :: a in arrivals ==> a.index < |Pieces(data)|
  {
    if arrivals == [] then t
    else
      var before := StoreAll(t, budget, data, tid, seal, arrivals[..|arrivals| - 1]);
      var a := arrivals[|arrivals| - 1];
      assert a in arrivals;
      var p := Payload(data, tid, seal, a.index);
      match ParseHeader(p)
      case None => before
      case Some(h) =>
        match AddTo(before, budget, Key(h.tid, h.index), Chunk(h.total, a.sn, a.ts, p))
        case Stored(after) => after
        case _ => before
  }

  lemma StoredWhenItFits(t: Table, budget: int, key: Key, c: Chunk)
    requires key !in t && Used(t) + |c.payload| <= budget
    ensures AddTo(t, budget, key, c) == Stored(t[key := c])
  {
    assert Drop(t, {}) == t;
    assert Policy(t, key.tid, |c.payload|, budget, {});
    var gone :| Policy(t, key.tid, |c.payload|, budget, gone)
                && AddTo(t, budget, key, c) == Stored(Drop(t, gone)[key := c]);
    PolicyIsUnique(t, key.tid, |c.payload|, budget, gone, {});
  }

  /** Bytes of the payloads with an index in `some` below `k`. */
  function Sum(sizes: seq<nat>, some: set<nat>, k: nat): nat
    requires k <= |sizes|
  {
    if k == 0 then 0 else Sum(sizes, some, k - 1) + if k - 1 in some then sizes[k - 1] else 0
  }

  lemma {:induction false} SumGrows(sizes: seq<nat>, some: set<nat>, i: nat, k: nat)
    requires k <= |sizes| && i < |sizes| && i !in some
    ensures Sum(sizes, some + {i}, k) == Sum(sizes, some, k) + if i < k then sizes[i] else 0
  {
    if k > 0 { SumGrows(sizes, some, i, k - 1); }
  }

  lemma {:induction false} SumWithin(sizes: seq<nat>, some: set<nat>, all: set<nat>, k: nat)
    requires k <= |sizes| && some <= all
    ensures Sum(sizes, some, k) <= Sum(sizes, all, k)
  {
    if k > 0 { SumWithin(sizes, some, all, k - 1); }
  }

  function Sizes(data: bytes, tid: bytes, seal: Seal): (r: seq<nat>)
    requires |tid| == TID_SIZE && |Pieces(data)| < TWO_16
    ensures |r| == |Pieces(data)|
  {
    seq(|Pieces(data)|, i requires 0 <= i < |Pieces(data)| => |Payload(data, tid, seal, i)|)
  }

  function TotalSize(data: bytes, tid: bytes, seal: Seal): nat
    requires |tid| == TID_SIZE && |Pieces(data)| < TWO_16
  {
    Sum(Sizes(data, tid, seal), Below(|Pieces(data)|), |Pieces(data)|)
  }

  function Arrived(arrivals: seq<Arrival>): set<nat> {
    set i | 0 <= i < |arrivals| :: arrivals[i].index
  }

  /** The table holds, for this transfer, exactly the arrived pieces. */
  ghost predicate Holds(t: Table, data: bytes, tid: bytes, seal: Seal, got: set<nat>)
    requires |tid| == TID_SIZE && |Pieces(data)| < TWO_16 && forall i :: i in got ==> i < |Pieces(data)|
  {
    && Indices(t, Hex(tid)) == got
    && (forall i :: i in got ==> Key(Hex(tid), i) in t && t[Key(Hex(tid), i)].total == |Pieces(data)|
                                 && t[Key(Hex(tid), i)].payload == Payload(data, tid, seal, i))
  }

  lemma {:induction false} SumOfNone(sizes: seq<nat>, k: nat)
    requires k <= |sizes|
    ensures Sum(sizes, {}, k) == 0
  {
    if k > 0 { SumOfNone(sizes, k - 1); }
  }

  lemma HoldsOneMore(t: Table, data: bytes, tid: bytes, seal: Seal, got: set<nat>, i: nat, c: Chunk)
    requires |tid| == TID_SIZE && |Pieces(data)| < TWO_16 && (forall k :: k in got ==> k < |Pieces(data)|)
    requires i < |Pieces(data)| && Holds(t, data, tid, seal, got)
    requires c.total == |Pieces(data)| && c.payload == Payload(data, tid, seal, i)
    ensures Holds(t[Key(Hex(tid), i) := c], data, tid, seal, got + {i})
  {
    hide Pieces, Payload, Hex;
    var key := Key(Hex(tid), i);
    var t' := t[key := c];
    forall k ensures k in Indices(t', Hex(tid)) <==> k in got + {i} {
      if k in got { assert Key(Hex(tid), k) in t'; }
      assert key in t';
    }
  }

  /** One more arrival: a repeat changes nothing, a new piece is added. */
  lemma OneMoreArrival(t: Table, budget: int, data: bytes, tid: bytes, seal: Seal, got: set<nat>, a: Arrival, base: nat)
    requires |tid| == TID_SIZE && |Pieces(data)| < TWO_16 && (forall k :: k in got ==> k < |Pieces(data)|)
    requires a.index < |Pieces(data)| && Holds(t, data, tid, seal, got) && WellFormed(t) && Hex(tid) != ""
    requires Used(t) == base + Sum(Sizes(data, tid, seal), got, |Pieces(data)|)
    requires base + TotalSize(data, tid, seal) <= budget
    ensures var p, total := Payload(data, tid, seal, a.index), |Pieces(data)|;
            var r := AddTo(t, budget, Key(Hex(tid), a.index), Chunk(total, a.sn, a.ts, p));
            var t' := if r.Stored? then r.table else t;
            && Holds(t', data, tid, seal, got + {a.index}) && WellFormed(t')
            && Used(t') == base + Sum(Sizes(data, tid, seal), got + {a.index}, total)
  {
    hide Pieces, Payload, Hex, Sum;
    var p, total := Payload(data, tid, seal, a.index), |Pieces(data)|;
    var key, c := Key(Hex(tid), a.index), Chunk(total, a.sn, a.ts, p);
    if a.index in got {
      assert got + {a.index} == got;
    } else {
      assert key !in t by { assert a.index !in Indices(t, Hex(tid)); }
      SumGrows(Sizes(data, tid, seal), got, a.index, total);
      SumWithin(Sizes(data, tid, seal), got + {a.index}, Below(total), total);
      assert Sizes(data, tid, seal)[a.index] == |p|;
      StoredWhenItFits(t, budget, key, c);
      UsedAfterInsert(t, key, c);
      HoldsOneMore(t, data, tid, seal, got, a.index, c);
    }
  }

  lemma ArrivedAppends(arrivals: seq<Arrival>)
    requires arrivals != []
    ensures Arrived(arrivals) == Arrived(arrivals[..|arrivals| - 1]) + {arrivals[|arrivals| - 1].index}
  {
    var init := arrivals[..|arrivals| - 1];
    assert forall i :: 0 <= i < |init| ==> init[i] == arrivals[i];
    forall n | n in Arrived(init) ensures n in Arrived(arrivals) {
      var i :| 0 <= i < |init| && init[i].index == n;
      assert arrivals[i].index == n;
    }
  }

  /** Arrivals in any order, with any repeats, within the budget: nothing is lost. */
  lemma {:induction false} StoreAllHolds(t: Table, budget: int, data: bytes, tid: bytes, seal: Seal, arrivals: seq<Arrival>)
    requires |tid| == TID_SIZE && |Pieces(data)| < TWO_16
    requires forall a :: a in arrivals ==> a.index < |Pieces(data)|
    requires Hex(tid) !in Tids(t) && WellFormed(t)
    requires Used(t) + TotalSize(data, tid, seal) <= budget
    ensures forall i :: i in Arrived(arrivals) ==> i < |Pieces(data)|
    ensures var t' := StoreAll(t, budget, data, tid, seal, arrivals);
            && Holds(t', data, tid, seal, Arrived(arrivals)) && WellFormed(t')
            && Used(t') == Used(t) + Sum(Sizes(data, tid, seal), Arrived(arrivals), |Pieces(data)|)
  {
    hide Pieces, Payload, Hex, Sum, AddTo, ParseHeader, TotalSize;
    if arrivals == [] {
      SumOfNone(Sizes(data, tid, seal), |Pieces(data)|);
      assert Arrived(arrivals) == {};
      assert Indices(t, Hex(tid)) == {} by {
        forall k | k in t ensures k.tid != Hex(tid) { assert k.tid in Tids(t); }
      }
    } else {
      var init, a := arrivals[..|arrivals| - 1], arrivals[|arrivals| - 1];
      StoreAllHolds(t, budget, data, tid, seal, init);
      ArrivedAppends(arrivals);
      assert a in arrivals;
      PayloadParses(data, tid, seal, a.index);
      OneMoreArrival(StoreAll(t, budget, data, tid, seal, init), budget, data, tid, seal, Arrived(init), a, Used(t));
    }
  }

  // ---------------------------------------------------------------- reassembling

  datatype Buffer = Buffer(chunks: map<nat, bytes>, total: nat)

  /** The client takes one fetched payload: parse, open, cross-check, keep. */
  function Keep(buf: Buffer, entry: bytes, open: Open): Buffer {
    match ParsePayload(entry)
    case Err => buf
    case Ok(h) =>
      match open(h.sealed)
      case None => buf
      case Some(b) =>
        if b.tid != Hex(h.tid) || b.index != h.index || b.total != h.total then buf
        else Buffer(buf.chunks[b.index := b.data], b.total)
  }

  function Collect(entries: seq<bytes>, open: Open): Buffer {
    if entries == [] then Buffer(map[], 0)
    else Keep(Collect(entries[..|entries| - 1], open), entries[|entries| - 1], open)
  }

  function JoinFirst(chunks: map<nat, bytes>, k: nat): bytes
    requires forall i :: 0 <= i < k ==> i in chunks
  {
    if k == 0 then [] else JoinFirst(chunks, k - 1) + chunks[k - 1]
  }

  function Reassemble(chunks: map<nat, bytes>, total: nat): Option<bytes> {
    if |chunks| != total || exists i :: 0 <= i < total && i !in chunks then None
    else Some(JoinFirst(chunks, total))
  }

  function Fetched(t: Table, tid: string): (r: seq<bytes>)
    ensures |r| == |FetchOrder(t, tid)|
    ensures forall i :: 0 <= i < |r| ==> r[i] == t[Key(tid, FetchOrder(t, tid)[i])].payload
  {
    var order := FetchOrder(t, tid);
    seq(|order|, i requires 0 <= i < |order| => t[Key(tid, order[i])].payload)
  }

  /** A chunk is kept only when its sealed body names the transfer, index and total of
      its own header; then it is kept under that index, and any other leaves no trace. */
  lemma KeepsExactlyWhen(buf: Buffer, entry: bytes, open: Open)
    ensures var p, kept := ParsePayload(entry), Keep(buf, entry, open);
            if p.Ok? && open(p.value.sealed).Some? && open(p.value.sealed).value.tid == Hex(p.value.tid)
               && open(p.value.sealed).value.index == p.value.index && open(p.value.sealed).value.total == p.value.total
            then
              && kept.total == p.value.total
              && (forall i :: i in kept.chunks <==> i in buf.chunks || i == p.value.index)
              && kept.chunks[p.value.index] == open(p.value.sealed).value.data
              && (forall i :: i in buf.chunks && i != p.value.index ==> kept.chunks[i] == buf.chunks[i])
            else kept == buf
  {
    hide ParsePayload, Hex;
  }

  /** Reassembly succeeds exactly when the indices are all those below the total. */
  lemma ReassemblesExactlyWhen(chunks: map<nat, bytes>, total: nat)
    ensures Reassemble(chunks, total).Some? <==> forall i: nat :: i in chunks <==> i < total
  {
    assert |chunks| == |chunks.Keys|;
    if forall i: nat :: i in chunks <==> i < total {
      assert chunks.Keys == Below(total);
    }
    if Reassemble(chunks, total).Some? {
      assert Below(total) <= chunks.Keys;
      SubsetSize(Below(total), chunks.Keys);
    }
  }

  lemma KeepsPiece(data: bytes, tid: bytes, seal: Seal, open: Open, buf: Buffer, k: nat)
    requires Opens(seal, open) && |tid| == TID_SIZE && k < |Pieces(data)| < TWO_16
    ensures Keep(buf, Payload(data, tid, seal, k), open) == Buffer(buf.chunks[k := Pieces(data)[k]], |Pieces(data)|)
  {
    hide Pieces, Payload, Hex, ParsePayload, ParseHeader;
    PayloadParses(data, tid, seal, k);
  }

  /** The first `k` pieces, each at its index. */
  ghost predicate Gathered(pieces: seq<bytes>, buf: Buffer, k: nat)
    requires k <= |pieces|
  {
    && buf.chunks.Keys == Below(k)
    && (forall i :: 0 <= i < k ==> i in buf.chunks && buf.chunks[i] == pieces[i])
    && (k > 0 ==> buf.total == |pieces|)
  }

  lemma GathersOne(pieces: seq<bytes>, buf: Buffer, k: nat)
    requires k < |pieces| && Gathered(pieces, buf, k)
    ensures Gathered(pieces, Buffer(buf.chunks[k := pieces[k]], |pieces|), k + 1)
  {
    BelowNext(k);
    hide Below;
    assert buf.chunks[k := pieces[k]].Keys == buf.chunks.Keys + {k};
  }

  lemma BelowNext(k: nat)
    ensures Below(k + 1) == Below(k) + {k}
  {
  }

  lemma {:induction false} CollectGathers(data: bytes, tid: bytes, seal: Seal, open: Open, entries: seq<bytes>)
    requires Opens(seal, open) && |tid| == TID_SIZE && |entries| <= |Pieces(data)| < TWO_16
    requires forall i :: 0 <= i < |entries| ==> entries[i] == Payload(data, tid, seal, i)
    ensures Gathered(Pieces(data), Collect(entries, open), |entries|)
  {
    if entries == [] {
      hide Pieces;
    } else {
      hide Pieces, Payload, Keep, Opens, Gathered;
      var k := |entries| - 1;
      var init := entries[..k];
      CollectGathers(data, tid, seal, open, init);
      KeepsPiece(data, tid, seal, open, Collect(init, open), k);
      GathersOne(Pieces(data), Collect(init, open), k);
    }
  }

  lemma {:induction false} JoinFirstIs(chunks: map<nat, bytes>, pieces: seq<bytes>, k: nat)
    requires k <= |pieces| && forall i :: 0 <= i < k ==> i in chunks && chunks[i] == pieces[i]
    ensures JoinFirst(chunks, k) == Join(pieces[..k])
  {
    if k > 0 {
      JoinFirstIs(chunks, pieces, k - 1);
      JoinAppends(pieces[..k - 1], pieces[k - 1]);
      assert pieces[..k] == pieces[..k - 1] + [pieces[k - 1]];
    }
  }

  lemma {:induction false} JoinAppends(pieces: seq<bytes>, last: bytes)
    ensures Join(pieces + [last]) == Join(pieces) + last
  {
    if pieces == [] {
      assert Join([last]) == last + Join([]);
    } else {
      assert (pieces + [last])[1..] == pieces[1..] + [last];
      JoinAppends(pieces[1..], last);
    }
  }

  lemma ReassembleIs(chunks: map<nat, bytes>, pieces: seq<bytes>)
    requires chunks.Keys == Below(|pieces|) && forall i :: 0 <= i < |pieces| ==> chunks[i] == pieces[i]
    ensures Reassemble(chunks, |pieces|) == Some(Join(pieces))
  {
    hide Join;
    assert |chunks| == |chunks.Keys|;
    JoinFirstIs(chunks, pieces, |pieces|);
    assert pieces[..|pieces|] == pieces;
  }

  /** A table holding every piece gives the file back. */
  lemma FetchesWhole(t: Table, data: bytes, tid: bytes, seal: Seal, open: Open)
    requires Opens(seal, open) && |tid| == TID_SIZE && 0 < |Pieces(data)| < TWO_16 && WellFormed(t)
    requires Holds(t, data, tid, seal, Below(|Pieces(data)|))
    ensures Hex(tid) in Pending(t)
    ensures var buf := Collect(Fetched(t, Hex(tid)), open); Reassemble(buf.chunks, buf.total) == Some(data)
  {
    hide Pieces, Payload, Hex, Join, Collect, WellFormed, Pending, FetchOrder, Opens, Reassemble, Fetched, Below;
    CompleteIsPending(t, data, tid, seal);
    var entries := Fetched(t, Hex(tid));
    forall i | 0 <= i < |entries| ensures entries[i] == Payload(data, tid, seal, i) {
      FetchIsPositional(t, Hex(tid), i);
    }
    CollectGathers(data, tid, seal, open, entries);
    ReassembleIs(Collect(entries, open).chunks, Pieces(data));
    JoinOfPieces(data);
  }

  /** Any non-empty file up to the size cap survives the trip: its numbers fit the
      header, the transfer is listed as complete once every piece has arrived, in
      whatever order and however often, and fetching and reassembling it gives the
      original bytes back. */
  lemma FileRoundTrip(data: bytes, tid: bytes, seal: Seal, open: Open,
                      t: Table, budget: int, arrivals: seq<Arrival>)
    requires Opens(seal, open) && |tid| == TID_SIZE && 0 < |data| <= MAX_SEND
    requires Hex(tid) !in Tids(t) && WellFormed(t)
    requires forall a :: a in arrivals ==> a.index < |Pieces(data)|
    requires Arrived(arrivals) == Below(|Pieces(data)|)
    requires |Pieces(data)| < TWO_16 ==> Used(t) + TotalSize(data, tid, seal) <= budget
    ensures 1 <= |Pieces(data)| <= 640 < TWO_16
    ensures var t' := StoreAll(t, budget, data, tid, seal, arrivals);
            var buf := Collect(Fetched(t', Hex(tid)), open);
            Hex(tid) in Pending(t') && Reassemble(buf.chunks, buf.total) == Some(data)
  {
    hide Pieces, Hex, TotalSize, Collect, StoreAll, WellFormed, Opens, Holds, Reassemble, Fetched, Pending, Sum, Arrived, Used, Tids;
    PieceCount(data);
    StoreAllHolds(t, budget, data, tid, seal, arrivals);
    FetchesWhole(StoreAll(t, budget, data, tid, seal, arrivals), data, tid, seal, open);
  }

  lemma CompleteIsPending(t: Table, data: bytes, tid: bytes, seal: Seal)
    requires |tid| == TID_SIZE && 0 < |Pieces(data)| < TWO_16 && WellFormed(t)
    requires Holds(t, data, tid, seal, Below(|Pieces(data)|))
    ensures Hex(tid) in Pending(t) && |FetchOrder(t, Hex(tid))| == |Pieces(data)|
  {
    hide Pieces, Payload, Hex;
    var h := Hex(tid);
    var k := Key(h, 0);
    assert k in t && h in Tids(t);
    var totals := set k | k in t && k.tid == h :: t[k].total;
    assert t[k].total in totals;
    forall n | n in totals ensures n == |Pieces(data)| {
      var j :| j in t && j.tid == h && t[j].total == n;
      assert j.idx in Indices(t, h);
      assert j == Key(h, j.idx);
    }
  }
}
