/** Files over whole runs: when the landing buffer admits every chunk, and what the
    receiver reassembles once the rows of a file have left the sender's outbox. */
module Transfers {
  import opened Bytes
  import opened Envelopes
  import opened Outbox
  import opened Mail
  import opened Delivery
  import opened Runs
  import opened Files
  import EndToEnd
  import Attachments
  import Inbox

  // --------------------------------------------------------- bytes queued as files

  function FileSize(row: Row): nat {
    if row.typ == TYPE_FILE then |row.payload| else 0
  }

  /** The payload bytes of all file rows. */
  ghost function FileBytes(q: map<nat, Row>): nat
    decreases |q|
  {
    if q == map[] then 0
    else
      assert exists n :: n in q;
      var n :| n in q;
      FileSize(q[n]) + FileBytes(q - {n})
  }

  lemma {:induction false} FileBytesWithout(q: map<nat, Row>, n: nat)
    requires n in q
    ensures FileBytes(q) == FileSize(q[n]) + FileBytes(q - {n})
    decreases |q|
  {
    assert q != map[];
    var m :| m in q && FileBytes(q) == FileSize(q[m]) + FileBytes(q - {m});
    if m != n {
      FileBytesWithout(q - {m}, n);
      FileBytesWithout(q - {n}, m);
      assert q - {m} - {n} == q - {n} - {m};
    }
  }

  lemma {:induction false} FileBytesGrows(q: map<nat, Row>, q': map<nat, Row>)
    requires forall n :: n in q ==> n in q' && q'[n] == q[n]
    ensures FileBytes(q) <= FileBytes(q')
    decreases |q|
  {
    if q != map[] {
      var n :| n in q;
      FileBytesWithout(q, n);
      FileBytesWithout(q', n);
      FileBytesGrows(q - {n}, q' - {n});
    }
  }

  /** Row `n` carries a chunk for slot `k`. */
  ghost predicate Carries(q: map<nat, Row>, n: nat, k: Attachments.Key) {
    n in q && q[n].typ == TYPE_FILE && Attachments.ParseHeader(q[n].payload).Some? && KeyOf(q[n].payload) == k
  }

  /** Every chunk of the table is a row of `q`. */
  ghost predicate Traced(t: Attachments.Table, q: map<nat, Row>) {
    forall k :: k in t ==> Carries(q, t[k].sn, k) && q[t[k].sn].payload == t[k].payload
  }

  /** Distinct chunks come from distinct rows. */
  lemma TracedWithout(t: Attachments.Table, q: map<nat, Row>, k: Attachments.Key)
    requires Traced(t, q) && k in t
    ensures Traced(t - {k}, q - {t[k].sn})
  {
    hide Attachments.ParseHeader, KeyOf;
    forall j | j in t - {k} ensures Carries(q - {t[k].sn}, t[j].sn, j) {
      assert Carries(q, t[j].sn, j) && Carries(q, t[k].sn, k);
    }
  }

  lemma {:induction false} TracedIsCovered(t: Attachments.Table, q: map<nat, Row>)
    requires Traced(t, q)
    ensures Attachments.Used(t) <= FileBytes(q)
    decreases |t|
  {
    if t != map[] {
      var k :| k in t;
      assert Carries(q, t[k].sn, k) && q[t[k].sn].payload == t[k].payload;
      TracedWithout(t, q, k);
      hide Attachments.ParseHeader, KeyOf, Traced;
      Attachments.UsedWithout(t, k);
      FileBytesWithout(q, t[k].sn);
      TracedIsCovered(t - {k}, q - {t[k].sn});
    }
  }

  /** A chunk that is not in the table fits beside all that are. */
  lemma NewFits(t: Attachments.Table, q: map<nat, Row>, n: nat, k: Attachments.Key)
    requires Traced(t, q) && Carries(q, n, k) && k !in t
    ensures Attachments.Used(t) + |q[n].payload| <= FileBytes(q)
  {
    hide Attachments.ParseHeader;
    FileBytesWithout(q, n);
    TracedIsCovered(t, q - {n});
  }

  // -------------------------------------------------------------- what is admitted

  /** The table has this packet's chunk already, or it fits beside everything there. */
  ghost predicate FitsBeside(d: Daemon, e: Envelope) {
    Attachments.ParseHeader(e.payload).Some? ==>
      KeyOf(e.payload) in d.box.attach || Attachments.Used(d.box.attach) + |e.payload| <= d.cfg.budget
  }

  /** The budget covers every file row the peer has ever queued. */
  ghost predicate Covered(s: System, x: Side) {
    FileBytes(s.At(x).queued) <= s.At(Other(x)).cfg.budget
  }

  lemma ReachableIsTraced(s: System, x: Side)
    requires Reachable(s)
    ensures Traced(s.At(Other(x)).box.attach, s.At(x).queued)
  {
    hide Reachable, Attachments.ParseHeader;
    EndToEnd.StoresHoldWhatWasQueued(s, x);
  }

  lemma WirePacketIsQueued(s: System, x: Side, p: bytes, e: Envelope)
    requires Reachable(s) && p in s.At(x).wire && Decode(p) == Ok(e) && e.typ == TYPE_FILE
    ensures e.sn in s.At(x).queued && s.At(x).queued[e.sn] == Row(e.ts, e.typ, e.payload)
  {
    hide Reachable, Decode, JournalOk, FilesOk, InboxOk, Linked;
    ReachableHasInv(s);
    assert LocalOk(s.At(x));
    assert Honest(s.At(x), p);
  }

  lemma CoveredFits(s: System, x: Side, p: bytes, e: Envelope)
    requires Reachable(s) && Covered(s, x) && p in s.At(x).wire && Decode(p) == Ok(e) && e.typ == TYPE_FILE
    ensures FitsBeside(s.At(Other(x)), e)
  {
    hide Reachable, Decode, Attachments.ParseHeader, Traced;
    WirePacketIsQueued(s, x, p, e);
    ReachableIsTraced(s, x);
    if Attachments.ParseHeader(e.payload).Some? && KeyOf(e.payload) !in s.At(Other(x)).box.attach {
      NewFits(s.At(Other(x)).box.attach, s.At(x).queued, e.sn, KeyOf(e.payload));
    }
  }

  // ------------------------------------------------------------------ no evictions

  ghost predicate Extends(t: Attachments.Table, t': Attachments.Table) {
    forall k :: k in t ==> k in t'
  }

  lemma HandleExtends(d: Daemon, packet: bytes, ackRuns: bool)
    requires Decode(packet).Ok? && Decode(packet).value.typ == TYPE_FILE ==> FitsBeside(d, Decode(packet).value)
    ensures Extends(d.box.attach, Handle(d.box, d.cfg, packet, ackRuns).0.attach)
  {
    hide Decode, Attachments.AddTo, Attachments.ParseHeader, Inbox.AddTo, Header, KeyOf;
    if Decode(packet).Ok? && Decode(packet).value.typ == TYPE_FILE {
      AddExtends(d, Decode(packet).value);
    }
  }

  lemma AddExtends(d: Daemon, e: Envelope)
    requires FitsBeside(d, e)
    ensures var h := Attachments.ParseHeader(e.payload);
            h.Some? ==>
              var r := Attachments.AddTo(d.box.attach, d.cfg.budget, Attachments.Key(h.value.tid, h.value.index),
                                         Attachments.Chunk(h.value.total, e.sn, e.ts, e.payload));
              r.Stored? ==> Extends(d.box.attach, r.table)
  {
    hide Attachments.AddTo, Attachments.ParseHeader;
    var h := Attachments.ParseHeader(e.payload);
    if h.Some? {
      var key, c := KeyOf(e.payload), Attachments.Chunk(h.value.total, e.sn, e.ts, e.payload);
      if key in d.box.attach {
        DuplicateWhenThere(d.box.attach, d.cfg.budget, key, c);
      } else {
        StoredWhenItFits(d.box.attach, d.cfg.budget, key, c);
      }
    }
  }

  lemma DuplicateWhenThere(t: Attachments.Table, budget: int, key: Attachments.Key, c: Attachments.Chunk)
    requires key in t
    ensures Attachments.AddTo(t, budget, key, c).Duplicate?
  {
  }

  /** One step of the receiver: only consuming a transfer takes its chunks away. */
  lemma CoveredStepExtends(s: System, x: Side, step: Step, tid: string)
    requires Reachable(s) && Covered(s, x)
    requires step != Step(Other(x), Consume(tid))
    ensures forall k :: k in s.At(Other(x)).box.attach && k.tid == tid ==> k in Do(s, step).At(Other(x)).box.attach
  {
    hide Reachable, Covered, Handle, FitsBeside, Act;
    var y, d := Other(x), s.At(Other(x));
    if step.side == y && Do(s, step) != s {
      match step.action
      case Receive(r) =>
        if Decode(r.packet).Ok? && Decode(r.packet).value.typ == TYPE_FILE {
          CoveredFits(s, x, r.packet, Decode(r.packet).value);
        }
        hide Decode;
        HandleExtends(d, r.packet, r.ackRuns);
        ReceiveFrame(d, r);
        ActReceivesPacket(d, r);
      case Consume(other) => ConsumeDrops(d, other);
      case _ => EndToEnd.OnlyDropping(d, step.action); OnlyReceivingBuffers(d, step.action);
    }
  }

  lemma ActReceivesPacket(d: Daemon, r: Receipt)
    ensures Act(d, Receive(r)) == ReceivePacket(d, r)
  {
  }

  lemma ConsumeDrops(d: Daemon, tid: string)
    ensures Act(d, Consume(tid)).box.attach == Attachments.Drop(d.box.attach, {tid})
  {
  }

  // ------------------------------------------------------------- nothing taken away

  /** Along the run no chunk of this transfer leaves the table of `y`: it is neither
      evicted nor consumed. */
  ghost predicate Retains(s0: System, steps: seq<Step>, y: Side, tid: string) {
    forall i :: 0 <= i < |steps| ==> Keeps(Run(s0, steps[..i]).At(y), Run(s0, steps[..i + 1]).At(y), tid)
  }

  ghost predicate Keeps(d: Daemon, d': Daemon, tid: string) {
    forall k :: k in d.box.attach && k.tid == tid ==> k in d'.box.attach
  }

  lemma RetainsBefore(s0: System, steps: seq<Step>, y: Side, tid: string)
    requires steps != [] && Retains(s0, steps, y, tid)
    ensures Retains(s0, steps[..|steps| - 1], y, tid)
    ensures Keeps(Run(s0, steps[..|steps| - 1]).At(y), Run(s0, steps).At(y), tid)
  {
    hide Run, Keeps;
    var init := steps[..|steps| - 1];
    forall i | 0 <= i < |init| ensures Keeps(Run(s0, init[..i]).At(y), Run(s0, init[..i + 1]).At(y), tid) {
      assert init[..i] == steps[..i] && init[..i + 1] == steps[..i + 1];
    }
    assert steps[..|init| + 1] == steps;
  }

  lemma HandleStores(b: Box, cfg: Config, packet: bytes, ackRuns: bool)
    ensures var (b', effect) := Handle(b, cfg, packet, ackRuns);
            effect.File? ==> effect.key in b'.attach
  {
    hide Decode, Inbox.AddTo, Header, Attachments.ParseHeader, Attachments.Policy;
    match Decode(packet)
    case Err =>
    case Ok(e) =>
      match Attachments.ParseHeader(e.payload)
      case None =>
      case Some(h) =>
        var key, c := Attachments.Key(h.tid, h.index), Attachments.Chunk(h.total, e.sn, e.ts, e.payload);
        if Attachments.AddTo(b.attach, cfg.budget, key, c).Stored? {
          Attachments.AddKeepsBudget(b.attach, cfg.budget, key, c);
        }
  }

  lemma ActStores(d: Daemon, a: Action)
    ensures forall k :: k in Act(d, a).stored && k !in d.stored ==> k in Act(d, a).box.attach
  {
    hide Handle, ReceivePacket;
    if a.Receive? {
      HandleStores(d.box, d.cfg, a.receipt.packet, a.receipt.ackRuns);
      ReceiveFiles(d, a.receipt);
      ActReceivesPacket(d, a.receipt);
      hide Act;
    } else {
      OnlyReceivingTakes(d, a);
      hide Act;
    }
  }

  /** While a transfer is retained, whatever was stored of it is still there. */
  lemma {:induction false} StoredStays(s0: System, steps: seq<Step>, y: Side, tid: string)
    requires IsStart(s0) && Retains(s0, steps, y, tid)
    ensures forall k :: k in Run(s0, steps).At(y).stored && k.tid == tid ==> k in Run(s0, steps).At(y).box.attach
  {
    hide Act, Retains;
    if steps == [] {
      assert Run(s0, steps) == s0;
    } else {
      var init, last := steps[..|steps| - 1], steps[|steps| - 1];
      RetainsBefore(s0, steps, y, tid);
      StoredStays(s0, init, y, tid);
      ActStores(Run(s0, init).At(last.side), last.action);
    }
  }

  /** Within the budget, only consuming it takes a transfer away. */
  lemma {:induction false} CoveredRetains(s0: System, steps: seq<Step>, x: Side, tid: string)
    requires IsStart(s0) && Covered(Run(s0, steps), x)
    requires Step(Other(x), Consume(tid)) !in steps
    ensures Retains(s0, steps, Other(x), tid)
  {
    hide Run, IsStart, Covered;
    forall i | 0 <= i < |steps|
      ensures Keeps(Run(s0, steps[..i]).At(Other(x)), Run(s0, steps[..i + 1]).At(Other(x)), tid)
    {
      CoveredBefore(s0, steps, i, x);
      RunStep(s0, steps, i);
      assert steps[i] in steps;
      CoveredStepExtends(Run(s0, steps[..i]), x, steps[i], tid);
    }
  }

  lemma CoveredBefore(s0: System, steps: seq<Step>, i: nat, x: Side)
    requires IsStart(s0) && Covered(Run(s0, steps), x) && i <= |steps|
    ensures Reachable(Run(s0, steps[..i])) && Covered(Run(s0, steps[..i]), x)
  {
    assert Reachable(Run(s0, steps[..i]));
    StartHasInv(s0);
    hide Run, IsStart, Inv, Reachable;
    RunKeepsInv(s0, steps[..i]);
    RunSplits(s0, steps, i);
    var s1 := Run(s0, steps[..i]);
    RunGrows(s1, steps[i..], x);
    RunGrows(s1, steps[i..], Other(x));
    FileBytesGrows(s1.At(x).queued, Run(s0, steps).At(x).queued);
  }

  // ----------------------------------------------------------- what is reassembled

  ghost predicate HasTid(row: Row, tid: bytes) {
    row.typ == TYPE_FILE && Attachments.ParseHeader(row.payload).Some?
    && Attachments.ParseHeader(row.payload).value.tid == Hex(tid)
  }

  /** Row `n` carries the `i`-th piece of the file. */
  ghost predicate IsPiece(q: map<nat, Row>, n: nat, data: bytes, tid: bytes, seal: Seal, i: nat)
    requires |tid| == TID_SIZE && |Pieces(data)| < TWO_16
  {
    n in q && HasTid(q[n], tid) && i < |Pieces(data)| && q[n].payload == Payload(data, tid, seal, i)
  }

  ghost predicate HasPiece(q: map<nat, Row>, data: bytes, tid: bytes, seal: Seal, i: nat)
    requires |tid| == TID_SIZE && |Pieces(data)| < TWO_16
  {
    exists n :: IsPiece(q, n, data, tid, seal, i)
  }

  lemma PieceIs(q: map<nat, Row>, n: nat, data: bytes, tid: bytes, seal: Seal, i: nat)
    requires |tid| == TID_SIZE && |Pieces(data)| < TWO_16 && IsPiece(q, n, data, tid, seal, i)
    ensures n in q && HasTid(q[n], tid) && i < |Pieces(data)| && q[n].payload == Payload(data, tid, seal, i)
  {
  }

  /** `q` holds this file: every piece, and no other row under its transfer id. */
  ghost predicate QueuedFile(q: map<nat, Row>, data: bytes, tid: bytes, seal: Seal)
    requires |tid| == TID_SIZE && |Pieces(data)| < TWO_16
  {
    && (forall i: nat :: i < |Pieces(data)| ==> HasPiece(q, data, tid, seal, i))
    && (forall n :: n in q && HasTid(q[n], tid) ==> exists i: nat :: IsPiece(q, n, data, tid, seal, i))
  }

  /** None of its rows is in the outbox any more. */
  ghost predicate HasLeft(d: Daemon, tid: bytes) {
    forall n :: n in d.queued && HasTid(d.queued[n], tid) ==> n !in d.box.journal.rows
  }

  lemma PieceIsThere(s0: System, steps: seq<Step>, x: Side, data: bytes, tid: bytes, seal: Seal, i: nat)
    requires IsStart(s0) && |tid| == TID_SIZE && i < |Pieces(data)| < TWO_16
    requires QueuedFile(Run(s0, steps).At(x).queued, data, tid, seal) && HasLeft(Run(s0, steps).At(x), tid)
    requires Retains(s0, steps, Other(x), Hex(tid))
    ensures Attachments.Key(Hex(tid), i) in Run(s0, steps).At(Other(x)).box.attach
  {
    var s := Run(s0, steps);
    assert Reachable(s);
    hide Run, IsStart, Reachable, Pieces, Payload, Hex, Attachments.ParseHeader, Retains;
    assert HasPiece(s.At(x).queued, data, tid, seal, i);
    var n :| IsPiece(s.At(x).queued, n, data, tid, seal, i);
    PieceIs(s.At(x).queued, n, data, tid, seal, i);
    PayloadParses(data, tid, seal, i);
    LeavesOnlyAfterDelivery(s, x, n);
    StoredStays(s0, steps, Other(x), Hex(tid));
  }

  lemma ChunkIsAPiece(s: System, x: Side, data: bytes, tid: bytes, seal: Seal, k: Attachments.Key)
    requires Reachable(s) && |tid| == TID_SIZE && |Pieces(data)| < TWO_16
    requires QueuedFile(s.At(x).queued, data, tid, seal) && k in s.At(Other(x)).box.attach && k.tid == Hex(tid)
    ensures var c := s.At(Other(x)).box.attach[k];
            k.idx < |Pieces(data)| && c.total == |Pieces(data)| && c.payload == Payload(data, tid, seal, k.idx)
  {
    hide Reachable, Pieces, Payload, Hex, Attachments.ParseHeader;
    EndToEnd.StoresHoldWhatWasQueued(s, x);
    var c := s.At(Other(x)).box.attach[k];
    assert HasTid(s.At(x).queued[c.sn], tid);
    var i: nat :| IsPiece(s.At(x).queued, c.sn, data, tid, seal, i);
    PieceIs(s.At(x).queued, c.sn, data, tid, seal, i);
    PayloadParses(data, tid, seal, i);
  }

  lemma WholeFileIsThere(s0: System, steps: seq<Step>, x: Side, data: bytes, tid: bytes, seal: Seal)
    requires IsStart(s0) && |tid| == TID_SIZE && |Pieces(data)| < TWO_16
    requires QueuedFile(Run(s0, steps).At(x).queued, data, tid, seal) && HasLeft(Run(s0, steps).At(x), tid)
    requires Retains(s0, steps, Other(x), Hex(tid))
    ensures Holds(Run(s0, steps).At(Other(x)).box.attach, data, tid, seal, Attachments.Below(|Pieces(data)|))
  {
    var s := Run(s0, steps);
    assert Reachable(s);
    hide Run, IsStart, Reachable, Pieces, Payload, Hex, QueuedFile, HasLeft, Retains;
    var t, h := s.At(Other(x)).box.attach, Hex(tid);
    forall k | k in t && k.tid == h
      ensures k.idx < |Pieces(data)| && t[k].total == |Pieces(data)| && t[k].payload == Payload(data, tid, seal, k.idx)
    {
      ChunkIsAPiece(s, x, data, tid, seal, k);
    }
    forall i | 0 <= i < |Pieces(data)| ensures Attachments.Key(h, i) in t {
      PieceIsThere(s0, steps, x, data, tid, seal, i);
    }
    AllPiecesHold(t, data, tid, seal);
  }

  lemma AllPiecesHold(t: Attachments.Table, data: bytes, tid: bytes, seal: Seal)
    requires |tid| == TID_SIZE && |Pieces(data)| < TWO_16
    requires forall i :: 0 <= i < |Pieces(data)| ==> Attachments.Key(Hex(tid), i) in t
    requires forall k :: k in t && k.tid == Hex(tid) ==>
               k.idx < |Pieces(data)| && t[k].total == |Pieces(data)| && t[k].payload == Payload(data, tid, seal, k.idx)
    ensures Holds(t, data, tid, seal, Attachments.Below(|Pieces(data)|))
  {
    hide Pieces, Payload, Hex;
    var n, h := |Pieces(data)|, Hex(tid);
    forall i ensures i in Attachments.Indices(t, h) <==> i in Attachments.Below(n) {
      if i in Attachments.Below(n) { assert Attachments.Key(h, i) in t; }
    }
    assert Attachments.Indices(t, h) == Attachments.Below(n);
  }

  /** In every run: once all rows of a file have left the sender's outbox, and as long as
      the receiver neither evicted nor consumed the transfer, the receiver lists it as
      complete and fetching and reassembling it gives exactly the file. */
  lemma DeliveredFileReassembles(s0: System, steps: seq<Step>, x: Side, data: bytes, tid: bytes, seal: Seal, open: Open)
    requires IsStart(s0) && Opens(seal, open) && |tid| == TID_SIZE && 0 < |data| && |Pieces(data)| < TWO_16
    requires QueuedFile(Run(s0, steps).At(x).queued, data, tid, seal) && HasLeft(Run(s0, steps).At(x), tid)
    requires Retains(s0, steps, Other(x), Hex(tid))
    ensures var t := Run(s0, steps).At(Other(x)).box.attach;
            var buf := Collect(Fetched(t, Hex(tid)), open);
            Hex(tid) in Attachments.Pending(t) && Reassemble(buf.chunks, buf.total) == Some(data)
  {
    WholeFileIsThere(s0, steps, x, data, tid, seal);
    assert |Pieces(data)| > 0;
    StartHasBuffer(s0);
    RunKeepsBuffer(s0, steps);
    hide Run, IsStart, Pieces, Hex, QueuedFile, HasLeft, Retains, Holds, Collect, Fetched, Reassemble, Attachments.Pending;
    assert BufferOk(Run(s0, steps).At(Other(x)));
    FetchesWhole(Run(s0, steps).At(Other(x)).box.attach, data, tid, seal, open);
  }

  /** When the receiver's budget covers all the file rows its peer queued, nothing is
      ever evicted: not consuming the transfer is enough. */
  lemma CoveredFileReassembles(s0: System, steps: seq<Step>, x: Side, data: bytes, tid: bytes, seal: Seal, open: Open)
    requires IsStart(s0) && Opens(seal, open) && |tid| == TID_SIZE && 0 < |data| && |Pieces(data)| < TWO_16
    requires QueuedFile(Run(s0, steps).At(x).queued, data, tid, seal) && HasLeft(Run(s0, steps).At(x), tid)
    requires Covered(Run(s0, steps), x) && Step(Other(x), Consume(Hex(tid))) !in steps
    ensures var t := Run(s0, steps).At(Other(x)).box.attach;
            var buf := Collect(Fetched(t, Hex(tid)), open);
            Hex(tid) in Attachments.Pending(t) && Reassemble(buf.chunks, buf.total) == Some(data)
  {
    hide Run, IsStart, Pieces, Hex, QueuedFile, HasLeft, Retains, Collect, Fetched, Reassemble, Attachments.Pending;
    CoveredRetains(s0, steps, x, Hex(tid));
    DeliveredFileReassembles(s0, steps, x, data, tid, seal, open);
  }
}
