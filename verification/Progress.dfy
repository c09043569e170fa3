/** Progress of the delivery protocol, for texts and for file rows alike: while neither
    side blocks the other and nothing new is sent, every fair round delivers, until
    nothing deliverable is left. */
module Progress {
  import opened Bytes
  import opened Ranks
  import opened Envelopes
  import opened Outbox
  import opened Nodes
  import opened Mail
  import opened Delivery
  import opened Runs
  import opened Transfers
  import EndToEnd
  import Pacing
  import Inbox
  import Attachments

  // ------------------------------------------------------------------ calm steps

  /** Steps that neither queue new rows, nor change who is blocked, nor crash. */
  predicate Calm(a: Action) {
    !a.SendBegin? && !a.SendCommit? && !a.SetBlocked? && !a.Restart?
  }

  ghost predicate AllCalm(steps: seq<Step>) {
    forall i :: 0 <= i < |steps| ==> Calm(steps[i].action)
  }

  /** What calm steps keep: settings, what was ever queued, and no new rows. */
  ghost predicate Settled(d: Daemon, d': Daemon) {
    && d'.blocked == d.blocked && d'.cfg == d.cfg && d'.queued == d.queued
    && (forall n :: n in d'.box.journal.rows ==>
          n in d.box.journal.rows && d'.box.journal.rows[n] == d.box.journal.rows[n])
  }

  lemma ReceiveIsSettled(d: Daemon, r: Receipt)
    ensures Settled(d, ReceivePacket(d, r))
  {
    hide Handle, ReceivePacket;
    ReceiveFrame(d, r);
    HandleJournal(d.box, d.cfg, r.packet, r.ackRuns);
  }

  lemma CalmIsSettled(d: Daemon, a: Action)
    requires Calm(a)
    ensures Settled(d, Act(d, a))
  {
    hide ReceivePacket, BeginSend, CommitSend, BeginFlush, NextFlush, MarkFlush, EndFlush, Advance, Attachments.Drop;
    FlushFrame(d);
    if a.Receive? {
      ReceiveIsSettled(d, a.receipt);
    }
  }

  lemma {:induction false} CalmRun(s: System, steps: seq<Step>, x: Side)
    requires AllCalm(steps)
    ensures Settled(s.At(x), Run(s, steps).At(x))
  {
    hide Act;
    if steps != [] {
      var init, last := steps[..|steps| - 1], steps[|steps| - 1];
      CalmRun(s, init, x);
      CalmIsSettled(Run(s, init).At(last.side), last.action);
    }
  }

  lemma CalmPart(s: System, steps: seq<Step>, i: nat, x: Side)
    requires AllCalm(steps) && i <= |steps|
    ensures Settled(s.At(x), Run(s, steps[..i]).At(x))
    ensures Settled(Run(s, steps[..i]).At(x), Run(s, steps).At(x))
  {
    hide Run, Settled;
    RunSplits(s, steps, i);
    CalmRun(s, steps[..i], x);
    CalmRun(Run(s, steps[..i]), steps[i..], x);
  }

  // -------------------------------------------------------------------- the round

  /** A row of type `typ` that the envelope and the link can carry; a file row must
      have a header the receiver can parse. */
  predicate Deliverable(row: Row, mtu: nat, typ: byte) {
    && row.typ == typ && |row.payload| <= MAX_PAYLOAD && HEADER_SIZE + |row.payload| <= mtu
    && (typ == TYPE_FILE ==> Attachments.ParseHeader(row.payload).Some?)
  }

  function Waiting(d: Daemon, typ: byte): set<nat> {
    set n | n in d.box.journal.rows && Deliverable(d.box.journal.rows[n], d.cfg.mtu, typ)
  }

  function LineOf(d: Daemon, typ: byte): seq<bytes> {
    Line(d.box.queues, LaneOf(typ))
  }

  predicate Is(p: bytes, typ: byte) {
    Decode(p).Ok? && Decode(p).value.typ == typ
  }

  /** What a step of this daemon hands to the network. */
  function Output(d: Daemon, a: Action): Option<bytes> {
    if !a.Write? then None
    else match Advance(d.box.queues, a.pick).1
      case None => None
      case Some((_, p)) => Some(p)
  }

  /** The `j`-th of `steps` is `x` handing `p` to the network. */
  ghost predicate WritesAt(s: System, steps: seq<Step>, x: Side, j: nat, p: bytes) {
    j < |steps| && steps[j].side == x && Output(Run(s, steps[..j]).At(x), steps[j].action) == Some(p)
  }

  /** The budget has room for this chunk beside the others of its own transfer. */
  ghost predicate Admitted(d: Daemon, e: Envelope) {
    Attachments.ParseHeader(e.payload).Some? ==>
      || KeyOf(e.payload) in d.box.attach
      || Attachments.Used(Attachments.OwnChunks(d.box.attach, KeyOf(e.payload).tid)) + |e.payload| <= d.cfg.budget
  }

  /** The `k`-th of `steps` is `y` receiving `p` in a committed transaction; for a text
      or a file chunk the process lives to acknowledge it and the queue has room for the
      ACK; for a file chunk the budget admits it. */
  ghost predicate ReceivedAt(s: System, steps: seq<Step>, y: Side, k: nat, p: bytes) {
    && k < |steps| && steps[k].side == y && steps[k].action.Receive?
    && steps[k].action.receipt.packet == p && steps[k].action.receipt.commits
    && (Is(p, TYPE_MSG) || Is(p, TYPE_FILE) ==>
          steps[k].action.receipt.ackRuns && |Run(s, steps[..k]).At(y).box.queues.control| < CONTROL_BOUND)
    && (Is(p, TYPE_FILE) ==> Admitted(Run(s, steps[..k]).At(y), Decode(p).value))
  }

  /** Of what `x` enqueues, no packet of this type is lost: none is left in its queue,
      and each one written is received later. */
  ghost predicate Arrives(s: System, steps: seq<Step>, x: Side, typ: byte) {
    && (forall p :: p in LineOf(Run(s, steps).At(x), typ) ==> !Is(p, typ))
    && (forall j: nat, p :: WritesAt(s, steps, x, j, p) && Is(p, typ) ==>
          exists k :: j < k && ReceivedAt(s, steps, Other(x), k, p))
  }

  /** At the `i`-th of `steps` the flush begun before them meets a deliverable row
      while the queue it goes to has room. */
  ghost predicate Offered(s: System, steps: seq<Step>, x: Side, typ: byte, i: nat) {
    && i < |steps| && steps[i] == Step(x, FlushNext)
    && (forall k :: 0 <= k < i ==> steps[k] != Step(x, FlushBegin))
    && var d := Run(s, steps[..i]).At(x);
    && d.flush.Some? && d.flush.value.mark.None? && d.flush.value.todo != []
    && Deliverable(d.flush.value.todo[0].row, d.cfg.mtu, typ)
    && |LineOf(d, typ)| < Bound(LaneOf(typ))
  }

  ghost function OfferedRow(s: System, steps: seq<Step>, x: Side, typ: byte, i: nat): nat
    requires Offered(s, steps, x, typ, i)
  {
    Run(s, steps[..i]).At(x).flush.value.todo[0].sn
  }

  function Opening(x: Side, ms: nat): seq<Step> {
    [Step(x, Tick(ms)), Step(x, FlushBegin)]
  }

  /** After `ms` the sender begins a flush; then `steps`, of both sides, in any order. */
  datatype Round = Round(ms: nat, steps: seq<Step>)

  /** A fair round for the rows of type `typ` of sender `x`: its window elapses and it
      flushes, some deliverable row meeting room in the queue; no packet of that type it
      sends meanwhile and no ACK of the peer is lost. Everything else, earlier packets
      included, may be lost or repeated, and any calm steps of either side may interleave
      anywhere. */
  ghost predicate FairRound(s: System, x: Side, typ: byte, r: Round) {
    var s0 := Run(s, Opening(x, r.ms));
    && r.ms >= s.At(x).cfg.retry && AllCalm(r.steps)
    && (Waiting(s.At(x), typ) != {} ==> exists i :: Offered(s0, r.steps, x, typ, i))
    && Arrives(s0, r.steps, x, typ)
    && Arrives(s0, r.steps, Other(x), TYPE_ACK)
  }

  ghost function AfterRound(s: System, x: Side, r: Round): System {
    Run(Run(s, Opening(x, r.ms)), r.steps)
  }

  /** Where a round can start: nobody blocks, the sender runs no flush, and the
      receiver's link carries an ACK. */
  ghost predicate Open(s: System, x: Side) {
    && !s.At(x).blocked && !s.At(Other(x)).blocked
    && s.At(x).flush.None? && s.At(Other(x)).cfg.mtu >= HEADER_SIZE
  }

  // ------------------------------------------------------------ a queued packet leaves

  lemma OfferKeepsLine(q: Queues, cfg: Config, now: int, e: Item, lane: Lane, p: bytes)
    requires e.sn < TWO_64 && OfferItem(q, cfg, now, e).Ok? && p in Line(q, lane)
    ensures p in Line(OfferItem(q, cfg, now, e).value, lane)
  {
    hide Encode;
  }

  lemma NextKeepsLine(d: Daemon, lane: Lane, p: bytes)
    requires p in Line(d.box.queues, lane)
    ensures p in Line(NextFlush(d).box.queues, lane)
  {
    hide OfferItem, Line;
    if d.flush.Some? && d.flush.value.todo != [] && d.flush.value.todo[0].sn < TWO_64 {
      var f := d.flush.value;
      if OfferItem(d.box.queues, d.cfg, f.now, f.todo[0]).Ok? {
        OfferKeepsLine(d.box.queues, d.cfg, f.now, f.todo[0], lane, p);
      }
    }
  }

  lemma WriteKeepsLine(d: Daemon, pick: Lane, lane: Lane, p: bytes)
    requires p in Line(d.box.queues, lane)
    ensures p in Line(WriteOut(d, pick).box.queues, lane) || Output(d, Write(pick)) == Some(p)
  {
    var q := Line(d.box.queues, lane);
    assert q == [q[0]] + q[1..];
  }

  lemma ReceiveKeepsLine(d: Daemon, r: Receipt, lane: Lane, p: bytes)
    requires p in Line(d.box.queues, lane)
    ensures p in Line(ReceivePacket(d, r).box.queues, lane)
  {
    hide Handle, Encode, ReceivePacket;
    ReceiveFrame(d, r);
    HandleQueues(d.box, d.cfg, r.packet, r.ackRuns);
  }

  lemma CalmKeepsLine(d: Daemon, a: Action, lane: Lane, p: bytes)
    requires Calm(a) && p in Line(d.box.queues, lane)
    ensures p in Line(Act(d, a).box.queues, lane) || Output(d, a) == Some(p)
  {
    hide ReceivePacket, BeginSend, CommitSend, NextFlush, WriteOut, PendingItems, Output, Line, Attachments.Drop;
    match a
    case Receive(r) => ReceiveKeepsLine(d, r, lane, p);
    case FlushNext => NextKeepsLine(d, lane, p);
    case Write(pick) => WriteKeepsLine(d, pick, lane, p);
    case _ =>
  }

  /** A packet in a queue that is not there at the end has been written. */
  lemma {:induction false} LeavesByWriting(s: System, steps: seq<Step>, x: Side, lane: Lane, i: nat, p: bytes) returns (j: nat)
    requires AllCalm(steps) && i <= |steps|
    requires p in Line(Run(s, steps[..i]).At(x).box.queues, lane)
    requires p !in Line(Run(s, steps).At(x).box.queues, lane)
    ensures i <= j && WritesAt(s, steps, x, j, p)
    decreases |steps| - i
  {
    hide Run, Act, Output, Line;
    assert steps[..|steps|] == steps;
    RunStep(s, steps, i);
    if steps[i].side == x {
      CalmKeepsLine(Run(s, steps[..i]).At(x), steps[i].action, lane, p);
    }
    if p in Line(Run(s, steps[..i + 1]).At(x).box.queues, lane) {
      j := LeavesByWriting(s, steps, x, lane, i + 1, p);
    } else {
      j := i;
    }
  }

  // ------------------------------------------------------------- the packet's trip

  /** The packet that carries a row under seq `n`. */
  function PacketOf(row: Row, n: u64): Result<bytes> {
    Encode(EnvelopeOf(Item(n, row, 0)))
  }

  lemma PacketDecodes(row: Row, n: u64)
    requires |row.payload| <= MAX_PAYLOAD
    ensures PacketOf(row, n).Ok? && |PacketOf(row, n).value| == HEADER_SIZE + |row.payload|
    ensures Decode(PacketOf(row, n).value) == Ok(EnvelopeOf(Item(n, row, 0)))
  {
    hide Decode, Header;
    DecodeEncode(EnvelopeOf(Item(n, row, 0)), []);
    assert PacketOf(row, n).value + [] == PacketOf(row, n).value;
  }

  lemma AckDecodes(n: u64)
    ensures Encode(Ack(n)).Ok? && |Encode(Ack(n)).value| == HEADER_SIZE
    ensures Decode(Encode(Ack(n)).value) == Ok(Ack(n))
  {
    hide Decode, Header;
    DecodeEncode(Ack(n), []);
    assert Encode(Ack(n)).value + [] == Encode(Ack(n)).value;
  }

  /** Receiving a text enqueues its ACK, new or not. */
  lemma TextIsAcked(d: Daemon, r: Receipt, e: Envelope)
    requires r.commits && r.ackRuns && !d.blocked
    requires Decode(r.packet) == Ok(e) && e.typ == TYPE_MSG
    requires |d.box.queues.control| < CONTROL_BOUND && d.cfg.mtu >= HEADER_SIZE
    ensures Encode(Ack(e.sn)).value in ReceivePacket(d, r).box.queues.control
  {
    hide Decode, Inbox.AddTo, Encode;
    AckDecodes(e.sn);
  }

  /** So does receiving a chunk the budget admits, stored before or not. */
  lemma ChunkIsAcked(d: Daemon, r: Receipt, e: Envelope)
    requires r.commits && r.ackRuns && !d.blocked
    requires Decode(r.packet) == Ok(e) && e.typ == TYPE_FILE && Attachments.ParseHeader(e.payload).Some?
    requires |d.box.queues.control| < CONTROL_BOUND && d.cfg.mtu >= HEADER_SIZE && Admitted(d, e)
    ensures Encode(Ack(e.sn)).value in ReceivePacket(d, r).box.queues.control
  {
    EndToEnd.ChunkIsAckedUnlessRefused(d, r, e);
    hide Decode, Attachments.ParseHeader, Attachments.AddTo, ReceivePacket, Encode;
    var h := Attachments.ParseHeader(e.payload).value;
    var key, c := KeyOf(e.payload), Attachments.Chunk(h.total, e.sn, e.ts, e.payload);
    if key in d.box.attach {
      DuplicateWhenThere(d.box.attach, d.cfg.budget, key, c);
    } else {
      Attachments.RefusedExactlyWhen(d.box.attach, d.cfg.budget, key, c);
    }
  }

  lemma AckRemovesRow(d: Daemon, r: Receipt, n: u64)
    requires r.commits && !d.blocked && r.packet == Encode(Ack(n)).value
    ensures n !in ReceivePacket(d, r).box.journal.rows
  {
    hide Decode, Encode;
    AckDecodes(n);
  }

  lemma ActReceives(d: Daemon, r: Receipt)
    ensures Act(d, Receive(r)) == ReceivePacket(d, r)
  {
  }

  /** What was written is on the wire from then on. */
  lemma {:induction false} WrittenIsOnWire(s: System, steps: seq<Step>, x: Side, j: nat, k: nat, p: bytes)
    requires j < k <= |steps| && WritesAt(s, steps, x, j, p)
    ensures p in Run(s, steps[..k]).At(x).wire
  {
    hide Run, Act, Output;
    RunStep(s, steps, k - 1);
    var d, a := Run(s, steps[..k - 1]).At(x), steps[k - 1].action;
    if k == j + 1 {
      OutputIsOnWire(d, a);
    } else {
      WrittenIsOnWire(s, steps, x, j, k - 1, p);
      WireGrows(d, a);
    }
  }

  lemma OutputIsOnWire(d: Daemon, a: Action)
    ensures Output(d, a).Some? ==> a.Write? && Output(d, a).value in Act(d, a).wire
  {
    hide ReceivePacket, BeginSend, CommitSend, NextFlush, BeginFlush, MarkFlush, EndFlush, Attachments.Drop;
  }

  lemma WireGrows(d: Daemon, a: Action)
    ensures d.wire <= Act(d, a).wire
  {
    hide ReceivePacket, PendingItems, NextFlush, Advance, Attachments.Drop;
    match a
    case Receive(r) => ReceiveFrame(d, r);
    case FlushNext => NextFlushFrame(d);
    case _ =>
  }

  /** A received text or admitted chunk has its ACK in the queue right after. */
  lemma ReceiptIsAcked(s: System, steps: seq<Step>, y: Side, at: nat, p: bytes, e: Envelope)
    requires AllCalm(steps) && ReceivedAt(s, steps, y, at, p) && p in Run(s, steps[..at]).At(Other(y)).wire
    requires Decode(p) == Ok(e) && e.typ in {TYPE_MSG, TYPE_FILE}
    requires e.typ == TYPE_FILE ==> Attachments.ParseHeader(e.payload).Some?
    requires !s.At(y).blocked && s.At(y).cfg.mtu >= HEADER_SIZE
    ensures Encode(Ack(e.sn)).value in Run(s, steps[..at + 1]).At(y).box.queues.control
  {
    hide Run, Act, Decode, Encode, ReceivePacket, Admitted, Attachments.ParseHeader;
    assert Is(p, e.typ);
    var before, r := Run(s, steps[..at]), steps[at].action.receipt;
    CalmPart(s, steps, at, y);
    if e.typ == TYPE_MSG {
      TextIsAcked(before.At(y), r, e);
    } else {
      ChunkIsAcked(before.At(y), r, e);
    }
    ActReceives(before.At(y), r);
    RunStep(s, steps, at);
  }

  /** A packet in the sender's queue at `i` has its ACK in the peer's queue at some later point. */
  lemma PacketArrives(s: System, steps: seq<Step>, x: Side, typ: byte, i: nat, p: bytes, e: Envelope) returns (k: nat)
    requires AllCalm(steps) && Arrives(s, steps, x, typ) && i <= |steps|
    requires p in LineOf(Run(s, steps[..i]).At(x), typ) && Decode(p) == Ok(e) && e.typ == typ
    requires typ in {TYPE_MSG, TYPE_FILE} && (typ == TYPE_FILE ==> Attachments.ParseHeader(e.payload).Some?)
    requires !s.At(Other(x)).blocked && s.At(Other(x)).cfg.mtu >= HEADER_SIZE
    ensures k <= |steps| && Encode(Ack(e.sn)).value in Run(s, steps[..k]).At(Other(x)).box.queues.control
  {
    hide Run, Decode, Encode, Output, ReceivedAt, Attachments.ParseHeader, Line;
    assert Is(p, typ);
    var j := LeavesByWriting(s, steps, x, LaneOf(typ), i, p);
    var at :| j < at && ReceivedAt(s, steps, Other(x), at, p);
    ReceivedWithin(s, steps, Other(x), at, p);
    WrittenIsOnWire(s, steps, x, j, at, p);
    assert Other(Other(x)) == x;
    ReceiptIsAcked(s, steps, Other(x), at, p, e);
    k := at + 1;
  }

  /** Receiving its ACK at `at` removes row `n` for the rest of a calm run. */
  lemma AckSettles(s: System, steps: seq<Step>, x: Side, at: nat, n: u64)
    requires AllCalm(steps) && !s.At(x).blocked && Encode(Ack(n)).Ok?
    requires ReceivedAt(s, steps, x, at, Encode(Ack(n)).value)
    requires Encode(Ack(n)).value in Run(s, steps[..at]).At(Other(x)).wire
    ensures n !in Run(s, steps).At(x).box.journal.rows
  {
    hide Run, Act, Encode, ReceivePacket, Is;
    var before, r := Run(s, steps[..at]), steps[at].action.receipt;
    CalmPart(s, steps, at, x);
    AckRemovesRow(before.At(x), r, n);
    ActReceives(before.At(x), r);
    RunStep(s, steps, at);
    CalmPart(s, steps, at + 1, x);
  }

  /** An ACK in the peer's queue at `i` has removed its row by the end. */
  lemma AckArrives(s: System, steps: seq<Step>, x: Side, i: nat, n: u64)
    requires AllCalm(steps) && Arrives(s, steps, Other(x), TYPE_ACK) && i <= |steps| && !s.At(x).blocked
    requires Encode(Ack(n)).value in Run(s, steps[..i]).At(Other(x)).box.queues.control
    ensures n !in Run(s, steps).At(x).box.journal.rows
  {
    hide Run, Decode, Encode, Output, ReceivedAt;
    AckDecodes(n);
    var y, p := Other(x), Encode(Ack(n)).value;
    assert Is(p, TYPE_ACK);
    var j := LeavesByWriting(s, steps, y, Control, i, p);
    var at :| j < at && ReceivedAt(s, steps, x, at, p);
    assert at < |steps| by { ReceivedWithin(s, steps, x, at, p); }
    WrittenIsOnWire(s, steps, y, j, at, p);
    AckSettles(s, steps, x, at, n);
  }

  lemma ReceivedWithin(s: System, steps: seq<Step>, y: Side, k: nat, p: bytes)
    requires ReceivedAt(s, steps, y, k, p)
    ensures k < |steps|
  {
  }

  // ------------------------------------------------------------- the row's turn

  /** The running flush, if any, is the one that began at `now` over `items`. */
  ghost predicate SameFlush(d: Daemon, now: int, items: seq<Item>) {
    d.flush.Some? ==> d.flush.value.now == now && forall e :: e in d.flush.value.todo ==> e in items
  }

  lemma NextKeepsFlush(d: Daemon, now: int, items: seq<Item>)
    requires SameFlush(d, now, items)
    ensures SameFlush(NextFlush(d), now, items)
  {
    hide OfferItem;
    TodoShrinks(d);
  }

  lemma SendKeepsFlush(d: Daemon, isFile: bool, body: bytes, n: nat, ts: i64)
    ensures BeginSend(d, isFile, body).flush == d.flush && CommitSend(d, n, ts).flush == d.flush
  {
  }

  lemma ActKeepsFlush(d: Daemon, a: Action, now: int, items: seq<Item>)
    requires SameFlush(d, now, items) && !a.FlushBegin?
    ensures SameFlush(Act(d, a), now, items)
  {
    hide ReceivePacket, NextFlush, BeginSend, CommitSend, Advance, Attachments.Drop;
    match a
    case Receive(r) => ReceiveFrame(d, r);
    case FlushNext => NextKeepsFlush(d, now, items);
    case SendBegin(isFile, body) => SendKeepsFlush(d, isFile, body, 0, 0);
    case SendCommit(n, ts) => SendKeepsFlush(d, false, [], n, ts);
    case _ =>
  }

  lemma {:induction false} RunKeepsFlush(s: System, steps: seq<Step>, x: Side, now: int, items: seq<Item>)
    requires SameFlush(s.At(x), now, items)
    requires forall k :: 0 <= k < |steps| ==> steps[k] != Step(x, FlushBegin)
    ensures SameFlush(Run(s, steps).At(x), now, items)
  {
    hide Act, SameFlush;
    if steps != [] {
      var init, last := steps[..|steps| - 1], steps[|steps| - 1];
      RunKeepsFlush(s, init, x, now, items);
      if last.side == x {
        ActKeepsFlush(Run(s, init).At(x), last.action, now, items);
      }
    }
  }

  lemma WindowHasElapsed(d: Daemon, e: Item, ms: nat)
    requires Pacing.SentOk(d) && ms >= d.cfg.retry && e.sentAt == SentAt(d.box.journal.sent, e.sn)
    ensures !InWindow(e, d.clock + ms, d.cfg.retry)
  {
  }

  lemma RunOpening(s: System, x: Side, ms: nat)
    ensures Run(s, Opening(x, ms)) == s.With(x, BeginFlush(s.At(x).(clock := s.At(x).clock + ms)))
  {
    hide BeginFlush, Run;
    var tick, begin := Step(x, Tick(ms)), Step(x, FlushBegin);
    assert Opening(x, ms) == [tick] + [begin];
    RunOne(s, tick, [begin]);
    RunSingle(Do(s, tick), begin);
  }

  /** A deliverable row outside its window, met with room in the queue, is enqueued. */
  lemma TurnEnqueues(d: Daemon, typ: byte)
    requires d.flush.Some? && d.flush.value.mark.None? && d.flush.value.todo != []
    requires var e := d.flush.value.todo[0];
             e.sn < TWO_63 && Deliverable(e.row, d.cfg.mtu, typ) && !InWindow(e, d.flush.value.now, d.cfg.retry)
    requires |LineOf(d, typ)| < Bound(LaneOf(typ))
    ensures var e := d.flush.value.todo[0];
            PacketOf(e.row, e.sn).Ok? && PacketOf(e.row, e.sn).value in LineOf(NextFlush(d), typ)
  {
    hide InWindow, Encode, Attachments.ParseHeader;
    var e := d.flush.value.todo[0];
    PacketDecodes(e.row, e.sn);
    assert EnvelopeOf(e) == EnvelopeOf(Item(e.sn, e.row, 0));
  }

  /** The item a round offers comes from the snapshot its flush took. */
  lemma OfferedIsPending(s: System, x: Side, typ: byte, r: Round, i: nat)
    requires typ in {TYPE_MSG, TYPE_FILE} && Reachable(s) && Open(s, x) && FairRound(s, x, typ, r)
    requires Offered(Run(s, Opening(x, r.ms)), r.steps, x, typ, i)
    ensures var d := s.At(x);
            var f := Run(Run(s, Opening(x, r.ms)), r.steps[..i]).At(x).flush.value;
            && f.now == d.clock + r.ms && f.todo[0].sn < TWO_63 && f.todo[0].sn in d.box.journal.rows
            && f.todo[0] == Item(f.todo[0].sn, d.box.journal.rows[f.todo[0].sn], SentAt(d.box.journal.sent, f.todo[0].sn))
  {
    hide Run, Reachable, PendingItems, Arrives, Waiting, SentAt, JournalOk, Pacing.PaceOk;
    var d, items := s.At(x), PendingItems(s.At(x).box.journal);
    RunOpening(s, x, r.ms);
    var s0 := Run(s, Opening(x, r.ms));
    RunKeepsFlush(s0, r.steps[..i], x, d.clock + r.ms, items);
    var e := Run(s0, r.steps[..i]).At(x).flush.value.todo[0];
    assert e in items;
    PendingMember(d.box.journal, e);
    Pacing.ReachableHasPace(s, x);
    PendingIsOk(d);
  }

  /** So the row's packet enters its queue. */
  lemma OfferedEnters(s: System, x: Side, typ: byte, r: Round, i: nat) returns (n: nat, row: Row)
    requires typ in {TYPE_MSG, TYPE_FILE} && Reachable(s) && Open(s, x) && FairRound(s, x, typ, r)
    requires Offered(Run(s, Opening(x, r.ms)), r.steps, x, typ, i)
    ensures i < |r.steps| && n < TWO_63 && n == OfferedRow(Run(s, Opening(x, r.ms)), r.steps, x, typ, i)
    ensures n in s.At(x).box.journal.rows && s.At(x).box.journal.rows[n] == row && Deliverable(row, s.At(x).cfg.mtu, typ)
    ensures PacketOf(row, n).Ok?
    ensures PacketOf(row, n).value in LineOf(Run(Run(s, Opening(x, r.ms)), r.steps[..i + 1]).At(x), typ)
  {
    hide Run, Reachable, Pacing.PaceOk, JournalOk, Arrives, NextFlush, InWindow, Deliverable, PacketOf, Waiting;
    OfferedIsPending(s, x, typ, r, i);
    Pacing.ReachableHasPace(s, x);
    OpeningFrame(s, x, r.ms);
    var s0 := Run(s, Opening(x, r.ms));
    var d := Run(s0, r.steps[..i]).At(x);
    var e := d.flush.value.todo[0];
    n, row := e.sn, e.row;
    CalmPart(s0, r.steps, i, x);
    assert Pacing.SentOk(s.At(x)) by { PaceHasSent(s.At(x)); }
    WindowHasElapsed(s.At(x), e, r.ms);
    TurnEnqueues(d, typ);
    RunStep(s0, r.steps, i);
  }

  lemma PaceHasSent(d: Daemon)
    requires Pacing.PaceOk(d)
    ensures Pacing.SentOk(d)
  {
  }

  /** Every deliverable row whose turn finds room in a fair round has left the outbox
      by the end of that round. */
  lemma OfferedRowIsDelivered(s: System, x: Side, typ: byte, r: Round, i: nat)
    requires typ in {TYPE_MSG, TYPE_FILE} && Reachable(s) && Open(s, x) && FairRound(s, x, typ, r)
    requires Offered(Run(s, Opening(x, r.ms)), r.steps, x, typ, i)
    ensures var n := OfferedRow(Run(s, Opening(x, r.ms)), r.steps, x, typ, i);
            n in Waiting(s.At(x), typ) && n !in AfterRound(s, x, r).At(x).box.journal.rows
  {
    hide Run, Reachable, Arrives, Offered, OfferedRow, Decode, PacketOf;
    var n, row := OfferedEnters(s, x, typ, r, i);
    var s0 := Run(s, Opening(x, r.ms));
    OpeningFrame(s, x, r.ms);
    PacketDecodes(row, n);
    var k := PacketArrives(s0, r.steps, x, typ, i + 1, PacketOf(row, n).value, EnvelopeOf(Item(n, row, 0)));
    AckArrives(s0, r.steps, x, k, n);
  }

  lemma OpeningFrame(s: System, x: Side, ms: nat)
    ensures var s0 := Run(s, Opening(x, ms));
            && s0.At(Other(x)) == s.At(Other(x)) && s0.At(x).cfg == s.At(x).cfg
            && s0.At(x).blocked == s.At(x).blocked && s0.At(x).box == s.At(x).box && s0.At(x).queued == s.At(x).queued
  {
    hide Run;
    RunOpening(s, x, ms);
  }

  lemma RoundIsSettled(s: System, x: Side, r: Round)
    requires AllCalm(r.steps)
    ensures Settled(s.At(x), AfterRound(s, x, r).At(x)) && Settled(s.At(Other(x)), AfterRound(s, x, r).At(Other(x)))
  {
    hide Run;
    OpeningFrame(s, x, r.ms);
    CalmRun(Run(s, Opening(x, r.ms)), r.steps, x);
    CalmRun(Run(s, Opening(x, r.ms)), r.steps, Other(x));
  }

  lemma WaitingShrinks(d: Daemon, d': Daemon, typ: byte)
    requires Settled(d, d')
    ensures Waiting(d', typ) <= Waiting(d, typ)
  {
    hide Deliverable;
  }

  /** Every fair round for texts strictly shrinks the set of deliverable texts still
      waiting, and every fair round for files that of the deliverable file rows. */
  lemma RoundDelivers(s: System, x: Side, typ: byte, r: Round)
    requires typ in {TYPE_MSG, TYPE_FILE} && Reachable(s) && Open(s, x) && FairRound(s, x, typ, r)
    requires Waiting(s.At(x), typ) != {}
    ensures Waiting(AfterRound(s, x, r).At(x), typ) < Waiting(s.At(x), typ)
  {
    hide Run, Reachable, Arrives, Offered;
    var i :| Offered(Run(s, Opening(x, r.ms)), r.steps, x, typ, i);
    OfferedRowIsDelivered(s, x, typ, r, i);
    RoundIsSettled(s, x, r);
    WaitingShrinks(s.At(x), AfterRound(s, x, r).At(x), typ);
  }

  // ------------------------------------------------------------------ many rounds

  ghost function AfterRounds(s: System, x: Side, rounds: seq<Round>): System
    decreases |rounds|
  {
    if rounds == [] then s else AfterRounds(AfterRound(s, x, rounds[0]), x, rounds[1..])
  }

  ghost predicate FairRounds(s: System, x: Side, typ: byte, rounds: seq<Round>)
    decreases |rounds|
  {
    rounds != [] ==>
      && Open(s, x) && FairRound(s, x, typ, rounds[0])
      && FairRounds(AfterRound(s, x, rounds[0]), x, typ, rounds[1..])
  }

  lemma RoundStaysReachable(s: System, x: Side, r: Round)
    requires Reachable(s)
    ensures Reachable(AfterRound(s, x, r))
  {
    hide Run, Reachable;
    RunStaysReachable(s, Opening(x, r.ms));
    RunStaysReachable(Run(s, Opening(x, r.ms)), r.steps);
  }

  /** As many fair rounds as there are deliverable rows leave none waiting. */
  lemma {:induction false} RoundsDeliverAll(s: System, x: Side, typ: byte, rounds: seq<Round>)
    requires typ in {TYPE_MSG, TYPE_FILE} && Reachable(s) && FairRounds(s, x, typ, rounds)
    requires |rounds| >= |Waiting(s.At(x), typ)|
    ensures Waiting(AfterRounds(s, x, rounds).At(x), typ) == {}
    decreases |rounds|
  {
    hide Run, Reachable, AfterRound, Waiting, Open, Arrives, Offered;
    if rounds != [] {
      var next := AfterRound(s, x, rounds[0]);
      RoundStaysReachable(s, x, rounds[0]);
      if Waiting(s.At(x), typ) == {} {
        RoundIsSettled(s, x, rounds[0]);
        WaitingShrinks(s.At(x), next.At(x), typ);
      } else {
        RoundDelivers(s, x, typ, rounds[0]);
        SubsetSize(Waiting(next.At(x), typ), Waiting(s.At(x), typ));
      }
      RoundsDeliverAll(next, x, typ, rounds[1..]);
    }
  }
}
