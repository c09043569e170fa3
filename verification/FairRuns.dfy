/** Fair rounds exist: from every reachable state in which nobody blocks, runs that
    deliver every deliverable row, and a file's whole way to the peer's client. */
module FairRuns {
  import opened Bytes
  import opened Ranks
  import opened Envelopes
  import opened Outbox
  import opened Nodes
  import opened Mail
  import opened Delivery
  import opened Runs
  import opened Transfers
  import opened Progress
  import Pacing
  import Inbox
  import Attachments
  import Files

  // ---------------------------------------------------------------- pieces of runs

  /** Calm steps that do not consume transfers either. */
  predicate Quiet(a: Action) {
    Calm(a) && !a.Consume?
  }

  ghost predicate AllQuiet(steps: seq<Step>) {
    forall i :: 0 <= i < |steps| ==> Quiet(steps[i].action)
  }

  ghost predicate NoBegin(steps: seq<Step>, x: Side) {
    forall i :: 0 <= i < |steps| ==> steps[i] != Step(x, FlushBegin)
  }

  ghost predicate BySide(steps: seq<Step>, x: Side) {
    forall i :: 0 <= i < |steps| ==> steps[i].side == x
  }

  lemma {:induction false} OtherStands(s: System, steps: seq<Step>, x: Side)
    requires BySide(steps, x)
    ensures Run(s, steps).At(Other(x)) == s.At(Other(x))
  {
    hide Act;
    if steps != [] {
      OtherStands(s, steps[..|steps| - 1], x);
    }
  }

  lemma PrefixOfSum<T>(a: seq<T>, b: seq<T>, j: nat)
    requires j <= |a + b|
    ensures (a + b)[..j] == if j <= |a| then a[..j] else a + b[..j - |a|]
  {
  }

  lemma WritesIn(s: System, a: seq<Step>, b: seq<Step>, x: Side, j: nat, p: bytes)
    ensures WritesAt(s, a + b, x, j, p) <==>
            if j < |a| then WritesAt(s, a, x, j, p) else WritesAt(Run(s, a), b, x, j - |a|, p)
  {
    hide Run, Output;
    if j < |a + b| {
      PrefixOfSum(a, b, j);
      if j >= |a| { RunAppends(s, a, b[..j - |a|]); }
      assert j == |a| ==> a[..j] == a && a + b[..0] == a;
    }
  }

  lemma ReceivedIn(s: System, a: seq<Step>, b: seq<Step>, y: Side, k: nat, p: bytes)
    ensures ReceivedAt(s, a, y, k, p) ==> ReceivedAt(s, a + b, y, k, p)
    ensures ReceivedAt(Run(s, a), b, y, k, p) ==> ReceivedAt(s, a + b, y, |a| + k, p)
  {
    hide Run, Is;
    if k < |a| { PrefixOfSum(a, b, k); }
    if k < |b| {
      assert (a + b)[..|a| + k] == a + b[..k];
      RunAppends(s, a, b[..k]);
    }
  }

  /** Queued for sending, in either lane. */
  ghost predicate Held(d: Daemon, p: bytes) {
    p in d.box.queues.control || p in d.box.queues.bulk
  }

  predicate Idle(q: Queues) {
    q.control == [] && q.bulk == []
  }

  /** What `x` hands to the network is an ACK, or was queued before. */
  ghost predicate OnlyAcks(s: System, steps: seq<Step>, x: Side) {
    forall j: nat, p :: WritesAt(s, steps, x, j, p) ==> Is(p, TYPE_ACK) || Held(s.At(x), p)
  }

  lemma OnlyAcksAppends(s: System, a: seq<Step>, b: seq<Step>, x: Side)
    requires OnlyAcks(s, a, x) && OnlyAcks(Run(s, a), b, x)
    requires forall p :: Held(Run(s, a).At(x), p) ==> Is(p, TYPE_ACK) || Held(s.At(x), p)
    ensures OnlyAcks(s, a + b, x)
  {
    hide Run, Is, WritesAt, Held;
    forall j: nat, p | WritesAt(s, a + b, x, j, p) ensures Is(p, TYPE_ACK) || Held(s.At(x), p) {
      WritesIn(s, a, b, x, j, p);
    }
  }

  /** How many moves of the writer empty both lanes, at most. */
  function Load(q: Queues): nat {
    2 * (|q.control| + |q.bulk|) + if q.at.Head? then 1 else 0
  }

  lemma WriteDrains(d: Daemon)
    requires !Idle(d.box.queues)
    ensures var d' := WriteOut(d, Control);
            && Load(d'.box.queues) < Load(d.box.queues) && d'.flush == d.flush
            && (forall p :: Held(d', p) ==> Held(d, p))
            && (Output(d, Write(Control)).Some? ==> Held(d, Output(d, Write(Control)).value))
  {
  }

  lemma OneWrite(s: System, step: Step, x: Side)
    requires step.side == x && (Output(s.At(x), step.action).Some? ==> Held(s.At(x), Output(s.At(x), step.action).value))
    ensures OnlyAcks(s, [step], x)
  {
    hide Run, Output, Held;
    forall j: nat, p | WritesAt(s, [step], x, j, p) ensures Held(s.At(x), p) {
      assert j == 0 && [step][..0] == [];
      RunNothing(s);
    }
  }

  /** The steps of one side, its flush and its emptied queues as `Drain` leaves them. */
  ghost predicate Drained(s: System, steps: seq<Step>, x: Side) {
    && AllQuiet(steps) && BySide(steps, x) && NoBegin(steps, x) && OnlyAcks(s, steps, x)
    && Idle(Run(s, steps).At(x).box.queues) && Run(s, steps).At(x).flush == s.At(x).flush
  }

  lemma {:induction false} Drain(s: System, x: Side) returns (steps: seq<Step>)
    ensures Drained(s, steps, x)
    decreases Load(s.At(x).box.queues)
  {
    hide WriteOut, OnlyAcks, Output, Held, Load;
    if Idle(s.At(x).box.queues) {
      steps := [];
      assert OnlyAcks(s, steps, x) by { NoStepsNoWrites(s, x); }
    } else {
      var step := Step(x, Write(Control));
      WriteDrains(s.At(x));
      var rest := Drain(Do(s, step), x);
      RunSingle(s, step);
      RunOne(s, step, rest);
      OneWrite(s, step, x);
      OnlyAcksAppends(s, [step], rest, x);
      steps := [step] + rest;
    }
  }

  lemma NoStepsNoWrites(s: System, x: Side)
    ensures OnlyAcks(s, [], x)
  {
  }

  // ------------------------------------------------------------- receiving everything

  ghost predicate AllReceived(s: System, steps: seq<Step>, y: Side, packets: set<bytes>) {
    forall p :: p in packets ==> exists k :: ReceivedAt(s, steps, y, k, p)
  }

  lemma ReceiveAdds(d: Daemon, r: Receipt)
    ensures ReceivePacket(d, r).flush == d.flush
    ensures forall p :: Held(ReceivePacket(d, r), p) ==> Is(p, TYPE_ACK) || Held(d, p)
  {
    hide Handle, Decode, Encode, ReceivePacket;
    ReceiveFrame(d, r);
    HandleQueues(d.box, d.cfg, r.packet, r.ackRuns);
    var effect := Handle(d.box, d.cfg, r.packet, r.ackRuns).1;
    if effect.Text? || effect.File? { AckDecodes(effect.sn); }
  }

  /** One receipt with the queues emptied. */
  lemma ReceiveOne(s: System, y: Side, p: bytes) returns (step: Step)
    requires Idle(s.At(y).box.queues) && (Is(p, TYPE_FILE) ==> Admitted(s.At(y), Decode(p).value))
    ensures step.side == y && Quiet(step.action) && ReceivedAt(s, [step], y, 0, p) && OnlyAcks(s, [step], y)
    ensures step != Step(y, FlushBegin) && Do(s, step).At(y).flush == s.At(y).flush
    ensures forall q :: Held(Do(s, step).At(y), q) ==> Is(q, TYPE_ACK)
  {
    hide Act, ReceivePacket, Is, Admitted;
    var r := Receipt(p, true, true);
    step := Step(y, Receive(r));
    assert [step][..0] == [];
    RunNothing(s);
    ActReceives(s.At(y), r);
    ReceiveAdds(s.At(y), r);
    OneWrite(s, step, y);
  }

  lemma AllReceivedLater(s: System, a: seq<Step>, b: seq<Step>, y: Side, packets: set<bytes>)
    requires AllReceived(Run(s, a), b, y, packets)
    ensures AllReceived(s, a + b, y, packets)
  {
    hide Run, ReceivedAt;
    forall p | p in packets ensures exists k :: ReceivedAt(s, a + b, y, k, p) {
      var k :| ReceivedAt(Run(s, a), b, y, k, p);
      ReceivedIn(s, a, b, y, k, p);
    }
  }

  /** Every chunk among `packets` is on the wire, and the budget covers what was queued. */
  ghost predicate CanTake(s: System, y: Side, packets: set<bytes>) {
    forall p :: p in packets && Is(p, TYPE_FILE) ==>
      Reachable(s) && Covered(s, Other(y)) && p in s.At(Other(y)).wire
  }

  lemma CanTakeLater(s: System, y: Side, steps: seq<Step>, packets: set<bytes>, fewer: set<bytes>)
    requires CanTake(s, y, packets) && fewer <= packets && BySide(steps, y) && AllQuiet(steps)
    ensures CanTake(Run(s, steps), y, fewer)
  {
    hide Run, Reachable, Is, FileBytes;
    OtherStands(s, steps, y);
    QuietIsCalm(steps);
    CalmRun(s, steps, y);
    if Reachable(s) { RunStaysReachable(s, steps); }
  }

  lemma QuietIsCalm(steps: seq<Step>)
    requires AllQuiet(steps)
    ensures AllCalm(steps)
  {
  }

  lemma TakingIsAdmitted(s: System, y: Side, packets: set<bytes>, p: bytes)
    requires CanTake(s, y, packets) && p in packets && Is(p, TYPE_FILE)
    ensures Admitted(s.At(y), Decode(p).value)
  {
    hide Reachable, Covered, Decode, Attachments.ParseHeader;
    assert Other(Other(y)) == y;
    CoveredFits(s, Other(y), p, Decode(p).value);
    if Attachments.ParseHeader(Decode(p).value.payload).Some? {
      Attachments.OwnIsTheRest(s.At(y).box.attach, KeyOf(Decode(p).value.payload).tid);
    }
  }

  /** A side receives the packets, emptying its queues before each and at the end. */
  lemma {:induction false} ReceiveAll(s: System, y: Side, packets: set<bytes>) returns (steps: seq<Step>)
    requires CanTake(s, y, packets)
    ensures Drained(s, steps, y) && AllReceived(s, steps, y, packets)
    decreases |packets|
  {
    hide Act, Run, ReceivedAt, OnlyAcks, Is, CanTake, Held, Admitted;
    if packets == {} {
      steps := Drain(s, y);
    } else {
      var p :| p in packets;
      var first := Drain(s, y);
      var s1 := Run(s, first);
      CanTakeLater(s, y, first, packets, packets);
      if Is(p, TYPE_FILE) { TakingIsAdmitted(s1, y, packets, p); }
      var step := ReceiveOne(s1, y, p);
      RunSingle(s1, step);
      CanTakeLater(s1, y, [step], packets, packets - {p});
      var rest := ReceiveAll(Do(s1, step), y, packets - {p});
      RunOne(s1, step, rest);
      AllReceivedLater(s1, [step], rest, y, packets - {p});
      ReceivedIn(s1, [step], rest, y, 0, p);
      forall q | q in packets ensures exists k :: ReceivedAt(s1, [step] + rest, y, k, q) {
        assert q == p || q in packets - {p};
      }
      AllReceivedLater(s, first, [step] + rest, y, packets);
      assert forall q :: Held(s1.At(y), q) ==> Is(q, TYPE_ACK) by { IdleHoldsNothing(s1.At(y)); }
      OnlyAcksAppends(s1, [step], rest, y);
      OnlyAcksAppends(s, first, [step] + rest, y);
      RunAppends(s, first, [step] + rest);
      steps := first + ([step] + rest);
    }
  }

  lemma IdleHoldsNothing(d: Daemon)
    requires Idle(d.box.queues)
    ensures forall p :: !Held(d, p)
  {
  }

  // ----------------------------------------------------------- sends, answers, ACKs

  ghost function Written(s: System, steps: seq<Step>, x: Side, typ: byte): set<bytes> {
    set j | 0 <= j < |steps| && steps[j].side == x && Output(Run(s, steps[..j]).At(x), steps[j].action).Some?
            && Is(Output(Run(s, steps[..j]).At(x), steps[j].action).value, typ)
      :: Output(Run(s, steps[..j]).At(x), steps[j].action).value
  }

  lemma WriteIsInWritten(s: System, steps: seq<Step>, x: Side, typ: byte, j: nat, p: bytes)
    requires WritesAt(s, steps, x, j, p) && Is(p, typ)
    ensures p in Written(s, steps, x, typ)
  {
    hide Is;
  }

  lemma WrittenIsSent(s: System, steps: seq<Step>, x: Side, typ: byte)
    ensures forall p :: p in Written(s, steps, x, typ) ==> Is(p, typ) && p in Run(s, steps).At(x).wire
  {
    hide Run, Is, Output;
    forall p | p in Written(s, steps, x, typ) ensures Is(p, typ) && p in Run(s, steps).At(x).wire {
      var j :| 0 <= j < |steps| && steps[j].side == x && Output(Run(s, steps[..j]).At(x), steps[j].action).Some?
               && Is(Output(Run(s, steps[..j]).At(x), steps[j].action).value, typ)
               && Output(Run(s, steps[..j]).At(x), steps[j].action).value == p;
      WrittenIsOnWire(s, steps, x, j, |steps|, p);
      assert steps[..|steps|] == steps;
    }
  }

  /** `x` sends, `y` receives it and answers, `x` receives the answers. */
  ghost predicate Exchange(s: System, x: Side, typ: byte, sends: seq<Step>, answers: seq<Step>, acks: seq<Step>) {
    var s1 := Run(s, sends);
    var s2 := Run(s1, answers);
    && BySide(sends, x) && Idle(s1.At(x).box.queues)
    && Drained(s1, answers, Other(x)) && AllReceived(s1, answers, Other(x), Written(s, sends, x, typ))
    && Drained(s2, acks, x) && AllReceived(s2, acks, x, Written(s1, answers, Other(x), TYPE_ACK))
  }

  lemma NoWriteByOther(s: System, steps: seq<Step>, x: Side, j: nat, p: bytes)
    requires BySide(steps, x)
    ensures !WritesAt(s, steps, Other(x), j, p)
  {
  }

  lemma ExchangeLosesNothing(s: System, x: Side, typ: byte, sends: seq<Step>, answers: seq<Step>, acks: seq<Step>)
    requires Exchange(s, x, typ, sends, answers, acks) && typ != TYPE_ACK
    ensures Arrives(s, sends + (answers + acks), x, typ)
  {
    hide Run, WritesAt, ReceivedAt, Written, BySide, AllQuiet, Decode;
    var y, s1, rest := Other(x), Run(s, sends), answers + acks;
    var s2, steps := Run(s1, answers), sends + rest;
    RunAppends(s, sends, rest);
    RunAppends(s1, answers, acks);
    OtherStands(s1, answers, y);
    forall j: nat, p | WritesAt(s, steps, x, j, p) && Is(p, typ)
      ensures exists k :: j < k && ReceivedAt(s, steps, y, k, p)
    {
      WritesIn(s, sends, rest, x, j, p);
      if j < |sends| {
        WriteIsInWritten(s, sends, x, typ, j, p);
        var k :| ReceivedAt(s1, answers, y, k, p);
        ReceivedIn(s1, answers, acks, y, k, p);
        ReceivedIn(s, sends, rest, y, k, p);
        assert ReceivedAt(s, steps, y, |sends| + k, p);
      } else {
        WritesIn(s1, answers, acks, x, j - |sends|, p);
        NoWriteByOther(s1, answers, y, j - |sends|, p);
      }
    }
  }

  lemma ExchangeLosesNoAck(s: System, x: Side, typ: byte, sends: seq<Step>, answers: seq<Step>, acks: seq<Step>)
    requires Exchange(s, x, typ, sends, answers, acks)
    ensures Arrives(s, sends + (answers + acks), Other(x), TYPE_ACK)
  {
    hide Run, WritesAt, ReceivedAt, Written, BySide, AllQuiet, Decode, OnlyAcks;
    var y, s1, rest := Other(x), Run(s, sends), answers + acks;
    var s2, steps := Run(s1, answers), sends + rest;
    RunAppends(s, sends, rest);
    RunAppends(s1, answers, acks);
    OtherStands(s2, acks, x);
    assert Other(y) == x;
    assert Idle(Run(s, steps).At(y).box.queues);
    forall j: nat, p | WritesAt(s, steps, y, j, p) && Is(p, TYPE_ACK)
      ensures exists k :: j < k && ReceivedAt(s, steps, x, k, p)
    {
      WritesIn(s, sends, rest, y, j, p);
      if j < |sends| {
        NoWriteByOther(s, sends, x, j, p);
      } else {
        WritesIn(s1, answers, acks, y, j - |sends|, p);
        if j >= |sends| + |answers| { NoWriteByOther(s2, acks, x, j - |sends| - |answers|, p); }
        WriteIsInWritten(s1, answers, y, TYPE_ACK, j - |sends|, p);
        var k :| ReceivedAt(s2, acks, x, k, p);
        ReceivedIn(s1, answers, acks, x, k, p);
        ReceivedIn(s, sends, rest, x, |answers| + k, p);
        assert ReceivedAt(s, steps, x, |sends| + (|answers| + k), p);
      }
    }
  }

  lemma ExchangeAfter(s: System, x: Side, typ: byte, sends: seq<Step>) returns (answers: seq<Step>, acks: seq<Step>)
    requires BySide(sends, x) && AllQuiet(sends) && Idle(Run(s, sends).At(x).box.queues)
    requires typ == TYPE_FILE ==> Reachable(s) && Covered(s, x)
    ensures Exchange(s, x, typ, sends, answers, acks)
  {
    hide Run, Drained, AllReceived, Written, Reachable, Covered, Decode;
    var y, s1 := Other(x), Run(s, sends);
    assert Other(y) == x;
    WrittenIsSent(s, sends, x, typ);
    if typ == TYPE_FILE { CoveredLater(s, x, sends); }
    answers := ReceiveAll(s1, y, Written(s, sends, x, typ));
    WrittenIsSent(s1, answers, y, TYPE_ACK);
    acks := ReceiveAll(Run(s1, answers), x, Written(s1, answers, y, TYPE_ACK));
  }

  lemma CoveredLater(s: System, x: Side, steps: seq<Step>)
    requires Reachable(s) && Covered(s, x) && AllQuiet(steps)
    ensures Reachable(Run(s, steps)) && Covered(Run(s, steps), x)
  {
    hide Run, Reachable;
    QuietIsCalm(steps);
    CalmRun(s, steps, x);
    CalmRun(s, steps, Other(x));
    RunStaysReachable(s, steps);
  }

  lemma ExchangeEnds(s: System, x: Side, typ: byte, sends: seq<Step>, answers: seq<Step>, acks: seq<Step>)
    requires Exchange(s, x, typ, sends, answers, acks) && AllQuiet(sends)
    ensures AllQuiet(sends + (answers + acks))
    ensures var d := Run(s, sends + (answers + acks)).At(x);
            Idle(d.box.queues) && d.flush == Run(s, sends).At(x).flush
  {
    hide Run, OnlyAcks, AllReceived, Written;
    RunAppends(s, sends, answers + acks);
    RunAppends(Run(s, sends), answers, acks);
    OtherStands(Run(s, sends), answers, Other(x));
  }

  // ------------------------------------------------------------ the flush of a round

  lemma OfferedIn(s: System, a: seq<Step>, b: seq<Step>, x: Side, typ: byte, k: nat)
    requires NoBegin(a, x)
    ensures Offered(s, a, x, typ, k) ==> Offered(s, a + b, x, typ, k)
    ensures Offered(Run(s, a), b, x, typ, k) ==> Offered(s, a + b, x, typ, |a| + k)
  {
    hide Run, Deliverable, LineOf;
    if k < |a| { PrefixOfSum(a, b, k); }
    if k < |b| {
      assert (a + b)[..|a| + k] == a + b[..k];
      RunAppends(s, a, b[..k]);
    }
  }

  /** The first turn of a flush over `items` with both queues empty. */
  lemma FirstTurn(s: System, x: Side, typ: byte, now: int, items: seq<Item>) returns (steps: seq<Step>)
    requires Midway(s.At(x), now, items) && items != [] && Idle(s.At(x).box.queues)
    ensures AllQuiet(steps) && BySide(steps, x) && NoBegin(steps, x)
    ensures Midway(Run(s, steps).At(x), now, items[1..]) && Run(s, steps).At(x).cfg == s.At(x).cfg
    ensures Deliverable(items[0].row, s.At(x).cfg.mtu, typ) ==> Offered(s, steps, x, typ, 0)
  {
    hide Run, Turn, Deliverable;
    steps := [Step(x, FlushNext), Step(x, FlushMark)];
    assert [] + steps == steps && steps[..0] == [];
    RunNothing(s);
    RunTurn(s, s, x, []);
    TurnIsFlushItem(s.At(x), now, items);
  }

  /** A flush that empties the queues after every turn: every deliverable row meets room. */
  lemma {:induction false} FlushDraining(s: System, x: Side, typ: byte, now: int, items: seq<Item>) returns (steps: seq<Step>)
    requires Midway(s.At(x), now, items) && Idle(s.At(x).box.queues)
    ensures AllQuiet(steps) && BySide(steps, x) && NoBegin(steps, x)
    ensures Midway(Run(s, steps).At(x), now, []) && Idle(Run(s, steps).At(x).box.queues)
    ensures (exists i :: 0 <= i < |items| && Deliverable(items[i].row, s.At(x).cfg.mtu, typ)) ==>
              exists k :: Offered(s, steps, x, typ, k)
    decreases |items|
  {
    hide Run, Deliverable, Offered, OnlyAcks, ItemsOk;
    if items == [] {
      steps := [];
      RunNothing(s);
    } else {
      var turn := FirstTurn(s, x, typ, now, items);
      var drain := Drain(Run(s, turn), x);
      var s1 := Run(Run(s, turn), drain);
      QuietIsCalm(drain);
      CalmRun(Run(s, turn), drain, x);
      var rest := FlushDraining(s1, x, typ, now, items[1..]);
      RunAppends(s, turn, drain);
      RunAppends(s, turn + drain, rest);
      steps := turn + drain + rest;
      OfferedIn(s, turn, drain, x, typ, 0);
      OfferedIn(s, turn + drain, rest, x, typ, 0);
      if i :| 1 <= i < |items| && Deliverable(items[i].row, s.At(x).cfg.mtu, typ) {
        assert items[1..][i - 1] == items[i];
        var k :| Offered(s1, rest, x, typ, k);
        OfferedIn(s, turn + drain, rest, x, typ, k);
      }
    }
  }

  lemma WaitingIsPending(d: Daemon, typ: byte)
    requires Waiting(d, typ) != {}
    ensures var items := PendingItems(d.box.journal);
            exists i :: 0 <= i < |items| && Deliverable(items[i].row, d.cfg.mtu, typ)
  {
    hide Deliverable, PendingItems;
    var items := PendingItems(d.box.journal);
    var w := Member(Waiting(d, typ));
    PendingHolds(d.box.journal, w);
    var i :| 0 <= i < |items| && items[i] == Item(w, d.box.journal.rows[w], SentAt(d.box.journal.sent, w));
    assert Deliverable(items[i].row, d.cfg.mtu, typ);
  }

  /** A state a round starts from with both queues empty. */
  ghost predicate Ready(s: System, x: Side) {
    Open(s, x) && Idle(s.At(x).box.queues)
  }

  lemma OpeningBegins(s: System, x: Side, ms: nat)
    requires Ready(s, x) && JournalOk(s.At(x))
    ensures Midway(Run(s, Opening(x, ms)).At(x), s.At(x).clock + ms, PendingItems(s.At(x).box.journal))
    ensures Run(s, Opening(x, ms)).At(x).box == s.At(x).box && Run(s, Opening(x, ms)).At(x).cfg == s.At(x).cfg
  {
    hide Run, PendingItems, ItemsOk, JournalOk;
    PendingIsOk(s.At(x));
    RunOpening(s, x, ms);
  }

  lemma EndFlushing(s: System, x: Side, now: int)
    requires Midway(s.At(x), now, [])
    ensures Do(s, Step(x, FlushEnd)).At(x) == s.At(x).(flush := None)
  {
  }

  /** Everything the sender does in the round: the flush, emptying its queues, its end. */
  lemma RoundSends(s: System, x: Side, typ: byte, now: int, items: seq<Item>) returns (sends: seq<Step>)
    requires Midway(s.At(x), now, items) && Idle(s.At(x).box.queues)
    ensures AllQuiet(sends) && BySide(sends, x) && NoBegin(sends, x)
    ensures Idle(Run(s, sends).At(x).box.queues) && Run(s, sends).At(x).flush.None?
    ensures (exists i :: 0 <= i < |items| && Deliverable(items[i].row, s.At(x).cfg.mtu, typ)) ==>
              exists k :: Offered(s, sends, x, typ, k)
  {
    hide Run, Deliverable, Offered, ItemsOk, Do;
    var flush := FlushDraining(s, x, typ, now, items);
    var end := Step(x, FlushEnd);
    sends := flush + [end];
    RunAppends(s, flush, [end]);
    RunSingle(Run(s, flush), end);
    EndFlushing(Run(s, flush), x, now);
    if i :| 0 <= i < |items| && Deliverable(items[i].row, s.At(x).cfg.mtu, typ) {
      var k :| Offered(s, flush, x, typ, k);
      OfferedIn(s, flush, [end], x, typ, k);
    }
  }

  /** From every ready state a fair round exists, and it ends in a ready state. For file
      rows the peer's budget must cover what was queued. */
  lemma RoundExists(s: System, x: Side, typ: byte) returns (r: Round)
    requires typ in {TYPE_MSG, TYPE_FILE} && Reachable(s) && Ready(s, x) && (typ == TYPE_FILE ==> Covered(s, x))
    ensures FairRound(s, x, typ, r) && AllQuiet(r.steps) && Ready(AfterRound(s, x, r), x)
  {
    hide Run, Reachable, Arrives, Offered, Exchange, PendingItems, Pacing.PaceOk, JournalOk, Waiting, Deliverable, Covered;
    var d, ms := s.At(x), s.At(x).cfg.retry;
    Pacing.ReachableHasPace(s, x);
    OpeningBegins(s, x, ms);
    var s0, items := Run(s, Opening(x, ms)), PendingItems(d.box.journal);
    var sends := RoundSends(s0, x, typ, d.clock + ms, items);
    if typ == TYPE_FILE { OpeningIsCovered(s, x, ms); }
    var answers, acks := ExchangeAfter(s0, x, typ, sends);
    var steps := sends + (answers + acks);
    ExchangeLosesNothing(s0, x, typ, sends, answers, acks);
    ExchangeLosesNoAck(s0, x, typ, sends, answers, acks);
    ExchangeEnds(s0, x, typ, sends, answers, acks);
    if Waiting(d, typ) != {} {
      WaitingIsPending(d, typ);
      var k :| Offered(s0, sends, x, typ, k);
      OfferedIn(s0, sends, answers + acks, x, typ, k);
    }
    r := Round(ms, steps);
    QuietIsCalm(steps);
    RoundIsSettled(s, x, r);
  }

  lemma OpeningIsCovered(s: System, x: Side, ms: nat)
    requires Reachable(s) && Covered(s, x)
    ensures Reachable(Run(s, Opening(x, ms))) && Covered(Run(s, Opening(x, ms)), x)
  {
    CoveredLater(s, x, Opening(x, ms));
  }

  ghost predicate AllRoundsQuiet(rounds: seq<Round>) {
    forall i :: 0 <= i < |rounds| ==> AllQuiet(rounds[i].steps)
  }

  lemma {:induction false} RoundsExist(s: System, x: Side, typ: byte, k: nat) returns (rounds: seq<Round>)
    requires typ in {TYPE_MSG, TYPE_FILE} && Reachable(s) && Ready(s, x) && (typ == TYPE_FILE ==> Covered(s, x))
    ensures |rounds| == k && FairRounds(s, x, typ, rounds) && AllRoundsQuiet(rounds)
    decreases k
  {
    hide Run, Reachable, FairRound, AllQuiet, Covered;
    if k == 0 {
      rounds := [];
    } else {
      var r := RoundExists(s, x, typ);
      RoundStaysReachable(s, x, r);
      if typ == TYPE_FILE {
        OpeningIsCovered(s, x, r.ms);
        CoveredLater(Run(s, Opening(x, r.ms)), x, r.steps);
      }
      var rest := RoundsExist(AfterRound(s, x, r), x, typ, k - 1);
      rounds := [r] + rest;
    }
  }

  // ------------------------------------------------------------ from any such state

  lemma TurnsAreQuiet(x: Side, k: nat)
    ensures AllQuiet(Turns(x, k))
  {
    if k > 0 { TurnsAreQuiet(x, k - 1); }
  }

  /** A running flush can go over what it has left. */
  lemma FlushCanFinish(s: System, x: Side) returns (steps: seq<Step>)
    requires JournalOk(s.At(x)) && s.At(x).flush.Some?
    ensures AllQuiet(steps) && Midway(Run(s, steps).At(x), s.At(x).flush.value.now, [])
  {
    hide Run, TurnsOf, Turns, JournalOk, FlushItems;
    var f, mark := s.At(x).flush.value, Step(x, FlushMark);
    var s1 := Do(s, mark);
    TodoIsOk(s.At(x));
    TurnsAreFlushItems(s1.At(x), f.now, f.todo);
    RunTurns(s1, x, |f.todo|);
    RunOne(s, mark, Turns(x, |f.todo|));
    TurnsAreQuiet(x, |f.todo|);
    steps := [mark] + Turns(x, |f.todo|);
  }

  lemma TodoIsOk(d: Daemon)
    requires JournalOk(d) && d.flush.Some?
    ensures ItemsOk(d.flush.value.todo)
  {
    var todo := d.flush.value.todo;
    forall i | 0 <= i < |todo| ensures todo[i].sn < TWO_63 && todo[i].row.typ in {TYPE_MSG, TYPE_FILE} {
      assert todo[i] in todo;
    }
  }

  lemma EndAndDrain(s: System, x: Side, now: int) returns (steps: seq<Step>)
    requires Midway(s.At(x), now, [])
    ensures AllQuiet(steps) && Idle(Run(s, steps).At(x).box.queues) && Run(s, steps).At(x).flush.None?
  {
    hide Run, OnlyAcks;
    var step := Step(x, FlushEnd);
    var rest := Drain(Do(s, step), x);
    RunOne(s, step, rest);
    steps := [step] + rest;
  }

  /** From every reachable state in which neither side blocks the other, a flush
      under way can finish and the sender become ready for a round. */
  lemma BecomesReady(s: System, x: Side) returns (steps: seq<Step>)
    requires Reachable(s) && !s.At(x).blocked && !s.At(Other(x)).blocked
    requires s.At(Other(x)).cfg.mtu >= HEADER_SIZE
    ensures AllQuiet(steps) && Ready(Run(s, steps), x)
  {
    hide Run, Reachable, JournalOk, Pacing.PaceOk, OnlyAcks;
    if s.At(x).flush.None? {
      steps := Drain(s, x);
    } else {
      Pacing.ReachableHasPace(s, x);
      var first := FlushCanFinish(s, x);
      var rest := EndAndDrain(Run(s, first), x, s.At(x).flush.value.now);
      RunAppends(s, first, rest);
      steps := first + rest;
    }
    QuietIsCalm(steps);
    CalmRun(s, steps, x);
    CalmRun(s, steps, Other(x));
  }

  /** So from every such state fair rounds deliver every deliverable text, and every
      deliverable file row when the peer's budget covers what was queued. */
  lemma EverythingGetsThrough(s: System, x: Side, typ: byte) returns (ready: seq<Step>, rounds: seq<Round>)
    requires typ in {TYPE_MSG, TYPE_FILE} && Reachable(s) && !s.At(x).blocked && !s.At(Other(x)).blocked
    requires s.At(Other(x)).cfg.mtu >= HEADER_SIZE && (typ == TYPE_FILE ==> Covered(s, x))
    ensures AllQuiet(ready) && AllRoundsQuiet(rounds) && FairRounds(Run(s, ready), x, typ, rounds)
    ensures Waiting(AfterRounds(Run(s, ready), x, rounds).At(x), typ) == {}
  {
    hide Run, Reachable, Waiting, Ready, FairRounds, AfterRounds, AllQuiet, Covered;
    ready := BecomesReady(s, x);
    RunStaysReachable(s, ready);
    if typ == TYPE_FILE { CoveredLater(s, x, ready); }
    rounds := RoundsExist(Run(s, ready), x, typ, |Waiting(Run(s, ready).At(x), typ)|);
    RoundsDeliverAll(Run(s, ready), x, typ, rounds);
  }

  lemma {:induction false} RoundsAreARun(s: System, x: Side, rounds: seq<Round>) returns (steps: seq<Step>)
    requires AllRoundsQuiet(rounds)
    ensures AllQuiet(steps) && Run(s, steps) == AfterRounds(s, x, rounds)
    decreases |rounds|
  {
    hide Run;
    if rounds == [] {
      steps := [];
      RunNothing(s);
    } else {
      var r := rounds[0];
      var rest := RoundsAreARun(AfterRound(s, x, r), x, rounds[1..]);
      RunAppends(s, Opening(x, r.ms), r.steps + rest);
      RunAppends(Run(s, Opening(x, r.ms)), r.steps, rest);
      steps := Opening(x, r.ms) + (r.steps + rest);
    }
  }

  /** The same as one run: quiet steps after which none of these rows is waiting. */
  lemma RunGetsThrough(s: System, x: Side, typ: byte) returns (steps: seq<Step>)
    requires typ in {TYPE_MSG, TYPE_FILE} && Reachable(s) && !s.At(x).blocked && !s.At(Other(x)).blocked
    requires s.At(Other(x)).cfg.mtu >= HEADER_SIZE && (typ == TYPE_FILE ==> Covered(s, x))
    ensures AllQuiet(steps) && Waiting(Run(s, steps).At(x), typ) == {}
  {
    hide Run, Reachable, Waiting, FairRounds, AfterRounds, Covered, AllRoundsQuiet;
    var ready, rounds := EverythingGetsThrough(s, x, typ);
    var more := RoundsAreARun(Run(s, ready), x, rounds);
    RunAppends(s, ready, more);
    steps := ready + more;
  }

  // ------------------------------------------------------------------- whole files

  /** The link can carry every row of this file. */
  ghost predicate LinkCarries(d: Daemon, tid: bytes) {
    forall n :: n in d.queued && HasTid(d.queued[n], tid) ==>
      |d.queued[n].payload| <= MAX_PAYLOAD && HEADER_SIZE + |d.queued[n].payload| <= d.cfg.mtu
  }

  lemma NotWaitingHasLeft(d: Daemon, tid: bytes)
    requires JournalOk(d) && Waiting(d, TYPE_FILE) == {} && LinkCarries(d, tid)
    ensures HasLeft(d, tid)
  {
    hide Attachments.ParseHeader, Hex;
    forall n | n in d.queued && HasTid(d.queued[n], tid) ensures n !in d.box.journal.rows {
      assert n in Waiting(d, TYPE_FILE) <==> n in d.box.journal.rows;
    }
  }

  /** A queued file gets to the peer's client. From every reachable state in which nobody
      blocks, the peer's budget covers what was queued and the transfer was not consumed,
      some continuation ends with the transfer listed as complete and reassembling to the
      file. */
  lemma FileGetsThrough(s0: System, before: seq<Step>, x: Side, data: bytes, tid: bytes, seal: Files.Seal, open: Files.Open)
    returns (steps: seq<Step>)
    requires IsStart(s0) && Files.Opens(seal, open) && |tid| == Files.TID_SIZE && 0 < |data| && |Files.Pieces(data)| < TWO_16
    requires var s := Run(s0, before);
             && QueuedFile(s.At(x).queued, data, tid, seal) && LinkCarries(s.At(x), tid) && Covered(s, x)
             && !s.At(x).blocked && !s.At(Other(x)).blocked && s.At(Other(x)).cfg.mtu >= HEADER_SIZE
    requires Step(Other(x), Consume(Hex(tid))) !in before
    ensures AllQuiet(steps)
    ensures var t := Run(s0, before + steps).At(Other(x)).box.attach;
            var buf := Files.Collect(Files.Fetched(t, Hex(tid)), open);
            Hex(tid) in Attachments.Pending(t) && Files.Reassemble(buf.chunks, buf.total) == Some(data)
  {
    var s := Run(s0, before);
    assert Reachable(s);
    hide Run, IsStart, Reachable, Files.Pieces, Hex, QueuedFile, HasLeft, HasTid, Covered, Waiting, JournalOk, Files.Collect, Files.Fetched, Files.Reassemble, Attachments.Pending, Pacing.PaceOk;
    steps := RunGetsThrough(s, x, TYPE_FILE);
    var t := Run(s, steps);
    RunAppends(s0, before, steps);
    QuietIsCalm(steps);
    CalmRun(s, steps, x);
    CoveredLater(s, x, steps);
    Pacing.ReachableHasPace(t, x);
    NotWaitingHasLeft(t.At(x), tid);
    CoveredFileReassembles(s0, before + steps, x, data, tid, seal, open);
  }
}
