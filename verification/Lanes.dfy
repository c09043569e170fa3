/** What travels where, in every run: which packets are in which queue, that all of them
    fit the link, and what crashes, aborted sends, blocking and failed receipts leave. */
module Lanes {
  import opened Bytes
  import opened Envelopes
  import opened Outbox
  import opened Nodes
  import opened Mail
  import opened Delivery
  import opened Runs
  import EndToEnd
  import Inbox
  import Attachments

  // ------------------------------------------------------------- packets and lanes

  /** A packet of one of these types that fits the link. */
  ghost predicate Fits(d: Daemon, p: bytes, types: set<byte>) {
    |p| <= d.cfg.mtu && Decode(p).Ok? && Decode(p).value.typ in types
  }

  /** File chunks are in the bulk queue and nothing else is; texts and ACKs are in the
      control queue; both are bounded, and what was written fits the link. */
  ghost predicate LanesOk(d: Daemon) {
    && |d.box.queues.control| <= 64 && |d.box.queues.bulk| <= 512
    && (forall p :: p in d.box.queues.control ==> Fits(d, p, {1, 2}))
    && (forall p :: p in d.box.queues.bulk ==> Fits(d, p, {5}))
    && (forall p :: p in d.wire ==> Fits(d, p, {1, 2, 5}))
  }

  /** `d'` has gained at most one packet, in its own lane, and has written others. */
  lemma GainKeepsLanes(d: Daemon, d': Daemon, data: bytes)
    requires LanesOk(d) && d'.cfg == d.cfg && d'.wire == d.wire
    requires d'.box.queues == d.box.queues
             || (d'.box.queues.control == d.box.queues.control + [data] && d'.box.queues.bulk == d.box.queues.bulk
                 && Fits(d, data, {1, 2}) && |d.box.queues.control| < 64)
             || (d'.box.queues.bulk == d.box.queues.bulk + [data] && d'.box.queues.control == d.box.queues.control
                 && Fits(d, data, {5}) && |d.box.queues.bulk| < 512)
    ensures LanesOk(d')
  {
    hide Decode;
  }

  lemma NextKeepsLanes(d: Daemon)
    requires JournalOk(d) && LanesOk(d)
    ensures LanesOk(NextFlush(d))
  {
    NextFlushFrame(d);
    if d.flush.Some? && d.flush.value.mark.None? && d.flush.value.todo != [] && d.flush.value.todo[0].sn < TWO_64 {
      var e := d.flush.value.todo[0];
      assert e in d.flush.value.todo;
      hide OfferItem, Decode, Encode, LanesOk;
      if OfferItem(d.box.queues, d.cfg, d.flush.value.now, e).Ok? {
        OfferGoesToItsLane(d.box.queues, d.cfg, d.flush.value.now, e);
        OfferedExactlyWhen(d.box.queues, d.cfg, d.flush.value.now, e);
        OfferedPacketSays(e);
        GainKeepsLanes(d, NextFlush(d), Encode(EnvelopeOf(e)).value);
      } else {
        GainKeepsLanes(d, NextFlush(d), []);
      }
    } else {
      hide LanesOk;
      GainKeepsLanes(d, NextFlush(d), []);
    }
  }

  lemma AckFits(d: Daemon, n: u64)
    requires 20 <= d.cfg.mtu
    ensures Encode(Ack(n)).Ok? && Fits(d, Encode(Ack(n)).value, {1, 2})
  {
    hide Decode, Header;
    DecodeEncode(Ack(n), []);
    assert Encode(Ack(n)).value + [] == Encode(Ack(n)).value;
  }

  lemma ReceiveKeepsLanes(d: Daemon, r: Receipt)
    requires LanesOk(d)
    ensures LanesOk(ReceivePacket(d, r))
  {
    hide Handle, Decode, Encode, ReceivePacket, LanesOk;
    ReceiveFrame(d, r);
    HandleAcks(d.box, d.cfg, r.packet);
    OnlyTheAckIsLost(d.box, d.cfg, r.packet);
    var effect := Handle(d.box, d.cfg, r.packet, true).1;
    if ReceivePacket(d, r).box.queues == d.box.queues {
      GainKeepsLanes(d, ReceivePacket(d, r), []);
    } else {
      AckFits(d, effect.sn);
      GainKeepsLanes(d, ReceivePacket(d, r), Encode(Ack(effect.sn)).value);
    }
  }

  lemma WriteKeepsLanes(d: Daemon, pick: Lane)
    requires LanesOk(d)
    ensures LanesOk(WriteOut(d, pick))
  {
    hide Fits;
    var q, d' := d.box.queues, WriteOut(d, pick);
    assert d'.box.queues.control == q.control || (q.control != [] && d'.box.queues.control == q.control[1..]);
    assert d'.box.queues.bulk == q.bulk || (q.bulk != [] && d'.box.queues.bulk == q.bulk[1..]);
    forall p, types | Fits(d, p, types) ensures Fits(d', p, types) && Fits(d', p, {1, 2, 5} + types) {
      SameLinkFits(d, d', p, types);
    }
    forall p | p in d'.wire ensures Fits(d', p, {1, 2, 5}) {
      if p in q.control { assert {1, 2, 5} + {1, 2} == {1, 2, 5}; }
      if p in q.bulk { assert {1, 2, 5} + {5} == {1, 2, 5}; }
    }
  }

  lemma SameLinkFits(d: Daemon, d': Daemon, p: bytes, types: set<byte>)
    requires Fits(d, p, types) && d'.cfg == d.cfg
    ensures Fits(d', p, types) && Fits(d', p, {1, 2, 5} + types)
  {
    hide Decode;
  }

  lemma SendKeepsQueues(d: Daemon, isFile: bool, body: bytes, n: nat, ts: i64)
    ensures var one, two := BeginSend(d, isFile, body), CommitSend(d, n, ts);
            && one.box.queues == d.box.queues && one.wire == d.wire && one.cfg == d.cfg
            && two.box.queues == d.box.queues && two.wire == d.wire && two.cfg == d.cfg
  {
  }

  lemma ActKeepsLanes(d: Daemon, a: Action)
    requires JournalOk(d) && LanesOk(d)
    ensures LanesOk(Act(d, a))
  {
    hide ReceivePacket, NextFlush, WriteOut, BeginSend, CommitSend, PendingItems, Attachments.Drop, JournalOk, Decode, LanesOk;
    match a
    case FlushNext => NextKeepsLanes(d);
    case Write(pick) => WriteKeepsLanes(d, pick);
    case Receive(r) => ReceiveKeepsLanes(d, r);
    case SendBegin(isFile, body) =>
      SendKeepsQueues(d, isFile, body, 0, 0);
      GainKeepsLanes(d, Act(d, a), []);
    case SendCommit(n, ts) =>
      SendKeepsQueues(d, false, [], n, ts);
      GainKeepsLanes(d, Act(d, a), []);
    case Restart(still) => RestartKeepsLanes(d, still);
    case _ => GainKeepsLanes(d, Act(d, a), []);
  }

  lemma RestartKeepsLanes(d: Daemon, still: bool)
    requires LanesOk(d)
    ensures LanesOk(RestartFrom(d, still))
  {
    hide Decode;
  }

  lemma {:induction false} RunKeepsLanes(s: System, steps: seq<Step>)
    requires Inv(s) && LanesOk(s.a) && LanesOk(s.b)
    ensures LanesOk(Run(s, steps).a) && LanesOk(Run(s, steps).b)
  {
    hide Act, LanesOk, Inv, JournalOk;
    if steps != [] {
      var init, last := steps[..|steps| - 1], steps[|steps| - 1];
      RunKeepsLanes(s, init);
      RunKeepsInv(s, init);
      InvHasJournal(Run(s, init), last.side);
      ActKeepsLanes(Run(s, init).At(last.side), last.action);
    }
  }

  lemma StartHasLanes(s: System)
    requires IsStart(s)
    ensures LanesOk(s.a) && LanesOk(s.b)
  {
  }

  /** In every run: every packet in the bulk queue is a file chunk and none in the control
      queue is; the queues hold at most 512 and 64; and every packet ever handed to the
      network is a text, an ACK or a chunk that fits the link. */
  lemma LanesAreKept(s: System, x: Side)
    requires Reachable(s)
    ensures LanesOk(s.At(x))
  {
    hide LanesOk, Run, IsStart, Inv;
    var s0, steps :| IsStart(s0) && s == Run(s0, steps);
    StartHasInv(s0);
    StartHasLanes(s0);
    RunKeepsLanes(s0, steps);
  }

  // ------------------------------------------------- starts, crashes and lost calls

  /** Every configuration the constructors can produce can start, and is reachable. */
  lemma EveryConfigurationStarts(ca: Config, cb: Config, ta: int, tb: int)
    requires ca.capacity >= 1 && cb.capacity >= 1 && ta > 0 && tb > 0
    ensures IsStart(System(Start(ca, ta), Start(cb, tb))) && Reachable(System(Start(ca, ta), Start(cb, tb)))
  {
    var s0 := System(Start(ca, ta), Start(cb, tb));
    assert Run(s0, []) == s0;
    assert IsStart(s0);
  }

  /** A crash keeps everything in the database and everything already on the wire, and
      loses the queues, the send times, a flush under way and the calls in progress. */
  lemma CrashKeepsTheDurable(d: Daemon, still: bool)
    ensures var d' := Act(d, Restart(still));
            && d'.box.journal.rows == d.box.journal.rows && d'.box.journal.next == d.box.journal.next
            && d'.box.inbox == d.box.inbox && d'.box.attach == d.box.attach && d'.wire == d.wire
            && d'.cfg == d.cfg && d'.clock == d.clock && d'.blocked == still
            && d'.box.queues.control == [] && d'.box.queues.bulk == [] && d'.box.queues.at.Head?
            && d'.box.journal.sent.Keys == {} && d'.flush.None? && d'.calls.Keys == {}
            && d'.queued == d.queued && d'.accepted == d.accepted && d'.filed == d.filed && d'.log == d.log
  {
  }

  /** A receipt whose transaction fails, or from a blocked peer, is no step at all. */
  lemma FailedReceiptIsNoStep(s: System, x: Side, r: Receipt)
    requires !r.commits || s.At(x).blocked
    ensures Do(s, Step(x, Receive(r))) == s
  {
    hide Handle;
  }

  /** Dying before the ACK loses the ACK and nothing else of a receipt. */
  lemma CrashLosesOnlyTheAck(d: Daemon, packet: bytes)
    ensures var full := Act(d, Receive(Receipt(packet, true, true)));
            Act(d, Receive(Receipt(packet, true, false))) == full.(box := full.box.(queues := d.box.queues))
  {
    hide Handle, ReceivePacket;
    ReceiptLosesOnlyTheAck(d, packet);
  }

  lemma ReceiptLosesOnlyTheAck(d: Daemon, packet: bytes)
    ensures var full := ReceivePacket(d, Receipt(packet, true, true));
            ReceivePacket(d, Receipt(packet, true, false)) == full.(box := full.box.(queues := d.box.queues))
  {
    hide Handle, Take;
    OnlyTheAckIsLost(d.box, d.cfg, packet);
    var (box, effect) := Handle(d.box, d.cfg, packet, true);
    TakeKeepsQueues(d, box, effect, d.box.queues);
  }

  lemma TakeKeepsQueues(d: Daemon, box: Box, effect: Effect, q: Queues)
    ensures Take(d, box.(queues := q), effect) == Take(d, box, effect).(box := box.(queues := q))
    ensures Take(d, box, effect).box == box
  {
    TakeIs(d, box, effect);
    TakeIs(d, box.(queues := q), effect);
    hide Take;
  }

  /** The records do not depend on the mailbox. */
  lemma TakeIs(d: Daemon, box: Box, effect: Effect)
    ensures Take(d, box, effect) == Take(d, d.box, effect).(box := box)
  {
    match effect
    case Ignored =>
    case Text(n, entry, isNew) =>
    case File(n, key, payload, _) =>
    case Acknowledged(_, _) =>
  }

  /** A seq drawn by no call in progress, and not queued, stays that way for ever. */
  ghost predicate Spent(d: Daemon, n: nat) {
    n < d.box.journal.next && n !in d.calls && n !in d.queued
  }

  lemma SendKeepsSpent(d: Daemon, isFile: bool, body: bytes, m: nat, ts: i64, n: nat)
    requires Spent(d, n)
    ensures Spent(BeginSend(d, isFile, body), n) && Spent(CommitSend(d, m, ts), n)
  {
  }

  lemma ActKeepsSpent(d: Daemon, a: Action, n: nat)
    requires Spent(d, n)
    ensures Spent(Act(d, a), n)
  {
    hide ReceivePacket, Handle, NextFlush, BeginFlush, MarkFlush, EndFlush, BeginSend, CommitSend, Advance, Attachments.Drop;
    FlushFrame(d);
    match a
    case Receive(r) => ReceiveFrame(d, r); HandleJournal(d.box, d.cfg, r.packet, r.ackRuns);
    case SendBegin(isFile, body) => SendKeepsSpent(d, isFile, body, 0, 0, n);
    case SendCommit(m, ts) => SendKeepsSpent(d, false, [], m, ts, n);
    case _ =>
  }

  lemma {:induction false} RunKeepsSpent(s: System, steps: seq<Step>, x: Side, n: nat)
    requires Spent(s.At(x), n)
    ensures Spent(Run(s, steps).At(x), n)
  {
    hide Act, Spent;
    if steps != [] {
      var init, last := steps[..|steps| - 1], steps[|steps| - 1];
      RunKeepsSpent(s, init, x, n);
      if last.side == x { ActKeepsSpent(Run(s, init).At(x), last.action, n); }
    }
  }

  /** In every run: a send that was aborted, or in progress at a crash, never queues its
      row, and nobody else ever queues one under its seq. */
  lemma LostCallNeverQueues(s: System, x: Side, n: nat, a: Action, steps: seq<Step>)
    requires Reachable(s) && n in s.At(x).calls && (a == SendAbort(n) || a.Restart?)
    ensures n !in Run(Do(s, Step(x, a)), steps).At(x).queued
  {
    hide Run, Reachable, Inv;
    ReachableHasInv(s);
    InvHasJournal(s, x);
    assert Spent(Do(s, Step(x, a)).At(x), n);
    RunKeepsSpent(Do(s, Step(x, a)), steps, x, n);
  }

  /** A row that has left the outbox never comes back. */
  ghost predicate Gone(d: Daemon, n: nat) {
    n < d.box.journal.next && n !in d.calls && n !in d.box.journal.rows
  }

  lemma SendKeepsGone(d: Daemon, isFile: bool, body: bytes, m: nat, ts: i64, n: nat)
    requires Gone(d, n)
    ensures Gone(BeginSend(d, isFile, body), n) && Gone(CommitSend(d, m, ts), n)
  {
  }

  lemma ActKeepsGone(d: Daemon, a: Action, n: nat)
    requires Gone(d, n)
    ensures Gone(Act(d, a), n)
  {
    hide ReceivePacket, Handle, NextFlush, BeginFlush, MarkFlush, EndFlush, BeginSend, CommitSend, Advance, Attachments.Drop;
    FlushFrame(d);
    match a
    case Receive(r) => ReceiveFrame(d, r); HandleJournal(d.box, d.cfg, r.packet, r.ackRuns);
    case SendBegin(isFile, body) => SendKeepsGone(d, isFile, body, 0, 0, n);
    case SendCommit(m, ts) => SendKeepsGone(d, false, [], m, ts, n);
    case _ =>
  }

  lemma {:induction false} RunKeepsGone(s: System, steps: seq<Step>, x: Side, n: nat)
    requires Gone(s.At(x), n)
    ensures Gone(Run(s, steps).At(x), n)
  {
    hide Act, Gone;
    if steps != [] {
      var init, last := steps[..|steps| - 1], steps[|steps| - 1];
      RunKeepsGone(s, init, x, n);
      if last.side == x { ActKeepsGone(Run(s, init).At(x), last.action, n); }
    }
  }

  /** The report of an ACK: whether it removed a row. */
  ghost predicate ReportsRemoval(d: Daemon, packet: bytes, n: u64) {
    Handle(d.box, d.cfg, packet, true).1 == Acknowledged(n, true)
  }

  /** In every run: once the removal of a row has been reported, no later ACK, of whatever
      packet, reports it again. */
  lemma AckReportedOnce(s: System, x: Side, first: bytes, n: u64, steps: seq<Step>, again: bytes)
    requires Reachable(s) && ReportsRemoval(s.At(x), first, n) && !s.At(x).blocked && first in s.At(Other(x)).wire
    ensures var s1 := Do(s, Step(x, Receive(Receipt(first, true, true))));
            !ReportsRemoval(Run(s1, steps).At(x), again, n)
  {
    hide Run, Reachable, Inv, Decode;
    var s1 := Do(s, Step(x, Receive(Receipt(first, true, true))));
    ReachableHasInv(s);
    InvHasJournal(s, x);
    ReportMeansRemoved(s.At(x).box, s.At(x).cfg, first, n);
    assert Gone(s1.At(x), n) by { hide Handle; }
    RunKeepsGone(s1, steps, x, n);
    var t := Run(s1, steps).At(x);
    if ReportsRemoval(t, again, n) { ReportMeansRemoved(t.box, t.cfg, again, n); }
  }

  lemma ReportMeansRemoved(b: Box, cfg: Config, packet: bytes, n: u64)
    requires Handle(b, cfg, packet, true).1 == Acknowledged(n, true)
    ensures n in b.journal.rows && Handle(b, cfg, packet, true).0 == b.(journal := Acked(b.journal, n))
  {
    hide Decode, Inbox.AddTo, Attachments.AddTo, Attachments.ParseHeader, Encode;
  }

  /** Blocking takes effect at once and lasts until it is lifted; lifting it is as prompt. */
  lemma BlockingTakesEffect(s: System, x: Side, on: bool, steps: seq<Step>)
    requires forall i :: 0 <= i < |steps| && steps[i].side == x ==> EndToEnd.LeavesBlocking(steps[i].action)
    ensures var s1 := Do(s, Step(x, SetBlocked(on)));
            && s1.At(x) == s.At(x).(blocked := on) && s1.At(Other(x)) == s.At(Other(x))
            && (on ==> EndToEnd.Silent(s1.At(x), Run(s1, steps).At(x)))
  {
    hide Run, EndToEnd.Silent, EndToEnd.LeavesBlocking;
    if on {
      EndToEnd.BlockedSideIsSilent(Do(s, Step(x, SetBlocked(on))), x, steps);
    }
  }
}
