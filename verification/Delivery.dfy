/** Two daemons as a step system over a network that may lose, duplicate and
    reorder packets, with blocking and restarts on either side, and what holds in
    every run of it. */
module Delivery {
  import opened Bytes
  import opened Ranks
  import opened Envelopes
  import opened Outbox
  import opened Nodes
  import opened Mail
  import Inbox
  import Attachments

  // ------------------------------------------------------------------ one side

  /** A SendMsg or SendFile that holds a seq and has not journaled its row yet. */
  datatype Call = Call(typ: byte, payload: bytes)

  /** A running flushPeer: when it started, what is left of its snapshot, and a row
      enqueued but not yet marked. Holding it is holding the CAS guard. */
  datatype Flush = Flush(now: int, todo: seq<Item>, mark: Option<nat>)

  datatype Stamp = Stamp(sn: nat, at: int)

  /** `wire` is every packet ever handed to the network. The last seven fields record
      history and steer nothing: rows ever queued; texts ever accepted; file payloads
      taken, by seq; chunk keys ever stored; the keys of accepting Adds in order (only
      these may run OnDeliver); successful enqueues of this process, and their marks. */
  datatype Daemon = Daemon(
    cfg: Config, clock: int, blocked: bool, box: Box, calls: map<nat, Call>,
    flush: Option<Flush>, wire: set<bytes>,
    queued: map<nat, Row>, accepted: map<int, Inbox.Entry>, filed: map<nat, bytes>,
    stored: set<Attachments.Key>, log: seq<int>, stamps: seq<Stamp>, marked: seq<Stamp>)

  /** One handling of a packet: whether its transaction commits, and whether the
      process lives long enough after that to acknowledge. */
  datatype Receipt = Receipt(packet: bytes, commits: bool, ackRuns: bool)

  datatype Action =
    | SendBegin(isFile: bool, body: bytes)
    | SendCommit(call: nat, ts: i64)
    | SendAbort(call: nat)
    | FlushBegin | FlushNext | FlushMark | FlushEnd
    | Write(pick: Lane)
    | Receive(receipt: Receipt)
    | Consume(tid: string)
    | SetBlocked(on: bool)
    | Tick(ms: nat)
    | Restart(stillBlocked: bool)

  function Start(cfg: Config, clock: int): Daemon {
    Daemon(cfg, clock, false, Box(FRESH, Inbox.Log(map[], {}), map[], EMPTY), map[], None, {},
           map[], map[], map[], {}, [], [], [])
  }

  function BeginSend(d: Daemon, isFile: bool, body: bytes): Daemon {
    var n := d.box.journal.next;
    if d.blocked || n >= TWO_63 then d
    else d.(box := d.box.(journal := d.box.journal.(next := n + 1)),
            calls := d.calls[n := Call(if isFile then TYPE_FILE else TYPE_MSG, body)])
  }

  function CommitSend(d: Daemon, n: nat, ts: i64): Daemon {
    if n !in d.calls then d
    else
      var row := Row(ts, d.calls[n].typ, d.calls[n].payload);
      d.(box := d.box.(journal := d.box.journal.(rows := d.box.journal.rows[n := row])),
         calls := d.calls - {n}, queued := d.queued[n := row])
  }

  function BeginFlush(d: Daemon): Daemon {
    if d.blocked || d.flush.Some? then d
    else d.(flush := Some(Flush(d.clock, PendingItems(d.box.journal), None)))
  }

  function NextFlush(d: Daemon): Daemon {
    if d.flush.None? || d.flush.value.mark.Some? || d.flush.value.todo == [] then d
    else
      var f := d.flush.value;
      var e := f.todo[0];
      var rest := f.(todo := f.todo[1..]);
      if e.sn >= TWO_64 then d
      else match OfferItem(d.box.queues, d.cfg, f.now, e)
        case Err => d.(flush := Some(rest))
        case Ok(q) => d.(box := d.box.(queues := q), flush := Some(rest.(mark := Some(e.sn))),
                         stamps := d.stamps + [Stamp(e.sn, d.clock)])
  }

  function MarkFlush(d: Daemon): Daemon {
    if d.flush.None? || d.flush.value.mark.None? then d
    else
      var j := d.box.journal;
      d.(box := d.box.(journal := j.(sent := j.sent[d.flush.value.mark.value := d.clock])),
         flush := Some(d.flush.value.(mark := None)),
         marked := d.marked + [Stamp(d.flush.value.mark.value, d.clock)])
  }

  function EndFlush(d: Daemon): Daemon {
    if d.flush.Some? && d.flush.value.todo == [] && d.flush.value.mark.None? then d.(flush := None) else d
  }

  function WriteOut(d: Daemon, pick: Lane): Daemon {
    var (q, out) := Advance(d.box.queues, pick);
    d.(box := d.box.(queues := q), wire := d.wire + if out.Some? then {out.value.1} else {})
  }

  /** Puts the new mailbox in place and records what was taken. */
  function Take(d: Daemon, box: Box, effect: Effect): Daemon {
    var d' := d.(box := box);
    match effect
    case Ignored => d'
    case Text(n, entry, isNew) =>
      if isNew then d'.(accepted := d.accepted[ToSigned(n) := entry], log := d.log + [ToSigned(n)]) else d'
    case File(n, key, payload, _) => d'.(filed := d.filed[n := payload], stored := d.stored + {key})
    case Acknowledged(_, _) => d'
  }

  ghost function ReceivePacket(d: Daemon, r: Receipt): Daemon {
    if d.blocked || !r.commits then d
    else
      var (box, effect) := Handle(d.box, d.cfg, r.packet, r.ackRuns);
      Take(d, box, effect)
  }

  function RestartFrom(d: Daemon, stillBlocked: bool): Daemon {
    d.(blocked := stillBlocked, calls := map[], flush := None, stamps := [], marked := [],
       box := d.box.(queues := EMPTY, journal := d.box.journal.(sent := map[])))
  }

  /** One atomic step of one daemon; a step that is not enabled changes nothing. */
  ghost function Act(d: Daemon, a: Action): Daemon {
    match a
    case SendBegin(isFile, body) => BeginSend(d, isFile, body)
    case SendCommit(n, ts) => CommitSend(d, n, ts)
    case SendAbort(n) => d.(calls := d.calls - {n})
    case FlushBegin => BeginFlush(d)
    case FlushNext => NextFlush(d)
    case FlushMark => MarkFlush(d)
    case FlushEnd => EndFlush(d)
    case Write(pick) => WriteOut(d, pick)
    case Receive(r) => ReceivePacket(d, r)
    case Consume(tid) => d.(box := d.box.(attach := Attachments.Drop(d.box.attach, {tid})))
    case SetBlocked(on) => d.(blocked := on)
    case Tick(ms) => d.(clock := d.clock + ms)
    case Restart(still) => RestartFrom(d, still)
  }

  // ------------------------------------------------------------------ two sides

  datatype Side = A | B

  function Other(x: Side): Side { if x == A then B else A }

  datatype System = System(a: Daemon, b: Daemon) {
    function At(x: Side): Daemon { if x == A then a else b }
    function With(x: Side, d: Daemon): System { if x == A then this.(a := d) else this.(b := d) }
  }

  datatype Step = Step(side: Side, action: Action)

  /** A packet can be received when the other side has handed it to the network:
      never (loss), more than once (duplication), in any order. */
  ghost function Do(s: System, step: Step): System {
    if step.action.Receive? && step.action.receipt.packet !in s.At(Other(step.side)).wire then s
    else s.With(step.side, Act(s.At(step.side), step.action))
  }

  ghost function Run(s: System, steps: seq<Step>): System {
    if steps == [] then s else Do(Run(s, steps[..|steps| - 1]), steps[|steps| - 1])
  }

  ghost predicate IsStart(s: System) {
    exists ca: Config, cb: Config, ta: int, tb: int ::
      ca.capacity >= 1 && cb.capacity >= 1 && ta > 0 && tb > 0 && s == System(Start(ca, ta), Start(cb, tb))
  }

  ghost predicate Reachable(s: System) {
    exists s0, steps :: IsStart(s0) && s == Run(s0, steps)
  }

  // ------------------------------------------------------------ local invariant

  ghost predicate JournalOk(d: Daemon) {
    var j := d.box.journal;
    && 1 <= j.next <= TWO_63
    && (forall n :: n in d.queued ==> 1 <= n < j.next && d.queued[n].typ in {TYPE_MSG, TYPE_FILE})
    && (forall n :: n in d.calls ==> 1 <= n < j.next && n !in d.queued && d.calls[n].typ in {TYPE_MSG, TYPE_FILE})
    && (forall n :: n in j.rows ==> n in d.queued && d.queued[n] == j.rows[n])
    && (d.flush.Some? ==>
          forall e :: e in d.flush.value.todo ==> e.sn in d.queued && d.queued[e.sn] == e.row)
  }

  ghost predicate Vouched(d: Daemon, n: nat) {
    (n < TWO_64 && ToSigned(n) in d.accepted) || n in d.filed
  }

  /** What a packet this daemon ever built says is true of it. */
  ghost predicate Honest(d: Daemon, p: bytes) {
    match Decode(p)
    case Err => true
    case Ok(e) =>
      && (e.typ in {TYPE_MSG, TYPE_FILE} ==> e.sn in d.queued && d.queued[e.sn] == Row(e.ts, e.typ, e.payload))
      && (e.typ == TYPE_ACK ==> Vouched(d, e.sn))
  }

  ghost predicate PacketsOk(d: Daemon) {
    && (forall p :: p in d.box.queues.control ==> Honest(d, p))
    && (forall p :: p in d.box.queues.bulk ==> Honest(d, p))
    && (forall p :: p in d.wire ==> Honest(d, p))
  }

  function KeyOf(payload: bytes): Attachments.Key
    requires Attachments.ParseHeader(payload).Some?
  {
    var h := Attachments.ParseHeader(payload).value;
    Attachments.Key(h.tid, h.index)
  }

  ghost predicate FilesOk(d: Daemon) {
    && (forall k :: k in d.box.attach ==> k in d.stored)
    && (forall n :: n in d.filed ==>
          Attachments.ParseHeader(d.filed[n]).Some? && KeyOf(d.filed[n]) in d.stored)
  }

  function Accepted(log: seq<int>): set<int> {
    set i | 0 <= i < |log| :: log[i]
  }

  /** A seq is accepted again only when `5 * capacity` larger ones were accepted before. */
  ghost predicate AtMostOnceWithin(log: seq<int>, capacity: nat) {
    forall j :: 0 <= j < |log| && log[j] in Accepted(log[..j]) ==>
      Rank(Accepted(log[..j]), log[j]) >= 5 * capacity
  }

  ghost predicate InboxOk(d: Daemon) {
    && Inbox.Reflects(d.box.inbox, d.accepted.Keys, d.cfg.capacity)
    && Accepted(d.log) == d.accepted.Keys
    && AtMostOnceWithin(d.log, d.cfg.capacity)
  }

  ghost predicate LocalOk(d: Daemon) {
    JournalOk(d) && PacketsOk(d) && FilesOk(d) && InboxOk(d)
  }

  // ------------------------------------------------------- linking the two sides

  /** Whatever `y` took from `x` is what `x` queued under that seq. */
  ghost predicate TookWhatWasQueued(x: Daemon, y: Daemon) {
    && (forall n :: n in y.accepted ==>
          n in x.queued && x.queued[n] == Row(y.accepted[n].ts, TYPE_MSG, y.accepted[n].payload))
    && (forall n :: n in y.filed ==>
          n in x.queued && x.queued[n].typ == TYPE_FILE && x.queued[n].payload == y.filed[n])
  }

  ghost predicate LeftOnlyWhenTaken(x: Daemon, y: Daemon) {
    forall n :: n in x.queued && n !in x.box.journal.rows ==> Vouched(y, n)
  }

  ghost predicate Linked(x: Daemon, y: Daemon) {
    TookWhatWasQueued(x, y) && LeftOnlyWhenTaken(x, y)
  }

  ghost predicate Inv(s: System) {
    LocalOk(s.a) && LocalOk(s.b) && Linked(s.a, s.b) && Linked(s.b, s.a)
  }

  // ------------------------------------------------------- one step keeps it all

  /** History only grows, and what was queued under a seq never changes. */
  ghost predicate Grows(d: Daemon, d': Daemon) {
    && (forall n :: n in d.queued ==> n in d'.queued && d'.queued[n] == d.queued[n])
    && d.accepted.Keys <= d'.accepted.Keys
    && d.filed.Keys <= d'.filed.Keys
    && d'.cfg == d.cfg
  }

  /** A receipt goes through Handle and records what it took, nothing else. */
  lemma ReceiveFrame(d: Daemon, r: Receipt)
    ensures var d' := ReceivePacket(d, r);
            && d' == d.(box := d'.box, accepted := d'.accepted, filed := d'.filed, stored := d'.stored, log := d'.log)
            && (d'.box == d.box || d'.box == Handle(d.box, d.cfg, r.packet, r.ackRuns).0)
  {
    hide Handle;
  }

  lemma ReceiveGrows(d: Daemon, r: Receipt)
    ensures Grows(d, ReceivePacket(d, r))
  {
    hide Handle;
  }

  lemma ActGrows(d: Daemon, a: Action)
    requires JournalOk(d)
    ensures Grows(d, Act(d, a))
  {
    if a.Receive? {
      ReceiveGrows(d, a.receipt);
      hide ReceivePacket;
    } else {
      hide ReceivePacket, BeginFlush, NextFlush, MarkFlush, EndFlush, BeginSend, CommitSend, Advance, Attachments.Drop;
      FlushRecordsNothing(d);
      match a
      case SendBegin(isFile, body) => SendRecords(d, isFile, body, 0, 0);
      case SendCommit(n, ts) => SendRecords(d, false, [], n, ts);
      case _ =>
    }
  }

  lemma SendRecords(d: Daemon, isFile: bool, body: bytes, n: nat, ts: i64)
    requires JournalOk(d)
    ensures Grows(d, BeginSend(d, isFile, body)) && Grows(d, CommitSend(d, n, ts))
  {
  }

  /** A flush touches the queues, the pacing stamps and its own progress, nothing else. */
  ghost predicate OnlyFlushed(d: Daemon, d': Daemon) {
    d' == d.(box := d.box.(queues := d'.box.queues, journal := d.box.journal.(sent := d'.box.journal.sent)),
             flush := d'.flush, stamps := d'.stamps, marked := d'.marked)
  }

  lemma NextFlushFrame(d: Daemon)
    ensures OnlyFlushed(d, NextFlush(d))
  {
    hide OfferItem;
  }

  lemma FlushFrame(d: Daemon)
    ensures OnlyFlushed(d, BeginFlush(d)) && OnlyFlushed(d, NextFlush(d))
    ensures OnlyFlushed(d, MarkFlush(d)) && OnlyFlushed(d, EndFlush(d))
  {
    hide PendingItems, NextFlush;
    NextFlushFrame(d);
  }

  lemma FlushRecordsNothing(d: Daemon)
    ensures Grows(d, BeginFlush(d)) && Grows(d, NextFlush(d)) && Grows(d, MarkFlush(d)) && Grows(d, EndFlush(d))
  {
    hide BeginFlush, NextFlush, MarkFlush, EndFlush;
    FlushFrame(d);
  }

  lemma BeginFlushKeepsJournal(d: Daemon)
    requires JournalOk(d)
    ensures JournalOk(BeginFlush(d))
  {
    hide PendingItems, SentAt;
    forall e | e in PendingItems(d.box.journal)
      ensures e.sn in d.box.journal.rows && d.box.journal.rows[e.sn] == e.row
    {
      PendingMember(d.box.journal, e);
    }
  }

  lemma NextFlushKeepsJournal(d: Daemon)
    requires JournalOk(d)
    ensures JournalOk(NextFlush(d))
  {
    NextFlushFrame(d);
    TodoShrinks(d);
    hide NextFlush;
  }

  lemma TodoShrinks(d: Daemon)
    ensures var d' := NextFlush(d);
            d'.flush.Some? ==> d.flush.Some? && forall e :: e in d'.flush.value.todo ==> e in d.flush.value.todo
  {
    hide OfferItem;
    if d.flush.Some? && d.flush.value.todo != [] {
      assert forall e :: e in d.flush.value.todo[1..] ==> e in d.flush.value.todo;
    }
  }

  lemma SendKeepsJournal(d: Daemon, a: Action)
    requires JournalOk(d)
    requires a.SendBegin? || a.SendCommit? || a.SendAbort?
    ensures JournalOk(Act(d, a))
  {
    hide ReceivePacket, WriteOut, NextFlush, BeginFlush, MarkFlush, EndFlush, RestartFrom, Attachments.Drop;
  }

  lemma HandleJournal(b: Box, cfg: Config, packet: bytes, ackRuns: bool)
    ensures var j := Handle(b, cfg, packet, ackRuns).0.journal;
            && j.next == b.journal.next
            && (forall n :: n in j.rows ==> n in b.journal.rows && j.rows[n] == b.journal.rows[n])
            && (forall n :: n in b.journal.rows && n !in j.rows ==>
                  Decode(packet).Ok? && Decode(packet).value.typ == TYPE_ACK && Decode(packet).value.sn == n)
  {
  }

  lemma ShrinkingKeepsJournal(d: Daemon, d': Daemon)
    requires JournalOk(d)
    requires d'.queued == d.queued && d'.calls == d.calls && d'.flush == d.flush
    requires d'.box.journal.next == d.box.journal.next
    requires forall n :: n in d'.box.journal.rows ==>
               n in d.box.journal.rows && d'.box.journal.rows[n] == d.box.journal.rows[n]
    ensures JournalOk(d')
  {
  }

  lemma ReceiveKeepsJournal(d: Daemon, r: Receipt)
    requires JournalOk(d)
    ensures JournalOk(ReceivePacket(d, r))
  {
    hide Handle, JournalOk, ReceivePacket;
    ReceiveFrame(d, r);
    HandleJournal(d.box, d.cfg, r.packet, r.ackRuns);
    ShrinkingKeepsJournal(d, ReceivePacket(d, r));
  }

  lemma OthersKeepJournal(d: Daemon, a: Action)
    requires JournalOk(d)
    requires a.FlushMark? || a.FlushEnd? || a.Write? || a.Consume? || a.SetBlocked? || a.Tick? || a.Restart?
    ensures JournalOk(Act(d, a))
  {
    hide ReceivePacket, Advance, NextFlush, BeginFlush, CommitSend, BeginSend, Attachments.Drop;
    if !a.Restart? && !a.FlushMark? && !a.FlushEnd? { ShrinkingKeepsJournal(d, Act(d, a)); }
  }

  lemma ActKeepsJournal(d: Daemon, a: Action)
    requires JournalOk(d)
    ensures JournalOk(Act(d, a))
  {
    if a.SendBegin? || a.SendCommit? || a.SendAbort? {
      SendKeepsJournal(d, a);
    } else if a.FlushBegin? {
      BeginFlushKeepsJournal(d);
    } else if a.FlushNext? {
      NextFlushKeepsJournal(d);
    } else if a.Receive? {
      ReceiveKeepsJournal(d, a.receipt);
    } else {
      OthersKeepJournal(d, a);
    }
  }

  lemma HonestGrows(d: Daemon, d': Daemon, p: bytes)
    requires Grows(d, d') && Honest(d, p)
    ensures Honest(d', p)
  {
    hide Decode;
  }

  /** Packets stay honest when the queues and the wire gain at most one honest packet. */
  lemma GrowingKeepsPackets(d: Daemon, d': Daemon, extra: bytes)
    requires PacketsOk(d) && Grows(d, d') && Honest(d', extra)
    requires forall p :: p in d'.box.queues.control ==> p in d.box.queues.control || p == extra
    requires forall p :: p in d'.box.queues.bulk ==> p in d.box.queues.bulk || p == extra
    requires forall p :: p in d'.wire ==>
               p in d.wire || p in d.box.queues.control || p in d.box.queues.bulk
    ensures PacketsOk(d')
  {
    hide Honest, Grows;
    forall p | p in d.box.queues.control || p in d.box.queues.bulk || p in d.wire
      ensures Honest(d', p)
    {
      HonestGrows(d, d', p);
    }
  }

  lemma HonestNothing(d: Daemon)
    ensures Honest(d, [])
  {
  }

  lemma HonestAck(d: Daemon, n: u64)
    requires Vouched(d, n)
    ensures Encode(Ack(n)).Ok? && Honest(d, Encode(Ack(n)).value)
  {
    hide Decode, Header;
    DecodeEncode(Ack(n), []);
    assert Encode(Ack(n)).value + [] == Encode(Ack(n)).value;
  }

  lemma HonestRow(d: Daemon, e: Item)
    requires e.sn < TWO_64 && Encode(EnvelopeOf(e)).Ok?
    requires e.sn in d.queued && d.queued[e.sn] == e.row && e.row.typ in {TYPE_MSG, TYPE_FILE}
    ensures Honest(d, Encode(EnvelopeOf(e)).value)
  {
    hide Decode, Header;
    DecodeEncode(EnvelopeOf(e), []);
    assert Encode(EnvelopeOf(e)).value + [] == Encode(EnvelopeOf(e)).value;
  }

  /** Handling a packet enqueues at most the ACK of what it reports taken. */
  lemma HandleQueues(b: Box, cfg: Config, packet: bytes, ackRuns: bool)
    ensures var (b', effect) := Handle(b, cfg, packet, ackRuns);
            && b'.queues.bulk == b.queues.bulk && b'.queues.at == b.queues.at
            && (b'.queues.control == b.queues.control ||
                ((effect.Text? || effect.File?)
                 && b'.queues.control == b.queues.control + [Encode(Ack(effect.sn)).value]))
  {
    hide Decode, Inbox.AddTo, Attachments.AddTo, Attachments.ParseHeader, Header;
  }

  /** A text reported old is one the log already holds; a fresh one is recorded. */
  lemma HandleInbox(b: Box, cfg: Config, packet: bytes, ackRuns: bool, accepted: set<int>)
    requires Inbox.Reflects(b.inbox, accepted, cfg.capacity)
    ensures var (b', effect) := Handle(b, cfg, packet, ackRuns);
            && Inbox.Reflects(b'.inbox, if effect.Text? then accepted + {ToSigned(effect.sn)} else accepted, cfg.capacity)
            && (effect.Text? ==>
                  (effect.isNew <==>
                   ToSigned(effect.sn) !in accepted || Rank(accepted, ToSigned(effect.sn)) >= 5 * cfg.capacity))
  {
    hide Attachments.AddTo, Attachments.ParseHeader, Header, Inbox.AddTo, Inbox.Reflects;
    match Decode(packet)
    case Err =>
    case Ok(e) =>
      if e.typ == TYPE_MSG {
        Inbox.AddReflects(b.inbox, cfg.capacity, ToSigned(e.sn), Inbox.Entry(e.ts, e.payload), accepted);
        Inbox.NewExactlyWhen(b.inbox, cfg.capacity, ToSigned(e.sn), Inbox.Entry(e.ts, e.payload), accepted);
      }
  }

  ghost predicate Reports(effect: Effect, e: Envelope)
    requires !effect.Ignored?
  {
    && e.sn == effect.sn
    && (effect.Text? ==> e.typ == TYPE_MSG && effect.entry == Inbox.Entry(e.ts, e.payload))
    && (effect.File? ==> (e.typ == TYPE_FILE && effect.payload == e.payload
                          && Attachments.ParseHeader(e.payload).Some? && effect.key == KeyOf(e.payload)))
    && (effect.Acknowledged? ==> e.typ == TYPE_ACK)
  }

  /** What a taken packet reports is what it carried. */
  lemma HandleEffect(b: Box, cfg: Config, packet: bytes, ackRuns: bool)
    ensures var effect := Handle(b, cfg, packet, ackRuns).1;
            !effect.Ignored? ==> (Decode(packet).Ok? && Reports(effect, Decode(packet).value))
  {
    hide Decode, Inbox.AddTo, Attachments.AddTo, Header, Attachments.ParseHeader;
  }

  lemma HandleAttach(b: Box, cfg: Config, packet: bytes, ackRuns: bool)
    ensures var (b', effect) := Handle(b, cfg, packet, ackRuns);
            forall k :: k in b'.attach ==> k in b.attach || (effect.File? && effect.key == k)
  {
    hide Decode, Inbox.AddTo, Header, Attachments.ParseHeader, Attachments.Policy;
  }

  /** A receipt that changes the queues has vouched for what it acknowledges. */
  lemma ReceiveVouches(d: Daemon, r: Receipt)
    requires InboxOk(d)
    ensures var d', effect := ReceivePacket(d, r), Handle(d.box, d.cfg, r.packet, r.ackRuns).1;
            d'.box.queues != d.box.queues ==> (effect.Text? || effect.File?) && Vouched(d', effect.sn)
  {
    hide Handle, Inbox.Reflects, AtMostOnceWithin, Rank, Accepted;
    HandleQueues(d.box, d.cfg, r.packet, r.ackRuns);
    HandleInbox(d.box, d.cfg, r.packet, r.ackRuns, d.accepted.Keys);
  }

  lemma ReceiveKeepsPackets(d: Daemon, r: Receipt)
    requires LocalOk(d)
    ensures PacketsOk(ReceivePacket(d, r))
  {
    hide Handle, Honest, Encode, InboxOk, JournalOk, FilesOk, Grows, PacketsOk, ReceivePacket, Vouched;
    var d' := ReceivePacket(d, r);
    ReceiveGrows(d, r);
    ReceiveFrame(d, r);
    ReceiveVouches(d, r);
    HandleQueues(d.box, d.cfg, r.packet, r.ackRuns);
    var effect := Handle(d.box, d.cfg, r.packet, r.ackRuns).1;
    if d'.box.queues == d.box.queues {
      HonestNothing(d');
      GrowingKeepsPackets(d, d', []);
    } else {
      HonestAck(d', effect.sn);
      GrowingKeepsPackets(d, d', Encode(Ack(effect.sn)).value);
    }
  }

  /** `q'` is `q` with `data` appended to one of its lanes. */
  ghost predicate Gained(q: Queues, q': Queues, data: bytes) {
    q' == q.(control := q.control + [data]) || q' == q.(bulk := q.bulk + [data])
  }

  lemma OfferGains(q: Queues, cfg: Config, now: int, e: Item)
    requires e.sn < TWO_64 && OfferItem(q, cfg, now, e).Ok?
    ensures Encode(EnvelopeOf(e)).Ok? && Gained(q, OfferItem(q, cfg, now, e).value, Encode(EnvelopeOf(e)).value)
  {
    hide Header, InWindow;
  }

  /** What one turn of a flush adds to the queues. */
  lemma NextFlushQueues(d: Daemon)
    ensures var q, d' := d.box.queues, NextFlush(d);
            && d'.wire == d.wire && d'.queued == d.queued
            && (d'.box.queues == q ||
                (d.flush.Some? && d.flush.value.todo != [] && d.flush.value.todo[0].sn < TWO_64
                 && Encode(EnvelopeOf(d.flush.value.todo[0])).Ok?
                 && Gained(q, d'.box.queues, Encode(EnvelopeOf(d.flush.value.todo[0])).value)))
  {
    hide OfferItem, Encode, Gained;
    if d.flush.Some? && d.flush.value.todo != [] && d.flush.value.todo[0].sn < TWO_64 {
      var f := d.flush.value;
      if OfferItem(d.box.queues, d.cfg, f.now, f.todo[0]).Ok? {
        OfferGains(d.box.queues, d.cfg, f.now, f.todo[0]);
      }
    }
  }

  lemma FlushKeepsPackets(d: Daemon)
    requires JournalOk(d) && PacketsOk(d)
    ensures PacketsOk(NextFlush(d))
  {
    var d' := NextFlush(d);
    NextFlushQueues(d);
    FlushRecordsNothing(d);
    hide Honest, Encode, NextFlush, Grows, PacketsOk;
    HonestNothing(d');
    if d'.box.queues == d.box.queues {
      GrowingKeepsPackets(d, d', []);
    } else {
      var e := d.flush.value.todo[0];
      HonestRow(d', e);
      GrowingKeepsPackets(d, d', Encode(EnvelopeOf(e)).value);
    }
  }

  /** Apart from flushing and receiving, packets only move from the queues to the wire. */
  lemma QueuesOnlyDrain(d: Daemon, a: Action)
    requires !a.Receive? && !a.FlushNext?
    ensures var d' := Act(d, a);
            && (forall p :: p in d'.box.queues.control ==> p in d.box.queues.control)
            && (forall p :: p in d'.box.queues.bulk ==> p in d.box.queues.bulk)
            && (forall p :: p in d'.wire ==> p in d.wire || p in d.box.queues.control || p in d.box.queues.bulk)
  {
    hide ReceivePacket, NextFlush, PendingItems, Attachments.Drop;
  }

  lemma ActKeepsPackets(d: Daemon, a: Action)
    requires LocalOk(d)
    ensures PacketsOk(Act(d, a))
  {
    if a.Receive? {
      ReceiveKeepsPackets(d, a.receipt);
    } else if a.FlushNext? {
      FlushKeepsPackets(d);
    } else {
      ActGrows(d, a);
      QueuesOnlyDrain(d, a);
      hide Honest, InboxOk, FilesOk, Act, Grows, PacketsOk, JournalOk;
      HonestNothing(Act(d, a));
      GrowingKeepsPackets(d, Act(d, a), []);
    }
  }

  lemma DropShrinks(t: Attachments.Table, gone: set<string>)
    ensures Attachments.Drop(t, gone).Keys <= t.Keys
  {
  }

  /** `d'` has taken what `d` has taken. */
  ghost predicate TakenAlike(d: Daemon, d': Daemon) {
    && d'.accepted == d.accepted && d'.filed == d.filed && d'.stored == d.stored && d'.log == d.log
    && d'.box.inbox == d.box.inbox && d'.cfg == d.cfg && d'.box.attach.Keys <= d.box.attach.Keys
  }

  lemma FlushTakesNothing(d: Daemon)
    ensures TakenAlike(d, BeginFlush(d)) && TakenAlike(d, NextFlush(d))
    ensures TakenAlike(d, MarkFlush(d)) && TakenAlike(d, EndFlush(d))
  {
    hide BeginFlush, NextFlush, MarkFlush, EndFlush;
    FlushFrame(d);
  }

  lemma SendTakesNothing(d: Daemon, isFile: bool, body: bytes, n: nat, ts: i64)
    ensures TakenAlike(d, BeginSend(d, isFile, body)) && TakenAlike(d, CommitSend(d, n, ts))
  {
  }

  /** Only a received packet changes what this side has taken. */
  lemma OnlyReceivingTakes(d: Daemon, a: Action)
    requires !a.Receive?
    ensures TakenAlike(d, Act(d, a))
  {
    hide ReceivePacket, BeginFlush, NextFlush, MarkFlush, EndFlush, BeginSend, CommitSend, Advance, Attachments.Drop;
    FlushTakesNothing(d);
    match a
    case SendBegin(isFile, body) => SendTakesNothing(d, isFile, body, 0, 0);
    case SendCommit(n, ts) => SendTakesNothing(d, false, [], n, ts);
    case Consume(tid) => DropShrinks(d.box.attach, {tid});
    case _ =>
  }

  /** Only a received packet removes rows from the outbox. */
  lemma OnlyReceivingRemoves(d: Daemon, a: Action)
    requires !a.Receive?
    ensures var d' := Act(d, a);
            && (forall n :: n in d.box.journal.rows ==> n in d'.box.journal.rows)
            && (forall n :: n in d'.queued && n !in d.queued ==> n in d'.box.journal.rows)
  {
    hide ReceivePacket, PendingItems, OfferItem, Advance;
  }

  lemma ReceiveFiles(d: Daemon, r: Receipt)
    ensures var d', (box, effect) := ReceivePacket(d, r), Handle(d.box, d.cfg, r.packet, r.ackRuns);
            if !d.blocked && r.commits && effect.File? then
              d'.box == box && d'.filed == d.filed[effect.sn := effect.payload] && d'.stored == d.stored + {effect.key}
            else
              d'.filed == d.filed && d'.stored == d.stored && (d'.box == d.box || (d'.box == box && !effect.File?))
  {
    hide Handle;
  }

  lemma ReceiveKeepsFiles(d: Daemon, r: Receipt)
    requires FilesOk(d)
    ensures FilesOk(ReceivePacket(d, r))
  {
    hide Handle, Attachments.ParseHeader, Decode, KeyOf, ReceivePacket;
    ReceiveFiles(d, r);
    HandleAttach(d.box, d.cfg, r.packet, r.ackRuns);
    HandleEffect(d.box, d.cfg, r.packet, r.ackRuns);
  }

  lemma ActKeepsFiles(d: Daemon, a: Action)
    requires FilesOk(d)
    ensures FilesOk(Act(d, a))
  {
    if a.Receive? {
      ReceiveKeepsFiles(d, a.receipt);
      hide ReceivePacket, FilesOk;
    } else {
      hide Act, Attachments.ParseHeader;
      OnlyReceivingTakes(d, a);
    }
  }

  lemma LogKeepsWindow(log: seq<int>, x: int, capacity: nat)
    requires AtMostOnceWithin(log, capacity)
    requires x !in Accepted(log) || Rank(Accepted(log), x) >= 5 * capacity
    ensures Accepted(log + [x]) == Accepted(log) + {x}
    ensures AtMostOnceWithin(log + [x], capacity)
  {
    var longer := log + [x];
    assert forall i :: 0 <= i < |log| ==> longer[i] == log[i];
    forall n ensures n in Accepted(longer) <==> n in Accepted(log) + {x} {
      if n in Accepted(log) { var i :| 0 <= i < |log| && log[i] == n; assert longer[i] == n; }
      assert longer[|log|] == x;
    }
    forall j | 0 <= j < |longer| && longer[j] in Accepted(longer[..j])
      ensures Rank(Accepted(longer[..j]), longer[j]) >= 5 * capacity
    {
      assert longer[..j] == log[..j];
      if j == |log| { assert log[..j] == log; }
    }
  }

  lemma ReceiveKeepsInbox(d: Daemon, r: Receipt)
    requires InboxOk(d)
    ensures InboxOk(ReceivePacket(d, r))
  {
    hide Handle, Inbox.Reflects, AtMostOnceWithin, Rank, Accepted;
    HandleInbox(d.box, d.cfg, r.packet, r.ackRuns, d.accepted.Keys);
    var effect := Handle(d.box, d.cfg, r.packet, r.ackRuns).1;
    if !d.blocked && r.commits && effect.Text? {
      if effect.isNew {
        LogKeepsWindow(d.log, ToSigned(effect.sn), d.cfg.capacity);
        assert ReceivePacket(d, r).accepted.Keys == d.accepted.Keys + {ToSigned(effect.sn)};
      } else {
        assert d.accepted.Keys + {ToSigned(effect.sn)} == d.accepted.Keys;
      }
    }
  }

  lemma ActKeepsInbox(d: Daemon, a: Action)
    requires InboxOk(d)
    ensures InboxOk(Act(d, a))
  {
    if a.Receive? {
      ReceiveKeepsInbox(d, a.receipt);
    } else {
      hide Act, Inbox.Reflects, AtMostOnceWithin;
      OnlyReceivingTakes(d, a);
    }
  }

  lemma ActKeepsLocal(d: Daemon, a: Action)
    requires LocalOk(d)
    ensures LocalOk(Act(d, a))
  {
    hide Act, JournalOk, PacketsOk, FilesOk, InboxOk;
    ActKeepsJournal(d, a);
    ActKeepsPackets(d, a);
    ActKeepsFiles(d, a);
    ActKeepsInbox(d, a);
  }

  // ------------------------------------------------------------ the whole system

  /** What a receipt adds to the history is what its packet carried. */
  lemma ReceiveRecords(d: Daemon, r: Receipt)
    ensures var d' := ReceivePacket(d, r);
            && (forall n :: n in d'.accepted && !(n in d.accepted && d'.accepted[n] == d.accepted[n]) ==>
                  Decode(r.packet).Ok? && var e := Decode(r.packet).value;
                  e.typ == TYPE_MSG && n == ToSigned(e.sn) && d'.accepted[n] == Inbox.Entry(e.ts, e.payload))
            && (forall n :: n in d'.filed && !(n in d.filed && d'.filed[n] == d.filed[n]) ==>
                  Decode(r.packet).Ok? && var e := Decode(r.packet).value;
                  e.typ == TYPE_FILE && n == e.sn && d'.filed[n] == e.payload)
  {
    hide Handle, Decode, Attachments.ParseHeader;
    HandleEffect(d.box, d.cfg, r.packet, r.ackRuns);
  }

  lemma ReceiveTakesWhatWasQueued(me: Daemon, peer: Daemon, r: Receipt)
    requires TookWhatWasQueued(peer, me)
    requires JournalOk(peer) && Honest(peer, r.packet)
    ensures TookWhatWasQueued(peer, ReceivePacket(me, r))
  {
    hide ReceivePacket, Decode, PacketsOk;
    ReceiveRecords(me, r);
  }

  lemma ReceiveRemovesOnlyTaken(me: Daemon, peer: Daemon, r: Receipt)
    requires LeftOnlyWhenTaken(me, peer)
    requires Honest(peer, r.packet)
    ensures LeftOnlyWhenTaken(ReceivePacket(me, r), peer)
  {
    hide Handle, Decode, ReceivePacket;
    ReceiveFrame(me, r);
    HandleJournal(me.box, me.cfg, r.packet, r.ackRuns);
  }

  lemma QuietKeepsLinks(me: Daemon, me': Daemon, peer: Daemon)
    requires Linked(me, peer) && Linked(peer, me)
    requires Grows(me, me') && TakenAlike(me, me')
    requires forall n :: n in me.box.journal.rows ==> n in me'.box.journal.rows
    requires forall n :: n in me'.queued && n !in me.queued ==> n in me'.box.journal.rows
    ensures Linked(me', peer) && Linked(peer, me')
  {
  }

  /** The actor's step keeps both links, given that what it receives is honest. */
  lemma ActKeepsLinks(me: Daemon, peer: Daemon, a: Action)
    requires LocalOk(me) && JournalOk(peer) && Linked(me, peer) && Linked(peer, me)
    requires a.Receive? ==> Honest(peer, a.receipt.packet)
    ensures Linked(Act(me, a), peer) && Linked(peer, Act(me, a))
  {
    if a.Receive? {
      ActGrows(me, a);
      ReceiveTakesWhatWasQueued(me, peer, a.receipt);
      ReceiveRemovesOnlyTaken(me, peer, a.receipt);
      hide ReceivePacket, Honest, PacketsOk, InboxOk, FilesOk, JournalOk;
    } else {
      ActGrows(me, a);
      OnlyReceivingTakes(me, a);
      OnlyReceivingRemoves(me, a);
      hide Act;
      QuietKeepsLinks(me, Act(me, a), peer);
    }
  }

  lemma LocalHasJournal(d: Daemon)
    requires LocalOk(d)
    ensures JournalOk(d)
  {
  }

  lemma DoKeepsInv(s: System, step: Step)
    requires Inv(s)
    ensures Inv(Do(s, step))
  {
    hide Act, LocalOk, Linked, Honest, JournalOk;
    var me, peer := s.At(step.side), s.At(Other(step.side));
    if step.action.Receive? && step.action.receipt.packet !in peer.wire {
    } else {
      assert step.action.Receive? ==> Honest(peer, step.action.receipt.packet) by { WireIsHonest(peer, step.action); }
      ActKeepsLocal(me, step.action);
      assert JournalOk(peer) by { LocalHasJournal(peer); }
      ActKeepsLinks(me, peer, step.action);
    }
  }

  lemma WireIsHonest(d: Daemon, a: Action)
    requires LocalOk(d) && (a.Receive? ==> a.receipt.packet in d.wire)
    ensures a.Receive? ==> Honest(d, a.receipt.packet)
  {
    hide Honest, JournalOk, FilesOk, InboxOk;
  }

  lemma StartHasInv(s: System)
    requires IsStart(s)
    ensures Inv(s)
  {
  }

  lemma {:induction false} RunKeepsInv(s: System, steps: seq<Step>)
    requires Inv(s)
    ensures Inv(Run(s, steps))
  {
    hide Inv, Do;
    if steps != [] {
      RunKeepsInv(s, steps[..|steps| - 1]);
      DoKeepsInv(Run(s, steps[..|steps| - 1]), steps[|steps| - 1]);
    }
  }

  lemma ReachableHasInv(s: System)
    requires Reachable(s)
    ensures Inv(s)
  {
    hide Inv, Do, IsStart;
    var s0, steps :| IsStart(s0) && s == Run(s0, steps);
    StartHasInv(s0);
    RunKeepsInv(s0, steps);
  }

  /** In every run: a text row that left the outbox was accepted by the peer with
      exactly the payload and timestamp queued under its seq; a file row that left it
      was stored by the peer under the transfer and index its own header names. */
  lemma LeavesOnlyAfterDelivery(s: System, x: Side, n: nat)
    requires Reachable(s)
    requires n in s.At(x).queued && n !in s.At(x).box.journal.rows
    ensures var row, peer := s.At(x).queued[n], s.At(Other(x));
            if row.typ == TYPE_MSG then
              n in peer.accepted && peer.accepted[n] == Inbox.Entry(row.ts, row.payload)
            else
              row.typ == TYPE_FILE && Attachments.ParseHeader(row.payload).Some?
              && KeyOf(row.payload) in peer.stored
  {
    ReachableHasInv(s);
    hide PacketsOk, InboxOk, Attachments.ParseHeader, Run, Reachable, KeyOf, LocalOk, Linked;
    var me, peer := s.At(x), s.At(Other(x));
    assert Linked(me, peer) && LocalOk(me) && LocalOk(peer);
    LeftWasTaken(me, peer, n);
  }

  lemma LeftWasTaken(me: Daemon, peer: Daemon, n: nat)
    requires LocalOk(me) && LocalOk(peer) && Linked(me, peer)
    requires n in me.queued && n !in me.box.journal.rows
    ensures var row := me.queued[n];
            if row.typ == TYPE_MSG then
              n in peer.accepted && peer.accepted[n] == Inbox.Entry(row.ts, row.payload)
            else
              row.typ == TYPE_FILE && Attachments.ParseHeader(row.payload).Some?
              && KeyOf(row.payload) in peer.stored
  {
    hide PacketsOk, InboxOk, Attachments.ParseHeader, KeyOf;
  }

  /** In every run: a seq is taken for new, which is what runs OnDeliver, again only after at least
      `5 * capacity` distinct larger seqs were accepted from that peer. */
  lemma DeliveredOncePerWindow(s: System, x: Side, i: nat, j: nat)
    requires Reachable(s)
    requires i < j < |s.At(x).log| && s.At(x).log[i] == s.At(x).log[j]
    ensures Rank(Accepted(s.At(x).log[..j]), s.At(x).log[j]) >= 5 * s.At(x).cfg.capacity
  {
    ReachableHasInv(s);
    hide PacketsOk, JournalOk, FilesOk, Linked;
    var log := s.At(x).log;
    assert LocalOk(s.At(x));
    assert log[..j][i] == log[j];
  }

  // ------------------------------------------------------------ the landing buffer

  /** Every buffered chunk came through the header parser, and the byte budget holds. */
  ghost predicate BufferOk(d: Daemon) {
    Attachments.WellFormed(d.box.attach) && Attachments.WithinBudget(d.box.attach, d.cfg.budget)
  }

  lemma HandleBuffer(b: Box, cfg: Config, packet: bytes, ackRuns: bool)
    requires Attachments.WellFormed(b.attach) && Attachments.WithinBudget(b.attach, cfg.budget)
    ensures var t := Handle(b, cfg, packet, ackRuns).0.attach;
            Attachments.WellFormed(t) && Attachments.WithinBudget(t, cfg.budget)
  {
    hide Decode, Inbox.AddTo, Header, Attachments.ParseHeader, Attachments.Policy, Attachments.WithinBudget, Attachments.Used;
    match Decode(packet)
    case Err =>
    case Ok(e) =>
      match Attachments.ParseHeader(e.payload)
      case None =>
      case Some(h) =>
        var key, c := Attachments.Key(h.tid, h.index), Attachments.Chunk(h.total, e.sn, e.ts, e.payload);
        if Attachments.AddTo(b.attach, cfg.budget, key, c).Stored? {
          Attachments.AddKeepsBudget(b.attach, cfg.budget, key, c);
        }
  }

  lemma ReceiveKeepsBuffer(d: Daemon, r: Receipt)
    requires BufferOk(d)
    ensures BufferOk(ReceivePacket(d, r))
  {
    hide Handle, Attachments.WellFormed, Attachments.WithinBudget;
    HandleBuffer(d.box, d.cfg, r.packet, r.ackRuns);
  }

  lemma OnlyReceivingBuffers(d: Daemon, a: Action)
    requires !a.Receive? && !a.Consume?
    ensures Act(d, a).box.attach == d.box.attach && Act(d, a).cfg == d.cfg
  {
    hide ReceivePacket, BeginFlush, NextFlush, MarkFlush, EndFlush, Advance, Attachments.Drop;
    FlushFrame(d);
  }

  lemma ActKeepsBuffer(d: Daemon, a: Action)
    requires BufferOk(d)
    ensures BufferOk(Act(d, a))
  {
    if a.Receive? {
      ReceiveKeepsBuffer(d, a.receipt);
    } else if a.Consume? {
      Attachments.DropFreesBytes(d.box.attach, {a.tid});
    } else {
      OnlyReceivingBuffers(d, a);
      hide Act;
    }
  }

  lemma {:induction false} RunKeepsBuffer(s: System, steps: seq<Step>)
    requires BufferOk(s.a) && BufferOk(s.b)
    ensures BufferOk(Run(s, steps).a) && BufferOk(Run(s, steps).b)
  {
    hide BufferOk, Act;
    if steps != [] {
      var init, last := steps[..|steps| - 1], steps[|steps| - 1];
      RunKeepsBuffer(s, init);
      ActKeepsBuffer(Run(s, init).At(last.side), last.action);
    }
  }

  lemma StartHasBuffer(s: System)
    requires IsStart(s)
    ensures BufferOk(s.a) && BufferOk(s.b)
  {
  }

  /** In every run: a peer's buffered attachment bytes stay within the budget, and a
      transfer is listed as complete exactly when every index below its total is there. */
  lemma BufferStaysBounded(s: System, x: Side, tid: string)
    requires Reachable(s)
    ensures var t, budget := s.At(x).box.attach, s.At(x).cfg.budget;
            && Attachments.Used(t) <= (if budget < 0 then 0 else budget)
            && (tid in Attachments.Tids(t) ==>
                  Attachments.Group(t, tid).tot >= 0 &&
                  (tid in Attachments.Pending(t) <==>
                     Attachments.Indices(t, tid) == Attachments.Below(Attachments.Group(t, tid).tot)))
  {
    var s0, steps :| IsStart(s0) && s == Run(s0, steps);
    StartHasBuffer(s0);
    RunKeepsBuffer(s0, steps);
    hide Run, IsStart;
    var t := s.At(x).box.attach;
    assert BufferOk(s.At(x));
    if tid in Attachments.Tids(t) {
      Attachments.PendingExactlyWhen(t, tid);
    }
  }
}
