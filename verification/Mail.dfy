/** One peer's mailbox (daemon/mail.go): what an incoming packet does to it and how
    a flush offers its pending rows to the node. */
module Mail {
  import opened Bytes
  import opened Envelopes
  import opened Outbox
  import opened Nodes
  import Inbox
  import Attachments

  datatype Config = Config(capacity: nat, budget: int, retry: nat, mtu: nat)

  datatype Box = Box(journal: Journal, inbox: Inbox.Log, attach: Attachments.Table, queues: Queues)

  /** What a packet did, as far as anyone outside the mailbox can tell. `isNew` is
      what triggers OnDeliver or OnDeliverFile, and `removed` what triggers OnAcked. */
  datatype Effect =
    | Ignored
    | Text(sn: u64, entry: Inbox.Entry, isNew: bool)
    | File(sn: u64, key: Attachments.Key, payload: bytes, isNew: bool)
    | Acknowledged(sn: u64, removed: bool)

  function SendAck(b: Box, sn: u64, mtu: nat): Box {
    match Enqueue(b.queues, Control, Encode(Ack(sn)).value, mtu)
    case Ok(q) => b.(queues := q)
    case Err => b
  }

  /** HandlePacket from an unblocked peer. `ackRuns` is false when the process dies
      between the committed transaction and the ACK. */
  ghost function Handle(b: Box, cfg: Config, packet: bytes, ackRuns: bool): (Box, Effect) {
    match Decode(packet)
    case Err => (b, Ignored)
    case Ok(e) =>
      if e.typ == TYPE_FILE then HandleFile(b, cfg, e, ackRuns)
      else if e.typ == TYPE_MSG then
        var entry := Inbox.Entry(e.ts, e.payload);
        var (log, isNew) := Inbox.AddTo(b.inbox, cfg.capacity, ToSigned(e.sn), entry);
        var b' := b.(inbox := log);
        (if ackRuns then SendAck(b', e.sn, cfg.mtu) else b', Text(e.sn, entry, isNew))
      else if e.typ == TYPE_ACK then (b.(journal := Acked(b.journal, e.sn)), Acknowledged(e.sn, e.sn in b.journal.rows))
      else (b, Ignored)
  }

  ghost function HandleFile(b: Box, cfg: Config, e: Envelope, ackRuns: bool): (Box, Effect) {
    match Attachments.ParseHeader(e.payload)
    case None => (b, Ignored)
    case Some(h) =>
      var key := Attachments.Key(h.tid, h.index);
      match Attachments.AddTo(b.attach, cfg.budget, key, Attachments.Chunk(h.total, e.sn, e.ts, e.payload))
      case Refused => (b, Ignored)
      case Duplicate =>
        (if ackRuns then SendAck(b, e.sn, cfg.mtu) else b, File(e.sn, key, e.payload, false))
      case Stored(t) =>
        var b' := b.(attach := t);
        (if ackRuns then SendAck(b', e.sn, cfg.mtu) else b', File(e.sn, key, e.payload, true))
  }

  /** A row sent within the retry window is still considered in flight. */
  predicate InWindow(e: Item, now: int, retry: nat) {
    e.sentAt > 0 && now - e.sentAt < retry
  }

  function EnvelopeOf(e: Item): Envelope
    requires e.sn < TWO_64
  {
    Envelope(VERSION, e.row.typ, e.sn, e.row.ts, e.row.payload)
  }

  function LaneOf(typ: byte): Lane {
    if typ == TYPE_FILE then Bulk else Control
  }

  /** One turn of flushPeer's loop up to the enqueue: Ok when the row was enqueued. */
  function OfferItem(q: Queues, cfg: Config, now: int, e: Item): (r: Result<Queues>)
    requires e.sn < TWO_64
  {
    if InWindow(e, now, cfg.retry) then Err
    else match Encode(EnvelopeOf(e))
      case Err => Err
      case Ok(data) => Enqueue(q, LaneOf(e.row.typ), data, cfg.mtu)
  }

  /** A row that is offered and fits goes to the end of one queue and touches nothing else:
      file rows to the bulk queue, all others to the control queue. */
  lemma OfferGoesToItsLane(q: Queues, cfg: Config, now: int, e: Item)
    requires e.sn < TWO_64 && OfferItem(q, cfg, now, e).Ok?
    ensures var q' := OfferItem(q, cfg, now, e).value;
            && Encode(EnvelopeOf(e)).Ok? && |Encode(EnvelopeOf(e)).value| <= cfg.mtu && q'.at == q.at
            && (if e.row.typ == 5 then
                  q'.bulk == q.bulk + [Encode(EnvelopeOf(e)).value] && q'.control == q.control && |q'.bulk| <= 512
                else
                  q'.control == q.control + [Encode(EnvelopeOf(e)).value] && q'.bulk == q.bulk && |q'.control| <= 64)
  {
    hide Header;
  }

  /** A row is offered exactly when it is outside its window, its envelope encodes, its
      packet fits the link, and its queue has room. */
  lemma OfferedExactlyWhen(q: Queues, cfg: Config, now: int, e: Item)
    requires e.sn < TWO_64
    ensures OfferItem(q, cfg, now, e).Ok? <==>
            && (e.sentAt <= 0 || e.sentAt + cfg.retry <= now)
            && |e.row.payload| <= 65535 && 20 + |e.row.payload| <= cfg.mtu
            && if e.row.typ == 5 then |q.bulk| < 512 else |q.control| < 64
  {
  }

  /** What is sent for a row says what the row says. */
  lemma OfferedPacketSays(e: Item)
    requires e.sn < TWO_64 && |e.row.payload| <= 65535
    ensures Encode(EnvelopeOf(e)).Ok?
    ensures Decode(Encode(EnvelopeOf(e)).value) == Ok(Envelope(1, e.row.typ, e.sn, e.row.ts, e.row.payload))
  {
    DecodeEncode(EnvelopeOf(e), []);
    assert Encode(EnvelopeOf(e)).value + [] == Encode(EnvelopeOf(e)).value;
  }

  /** The types of the wire: texts are 1, ACKs 2, file chunks 5; an ACK is its bare header. */
  lemma AckBytes(n: u64)
    ensures Encode(Ack(n)) == Ok([1, 2] + LittleEndian(n, 8) + [0, 0, 0, 0, 0, 0, 0, 0] + [0, 0])
  {
    NoBytes(2);
    NoBytes(8);
    var zeros: bytes := [0, 0, 0, 0, 0, 0, 0, 0];
    hide LittleEndian;
    assert LittleEndian(0, 8) == zeros;
    assert LittleEndian(0, 2) == [0, 0];
    var e := Ack(n);
    assert ToUnsigned(e.ts) == 0 && |e.payload| == 0;
    assert Encode(e).value == Header(e) + [] == Header(e);
    assert Header(e) == [1, 2] + LittleEndian(n, 8) + LittleEndian(0, 8) + LittleEndian(0, 2);
  }

  lemma {:induction false} NoBytes(k: nat)
    ensures forall i :: 0 <= i < k ==> LittleEndian(0, k)[i] == 0
  {
    if k > 0 { NoBytes(k - 1); }
  }

  /** What each kind of packet does, by its type on the wire. A text goes through the
      inbox; a chunk is reported new exactly when its slot was free, and its ACK follows
      unless it is malformed or refused; an ACK removes one row; all else is ignored. */
  lemma HandleByType(b: Box, cfg: Config, packet: bytes, e: Envelope)
    requires Decode(packet) == Ok(e)
    ensures var (b', effect) := Handle(b, cfg, packet, true);
            && (e.typ == 1 ==> effect.Text? && effect.sn == e.sn && b'.attach == b.attach && b'.journal == b.journal)
            && (e.typ == 2 ==> effect == Acknowledged(e.sn, e.sn in b.journal.rows) && b' == b.(journal := b'.journal)
                               && e.sn !in b'.journal.rows && e.sn !in b'.journal.sent)
            && (e.typ == 5 ==> b'.inbox == b.inbox && b'.journal == b.journal && (effect.File? || effect.Ignored?))
            && (e.typ == 5 && effect.File? ==>
                  && (effect.isNew <==> effect.key !in b.attach) && effect.key in b'.attach
                  && (effect.isNew ==>
                        && Attachments.ParseHeader(e.payload).Some?
                        && b'.attach[effect.key] == Attachments.Chunk(Attachments.ParseHeader(e.payload).value.total, e.sn, e.ts, e.payload))
                  && (!effect.isNew ==> b'.attach == b.attach))
            && (effect.Ignored? ==> b' == b)
            && (e.typ !in {1, 2, 5} ==> effect.Ignored?)
  {
    hide Decode, Inbox.AddTo, Header, Attachments.ParseHeader, Attachments.Policy;
    match Attachments.ParseHeader(e.payload)
    case None =>
    case Some(h) =>
      var key, c := Attachments.Key(h.tid, h.index), Attachments.Chunk(h.total, e.sn, e.ts, e.payload);
      if Attachments.AddTo(b.attach, cfg.budget, key, c).Stored? {
        Attachments.AddKeepsBudget(b.attach, cfg.budget, key, c);
        Attachments.AddKeepsOrEvicts(b.attach, cfg.budget, key, c, key);
      }
  }

  /** The ACK is enqueued for exactly the texts and chunks taken, when it fits; nothing
      else a packet does touches the queues. */
  lemma HandleAcks(b: Box, cfg: Config, packet: bytes)
    ensures var (b', effect) := Handle(b, cfg, packet, true);
            b'.queues == if (effect.Text? || effect.File?) && |b.queues.control| < 64 && 20 <= cfg.mtu
                         then b.queues.(control := b.queues.control + [Encode(Ack(effect.sn)).value])
                         else b.queues
  {
    hide Decode, Inbox.AddTo, Attachments.AddTo, Attachments.ParseHeader;
  }

  /** Dying between the commit and the ACK loses the ACK and nothing else. */
  lemma OnlyTheAckIsLost(b: Box, cfg: Config, packet: bytes)
    ensures var (b', effect) := Handle(b, cfg, packet, true);
            Handle(b, cfg, packet, false) == (b'.(queues := b.queues), effect)
  {
    hide Decode, Inbox.AddTo, Attachments.AddTo, Attachments.ParseHeader, Encode;
  }

  /** The same turn with its MarkSent, `at` being the clock reading it takes. */
  function FlushItem(b: Box, cfg: Config, now: int, e: Item, at: int): Box
    requires e.sn < TWO_64
  {
    match OfferItem(b.queues, cfg, now, e)
    case Err => b
    case Ok(q) => b.(queues := q, journal := b.journal.(sent := b.journal.sent[e.sn := at]))
  }

  /** A whole flush; `clock(n)` is the reading MarkSent takes with `n` rows left. */
  function FlushItems(b: Box, cfg: Config, now: int, items: seq<Item>, clock: nat -> int): Box
    requires forall i :: 0 <= i < |items| ==> items[i].sn < TWO_64
    decreases |items|
  {
    if items == [] then b
    else FlushItems(FlushItem(b, cfg, now, items[0], clock(|items| - 1)), cfg, now, items[1..], clock)
  }

  lemma FlushItemsUnrolls(b: Box, cfg: Config, now: int, items: seq<Item>, clock: nat -> int)
    requires items != [] && forall i :: 0 <= i < |items| ==> items[i].sn < TWO_64
    ensures FlushItems(b, cfg, now, items, clock) ==
            FlushItems(FlushItem(b, cfg, now, items[0], clock(|items| - 1)), cfg, now, items[1..], clock)
  {
    hide FlushItem;
  }

  lemma FlushItemsEnds(b: Box, cfg: Config, now: int, clock: nat -> int)
    ensures FlushItems(b, cfg, now, [], clock) == b
  {
  }

  // ------------------------------------------------------------------ objects

  class Mailbox {
    const cfg: Config
    const journal: OutboxJournal
    const inbox: Inbox.InboxStore
    const attach: Attachments.AttachmentStore
    const node: Node
    var blocked: bool

    ghost predicate Valid()
      reads this, journal, inbox, attach, node
    {
      && journal.Valid() && inbox.Valid() && attach.Valid() && node.Valid()
      && inbox.capacity == cfg.capacity && attach.budget == cfg.budget && node.mtu == cfg.mtu
      && journal.next <= TWO_63
    }

    ghost function Contents(): Box
      reads this, journal, inbox, attach, node
    {
      Box(journal.Contents(), inbox.Contents(), attach.table, node.queues)
    }

    constructor (cfg: Config)
      requires cfg.capacity >= 1
      ensures Valid() && this.cfg == cfg && !blocked
      ensures Contents() == Box(FRESH, Inbox.Log(map[], {}), map[], EMPTY)
      ensures fresh(journal) && fresh(inbox) && fresh(attach) && fresh(node)
    {
      this.cfg := cfg;
      journal := new OutboxJournal();
      inbox := new Inbox.InboxStore(cfg.capacity);
      attach := new Attachments.AttachmentStore(cfg.budget);
      node := new Node(cfg.mtu);
      blocked := false;
      new;
      assert inbox.rows.Keys == {};
      assert inbox.rows == map[];
      assert inbox.seen == {};
    }

    /** SendMsg and SendFile: the row is journaled under a seq never used before. */
    method Send(typ: byte, payload: bytes, now: i64) returns (r: Result<nat>)
      requires Valid() && journal.next < TWO_63
      modifies journal
      ensures Valid()
      ensures blocked ==> r == Err && Contents() == old(Contents())
      ensures !blocked ==>
                && r == Ok(old(journal.next)) && r.value !in old(journal.rows)
                && Contents() == old(Contents()).(journal :=
                     Journal(r.value + 1, old(journal.rows)[r.value := Row(now, typ, payload)], old(journal.sent)))
    {
      if blocked {
        return Err;
      }
      var sn := journal.NextSeq();
      journal.QueueAs(sn, now, payload, typ);
      return Ok(sn);
    }

    method Acknowledge(sn: u64)
      requires Valid()
      modifies node
      ensures Valid()
      ensures Contents() == SendAck(old(Contents()), sn, cfg.mtu)
    {
      var _ := node.Send(Control, Encode(Ack(sn)).value);
    }

    method HandlePacket(packet: bytes) returns (effect: Effect)
      requires Valid()
      modifies journal, inbox, attach, node
      ensures Valid()
      ensures blocked ==> Contents() == old(Contents()) && effect == Ignored
      ensures !blocked ==> (Contents(), effect) == Handle(old(Contents()), cfg, packet, true)
    {
      if blocked {
        return Ignored;
      }
      var decoded := Decode(packet);
      if decoded.Err? {
        return Ignored;
      }
      var e := decoded.value;
      if e.typ == TYPE_FILE {
        effect := ReceiveFile(e);
      } else if e.typ == TYPE_MSG {
        var isNew := inbox.Add(e.sn, e.ts, e.payload);
        Acknowledge(e.sn);
        effect := Text(e.sn, Inbox.Entry(e.ts, e.payload), isNew);
      } else if e.typ == TYPE_ACK {
        var removed := journal.Ack(e.sn);
        effect := Acknowledged(e.sn, removed);
      } else {
        effect := Ignored;
      }
    }

    method ReceiveFile(e: Envelope) returns (effect: Effect)
      requires Valid()
      modifies attach, node
      ensures Valid()
      ensures (Contents(), effect) == HandleFile(old(Contents()), cfg, e, true)
    {
      var header := Attachments.ParseHeader(e.payload);
      if header.None? {
        return Ignored;
      }
      var h := header.value;
      var r := attach.Add(h.tid, h.index, h.total, e.sn, e.ts, e.payload);
      if r.Err? {
        return Ignored;
      }
      Acknowledge(e.sn);
      effect := File(e.sn, Attachments.Key(h.tid, h.index), e.payload, r.value);
    }

    method OfferAndMark(e: Item, now: int, at: int)
      requires Valid() && e.sn < TWO_64
      modifies journal, node
      ensures Valid()
      ensures Contents() == FlushItem(old(Contents()), cfg, now, e, at)
    {
      if InWindow(e, now, cfg.retry) {
        return;
      }
      var data := Encode(EnvelopeOf(e));
      if data.Err? {
        return;
      }
      var ok := node.Send(LaneOf(e.row.typ), data.value);
      if ok {
        journal.MarkSent(e.sn, at);
      }
    }

    lemma PendingSeqs(items: seq<Item>)
      requires Valid() && items == PendingItems(journal.Contents())
      ensures forall i :: 0 <= i < |items| ==> items[i].sn < TWO_64
      ensures forall e :: e in items ==> e.sn < TWO_64
    {
      forall i | 0 <= i < |items| ensures items[i].sn < TWO_64 { assert items[i] in items; }
    }

    /** flushPeer running undisturbed. */
    method FlushPeer(now: int, clock: nat -> int)
      requires Valid()
      modifies journal, node
      ensures Valid()
      ensures forall e :: e in PendingItems(old(journal.Contents())) ==> e.sn < TWO_64
      ensures blocked ==> Contents() == old(Contents())
      ensures !blocked ==>
                Contents() == FlushItems(old(Contents()), cfg, now, PendingItems(old(journal.Contents())), clock)
    {
      hide FlushItem, FlushItems, PendingItems, Inbox.Reflects, Header;
      var items := journal.Pending();
      PendingSeqs(items);
      if blocked {
        return;
      }
      ghost var goal := FlushItems(Contents(), cfg, now, items, clock);
      var rest := items;
      while rest != []
        invariant Valid()
        invariant forall i :: 0 <= i < |rest| ==> rest[i].sn < TWO_64
        invariant FlushItems(Contents(), cfg, now, rest, clock) == goal
        decreases |rest|
      {
        FlushItemsUnrolls(Contents(), cfg, now, rest, clock);
        OfferAndMark(rest[0], now, clock(|rest| - 1));
        rest := rest[1..];
      }
      FlushItemsEnds(Contents(), cfg, now, clock);
    }
  }
}
