/** From the caller's payload to what the peer's stores serve: contents over whole
    runs, and what blocking stops. */
module EndToEnd {
  import opened Bytes
  import opened Ranks
  import opened Envelopes
  import opened Outbox
  import opened Nodes
  import opened Mail
  import opened Delivery
  import opened Runs
  import Inbox
  import Attachments

  // --------------------------------------------------- what the stores hold is what came

  ghost predicate RowsAreAccepted(d: Daemon) {
    forall n :: n in d.box.inbox.rows ==> n in d.accepted && d.accepted[n] == d.box.inbox.rows[n]
  }

  ghost predicate ChunkIsFiled(d: Daemon, k: Attachments.Key, c: Attachments.Chunk) {
    && c.sn in d.filed && d.filed[c.sn] == c.payload
    && Attachments.ParseHeader(c.payload).Some? && KeyOf(c.payload) == k
    && c.total == Attachments.ParseHeader(c.payload).value.total
  }

  ghost predicate ChunksAreFiled(d: Daemon) {
    forall k :: k in d.box.attach ==> ChunkIsFiled(d, k, d.box.attach[k])
  }

  lemma HandleRows(b: Box, cfg: Config, packet: bytes, ackRuns: bool)
    ensures var (b', effect) := Handle(b, cfg, packet, ackRuns);
            forall n :: n in b'.inbox.rows ==>
              if effect.Text? && effect.isNew && n == ToSigned(effect.sn) then b'.inbox.rows[n] == effect.entry
              else n in b.inbox.rows && b'.inbox.rows[n] == b.inbox.rows[n]
  {
    hide Decode, Attachments.AddTo, Attachments.ParseHeader, Header, Top;
  }

  lemma HandleChunks(b: Box, cfg: Config, packet: bytes, ackRuns: bool)
    ensures var (b', effect) := Handle(b, cfg, packet, ackRuns);
            forall k :: k in b'.attach ==>
              || (k in b.attach && b'.attach[k] == b.attach[k])
              || (effect.File? && k == effect.key
                  && b'.attach[k].sn == effect.sn && b'.attach[k].payload == effect.payload
                  && Attachments.ParseHeader(effect.payload).Some?
                  && b'.attach[k].total == Attachments.ParseHeader(effect.payload).value.total)
  {
    hide Decode, Inbox.AddTo, Header, Attachments.ParseHeader, Attachments.Policy;
  }

  lemma ReceiveKeepsRows(d: Daemon, r: Receipt)
    requires RowsAreAccepted(d)
    ensures RowsAreAccepted(ReceivePacket(d, r))
  {
    hide Handle;
    HandleRows(d.box, d.cfg, r.packet, r.ackRuns);
  }

  /** A repeated seq brings the same payload, so filing it again changes nothing. */
  lemma RefilingIsStable(me: Daemon, peer: Daemon, r: Receipt)
    requires TookWhatWasQueued(peer, me) && Honest(peer, r.packet)
    ensures var d' := ReceivePacket(me, r);
            forall n :: n in me.filed ==> n in d'.filed && d'.filed[n] == me.filed[n]
  {
    hide Handle, Decode, Attachments.ParseHeader;
    HandleEffect(me.box, me.cfg, r.packet, r.ackRuns);
  }

  lemma NewChunksAreFiled(d: Daemon, r: Receipt, k: Attachments.Key)
    requires k in ReceivePacket(d, r).box.attach
    ensures var d' := ReceivePacket(d, r);
            (k in d.box.attach && d'.box.attach[k] == d.box.attach[k]) || ChunkIsFiled(d', k, d'.box.attach[k])
  {
    hide Handle, Decode, Attachments.ParseHeader, KeyOf, ReceivePacket;
    ReceiveFiles(d, r);
    HandleEffect(d.box, d.cfg, r.packet, r.ackRuns);
    HandleChunks(d.box, d.cfg, r.packet, r.ackRuns);
  }

  lemma ReceiveKeepsChunks(me: Daemon, peer: Daemon, r: Receipt)
    requires ChunksAreFiled(me) && TookWhatWasQueued(peer, me) && Honest(peer, r.packet)
    ensures ChunksAreFiled(ReceivePacket(me, r))
  {
    RefilingIsStable(me, peer, r);
    hide ReceivePacket, Attachments.ParseHeader, Honest, TookWhatWasQueued;
    var d' := ReceivePacket(me, r);
    forall k | k in d'.box.attach ensures ChunkIsFiled(d', k, d'.box.attach[k]) {
      NewChunksAreFiled(me, r, k);
      if k in me.box.attach { assert ChunkIsFiled(me, k, me.box.attach[k]); }
    }
  }

  lemma ActKeepsContent(me: Daemon, peer: Daemon, a: Action)
    requires RowsAreAccepted(me) && ChunksAreFiled(me) && TookWhatWasQueued(peer, me)
    requires a.Receive? ==> Honest(peer, a.receipt.packet)
    ensures RowsAreAccepted(Act(me, a)) && ChunksAreFiled(Act(me, a))
  {
    hide Honest, TookWhatWasQueued, Attachments.ParseHeader;
    if a.Receive? {
      ReceiveKeepsRows(me, a.receipt);
      ReceiveKeepsChunks(me, peer, a.receipt);
      hide ReceivePacket, RowsAreAccepted, ChunksAreFiled;
    } else {
      OnlyReceivingTakes(me, a);
      OnlyDropping(me, a);
      hide Act;
      forall k | k in Act(me, a).box.attach ensures ChunkIsFiled(Act(me, a), k, Act(me, a).box.attach[k]) {
        assert ChunkIsFiled(me, k, me.box.attach[k]);
      }
    }
  }

  lemma OnlyDropping(d: Daemon, a: Action)
    requires !a.Receive?
    ensures var t := Act(d, a).box.attach;
            forall k :: k in t ==> k in d.box.attach && t[k] == d.box.attach[k]
  {
    if !a.Consume? {
      OnlyReceivingBuffers(d, a);
      hide Act;
    } else {
      hide ReceivePacket, BeginFlush, NextFlush, MarkFlush, EndFlush, BeginSend, CommitSend, Advance;
    }
  }

  ghost predicate ContentOk(s: System) {
    && RowsAreAccepted(s.a) && RowsAreAccepted(s.b) && ChunksAreFiled(s.a) && ChunksAreFiled(s.b)
  }

  lemma {:induction false} RunKeepsContent(s: System, steps: seq<Step>)
    requires Inv(s) && ContentOk(s)
    ensures ContentOk(Run(s, steps))
  {
    hide Act, LocalOk, RowsAreAccepted, ChunksAreFiled, Honest, TookWhatWasQueued, LeftOnlyWhenTaken;
    if steps != [] {
      var init, last := steps[..|steps| - 1], steps[|steps| - 1];
      RunKeepsContent(s, init);
      RunKeepsInv(s, init);
      var t := Run(s, init);
      var me, peer := t.At(last.side), t.At(Other(last.side));
      if last.action.Receive? && last.action.receipt.packet !in peer.wire {
      } else {
        WireIsHonest(peer, last.action);
        ActKeepsContent(me, peer, last.action);
      }
    }
  }

  lemma StartHasContent(s: System)
    requires IsStart(s)
    ensures ContentOk(s)
  {
  }

  /** In every run, what a daemon serves is what its peer queued: each retained inbox
      row is the text row of that seq, with its payload and timestamp, and each
      buffered chunk is a file row whose header names the slot it sits in. */
  lemma StoresHoldWhatWasQueued(s: System, x: Side)
    requires Reachable(s)
    ensures var queued, box := s.At(x).queued, s.At(Other(x)).box;
            && (forall n :: n in box.inbox.rows ==>
                  n in queued && queued[n] == Row(box.inbox.rows[n].ts, TYPE_MSG, box.inbox.rows[n].payload))
            && (forall k :: k in box.attach ==>
                  && box.attach[k].sn in queued && queued[box.attach[k].sn].typ == TYPE_FILE
                  && queued[box.attach[k].sn].payload == box.attach[k].payload
                  && Attachments.ParseHeader(box.attach[k].payload).Some? && KeyOf(box.attach[k].payload) == k
                  && box.attach[k].total == Attachments.ParseHeader(box.attach[k].payload).value.total)
  {
    hide Run, IsStart, LocalOk, Attachments.ParseHeader;
    ReachableHasInv(s);
    var s0, steps :| IsStart(s0) && s == Run(s0, steps);
    StartHasInv(s0);
    StartHasContent(s0);
    RunKeepsContent(s0, steps);
    var y := s.At(Other(x));
    assert RowsAreAccepted(y) && ChunksAreFiled(y) && TookWhatWasQueued(s.At(x), y);
    forall k | k in y.box.attach ensures ChunkIsFiled(y, k, y.box.attach[k]) {}
  }

  // ------------------------------------------------------------ from the caller's call

  function TypeOf(isFile: bool): byte { if isFile then TYPE_FILE else TYPE_MSG }

  /** The call that drew seq `n` carries `body`, and so does its row once queued. */
  ghost predicate Carries(d: Daemon, n: nat, isFile: bool, body: bytes) {
    && n < d.box.journal.next
    && (n in d.calls ==> d.calls[n] == Call(TypeOf(isFile), body))
    && (n in d.queued ==> d.queued[n].typ == TypeOf(isFile) && d.queued[n].payload == body)
  }

  lemma ReceiveKeepsCarrying(d: Daemon, r: Receipt, n: nat, isFile: bool, body: bytes)
    requires Carries(d, n, isFile, body)
    ensures Carries(ReceivePacket(d, r), n, isFile, body)
  {
    hide Handle, ReceivePacket;
    ReceiveFrame(d, r);
    HandleJournal(d.box, d.cfg, r.packet, r.ackRuns);
  }

  lemma FlushKeepsCarrying(d: Daemon, n: nat, isFile: bool, body: bytes)
    requires Carries(d, n, isFile, body)
    ensures Carries(BeginFlush(d), n, isFile, body) && Carries(NextFlush(d), n, isFile, body)
    ensures Carries(MarkFlush(d), n, isFile, body) && Carries(EndFlush(d), n, isFile, body)
  {
    hide BeginFlush, NextFlush, MarkFlush, EndFlush;
    FlushFrame(d);
  }

  lemma ActKeepsCarrying(d: Daemon, a: Action, n: nat, isFile: bool, body: bytes)
    requires Carries(d, n, isFile, body)
    ensures Carries(Act(d, a), n, isFile, body)
  {
    hide ReceivePacket, BeginFlush, NextFlush, MarkFlush, EndFlush, Advance, Attachments.Drop;
    FlushKeepsCarrying(d, n, isFile, body);
    if a.Receive? {
      ReceiveKeepsCarrying(d, a.receipt, n, isFile, body);
    }
  }

  lemma {:induction false} RunKeepsCarrying(s: System, steps: seq<Step>, x: Side, n: nat, isFile: bool, body: bytes)
    requires Carries(s.At(x), n, isFile, body)
    ensures Carries(Run(s, steps).At(x), n, isFile, body)
  {
    hide Act, Carries;
    if steps != [] {
      var init, last := steps[..|steps| - 1], steps[|steps| - 1];
      RunKeepsCarrying(s, init, x, n, isFile, body);
      if last.side == x {
        ActKeepsCarrying(Run(s, init).At(x), last.action, n, isFile, body);
      }
    }
  }

  /** SendMsg to delivery: the text handed to a call is what the peer accepted under
      the call's seq by the time its row has left the outbox, whatever happened between. */
  lemma SentTextIsAccepted(s: System, x: Side, body: bytes, steps: seq<Step>)
    requires Reachable(s) && !s.At(x).blocked && s.At(x).box.journal.next < TWO_63
    requires var n, t := s.At(x).box.journal.next, Run(Do(s, Step(x, SendBegin(false, body))), steps);
             n in t.At(x).queued && n !in t.At(x).box.journal.rows
    ensures var n, t := s.At(x).box.journal.next, Run(Do(s, Step(x, SendBegin(false, body))), steps);
            n in t.At(Other(x)).accepted && t.At(Other(x)).accepted[n].payload == body
  {
    hide Run, Reachable, Decode, LocalOk, Linked;
    var n, begin := s.At(x).box.journal.next, Step(x, SendBegin(false, body));
    var s1 := Do(s, begin);
    var t := Run(s1, steps);
    ReachableHasInv(s);
    assert Carries(s1.At(x), n, false, body) by { NextIsUnused(s.At(x)); }
    RunKeepsCarrying(s1, steps, x, n, false, body);
    RunSingle(s, begin);
    RunStaysReachable(s, [begin]);
    RunStaysReachable(s1, steps);
    LeavesOnlyAfterDelivery(t, x, n);
  }

  lemma NextIsUnused(d: Daemon)
    requires LocalOk(d)
    ensures d.box.journal.next !in d.queued && d.box.journal.next !in d.calls
  {
    hide PacketsOk, FilesOk, InboxOk;
  }

  // ------------------------------------------------------------------------- blocking

  predicate LeavesBlocking(a: Action) {
    !a.SetBlocked? && !a.Restart?
  }

  /** What stays put while a side blocks its peer: nothing is taken, acknowledged
      rows included, no seq is drawn and no flush begins. */
  ghost predicate Silent(d: Daemon, d': Daemon) {
    && d'.blocked && TakenAlike(d, d')
    && d'.box.journal.next == d.box.journal.next
    && (forall n :: n in d.box.journal.rows ==> n in d'.box.journal.rows)
    && (d.flush.None? ==>
          (d'.flush.None? && d'.stamps == d.stamps
           && (forall p :: p in d'.box.queues.control ==> p in d.box.queues.control)
           && (forall p :: p in d'.box.queues.bulk ==> p in d.box.queues.bulk)))
  }

  lemma BlockedActIsSilent(d: Daemon, a: Action)
    requires d.blocked && LeavesBlocking(a)
    ensures Silent(d, Act(d, a))
  {
    if !a.Receive? {
      OnlyReceivingTakes(d, a);
      OnlyReceivingRemoves(d, a);
    }
    hide Handle, PendingItems, OfferItem, Attachments.Drop;
  }

  /** While a side blocks its peer, nothing of the peer is accepted, stored, delivered
      or acknowledged, and once a running flush has ended nothing new is enqueued. */
  lemma {:induction false} BlockedSideIsSilent(s: System, x: Side, steps: seq<Step>)
    requires s.At(x).blocked
    requires forall i :: 0 <= i < |steps| && steps[i].side == x ==> LeavesBlocking(steps[i].action)
    ensures Silent(s.At(x), Run(s, steps).At(x))
  {
    hide Act, LeavesBlocking;
    if steps != [] {
      var init, last := steps[..|steps| - 1], steps[|steps| - 1];
      forall i | 0 <= i < |init| && init[i].side == x ensures LeavesBlocking(init[i].action) {
        assert init[i] == steps[i];
      }
      BlockedSideIsSilent(s, x, init);
      if last.side == x {
        BlockedActIsSilent(Run(s, init).At(x), last.action);
      }
    }
  }

  // --------------------------------------------------------------------- chunk ACKs

  /** A chunk that is stored, now or before, is acknowledged whenever the queue has
      room; one the budget refuses, or whose header is malformed, leaves no trace. */
  lemma ChunkIsAckedUnlessRefused(d: Daemon, r: Receipt, e: Envelope)
    requires r.commits && r.ackRuns && !d.blocked
    requires Decode(r.packet) == Ok(e) && e.typ == TYPE_FILE
    requires |d.box.queues.control| < CONTROL_BOUND && d.cfg.mtu >= HEADER_SIZE
    ensures var h, d' := Attachments.ParseHeader(e.payload), ReceivePacket(d, r);
            if h.None? || Attachments.AddTo(d.box.attach, d.cfg.budget, Attachments.Key(h.value.tid, h.value.index),
                                            Attachments.Chunk(h.value.total, e.sn, e.ts, e.payload)).Refused?
            then d' == d
            else Encode(Ack(e.sn)).value in d'.box.queues.control && KeyOf(e.payload) in d'.box.attach
  {
    hide Decode, Header, Attachments.ParseHeader, Attachments.Policy;
    assert |Encode(Ack(e.sn)).value| == HEADER_SIZE;
    var h := Attachments.ParseHeader(e.payload);
    if h.Some? {
      var key, c := KeyOf(e.payload), Attachments.Chunk(h.value.total, e.sn, e.ts, e.payload);
      if Attachments.AddTo(d.box.attach, d.cfg.budget, key, c).Stored? {
        Attachments.AddKeepsBudget(d.box.attach, d.cfg.budget, key, c);
      }
    }
  }
}
