/** Retry pacing (daemon/mail.go flushPeer, daemon/store.go MarkSent/Ack): how often
    one row can be enqueued within one process lifetime, under a clock that never
    runs backwards. */
module Pacing {
  import opened Bytes
  import opened Outbox
  import opened Nodes
  import opened Mail
  import opened Delivery
  import opened Envelopes
  import Inbox
  import Attachments

  /** Two successful enqueues of one row are at least a retry interval apart. */
  ghost predicate Spaced(stamps: seq<Stamp>, retry: nat) {
    forall i, k :: 0 <= i < k < |stamps| && stamps[i].sn == stamps[k].sn ==>
      stamps[i].at + retry <= stamps[k].at
  }

  /** The stamp of `n` is remembered, about to be, or no longer needed. */
  ghost predicate Covered(d: Daemon, s: Stamp) {
    || s.sn !in d.box.journal.rows
    || (d.flush.Some? && d.flush.value.mark == Some(s.sn))
    || (s.sn in d.box.journal.sent && s.at <= d.box.journal.sent[s.sn])
  }

  ghost predicate StampsOk(d: Daemon) {
    && d.clock > 0
    && Spaced(d.stamps, d.cfg.retry)
    && (forall s :: s in d.stamps ==> 0 < s.at <= d.clock && s.sn in d.queued && Covered(d, s))
  }

  /** Marks follow enqueues one by one; the last enqueue may still lack its mark. */
  ghost predicate MarksOk(d: Daemon) {
    && |d.stamps| == |d.marked| + (if d.flush.Some? && d.flush.value.mark.Some? then 1 else 0)
    && (forall i :: 0 <= i < |d.marked| ==>
          d.marked[i].sn == d.stamps[i].sn && d.stamps[i].at <= d.marked[i].at <= d.clock)
    && (d.flush.Some? && d.flush.value.mark.Some? ==> d.stamps[|d.marked|].sn == d.flush.value.mark.value)
  }

  /** The last successful enqueue of `n` was the `i`-th, and it was marked at `at`. */
  ghost predicate LastMark(d: Daemon, n: nat, at: int, i: nat) {
    && i < |d.marked| && i < |d.stamps|
    && d.marked[i] == Stamp(n, at) && d.stamps[i].sn == n
    && forall k :: i < k < |d.stamps| ==> d.stamps[k].sn != n
  }

  ghost predicate Witnessed(d: Daemon, n: nat, at: int) {
    exists i :: LastMark(d, n, at, i)
  }

  /** A send time is only ever the mark of the row's last successful enqueue. */
  ghost predicate SentOk(d: Daemon) {
    forall n :: n in d.box.journal.sent ==>
      && d.box.journal.sent[n] <= d.clock
      && ((d.flush.Some? && d.flush.value.mark == Some(n)) || Witnessed(d, n, d.box.journal.sent[n]))
  }

  /** A snapshot item of the running flush agrees with the pacing state. */
  ghost predicate ItemOk(d: Daemon, e: Item) {
    && (forall s :: s in d.stamps && s.sn == e.sn ==> s.at <= e.sentAt)
    && (e.sentAt > 0 ==> Witnessed(d, e.sn, e.sentAt))
    && (e.sn in d.box.journal.rows ==> SentAt(d.box.journal.sent, e.sn) == e.sentAt)
  }

  ghost predicate FlushOk(d: Daemon) {
    d.flush.Some? ==>
      var f := d.flush.value;
      && f.now <= d.clock
      && (forall i, k :: 0 <= i < k < |f.todo| ==> f.todo[i].sn < f.todo[k].sn)
      && (forall e :: e in f.todo ==> ItemOk(d, e))
      && (f.mark.Some? ==> forall e :: e in f.todo ==> e.sn != f.mark.value)
  }

  ghost predicate PaceOk(d: Daemon) {
    StampsOk(d) && SentOk(d) && FlushOk(d) && MarksOk(d)
  }

  lemma LongerWitness(d: Daemon, d': Daemon, n: nat, at: int)
    requires Witnessed(d, n, at) && d.stamps <= d'.stamps && d.marked <= d'.marked
    requires forall k :: |d.stamps| <= k < |d'.stamps| ==> d'.stamps[k].sn != n
    ensures Witnessed(d', n, at)
  {
    var i :| LastMark(d, n, at, i);
    assert LastMark(d', n, at, i);
  }

  lemma SameWitnesses(d: Daemon, d': Daemon)
    requires d'.stamps == d.stamps && d'.marked == d.marked
    ensures forall n, at :: Witnessed(d, n, at) ==> Witnessed(d', n, at)
  {
    forall n, at | Witnessed(d, n, at) ensures Witnessed(d', n, at) { LongerWitness(d, d', n, at); }
  }

  /** An item of a fresh snapshot: with no flush running, only `sent` covers a pending row. */
  lemma SnapshotItemOk(d: Daemon, d': Daemon, e: Item)
    requires StampsOk(d) && SentOk(d) && d.flush.None?
    requires d'.stamps == d.stamps && d'.marked == d.marked && d'.box == d.box
    requires e.sn in d.box.journal.rows && e.sentAt == SentAt(d.box.journal.sent, e.sn)
    ensures ItemOk(d', e)
  {
    forall s | s in d.stamps && s.sn == e.sn ensures s.at <= e.sentAt { assert Covered(d, s); }
    if e.sn in d.box.journal.sent {
      SameWitnesses(d, d');
    }
  }

  ghost predicate Started(d: Daemon, d': Daemon) {
    d.flush.None? && d' == d.(flush := Some(Flush(d.clock, PendingItems(d.box.journal), None)))
  }

  lemma StartKeepsStamps(d: Daemon, d': Daemon)
    requires StampsOk(d) && SentOk(d) && MarksOk(d) && Started(d, d')
    ensures StampsOk(d') && SentOk(d') && MarksOk(d')
  {
    hide PendingItems, Witnessed;
    forall s | s in d.stamps ensures Covered(d', s) { assert Covered(d, s); }
    SameWitnesses(d, d');
  }

  lemma StartSnapshots(d: Daemon, d': Daemon)
    requires StampsOk(d) && SentOk(d) && Started(d, d')
    ensures FlushOk(d')
  {
    hide StampsOk, SentOk, ItemOk, SentAt, PendingItems;
    var items := PendingItems(d.box.journal);
    PendingIsSorted(d.box.journal);
    forall e | e in items ensures ItemOk(d', e) {
      PendingMember(d.box.journal, e);
      SnapshotItemOk(d, d', e);
    }
  }

  lemma BeginFlushKeepsPace(d: Daemon)
    requires PaceOk(d)
    ensures PaceOk(BeginFlush(d))
  {
    hide StampsOk, SentOk, FlushOk, PendingItems;
    var d' := BeginFlush(d);
    if d' != d {
      StartKeepsStamps(d, d');
      StartSnapshots(d, d');
    }
  }

  /** `d'` is `d` after its flush skipped its first item, or after it enqueued it. */
  ghost predicate Skipped(d: Daemon, d': Daemon) {
    && d.flush.Some? && d.flush.value.todo != [] && d.flush.value.mark.None?
    && d' == d.(flush := Some(d.flush.value.(todo := d.flush.value.todo[1..])))
  }

  ghost predicate Enqueued(d: Daemon, d': Daemon) {
    && d.flush.Some? && d.flush.value.todo != [] && d.flush.value.mark.None?
    && var f, e := d.flush.value, d.flush.value.todo[0];
    && !InWindow(e, f.now, d.cfg.retry)
    && d'.stamps == d.stamps + [Stamp(e.sn, d.clock)] && d'.marked == d.marked
    && d'.flush == Some(Flush(f.now, f.todo[1..], Some(e.sn)))
    && d'.box.journal == d.box.journal && d'.clock == d.clock && d'.queued == d.queued && d'.cfg == d.cfg
  }

  lemma NextFlushCases(d: Daemon)
    ensures var d' := NextFlush(d); d' == d || Skipped(d, d') || Enqueued(d, d')
  {
    hide Encode, Enqueue;
  }

  lemma SkipKeepsPace(d: Daemon, d': Daemon)
    requires PaceOk(d) && Skipped(d, d')
    ensures PaceOk(d')
  {
    hide Witnessed;
    assert forall x :: x in d'.flush.value.todo ==> x in d.flush.value.todo;
    forall s | s in d'.stamps ensures Covered(d', s) { assert Covered(d, s); }
    SameWitnesses(d, d');
    forall x | x in d'.flush.value.todo ensures ItemOk(d', x) { assert ItemOk(d, x); }
  }

  lemma EnqueueKeepsStamps(d: Daemon, d': Daemon)
    requires JournalOk(d) && PaceOk(d) && Enqueued(d, d')
    ensures StampsOk(d') && MarksOk(d')
  {
    hide Witnessed;
    var e := d.flush.value.todo[0];
    assert e in d.flush.value.todo && ItemOk(d, e);
    forall i, k | 0 <= i < k < |d'.stamps| && d'.stamps[i].sn == d'.stamps[k].sn
      ensures d'.stamps[i].at + d.cfg.retry <= d'.stamps[k].at
    {
      if k == |d.stamps| {
        assert d'.stamps[i] == d.stamps[i] && d.stamps[i] in d.stamps;
        assert 0 < d.stamps[i].at <= e.sentAt;
      } else {
        assert d'.stamps[i] == d.stamps[i] && d'.stamps[k] == d.stamps[k];
      }
    }
    forall s | s in d'.stamps ensures 0 < s.at <= d'.clock && s.sn in d'.queued && Covered(d', s) {
      if s in d.stamps { assert Covered(d, s); }
    }
  }

  lemma EnqueueKeepsItems(d: Daemon, d': Daemon)
    requires JournalOk(d) && PaceOk(d) && Enqueued(d, d')
    ensures SentOk(d') && FlushOk(d')
  {
    hide Witnessed, InWindow, SentAt;
    var f, e := d.flush.value, d.flush.value.todo[0];
    var rest := d'.flush.value.todo;
    forall n, at | Witnessed(d, n, at) && n != e.sn ensures Witnessed(d', n, at) { LongerWitness(d, d', n, at); }
    forall x | x in rest ensures ItemOk(d', x) && x.sn != e.sn {
      var i :| 0 <= i < |rest| && rest[i] == x;
      assert f.todo[i + 1] == x && f.todo[0].sn < f.todo[i + 1].sn;
      assert ItemOk(d, x);
    }
  }

  lemma NextFlushKeepsPace(d: Daemon)
    requires JournalOk(d) && PaceOk(d)
    ensures PaceOk(NextFlush(d))
  {
    hide NextFlush, StampsOk, SentOk, FlushOk, MarksOk, JournalOk, Skipped, Enqueued;
    var d' := NextFlush(d);
    NextFlushCases(d);
    if Skipped(d, d') {
      SkipKeepsPace(d, d');
    } else if Enqueued(d, d') {
      EnqueueKeepsStamps(d, d');
      EnqueueKeepsItems(d, d');
    }
  }

  /** `d'` is `d` after its flush marked the row `n` it had just enqueued. */
  ghost predicate Marked(d: Daemon, d': Daemon, n: nat) {
    && d.flush.Some? && d.flush.value.mark == Some(n)
    && d'.box.journal == d.box.journal.(sent := d.box.journal.sent[n := d.clock])
    && d'.flush == Some(d.flush.value.(mark := None))
    && d'.stamps == d.stamps && d'.marked == d.marked + [Stamp(n, d.clock)]
    && d'.clock == d.clock && d'.queued == d.queued && d'.cfg == d.cfg
  }

  lemma MarkKeepsStamps(d: Daemon, d': Daemon, n: nat)
    requires PaceOk(d) && Marked(d, d', n)
    ensures StampsOk(d') && MarksOk(d')
  {
    hide Witnessed;
    forall s | s in d.stamps ensures Covered(d', s) { assert Covered(d, s); }
    assert d.stamps[|d.marked|] in d.stamps;
  }

  lemma MarkKeepsItems(d: Daemon, d': Daemon, n: nat)
    requires PaceOk(d) && Marked(d, d', n)
    ensures SentOk(d') && FlushOk(d')
  {
    assert Witnessed(d', n, d.clock) by { assert LastMark(d', n, d.clock, |d.marked|); }
    hide Witnessed, LastMark, MarksOk, StampsOk;
    forall m, at | Witnessed(d, m, at) ensures Witnessed(d', m, at) { LongerWitness(d, d', m, at); }
    forall e | e in d.flush.value.todo ensures ItemOk(d', e) { assert ItemOk(d, e) && e.sn != n; }
  }

  lemma MarkFlushKeepsPace(d: Daemon)
    requires PaceOk(d)
    ensures PaceOk(MarkFlush(d))
  {
    hide StampsOk, SentOk, FlushOk, MarksOk;
    var d' := MarkFlush(d);
    if d' != d {
      MarkKeepsStamps(d, d', d.flush.value.mark.value);
      MarkKeepsItems(d, d', d.flush.value.mark.value);
    }
  }

  ghost predicate SamePacing(d: Daemon, d': Daemon) {
    && d'.stamps == d.stamps && d'.marked == d.marked && d'.flush == d.flush
    && d'.queued.Keys >= d.queued.Keys && d'.cfg == d.cfg && d'.clock >= d.clock
  }

  /** Rows may join or leave, the latter with their send time, and the clock advance. */
  lemma SameKeepsPace(d: Daemon, d': Daemon)
    requires PaceOk(d) && SamePacing(d, d')
    requires forall n :: n in d'.box.journal.sent ==>
               n in d.box.journal.sent && d'.box.journal.sent[n] == d.box.journal.sent[n]
    requires forall n :: n in d'.box.journal.rows && n in d.queued ==>
               n in d.box.journal.rows && SentAt(d'.box.journal.sent, n) == SentAt(d.box.journal.sent, n)
                 && (n in d.box.journal.sent ==> n in d'.box.journal.sent)
    requires d.flush.Some? ==> forall e :: e in d.flush.value.todo ==> e.sn in d.queued
    ensures PaceOk(d')
  {
    hide Witnessed;
    forall s | s in d.stamps ensures Covered(d', s) { assert Covered(d, s); }
    SameWitnesses(d, d');
    if d.flush.Some? {
      forall e | e in d.flush.value.todo ensures ItemOk(d', e) { assert ItemOk(d, e); }
    }
  }

  lemma CommitKeepsPace(d: Daemon, n: nat, ts: i64)
    requires JournalOk(d) && PaceOk(d)
    ensures PaceOk(CommitSend(d, n, ts))
  {
    hide PaceOk;
    SameKeepsPace(d, CommitSend(d, n, ts));
  }

  /** An incoming packet can only remove a row together with its send time. */
  lemma HandleJournalIs(b: Box, cfg: Config, packet: bytes, ackRuns: bool)
    ensures var (b', effect) := Handle(b, cfg, packet, ackRuns);
            b'.journal == if effect.Acknowledged? then Acked(b.journal, effect.sn) else b.journal
  {
    hide Decode, Inbox.AddTo, Attachments.AddTo, Attachments.ParseHeader, Acked, Encode, Enqueue;
  }

  lemma ReceiveKeepsPace(d: Daemon, r: Receipt)
    requires JournalOk(d) && PaceOk(d)
    ensures PaceOk(ReceivePacket(d, r))
  {
    hide Handle, PaceOk, ReceivePacket;
    ReceiveFrame(d, r);
    HandleJournalIs(d.box, d.cfg, r.packet, r.ackRuns);
    SameKeepsPace(d, ReceivePacket(d, r));
  }

  lemma OthersKeepPace(d: Daemon, a: Action)
    requires JournalOk(d) && PaceOk(d)
    requires a.SendBegin? || a.SendAbort? || a.Write? || a.Consume? || a.SetBlocked? || a.Tick?
    ensures PaceOk(Act(d, a))
  {
    hide ReceivePacket, NextFlush, MarkFlush, BeginFlush, EndFlush, CommitSend, Advance, Attachments.Drop, PaceOk;
    SameKeepsPace(d, Act(d, a));
  }

  lemma EndFlushKeepsPace(d: Daemon)
    requires PaceOk(d)
    ensures PaceOk(EndFlush(d))
  {
    hide Witnessed;
    var d' := EndFlush(d);
    forall s | s in d.stamps ensures Covered(d', s) { assert Covered(d, s); }
    SameWitnesses(d, d');
  }

  lemma RestartKeepsPace(d: Daemon, still: bool)
    requires PaceOk(d)
    ensures PaceOk(RestartFrom(d, still))
  {
  }

  lemma ActKeepsPace(d: Daemon, a: Action)
    requires JournalOk(d) && PaceOk(d)
    ensures PaceOk(Act(d, a))
  {
    hide PaceOk, JournalOk, ReceivePacket, NextFlush, MarkFlush, BeginFlush, CommitSend, WriteOut, EndFlush, BeginSend, RestartFrom, Attachments.Drop;
    match a
    case SendCommit(n, ts) => CommitKeepsPace(d, n, ts);
    case FlushBegin => BeginFlushKeepsPace(d);
    case FlushNext => NextFlushKeepsPace(d);
    case FlushMark => MarkFlushKeepsPace(d);
    case FlushEnd => EndFlushKeepsPace(d);
    case Receive(r) => ReceiveKeepsPace(d, r);
    case Restart(still) => RestartKeepsPace(d, still);
    case _ => OthersKeepPace(d, a);
  }

  lemma {:induction false} RunKeepsPace(s: System, steps: seq<Step>)
    requires Inv(s) && PaceOk(s.a) && PaceOk(s.b)
    ensures PaceOk(Run(s, steps).a) && PaceOk(Run(s, steps).b)
  {
    hide PaceOk, Act, Linked, PacketsOk, FilesOk, InboxOk, JournalOk;
    if steps != [] {
      var init, last := steps[..|steps| - 1], steps[|steps| - 1];
      RunKeepsPace(s, init);
      RunKeepsInv(s, init);
      ActKeepsPace(Run(s, init).At(last.side), last.action);
    }
  }

  lemma ReachableHasPace(s: System, x: Side)
    requires Reachable(s)
    ensures PaceOk(s.At(x)) && JournalOk(s.At(x))
  {
    hide PaceOk, Do, PacketsOk, FilesOk, InboxOk, JournalOk, Linked;
    ReachableHasInv(s);
    var s0, steps :| IsStart(s0) && s == Run(s0, steps);
    StartHasInv(s0);
    StartHasPace(s0);
    RunKeepsPace(s0, steps);
  }

  lemma StartHasPace(s: System)
    requires IsStart(s)
    ensures PaceOk(s.a) && PaceOk(s.b)
  {
  }

  /** In every run, two successful enqueues of one row by one process are at least
      the retry interval apart, wherever ACKs land during a flush. */
  lemma EnqueuesAreSpaced(s: System, x: Side, i: nat, k: nat)
    requires Reachable(s)
    requires i < k < |s.At(x).stamps| && s.At(x).stamps[i].sn == s.At(x).stamps[k].sn
    ensures s.At(x).stamps[i].at + s.At(x).cfg.retry <= s.At(x).stamps[k].at
  {
    ReachableHasPace(s, x);
  }

  /** In every run, a flush passes a row over as still in flight only when the row's
      last successful enqueue by this process, the `i`-th, was marked at the time the
      snapshot carries, less than a retry interval before the flush began. */
  lemma PostponedOnlyAfterEnqueue(s: System, x: Side, e: Item) returns (i: nat)
    requires Reachable(s)
    requires s.At(x).flush.Some? && e in s.At(x).flush.value.todo
    requires InWindow(e, s.At(x).flush.value.now, s.At(x).cfg.retry)
    ensures var d := s.At(x);
            && i < |d.marked| <= |d.stamps|
            && d.stamps[i].sn == d.marked[i].sn == e.sn && d.stamps[i].at <= d.marked[i].at
            && (forall k :: i < k < |d.stamps| ==> d.stamps[k].sn != e.sn)
            && d.marked[i].at <= d.clock && d.flush.value.now < d.marked[i].at + d.cfg.retry
  {
    ReachableHasPace(s, x);
    var d := s.At(x);
    assert ItemOk(d, e);
    i :| LastMark(d, e.sn, e.sentAt, i);
  }

  // ------------------------------------------------------------- rows that bounce

  predicate Elapsed(sentAt: int, now: int, retry: nat) {
    sentAt <= 0 || sentAt + retry <= now
  }

  /** Nothing this process remembers of row `n` puts it inside its window at or after `t0`. */
  ghost predicate Cold(d: Daemon, n: nat, t0: int) {
    && t0 <= d.clock && n in d.queued
    && (n in d.box.journal.rows ==> Elapsed(SentAt(d.box.journal.sent, n), t0, d.cfg.retry))
    && (d.flush.Some? ==>
          var f := d.flush.value;
          && t0 <= f.now && f.mark != Some(n)
          && (forall e :: e in f.todo && e.sn == n ==> Elapsed(e.sentAt, t0, d.cfg.retry)))
  }

  ghost predicate NoNewStamp(d: Daemon, d': Daemon, n: nat) {
    d.stamps <= d'.stamps && forall i :: |d.stamps| <= i < |d'.stamps| ==> d'.stamps[i].sn != n
  }

  lemma StartStaysCold(d: Daemon, n: nat, t0: int)
    requires Cold(d, n, t0)
    ensures Cold(BeginFlush(d), n, t0)
  {
    forall e | e in PendingItems(d.box.journal) && e.sn == n ensures Elapsed(e.sentAt, t0, d.cfg.retry) {
      PendingMember(d.box.journal, e);
    }
  }

  lemma NextStaysCold(d: Daemon, n: nat, t0: int)
    requires Cold(d, n, t0) && NoNewStamp(d, NextFlush(d), n)
    ensures Cold(NextFlush(d), n, t0)
  {
    var d' := NextFlush(d);
    NextFlushCases(d);
    NextFlushFrame(d);
    hide NextFlush, InWindow;
    if Enqueued(d, d') {
      assert d'.stamps[|d.stamps|].sn == d.flush.value.todo[0].sn;
    }
    if d' != d {
      assert forall e :: e in d'.flush.value.todo ==> e in d.flush.value.todo;
    }
  }

  /** Rows may leave with their send time, other rows join, and the clock advance. */
  lemma SameStaysCold(d: Daemon, d': Daemon, n: nat, t0: int)
    requires Cold(d, n, t0) && SamePacing(d, d')
    requires n in d'.box.journal.rows ==>
               n in d.box.journal.rows && SentAt(d'.box.journal.sent, n) == SentAt(d.box.journal.sent, n)
    ensures Cold(d', n, t0)
  {
  }

  lemma ReceiveStaysCold(d: Daemon, r: Receipt, n: nat, t0: int)
    requires Cold(d, n, t0)
    ensures Cold(ReceivePacket(d, r), n, t0)
  {
    hide Handle, Cold, ReceivePacket;
    ReceiveFrame(d, r);
    HandleJournalIs(d.box, d.cfg, r.packet, r.ackRuns);
    SameStaysCold(d, ReceivePacket(d, r), n, t0);
  }

  lemma OthersStayCold(d: Daemon, a: Action, n: nat, t0: int)
    requires JournalOk(d) && Cold(d, n, t0)
    requires !a.Restart? && !a.FlushBegin? && !a.FlushNext? && !a.FlushMark? && !a.FlushEnd? && !a.Receive?
    ensures Cold(Act(d, a), n, t0)
  {
    hide ReceivePacket, NextFlush, MarkFlush, BeginFlush, EndFlush, Advance, Attachments.Drop, Cold;
    assert n in d.queued && n !in d.calls by { ColdIsQueued(d, n, t0); }
    SameStaysCold(d, Act(d, a), n, t0);
  }

  lemma ColdIsQueued(d: Daemon, n: nat, t0: int)
    requires JournalOk(d) && Cold(d, n, t0)
    ensures n in d.queued && n !in d.calls
  {
  }

  lemma ActStaysCold(d: Daemon, a: Action, n: nat, t0: int)
    requires JournalOk(d) && Cold(d, n, t0) && !a.Restart? && NoNewStamp(d, Act(d, a), n)
    ensures Cold(Act(d, a), n, t0)
  {
    hide JournalOk, ReceivePacket, NextFlush, BeginFlush, CommitSend, WriteOut, BeginSend, RestartFrom, Attachments.Drop;
    match a
    case FlushBegin => StartStaysCold(d, n, t0);
    case FlushNext => NextStaysCold(d, n, t0);
    case FlushMark =>
    case FlushEnd =>
    case Receive(r) => ReceiveStaysCold(d, r, n, t0);
    case _ => OthersStayCold(d, a, n, t0);
  }

  lemma StampsGrow(d: Daemon, a: Action)
    requires !a.Restart?
    ensures d.stamps <= Act(d, a).stamps
  {
    hide ReceivePacket, NextFlush, PendingItems, Advance, Attachments.Drop;
    match a
    case Receive(r) => ReceiveFrame(d, r);
    case FlushNext => NextFlushCases(d);
    case _ =>
  }

  ghost predicate NoRestart(steps: seq<Step>, x: Side) {
    forall i :: 0 <= i < |steps| && steps[i].side == x ==> !steps[i].action.Restart?
  }

  lemma {:induction false} RunStampsGrow(s: System, steps: seq<Step>, x: Side)
    requires NoRestart(steps, x)
    ensures s.At(x).stamps <= Run(s, steps).At(x).stamps
  {
    hide Act;
    if steps != [] {
      var init, last := steps[..|steps| - 1], steps[|steps| - 1];
      RunStampsGrow(s, init, x);
      if last.side == x {
        StampsGrow(Run(s, init).At(x), last.action);
      }
    }
  }

  lemma {:induction false} RunStaysCold(s: System, steps: seq<Step>, x: Side, n: nat, t0: int)
    requires Inv(s) && Cold(s.At(x), n, t0)
    requires NoRestart(steps, x) && NoNewStamp(s.At(x), Run(s, steps).At(x), n)
    ensures Cold(Run(s, steps).At(x), n, t0)
  {
    hide Act, Cold, Linked, PacketsOk, FilesOk, InboxOk, JournalOk;
    if steps != [] {
      var init, last := steps[..|steps| - 1], steps[|steps| - 1];
      RunStampsGrow(s, init, x);
      var t := Run(s, init);
      if last.side == x {
        StampsGrow(t.At(x), last.action);
      }
      RunStaysCold(s, init, x, n, t0);
      RunKeepsInv(s, init);
      if Run(s, steps).At(x) != t.At(x) {
        ActStaysCold(t.At(x), last.action, n, t0);
      }
    }
  }

  /** The turn of a row that is not in flight and that the queue, or the encoder, refuses. */
  ghost predicate Bounces(d: Daemon) {
    && d.flush.Some? && d.flush.value.mark.None? && d.flush.value.todo != []
    && var e := d.flush.value.todo[0];
    && e.sn < TWO_64 && !InWindow(e, d.flush.value.now, d.cfg.retry)
    && OfferItem(d.box.queues, d.cfg, d.flush.value.now, e).Err?
  }

  /** That is what happens to a text outside its window when the control queue is full. */
  lemma FullQueueBounces(d: Daemon)
    requires d.flush.Some? && d.flush.value.mark.None? && d.flush.value.todo != [] && |d.box.queues.control| >= 64
    requires var e := d.flush.value.todo[0];
             e.row.typ == TYPE_MSG && e.sn < TWO_64 && (e.sentAt <= 0 || e.sentAt + d.cfg.retry <= d.flush.value.now)
    ensures Bounces(d)
  {
    hide OfferItem;
    OfferedExactlyWhen(d.box.queues, d.cfg, d.flush.value.now, d.flush.value.todo[0]);
  }

  lemma BounceIsCold(d: Daemon)
    requires JournalOk(d) && PaceOk(d) && Bounces(d)
    ensures Cold(NextFlush(d), d.flush.value.todo[0].sn, d.flush.value.now)
    ensures NextFlush(d).stamps == d.stamps
  {
    hide OfferItem, Witnessed;
    var f, e := d.flush.value, d.flush.value.todo[0];
    assert e in f.todo && ItemOk(d, e);
    forall k | 0 <= k < |f.todo[1..]| ensures f.todo[1..][k].sn != e.sn {
      assert f.todo[1..][k] == f.todo[k + 1];
    }
  }

  lemma ColdIsEligible(d: Daemon, n: nat, t0: int)
    requires Cold(d, n, t0) && d.flush.Some?
    ensures forall e :: e in d.flush.value.todo && e.sn == n ==> !InWindow(e, d.flush.value.now, d.cfg.retry)
  {
  }

  /** In every run, a row that bounced off a full queue stays eligible until it is
      enqueued: whatever else happens, short of a restart, every later flush finds it
      outside its retry window and offers it again. */
  lemma BouncedStaysEligible(s: System, x: Side, steps: seq<Step>)
    requires Reachable(s) && Bounces(s.At(x)) && NoRestart(steps, x)
    requires var s1 := Do(s, Step(x, FlushNext));
             forall i :: |s1.At(x).stamps| <= i < |Run(s1, steps).At(x).stamps| ==>
               Run(s1, steps).At(x).stamps[i].sn != s.At(x).flush.value.todo[0].sn
    ensures var d := Run(Do(s, Step(x, FlushNext)), steps).At(x);
            d.flush.Some? ==>
              forall e :: e in d.flush.value.todo && e.sn == s.At(x).flush.value.todo[0].sn ==>
                !InWindow(e, d.flush.value.now, d.cfg.retry)
  {
    hide Inv, Run, Reachable, JournalOk, PaceOk, NextFlush;
    var n, t0 := s.At(x).flush.value.todo[0].sn, s.At(x).flush.value.now;
    var s1 := Do(s, Step(x, FlushNext));
    ReachableHasInv(s);
    DoKeepsInv(s, Step(x, FlushNext));
    ReachableHasPace(s, x);
    BounceIsCold(s.At(x));
    RunStampsGrow(s1, steps, x);
    RunStaysCold(s1, steps, x, n, t0);
    if Run(s1, steps).At(x).flush.Some? { ColdIsEligible(Run(s1, steps).At(x), n, t0); }
  }

  // ------------------------------------------------------------------ whole flushes

  /** At the `i`-th of `steps` the flush of `x` takes up the item `e`. */
  ghost predicate TurnAt(s: System, steps: seq<Step>, x: Side, i: nat, e: Item) {
    && i < |steps| && steps[i] == Step(x, FlushNext)
    && var f := Run(s, steps[..i]).At(x).flush;
    f.Some? && f.value.mark.None? && f.value.todo != [] && f.value.todo[0] == e
  }

  ghost predicate StillToDo(d: Daemon, e: Item) {
    d.flush.Some? && e in d.flush.value.todo
  }

  lemma NextKeepsToDo(d: Daemon, e: Item)
    requires StillToDo(d, e)
    ensures StillToDo(NextFlush(d), e) || (d.flush.value.mark.None? && d.flush.value.todo[0] == e)
  {
    hide OfferItem;
    var todo := d.flush.value.todo;
    if todo != [] && todo[0] != e {
      var i :| 0 <= i < |todo| && todo[i] == e;
      assert todo[1..][i - 1] == e;
    }
  }

  lemma ActKeepsToDo(d: Daemon, a: Action, e: Item)
    requires StillToDo(d, e) && !a.Restart?
    ensures StillToDo(Act(d, a), e)
            || (a.FlushNext? && d.flush.Some? && d.flush.value.mark.None? && d.flush.value.todo != [] && d.flush.value.todo[0] == e)
  {
    hide ReceivePacket, NextFlush, BeginSend, CommitSend, Advance, Attachments.Drop;
    match a
    case Receive(r) => ReceiveFrame(d, r);
    case FlushNext => NextKeepsToDo(d, e);
    case SendBegin(isFile, body) => SendKeepsToDo(d, isFile, body, 0, 0);
    case SendCommit(n, ts) => SendKeepsToDo(d, false, [], n, ts);
    case _ =>
  }

  lemma SendKeepsToDo(d: Daemon, isFile: bool, body: bytes, n: nat, ts: i64)
    ensures BeginSend(d, isFile, body).flush == d.flush && CommitSend(d, n, ts).flush == d.flush
  {
  }

  /** A flush does not end before every row of its snapshot has had its turn: whatever
      happens short of a restart, by the time no flush is running each of them was taken up. */
  lemma {:induction false} EveryRowHasItsTurn(s: System, x: Side, e: Item, steps: seq<Step>)
    requires StillToDo(s.At(x), e) && NoRestart(steps, x)
    ensures StillToDo(Run(s, steps).At(x), e) || exists i :: TurnAt(s, steps, x, i, e)
  {
    hide Act, StillToDo;
    if steps == [] {
      assert Run(s, steps) == s;
    } else {
      var n := |steps| - 1;
      var init, last := steps[..n], steps[n];
      EveryRowHasItsTurn(s, x, e, init);
      if i: nat :| TurnAt(s, init, x, i, e) {
        assert init[..i] == steps[..i];
        assert TurnAt(s, steps, x, i, e);
      } else if Run(s, steps).At(x) != Run(s, init).At(x) {
        ActKeepsToDo(Run(s, init).At(x), last.action, e);
        if !StillToDo(Run(s, steps).At(x), e) {
          assert steps[..n] == init;
          assert TurnAt(s, steps, x, n, e);
        }
      }
    }
  }
}
