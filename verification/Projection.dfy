/** The daemon's runs and the client's sync rounds together: when the projection of the
    inbox of one side is complete. */
module Projection {
  import opened Bytes
  import opened Ranks
  import opened Mail
  import opened Delivery
  import opened Sync
  import Inbox
  import opened Envelopes
  import opened Outbox
  import opened Runs
  import opened Progress
  import opened FairRuns
  import opened Replay
  import EndToEnd
  import Nodes

  /** Daemon steps, then a sync round of both clients, and so on. */
  ghost function StateAfter(s0: System, sessions: seq<seq<Delivery.Step>>): System {
    if sessions == [] then s0 else Run(StateAfter(s0, sessions[..|sessions| - 1]), sessions[|sessions| - 1])
  }

  /** The inbox of `y` as each round finds it. */
  ghost function Journals(s0: System, y: Side, sessions: seq<seq<Delivery.Step>>): seq<map<int, Inbox.Entry>> {
    if sessions == [] then []
    else Journals(s0, y, sessions[..|sessions| - 1]) + [StateAfter(s0, sessions).At(y).box.inbox.rows]
  }

  ghost function Synced(s0: System, y: Side, sessions: seq<seq<Delivery.Step>>, peer: string, open: Opener): Clients {
    SyncEach(NEW_CLIENTS, peer, Journals(s0, y, sessions), open)
  }

  // ------------------------------------------------ what steps do to the journal

  ghost predicate LogGains(d: Daemon, d': Daemon, w: int) {
    d.log <= d'.log && forall i :: |d.log| <= i < |d'.log| ==> d'.log[i] > w
  }

  lemma ReceiveLogs(d: Daemon, r: Receipt)
    ensures var d', (box, effect) := ReceivePacket(d, r), Handle(d.box, d.cfg, r.packet, r.ackRuns);
            if !d.blocked && r.commits && effect.Text? && effect.isNew then
              d'.box == box && d'.log == d.log + [ToSigned(effect.sn)]
            else
              d'.log == d.log && (d'.box == d.box || (d'.box == box && !(effect.Text? && effect.isNew)))
  {
    hide Handle;
  }

  lemma ReceiveFollows(d: Daemon, r: Receipt, w: nat)
    requires LogGains(d, ReceivePacket(d, r), w)
    ensures Follows(d.box.inbox.rows, ReceivePacket(d, r).box.inbox.rows, w)
  {
    hide Handle, ReceivePacket;
    ReceiveLogs(d, r);
    EndToEnd.HandleRows(d.box, d.cfg, r.packet, r.ackRuns);
    var d' := ReceivePacket(d, r);
    if d'.log != d.log {
      assert d'.log[|d.log|] > w;
    }
  }

  lemma LogGrows(d: Daemon, a: Action)
    ensures d.log <= Act(d, a).log
  {
    if a.Receive? {
      hide Handle;
    } else {
      OnlyReceivingTakes(d, a);
      hide Act;
    }
  }

  lemma ActFollows(d: Daemon, a: Action, w: nat)
    requires LogGains(d, Act(d, a), w)
    ensures Follows(d.box.inbox.rows, Act(d, a).box.inbox.rows, w)
  {
    if a.Receive? {
      hide ReceivePacket;
      ReceiveFollows(d, a.receipt, w);
    } else {
      OnlyReceivingTakes(d, a);
      hide Act;
    }
  }

  lemma {:induction false} RunLogGrows(s: System, steps: seq<Delivery.Step>, y: Side)
    ensures s.At(y).log <= Run(s, steps).At(y).log
  {
    hide Act;
    if steps != [] {
      var init, last := steps[..|steps| - 1], steps[|steps| - 1];
      RunLogGrows(s, init, y);
      LogGrows(Run(s, init).At(last.side), last.action);
    }
  }

  lemma {:induction false} RunFollows(s: System, steps: seq<Delivery.Step>, y: Side, w: nat)
    requires LogGains(s.At(y), Run(s, steps).At(y), w)
    ensures Follows(s.At(y).box.inbox.rows, Run(s, steps).At(y).box.inbox.rows, w)
  {
    hide Act, Follows;
    if steps == [] {
      FollowsItself(s.At(y).box.inbox.rows, w);
    } else {
      var init, last := steps[..|steps| - 1], steps[|steps| - 1];
      var t, t' := Run(s, init), Run(s, steps);
      RunLogGrows(s, init, y);
      LogGrows(t.At(last.side), last.action);
      RunFollows(s, init, y, w);
      if t'.At(y) != t.At(y) {
        ActFollows(t.At(y), last.action, w);
        FollowsOn(s.At(y).box.inbox.rows, t.At(y).box.inbox.rows, t'.At(y).box.inbox.rows, w);
      }
    }
  }

  lemma FollowsItself(rows: map<int, Inbox.Entry>, w: nat)
    ensures Follows(rows, rows, w)
  {
  }

  lemma FollowsOn(a: map<int, Inbox.Entry>, b: map<int, Inbox.Entry>, c: map<int, Inbox.Entry>, w: nat)
    requires Follows(a, b, w) && Follows(b, c, w)
    ensures Follows(a, c, w)
  {
  }

  // ------------------------------------------------------ complete projections

  /** Whatever `y` accepts after a round lies above the watermark that round set. */
  ghost predicate AcceptsAbove(s0: System, y: Side, sessions: seq<seq<Delivery.Step>>, peer: string, open: Opener) {
    forall i :: 0 <= i < |sessions| ==>
      LogGains(StateAfter(s0, sessions[..i]).At(y), StateAfter(s0, sessions[..i + 1]).At(y),
               Cursor(Synced(s0, y, sessions[..i], peer, open).view.marks, peer))
  }

  lemma AcceptsAboveBefore(s0: System, y: Side, sessions: seq<seq<Delivery.Step>>, peer: string, open: Opener)
    requires sessions != [] && AcceptsAbove(s0, y, sessions, peer, open)
    ensures AcceptsAbove(s0, y, sessions[..|sessions| - 1], peer, open)
  {
    hide StateAfter, Synced, LogGains, Cursor;
    var init := sessions[..|sessions| - 1];
    forall i | 0 <= i < |init|
      ensures LogGains(StateAfter(s0, init[..i]).At(y), StateAfter(s0, init[..i + 1]).At(y),
                       Cursor(Synced(s0, y, init[..i], peer, open).view.marks, peer))
    {
      assert init[..i] == sessions[..i] && init[..i + 1] == sessions[..i + 1];
    }
  }

  lemma SyncedOneMore(s0: System, y: Side, sessions: seq<seq<Delivery.Step>>, peer: string, open: Opener)
    requires sessions != []
    ensures Synced(s0, y, sessions, peer, open) ==
            SyncBoth(Synced(s0, y, sessions[..|sessions| - 1], peer, open), peer,
                     StateAfter(s0, sessions).At(y).box.inbox.rows, open)
  {
    hide SyncBoth, StateAfter;
    var journals := Journals(s0, y, sessions);
    assert journals[..|journals| - 1] == Journals(s0, y, sessions[..|sessions| - 1]);
  }

  /** In every run with sync rounds in between: as long as what the daemon accepts lies
      above the client's watermark, the client's rows are those of a client that fetches
      everything each time, whatever was trimmed, lost, repeated or restarted. */
  lemma {:induction false} ProjectionIsComplete(s0: System, y: Side, sessions: seq<seq<Delivery.Step>>, peer: string, open: Opener)
    requires IsStart(s0) && AcceptsAbove(s0, y, sessions, peer, open)
    ensures var c := Synced(s0, y, sessions, peer, open);
            && c.view.rows == c.rescanned
            && InStep(c, peer, StateAfter(s0, sessions).At(y).box.inbox.rows, open)
  {
    hide SyncBoth, InStep, Follows, Run, LogGains, Synced;
    if sessions == [] {
      NothingSyncedYet(s0, y, peer, open);
    } else {
      var n := |sessions| - 1;
      var init := sessions[..n];
      AcceptsAboveBefore(s0, y, sessions, peer, open);
      ProjectionIsComplete(s0, y, init, peer, open);
      var c, s := Synced(s0, y, init, peer, open), StateAfter(s0, init);
      assert sessions[..n + 1] == sessions;
      RunFollows(s, sessions[n], y, Cursor(c.view.marks, peer));
      RoundStaysInStep(c, peer, s.At(y).box.inbox.rows, StateAfter(s0, sessions).At(y).box.inbox.rows, open);
      SyncedOneMore(s0, y, sessions, peer, open);
      StepIsEqual(Synced(s0, y, sessions, peer, open), peer, StateAfter(s0, sessions).At(y).box.inbox.rows, open);
    }
  }

  lemma StepIsEqual(c: Clients, peer: string, journal: map<int, Inbox.Entry>, open: Opener)
    requires InStep(c, peer, journal, open)
    ensures c.view.rows == c.rescanned
  {
  }

  lemma NothingSyncedYet(s0: System, y: Side, peer: string, open: Opener)
    requires IsStart(s0)
    ensures var c := Synced(s0, y, [], peer, open);
            c.view.rows == c.rescanned && InStep(c, peer, s0.At(y).box.inbox.rows, open)
  {
  }

  // ------------------------------------------- events and deletions after a run

  /** What each seq can hold in the inbox: the peer's queued text of that seq. */
  function TextsOf(d: Daemon): map<int, Inbox.Entry> {
    map n: int | n in d.queued && d.queued[n].typ == TYPE_MSG :: Inbox.Entry(d.queued[n].ts, d.queued[n].payload)
  }

  lemma InboxIsWithin(s: System, y: Side)
    requires Reachable(s)
    ensures Within(s.At(y).box.inbox.rows, TextsOf(s.At(Other(y))))
  {
    hide Reachable;
    assert Other(Other(y)) == y;
    EndToEnd.StoresHoldWhatWasQueued(s, Other(y));
  }

  ghost predicate AllWithin(journals: seq<map<int, Inbox.Entry>>, source: map<int, Inbox.Entry>) {
    forall i :: 0 <= i < |journals| ==> Within(journals[i], source)
  }

  lemma TextsGrow(d: Daemon, d': Daemon, journals: seq<map<int, Inbox.Entry>>)
    requires Grows(d, d') && AllWithin(journals, TextsOf(d))
    ensures AllWithin(journals, TextsOf(d'))
  {
    forall i | 0 <= i < |journals| ensures Within(journals[i], TextsOf(d')) {
      assert Within(journals[i], TextsOf(d));
    }
  }

  lemma {:induction false} StateIsReachable(s0: System, sessions: seq<seq<Delivery.Step>>)
    requires IsStart(s0)
    ensures Reachable(StateAfter(s0, sessions))
  {
    hide Run, Reachable;
    if sessions == [] {
      assert Reachable(s0) by { StartReaches(s0, []); RunNothing(s0); }
    } else {
      StateIsReachable(s0, sessions[..|sessions| - 1]);
      RunStaysReachable(StateAfter(s0, sessions[..|sessions| - 1]), sessions[|sessions| - 1]);
    }
  }

  lemma {:induction false} JournalsAreWithin(s0: System, y: Side, sessions: seq<seq<Delivery.Step>>)
    requires IsStart(s0)
    ensures AllWithin(Journals(s0, y, sessions), TextsOf(StateAfter(s0, sessions).At(Other(y))))
  {
    hide Run, Within, TextsOf, IsStart, Grows, Reachable, Inv;
    if sessions != [] {
      var init := sessions[..|sessions| - 1];
      var s, t := StateAfter(s0, init), StateAfter(s0, sessions);
      JournalsAreWithin(s0, y, init);
      StateHasInv(s0, init);
      RunGrows(s, sessions[|sessions| - 1], Other(y));
      TextsGrow(s.At(Other(y)), t.At(Other(y)), Journals(s0, y, init));
      StateIsReachable(s0, sessions);
      InboxIsWithin(t, y);
    }
  }

  /** In every run the client's rows carry what the daemon's entries of the same seq route to. */
  lemma RowsMatchInEveryRun(s0: System, y: Side, sessions: seq<seq<Delivery.Step>>, more: seq<Delivery.Step>,
                            peer: string, open: Opener)
    requires IsStart(s0)
    ensures RowsMatch(Synced(s0, y, sessions, peer, open).view, peer,
                      Run(StateAfter(s0, sessions), more).At(y).box.inbox.rows, open)
  {
    hide Run, Within, TextsOf, Grows, Reachable, Inv, SyncEach, Journals, RowsMatch, IsStart;
    var s, journals := StateAfter(s0, sessions), Journals(s0, y, sessions);
    var t := Run(s, more);
    JournalsAreWithin(s0, y, sessions);
    StateHasInv(s0, sessions);
    RunGrows(s, more, Other(y));
    TextsGrow(s.At(Other(y)), t.At(Other(y)), journals);
    assert RowsMatch(NEW_CLIENTS.view, peer, TextsOf(t.At(Other(y))), open) by { NoRowsMatch(peer, TextsOf(t.At(Other(y))), open); }
    RoundsKeepMatch(NEW_CLIENTS, peer, journals, TextsOf(t.At(Other(y))), open);
    StateIsReachable(s0, sessions);
    RunStaysReachable(s, more);
    InboxIsWithin(t, y);
    MatchWithin(Synced(s0, y, sessions, peer, open).view, peer, t.At(y).box.inbox.rows, TextsOf(t.At(Other(y))), open);
  }

  lemma NoRowsMatch(peer: string, source: map<int, Inbox.Entry>, open: Opener)
    ensures RowsMatch(NEW_CLIENTS.view, peer, source, open)
  {
  }

  /** After a complete projection, and before the next round, the client is caught up. */
  lemma CaughtUpBetweenRounds(s0: System, y: Side, sessions: seq<seq<Delivery.Step>>, more: seq<Delivery.Step>,
                              peer: string, open: Opener)
    requires IsStart(s0) && AcceptsAbove(s0, y, sessions + [more], peer, open)
    ensures CaughtUp(Synced(s0, y, sessions, peer, open).view, peer,
                     Run(StateAfter(s0, sessions), more).At(y).box.inbox.rows, open)
  {
    hide Run, LogGains, Synced, IsStart, Follows, CaughtUp;
    var all := sessions + [more];
    assert all[..|all| - 1] == sessions && all[..|sessions|] == sessions && all[..|sessions| + 1] == all;
    AcceptsAboveBefore(s0, y, all, peer, open);
    ProjectionIsComplete(s0, y, sessions, peer, open);
    var c, s := Synced(s0, y, sessions, peer, open), StateAfter(s0, sessions);
    assert StateAfter(s0, all) == Run(s, more);
    RunFollows(s, more, y, Cursor(c.view.marks, peer));
    StillCaughtUp(c.view, peer, s.At(y).box.inbox.rows, Run(s, more).At(y).box.inbox.rows, open);
  }

  /** In every run that accepts above the watermark: a live event before the next round
      leaves that round complete if and only if what it jumps over is stored. */
  lemma EventInARun(s0: System, y: Side, sessions: seq<seq<Delivery.Step>>, more: seq<Delivery.Step>,
                    peer: string, open: Opener, sn: nat, o: Opened)
    requires IsStart(s0) && AcceptsAbove(s0, y, sessions + [more], peer, open)
    ensures var v, journal := Synced(s0, y, sessions, peer, open).view, Run(StateAfter(s0, sessions), more).At(y).box.inbox.rows;
            var v' := OnEvent(v, peer, sn, o);
            SyncRound(v', peer, journal, open).rows == Rescan(v'.rows, peer, journal, open) <==>
            forall n :: n in journal && Cursor(v.marks, peer) < n < sn && open(journal[n].payload).Some? ==>
              InKey(peer, n) in v.rows
  {
    hide Run, StateAfter, Synced, AcceptsAbove, CaughtUp, SyncRound, Rescan, OnEvent;
    CaughtUpBetweenRounds(s0, y, sessions, more, peer, open);
    EventKeepsUpExactlyWhen(Synced(s0, y, sessions, peer, open).view, peer, sn, o,
                            Run(StateAfter(s0, sessions), more).At(y).box.inbox.rows, open);
  }

  /** In every such run: deleting a room before the next round leaves that round complete
      for the other conversations if and only if theirs up to the scan point were stored. */
  lemma DeletingInARun(s0: System, y: Side, sessions: seq<seq<Delivery.Step>>, more: seq<Delivery.Step>,
                       peer: string, open: Opener, conv: string, latest: nat)
    requires IsStart(s0) && AcceptsAbove(s0, y, sessions + [more], peer, open)
    ensures var v, journal := Synced(s0, y, sessions, peer, open).view, Run(StateAfter(s0, sessions), more).At(y).box.inbox.rows;
            var v' := Deleted(v, conv, peer, latest);
            Others(SyncRound(v', peer, journal, open).rows, conv) == Others(Rescan(v'.rows, peer, journal, open), conv) <==>
            forall n :: n in journal && Cursor(v.marks, peer) < n <= latest && ForOthers(conv, peer, journal, open, n) ==>
              InKey(peer, n) in v.rows
  {
    hide Run, StateAfter, Synced, AcceptsAbove, CaughtUp, SyncRound, Rescan, Deleted, Others, OthersCaughtUp, RowsMatch;
    var v := Synced(s0, y, sessions, peer, open).view;
    var journal := Run(StateAfter(s0, sessions), more).At(y).box.inbox.rows;
    CaughtUpBetweenRounds(s0, y, sessions, more, peer, open);
    CaughtUpIsForOthers(v, conv, peer, journal, open);
    RowsMatchInEveryRun(s0, y, sessions, more, peer, open);
    DeletingKeepsOthersExactlyWhen(v, conv, peer, latest, journal, open);
  }

  // ----------------------------------------------------------- acceptance in order

  /** The watermark never passes what the daemon has accepted. */
  lemma {:induction false} CursorIsLogged(s0: System, y: Side, sessions: seq<seq<Delivery.Step>>, peer: string, open: Opener)
    requires IsStart(s0)
    ensures var w := Cursor(Synced(s0, y, sessions, peer, open).view.marks, peer);
            w == 0 || w in StateAfter(s0, sessions).At(y).log
  {
    hide Synced, Run, Inv, SyncBoth;
    if sessions == [] {
      NoCursorYet(s0, y, peer, open);
    } else {
      var init := sessions[..|sessions| - 1];
      CursorIsLogged(s0, y, init, peer, open);
      var s, c := StateAfter(s0, sessions), Synced(s0, y, init, peer, open);
      RunLogGrows(StateAfter(s0, init), sessions[|sessions| - 1], y);
      SyncedOneMore(s0, y, sessions, peer, open);
      RoundCursor(c, peer, s.At(y).box.inbox.rows, open);
      StateHasInv(s0, sessions);
      RowsAreLogged(s, y);
    }
  }

  lemma NoCursorYet(s0: System, y: Side, peer: string, open: Opener)
    ensures Cursor(Synced(s0, y, [], peer, open).view.marks, peer) == 0
  {
  }

  lemma RoundCursor(c: Clients, peer: string, journal: map<int, Inbox.Entry>, open: Opener)
    ensures var w, w' := Cursor(c.view.marks, peer), Cursor(SyncBoth(c, peer, journal, open).view.marks, peer);
            w' == w || w' in journal
  {
    hide TakeAll, Inbox.Listing;
    var w := Cursor(c.view.marks, peer);
    var msgs := Inbox.Listing(journal, w);
    forall m | m in msgs ensures m.sn in journal { Inbox.ListingHolds(journal, w, m); }
  }

  lemma {:induction false} StateHasInv(s0: System, sessions: seq<seq<Delivery.Step>>)
    requires IsStart(s0)
    ensures Inv(StateAfter(s0, sessions))
  {
    hide Inv, Run, IsStart;
    if sessions == [] {
      StartHasInv(s0);
    } else {
      StateHasInv(s0, sessions[..|sessions| - 1]);
      RunKeepsInv(StateAfter(s0, sessions[..|sessions| - 1]), sessions[|sessions| - 1]);
    }
  }

  lemma RowsAreLogged(s: System, y: Side)
    requires Inv(s)
    ensures forall n :: n in s.At(y).box.inbox.rows ==> n in s.At(y).log
  {
    hide JournalOk, PacketsOk, FilesOk, Linked, AtMostOnceWithin;
    var d := s.At(y);
    assert LocalOk(d);
    TopIsWithin(d.accepted.Keys, d.cfg.capacity);
    forall n | n in d.box.inbox.rows ensures n in d.log {
      assert n in Accepted(d.log);
    }
  }

  lemma LogIsPositive(s: System, y: Side)
    requires Inv(s)
    ensures forall n :: n in s.At(y).log ==> n >= 1
  {
    hide PacketsOk, FilesOk, AtMostOnceWithin, Inbox.Reflects;
    var me, peer := s.At(y), s.At(Other(y));
    assert LocalOk(me) && LocalOk(peer) && TookWhatWasQueued(peer, me);
    forall n | n in me.log ensures n >= 1 {
      var i :| 0 <= i < |me.log| && me.log[i] == n;
      assert n in Accepted(me.log);
      assert n in me.accepted;
    }
  }

  lemma {:induction false} LogsGrow(s0: System, y: Side, sessions: seq<seq<Delivery.Step>>, i: nat)
    requires i <= |sessions|
    ensures StateAfter(s0, sessions[..i]).At(y).log <= StateAfter(s0, sessions).At(y).log
    decreases |sessions|
  {
    hide Run;
    if i < |sessions| {
      var init := sessions[..|sessions| - 1];
      assert init[..i] == sessions[..i];
      LogsGrow(s0, y, init, i);
      RunLogGrows(StateAfter(s0, init), sessions[|sessions| - 1], y);
    } else {
      assert sessions[..i] == sessions;
    }
  }

  lemma SessionGains(s0: System, y: Side, sessions: seq<seq<Delivery.Step>>, i: nat, peer: string, open: Opener)
    requires IsStart(s0) && i < |sessions| && Increasing(StateAfter(s0, sessions).At(y).log)
    ensures LogGains(StateAfter(s0, sessions[..i]).At(y), StateAfter(s0, sessions[..i + 1]).At(y),
                     Cursor(Synced(s0, y, sessions[..i], peer, open).view.marks, peer))
  {
    hide Synced, Cursor, StateAfter, Inv;
    var log := StateAfter(s0, sessions).At(y).log;
    var one, two := StateAfter(s0, sessions[..i]).At(y).log, StateAfter(s0, sessions[..i + 1]).At(y).log;
    var w := Cursor(Synced(s0, y, sessions[..i], peer, open).view.marks, peer);
    LogsGrow(s0, y, sessions, i + 1);
    assert sessions[..i + 1][..i] == sessions[..i];
    LogsGrow(s0, y, sessions[..i + 1], i);
    StateHasInv(s0, sessions);
    LogIsPositive(StateAfter(s0, sessions), y);
    CursorIsLogged(s0, y, sessions[..i], peer, open);
    forall k | |one| <= k < |two| ensures two[k] > w {
      assert two[k] == log[k] && log[k] in log;
      if w != 0 {
        var m :| 0 <= m < |one| && one[m] == w;
        assert log[m] == w;
      }
    }
  }

  /** In every run in which a daemon accepts its peer's texts in seq order, with any
      losses, repeats, restarts and trimming, and with sync rounds anywhere in between,
      the client's rows are those of a client that fetches everything each time. */
  lemma InOrderIsComplete(s0: System, y: Side, sessions: seq<seq<Delivery.Step>>, peer: string, open: Opener)
    requires IsStart(s0) && Increasing(StateAfter(s0, sessions).At(y).log)
    ensures var c := Synced(s0, y, sessions, peer, open); c.view.rows == c.rescanned
  {
    hide LogGains, StateAfter, Synced, Increasing;
    forall i | 0 <= i < |sessions|
      ensures LogGains(StateAfter(s0, sessions[..i]).At(y), StateAfter(s0, sessions[..i + 1]).At(y),
                       Cursor(Synced(s0, y, sessions[..i], peer, open).view.marks, peer))
    {
      SessionGains(s0, y, sessions, i, peer, open);
    }
    ProjectionIsComplete(s0, y, sessions, peer, open);
  }

  // ------------------------------------------------------- acceptance out of order

  /** The packet of a text. */
  function TextPacket(body: bytes, n: u64): bytes
    requires |body| <= MAX_PAYLOAD
  {
    Encode(EnvelopeOf(Item(n, TextRow(body), 0))).value
  }

  /** The envelope and the link can carry each of these bodies. */
  ghost predicate Fit(bodies: seq<bytes>, mtu: nat) {
    forall i :: 0 <= i < |bodies| ==> |bodies[i]| <= MAX_PAYLOAD && HEADER_SIZE + |bodies[i]| <= mtu
  }

  lemma TurnEnqueuesText(d: Daemon, now: int, items: seq<Item>, body: bytes)
    requires Midway(d, now, items) && items != [] && |d.box.queues.control| < Nodes.CONTROL_BOUND
    requires |body| <= MAX_PAYLOAD && HEADER_SIZE + |body| <= d.cfg.mtu
    requires items[0].row == TextRow(body) && items[0].sentAt == 0
    ensures Turn(d).box.queues.control == d.box.queues.control + [TextPacket(body, items[0].sn)]
  {
    hide Encode;
    PacketDecodes(TextRow(body), items[0].sn);
    assert EnvelopeOf(items[0]) == EnvelopeOf(Item(items[0].sn, TextRow(body), 0));
    NextIs(d, now, items);
    hide NextFlush;
  }

  /** The snapshot of a flush over two texts, neither of them enqueued before. */
  function TwoItems(one: bytes, two: bytes): seq<Item> {
    [Item(1, TextRow(one), 0), Item(2, TextRow(two), 0)]
  }

  /** Two turns over texts that fit enqueue both. */
  lemma TwoTurns(d: Daemon, now: int, one: bytes, two: bytes)
    requires Midway(d, now, TwoItems(one, two)) && d.box.queues.control == [] && Fit([one, two], d.cfg.mtu)
    ensures |one| <= MAX_PAYLOAD && |two| <= MAX_PAYLOAD
    ensures TurnsOf(d, 2).box.queues.control == [TextPacket(one, 1), TextPacket(two, 2)]
  {
    var bodies, items := [one, two], TwoItems(one, two);
    assert |bodies[0]| <= MAX_PAYLOAD && HEADER_SIZE + |bodies[0]| <= d.cfg.mtu;
    assert |bodies[1]| <= MAX_PAYLOAD && HEADER_SIZE + |bodies[1]| <= d.cfg.mtu;
    hide Turn, TextPacket, Fit;
    TurnEnqueuesText(d, now, items, one);
    TurnIsFlushItem(d, now, items);
    TurnEnqueuesText(Turn(d), now, items[1..], two);
    assert TurnsOf(d, 2) == Turn(TurnsOf(d, 1)) && TurnsOf(d, 1) == Turn(TurnsOf(d, 0)) && TurnsOf(d, 0) == d;
  }

  /** Two texts queued, flushed and written, and nothing received yet. */
  lemma TwoOnTheWire(s0: System, one: bytes, two: bytes) returns (steps: seq<Delivery.Step>)
    requires IsStart(s0) && Fit([one, two], s0.a.cfg.mtu)
    ensures |one| <= MAX_PAYLOAD && |two| <= MAX_PAYLOAD && Run(s0, steps).b == s0.b
    ensures TextPacket(one, 1) in Run(s0, steps).a.wire && TextPacket(two, 2) in Run(s0, steps).a.wire
  {
    hide Run, Texts, Act, TextPacket, JournalOk, TurnsOf, Turns, Fit;
    var first := SendMany(s0, [one, two]);
    var s1 := Run(s0, first);
    var flush, s2 := FlushTwo(s1, s0, one, two);
    var drain := Drain(s2, A);
    RunAppends(s0, first, flush);
    RunAppends(s0, first + flush, drain);
    OtherStands(s2, drain, A);
    DrainWrites(s2, drain, A, TextPacket(one, 1));
    DrainWrites(s2, drain, A, TextPacket(two, 2));
    steps := first + flush + drain;
  }

  lemma FlushTwo(s1: System, s0: System, one: bytes, two: bytes) returns (steps: seq<Delivery.Step>, s2: System)
    requires IsStart(s0) && Fit([one, two], s0.a.cfg.mtu) && Texts(s1, s0, [one, two])
    ensures |one| <= MAX_PAYLOAD && |two| <= MAX_PAYLOAD && s2 == Run(s1, steps) && s2.b == s0.b
    ensures TextPacket(one, 1) in s2.a.box.queues.control && TextPacket(two, 2) in s2.a.box.queues.control
  {
    hide Run, TextPacket, TurnsOf, Turns, Fit, Texts, BeginFlush, TwoItems, Midway;
    TextsAreTwo(s1, s0, one, two);
    BegunTwo(s1.a, one, two);
    var begin := Delivery.Step(A, FlushBegin);
    RunOne(s1, begin, Turns(A, 2));
    RunTurns(Do(s1, begin), A, 2);
    TwoTurns(BeginFlush(s1.a), s1.a.clock, one, two);
    steps := [begin] + Turns(A, 2);
    s2 := Run(s1, steps);
  }

  lemma BegunTwo(d: Daemon, one: bytes, two: bytes)
    requires !d.blocked && d.flush.None? && d.box.journal.sent == map[]
    requires d.box.journal.rows == map[1 := TextRow(one), 2 := TextRow(two)]
    ensures Midway(BeginFlush(d), d.clock, TwoItems(one, two))
    ensures BeginFlush(d).box == d.box && BeginFlush(d).cfg == d.cfg
  {
    TwoPending(d.box.journal, one, two);
    hide PendingItems, TwoItems, ItemsOk;
  }

  lemma TextsAreTwo(s1: System, s0: System, one: bytes, two: bytes)
    requires IsStart(s0) && Texts(s1, s0, [one, two])
    ensures s1.b == s0.b && s1.a.cfg == s0.a.cfg && !s1.a.blocked && s1.a.flush.None? && s1.a.box.queues.control == []
    ensures s1.a.box.journal.sent == map[] && s1.a.box.journal.rows == map[1 := TextRow(one), 2 := TextRow(two)]
  {
    var bodies := [one, two];
    assert bodies[0] == one && bodies[1] == two;
  }

  lemma TwoPending(j: Journal, one: bytes, two: bytes)
    requires j.rows == map[1 := TextRow(one), 2 := TextRow(two)] && j.sent == map[]
    ensures PendingItems(j) == TwoItems(one, two) && ItemsOk(TwoItems(one, two))
  {
    PendingIsSorted(j);
    TwoRows(one, two);
    hide PendingItems, TextRow;
    PendingAt(j, 0);
    PendingAt(j, 1);
    hide SentAt;
    NothingSent(j, 1);
    NothingSent(j, 2);
  }

  lemma TwoRows(one: bytes, two: bytes)
    ensures var rows: map<nat, Row> := map[1 := TextRow(one), 2 := TextRow(two)];
            |rows| == 2 && (forall n :: n in rows <==> n == 1 || n == 2)
    ensures ItemsOk(TwoItems(one, two))
  {
    var rows: map<nat, Row> := map[1 := TextRow(one), 2 := TextRow(two)];
    assert rows.Keys == {1, 2};
    assert |rows| == |rows.Keys|;
  }

  lemma PendingAt(j: Journal, i: nat)
    requires i < |PendingItems(j)|
    ensures |PendingItems(j)| == |j.rows|
    ensures var e := PendingItems(j)[i]; e.sn in j.rows && e == Item(e.sn, j.rows[e.sn], SentAt(j.sent, e.sn))
  {
  }

  lemma NothingSent(j: Journal, n: nat)
    requires j.sent == map[]
    ensures SentAt(j.sent, n) == 0
  {
  }

  lemma DrainWrites(s: System, steps: seq<Delivery.Step>, x: Side, p: bytes)
    requires Drained(s, steps, x) && p in s.At(x).box.queues.control
    ensures p in Run(s, steps).At(x).wire
  {
    hide Act, Output, OnlyAcks;
    assert steps[..0] == [];
    QuietIsCalm(steps);
    var j := LeavesByWriting(s, steps, x, Nodes.Control, 0, p);
    WrittenIsOnWire(s, steps, x, j, |steps|, p);
    assert steps[..|steps|] == steps;
  }

  /** A fresh text within the capacity joins the journal with its content. */
  lemma AcceptsText(d: Daemon, body: bytes, n: u64, accepted: set<int>)
    requires Inbox.Reflects(d.box.inbox, accepted, d.cfg.capacity) && !d.blocked && |body| <= MAX_PAYLOAD
    requires n < TWO_63 && n !in accepted && |accepted| < d.cfg.capacity
    ensures var d' := ReceivePacket(d, Receipt(TextPacket(body, n), true, true));
            && Inbox.Reflects(d'.box.inbox, accepted + {n}, d.cfg.capacity) && d'.cfg == d.cfg && !d'.blocked
            && d'.box.inbox.rows.Keys == accepted + {n} && d'.box.inbox.rows[n] == Inbox.Entry(0, body)
  {
    hide Decode, Encode, Top;
    PacketDecodes(TextRow(body), n);
    HandleInbox(d.box, d.cfg, TextPacket(body, n), true, accepted);
    TopAll(accepted + {n}, d.cfg.capacity);
    EndToEnd.HandleRows(d.box, d.cfg, TextPacket(body, n), true);
  }

  /** The order matters. For every two texts the first of which the client can open:
      when the second is accepted before a round and the first one after it, the client
      does not have the first one after the next round and never will, though the daemon
      retains it and a full fetch returns it. */
  lemma ReorderingCanLose(s0: System, peer: string, open: Opener, one: bytes, two: bytes)
    returns (sessions: seq<seq<Delivery.Step>>)
    requires IsStart(s0) && Fit([one, two], s0.a.cfg.mtu) && s0.b.cfg.capacity >= 2 && open(one).Some?
    ensures LostAt(Synced(s0, B, sessions, peer, open), peer, 1)
    ensures 1 in StateAfter(s0, sessions).b.box.inbox.rows
    ensures StateAfter(s0, sessions).b.box.inbox.rows[1] == Inbox.Entry(0, one)
  {
    hide Run, ReceivePacket, TextPacket, Inbox.Reflects, SyncBoth, LostAt, Cursor, Fit;
    var before := TwoOnTheWire(s0, one, two);
    var second := Delivery.Step(B, Receive(Receipt(TextPacket(two, 2), true, true)));
    var first := Delivery.Step(B, Receive(Receipt(TextPacket(one, 1), true, true)));
    var s1 := Run(s0, before);
    var s2 := Do(s1, second);
    var s3 := Do(s2, first);
    RunAppends(s0, before, [second]);
    RunSingle(s1, second);
    RunSingle(s2, first);
    assert Inbox.Reflects(s0.b.box.inbox, {}, s0.b.cfg.capacity) by { StartReflects(s0); }
    AcceptsText(s1.b, two, 2, {});
    AcceptsText(s2.b, one, 1, {2});
    sessions := [before + [second], [first]];
    TwoSessions(s0, sessions[0], sessions[1], peer, open);
    var c := SyncBoth(NEW_CLIENTS, peer, s2.b.box.inbox.rows, open);
    FirstRoundSkips(s2.b.box.inbox.rows, peer, open);
    SecondRoundLoses(c, s3.b.box.inbox.rows, peer, open);
  }

  lemma StartReflects(s0: System)
    requires IsStart(s0)
    ensures Inbox.Reflects(s0.b.box.inbox, {}, s0.b.cfg.capacity)
  {
  }

  lemma TwoSessions(s0: System, one: seq<Delivery.Step>, two: seq<Delivery.Step>, peer: string, open: Opener)
    ensures StateAfter(s0, [one, two]) == Run(Run(s0, one), two)
    ensures var s := Run(s0, one);
            Synced(s0, B, [one, two], peer, open) ==
            SyncBoth(SyncBoth(NEW_CLIENTS, peer, s.b.box.inbox.rows, open), peer, Run(s, two).b.box.inbox.rows, open)
  {
    hide SyncBoth, Run;
    var both := [one, two];
    assert both[..1] == [one] && [one][..0] == [];
    assert StateAfter(s0, [one]) == Run(s0, one) && StateAfter(s0, both) == Run(Run(s0, one), two);
    SyncedOneMore(s0, B, both, peer, open);
    SyncedOneMore(s0, B, [one], peer, open);
    assert Synced(s0, B, [], peer, open) == NEW_CLIENTS;
  }

  lemma FirstRoundSkips(journal: map<int, Inbox.Entry>, peer: string, open: Opener)
    requires journal.Keys == {2}
    ensures var c := SyncBoth(NEW_CLIENTS, peer, journal, open);
            Cursor(c.view.marks, peer) == 2 && InKey(peer, 1) !in c.view.rows
  {
    hide TakeAll, Inbox.Listing;
    var msgs := Inbox.Listing(journal, 0);
    Inbox.ListingHolds(journal, 0, Inbox.Arrival(2, journal[2]));
    forall m | m in msgs ensures m.sn == 2 { Inbox.ListingHolds(journal, 0, m); }
    PassIs(map[], peer, journal, 0, open, InKey(peer, 1));
  }

  lemma SecondRoundLoses(c: Clients, journal: map<int, Inbox.Entry>, peer: string, open: Opener)
    requires Cursor(c.view.marks, peer) == 2 && InKey(peer, 1) !in c.view.rows
    requires 1 in journal && open(journal[1].payload).Some?
    ensures LostAt(SyncBoth(c, peer, journal, open), peer, 1)
  {
    hide TakeAll, Inbox.Listing, Cursor;
    NotFetched(c.view, peer, journal, open, 1);
    PassIs(c.rescanned, peer, journal, 0, open, InKey(peer, 1));
  }
}
