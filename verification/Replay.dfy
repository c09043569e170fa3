/** The replay guard forgets: a run, for every capacity, in which a text is delivered twice. */
module Replay {
  import opened Bytes
  import opened Ranks
  import opened Envelopes
  import opened Outbox
  import opened Mail
  import opened Delivery
  import opened Runs
  import opened Progress
  import opened FairRuns
  import Inbox
  import Attachments

  // ------------------------------------------- what was accepted is still on the wire

  ghost predicate TextOf(p: bytes, n: int) {
    Is(p, TYPE_MSG) && ToSigned(Decode(p).value.sn) == n
  }

  ghost predicate OnWire(d: Daemon, n: int) {
    exists p :: p in d.wire && TextOf(p, n)
  }

  ghost predicate Heard(x: Daemon, y: Daemon) {
    forall n :: n in y.accepted ==> OnWire(x, n)
  }

  lemma ReceiveHears(x: Daemon, y: Daemon, r: Receipt)
    requires Heard(x, y) && r.packet in x.wire
    ensures Heard(x, ReceivePacket(y, r))
  {
    hide Handle, Decode, Attachments.ParseHeader;
    HandleEffect(y.box, y.cfg, r.packet, r.ackRuns);
    var effect := Handle(y.box, y.cfg, r.packet, r.ackRuns).1;
    if effect.Text? { assert TextOf(r.packet, ToSigned(effect.sn)); }
  }

  lemma WireKeepsHeard(x: Daemon, x': Daemon, y: Daemon, y': Daemon)
    requires Heard(x, y) && x.wire <= x'.wire && y'.accepted == y.accepted
    ensures Heard(x', y')
  {
    hide TextOf;
  }

  lemma {:induction false} RunHears(s: System, steps: seq<Step>, x: Side)
    requires Heard(s.At(x), s.At(Other(x)))
    ensures Heard(Run(s, steps).At(x), Run(s, steps).At(Other(x)))
  {
    hide Act, Heard;
    if steps != [] {
      var init, last := steps[..|steps| - 1], steps[|steps| - 1];
      RunHears(s, init, x);
      var t := Run(s, init);
      if last.side == x {
        WireGrows(t.At(x), last.action);
        WireKeepsHeard(t.At(x), Act(t.At(x), last.action), t.At(Other(x)), t.At(Other(x)));
      } else if !last.action.Receive? {
        OnlyReceivingTakes(t.At(Other(x)), last.action);
        WireKeepsHeard(t.At(x), t.At(x), t.At(Other(x)), Act(t.At(Other(x)), last.action));
      } else if last.action.receipt.packet in t.At(x).wire {
        ReceiveHears(t.At(x), t.At(Other(x)), last.action.receipt);
        ActReceives(t.At(Other(x)), last.action.receipt);
      }
    }
  }

  // ------------------------------------------------------------------ many texts

  function TextRow(body: bytes): Row {
    Row(0, TYPE_MSG, body)
  }

  /** `a` has queued `bodies` as texts under the seqs from 1 on, and flushed nothing. */
  ghost predicate Texts(s: System, s0: System, bodies: seq<bytes>) {
    && s.b == s0.b && s.a.blocked == s0.a.blocked && s.a.cfg == s0.a.cfg
    && s.a.flush.None? && s.a.box.queues == s0.a.box.queues && s.a.box.journal.sent == map[]
    && s.a.box.journal.next == |bodies| + 1
    && (forall n :: 1 <= n <= |bodies| ==> n in s.a.queued && s.a.queued[n] == TextRow(bodies[n - 1]))
    && (forall n :: n in s.a.box.journal.rows <==> 1 <= n <= |bodies|)
    && (forall n :: n in s.a.box.journal.rows ==> s.a.box.journal.rows[n] == TextRow(bodies[n - 1]))
  }

  lemma SendOne(s: System, s0: System, bodies: seq<bytes>, body: bytes) returns (steps: seq<Step>)
    requires Texts(s, s0, bodies) && !s0.a.blocked && |bodies| + 1 < TWO_63
    ensures Texts(Run(s, steps), s0, bodies + [body])
  {
    hide Run, BeginSend, CommitSend, Texts;
    NextIsAfter(s, s0, bodies);
    var n := s.a.box.journal.next;
    var begin, commit := Step(A, SendBegin(false, body)), Step(A, SendCommit(n, 0));
    RunOne(s, begin, [commit]);
    RunSingle(Do(s, begin), commit);
    SendIsSend(s.a, false, body, 0);
    TextsGain(s, s0, bodies, body);
    steps := [begin] + [commit];
  }

  lemma NextIsAfter(s: System, s0: System, bodies: seq<bytes>)
    requires Texts(s, s0, bodies)
    ensures s.a.box.journal.next == |bodies| + 1 && s.a.blocked == s0.a.blocked
  {
  }

  lemma TextsGain(s: System, s0: System, bodies: seq<bytes>, body: bytes)
    requires Texts(s, s0, bodies)
    ensures var n, j := s.a.box.journal.next, s.a.box.journal;
            Texts(s.(a := s.a.(box := s.a.box.(journal := Journal(n + 1, j.rows[n := TextRow(body)], j.sent)),
                               calls := s.a.calls - {n}, queued := s.a.queued[n := TextRow(body)])), s0, bodies + [body])
  {
  }

  lemma {:induction false} SendMany(s0: System, bodies: seq<bytes>) returns (steps: seq<Step>)
    requires IsStart(s0) && |bodies| < TWO_63
    ensures Texts(Run(s0, steps), s0, bodies)
  {
    hide Run, Texts;
    if bodies == [] {
      steps := [];
      assert Texts(s0, s0, []) by { NoTextsYet(s0); }
      RunNothing(s0);
    } else {
      var init, last := bodies[..|bodies| - 1], bodies[|bodies| - 1];
      var first := SendMany(s0, init);
      var more := SendOne(Run(s0, first), s0, init, last);
      RunAppends(s0, first, more);
      assert init + [last] == bodies;
      steps := first + more;
    }
  }

  lemma NoTextsYet(s0: System)
    requires IsStart(s0)
    ensures Texts(s0, s0, [])
  {
  }

  // ------------------------------------------------------------------- the replay

  /** A queued text row that is not waiting has left the outbox, so it was accepted. */
  lemma TextsAreAccepted(s: System, n: nat)
    requires Reachable(s) && Waiting(s.a, TYPE_MSG) == {}
    requires n in s.a.queued && Deliverable(s.a.queued[n], s.a.cfg.mtu, TYPE_MSG)
    ensures n in s.b.accepted
  {
    hide Reachable, Decode, LocalOk;
    ReachableHasInv(s);
    InvHasJournal(s, A);
    assert s.At(A) == s.a && s.At(Other(A)) == s.b;
    assert n in Waiting(s.a, TYPE_MSG) <==> n in s.a.box.journal.rows;
    LeavesOnlyAfterDelivery(s, A, n);
  }

  lemma {:induction false} ManyAbove(accepted: set<int>, k: nat)
    requires forall n :: 1 <= n <= k + 1 ==> n in accepted
    ensures Rank(accepted, 1) >= k
  {
    if k > 0 {
      ManyAbove(accepted - {k + 1}, k - 1);
      assert Above(accepted, 1) == Above(accepted - {k + 1}, 1) + {k + 1};
    }
  }

  /** Receiving again a text that the guard has forgotten delivers it again. */
  lemma AcceptsAgain(d: Daemon, p: bytes, n: int)
    requires InboxOk(d) && !d.blocked && TextOf(p, n)
    requires n in d.accepted && Rank(d.accepted.Keys, n) >= 5 * d.cfg.capacity
    ensures ReceivePacket(d, Receipt(p, true, true)).log == d.log + [n]
  {
    hide Decode, Inbox.AddTo, Inbox.Reflects, Rank, AtMostOnceWithin;
    HandleInbox(d.box, d.cfg, p, true, d.accepted.Keys);
  }

  /** For every capacity, a run from a start: the sender queues `5 * capacity + 1` texts,
      fair rounds deliver them all, the first one's packet comes in once more, and it is
      accepted as new, so OnDeliver fires for it a second time. */
  lemma ReplayGuardForgets(s0: System) returns (steps: seq<Step>, i: nat)
    requires IsStart(s0) && s0.a.cfg.mtu >= HEADER_SIZE && s0.b.cfg.mtu >= HEADER_SIZE
    requires 5 * s0.b.cfg.capacity + 1 < TWO_63
    ensures var log := Run(s0, steps).b.log;
            i + 1 < |log| && log[i] == 1 && log[|log| - 1] == 1
  {
    hide Run, InboxOk, JournalOk, PacketsOk, FilesOk, Decode, Rank, IsStart, ReceivePacket;
    var before := AllAccepted(s0);
    var s := Run(s0, before);
    var p :| p in s.a.wire && TextOf(p, 1);
    ManyAbove(s.b.accepted.Keys, 5 * s0.b.cfg.capacity);
    AcceptsAgain(s.b, p, 1);
    i := WasLogged(s.b, 1);
    var again := Step(B, Receive(Receipt(p, true, true)));
    RunAppends(s0, before, [again]);
    RunSingle(s, again);
    ActReceives(s.b, again.action.receipt);
    hide Act;
    steps := before + [again];
  }

  lemma WasLogged(d: Daemon, n: int) returns (i: nat)
    requires InboxOk(d) && n in d.accepted
    ensures i < |d.log| && d.log[i] == n
  {
    assert n in Accepted(d.log);
    i :| 0 <= i < |d.log| && d.log[i] == n;
  }

  lemma AllAccepted(s0: System) returns (steps: seq<Step>)
    requires IsStart(s0) && s0.a.cfg.mtu >= HEADER_SIZE && s0.b.cfg.mtu >= HEADER_SIZE
    requires 5 * s0.b.cfg.capacity + 1 < TWO_63
    ensures var s := Run(s0, steps);
            && LocalOk(s.b) && s.b.cfg == s0.b.cfg && !s.b.blocked
            && (forall n :: 1 <= n <= 5 * s0.b.cfg.capacity + 1 ==> n in s.b.accepted)
            && OnWire(s.a, 1)
  {
    hide Run, Reachable, FairRounds, AfterRounds, LocalOk, Linked, Act, JournalOk, OnWire;
    var k := 5 * s0.b.cfg.capacity + 1;
    var bodies := seq(k, _ => []);
    var first := SendMany(s0, bodies);
    var s1 := Run(s0, first);
    StartHasInv(s0);
    RunKeepsInv(s0, first);
    assert Reachable(s1) by { StartReaches(s0, first); }
    var calm := RunGetsThrough(s1, A, TYPE_MSG);
    QuietIsCalm(calm);
    var s := Run(s1, calm);
    CalmRun(s1, calm, A);
    CalmRun(s1, calm, B);
    RunStaysReachable(s1, calm);
    ReachableHasInv(s);
    RunGrows(s1, calm, A);
    RunAppends(s0, first, calm);
    steps := first + calm;
    NothingHeardYet(s0);
    RunHears(s0, steps, A);
    forall n | 1 <= n <= k ensures n in s.b.accepted {
      TextsAreAccepted(s, n);
    }
    assert 1 in s.b.accepted;
  }

  lemma StartReaches(s0: System, steps: seq<Step>)
    requires IsStart(s0)
    ensures Reachable(Run(s0, steps))
  {
  }

  lemma NothingHeardYet(s0: System)
    requires IsStart(s0)
    ensures Heard(s0.At(A), s0.At(Other(A)))
  {
  }
}
