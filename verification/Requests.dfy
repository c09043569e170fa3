/** Request multiplexing over one daemon connection (client/aimless/daemon.py): many
    calling threads, one reader thread, replies matched by id, reconnects in between. */
module Requests {
  import opened Bytes

  datatype Kind = Event | Error | Answer

  /** A line from the daemon; an id that is absent or not one of ours is None. */
  datatype Reply = Reply(kind: Kind, id: Option<nat>, body: bytes)

  /** Where a call stands: holding an id, registered and looping, or leaving through
      its finally block. */
  datatype Phase =
    | Numbered
    | Looping(sent: bool, sentIn: nat)
    | Leaving(result: Option<Reply>)

  /** `boxes` are the mailbox queues; they outlive their registration while the reader
      still holds one, as `holding` records. */
  datatype Client = Client(
    counter: nat, calls: map<nat, Phase>, registry: set<nat>, boxes: map<nat, seq<Reply>>,
    holding: Option<(nat, Reply)>, generation: nat, wantReconnect: bool,
    raw: seq<Reply>, events: seq<Reply>, returned: seq<(nat, Reply)>)

  const START := Client(0, map[], {}, map[], None, 1, false, [], [], [])

  datatype Step =
    | NewId
    | Register(call: nat)
    | Send(call: nat, ok: bool)
    | Reopen(call: nat)
    | Get(call: nat)
    | GiveUp(call: nat)
    | Finally(call: nat)
    | Read(reply: Reply)
    | Put
    | LoseConnection
    | Connect
    | ClearWish

  /** The reconnect flag is tested before the reader blocks in readline and before a
      caller takes the send lock, so by the time a line arrives or a request goes out it
      may be set: neither step depends on it. Only reconnecting does.

      The reader looks a reply up while it holds the registry lock, and puts it into
      the mailbox it found only afterwards. */
  function ReadLine(c: Client, r: Reply): Client {
    if c.holding.Some? then c
    else if r.kind.Event? then c.(events := c.events + [r])
    else if r.id.Some? && r.id.value in c.registry then c.(holding := Some((r.id.value, r)))
    else c.(raw := c.raw + [r])
  }

  function PutHeld(c: Client): Client {
    match c.holding
    case None => c
    case Some((n, r)) =>
      c.(holding := None, boxes := if n in c.boxes then c.boxes[n := c.boxes[n] + [r]] else c.boxes)
  }

  function GetReply(c: Client, n: nat): Client {
    if n in c.calls && c.calls[n].Looping? && c.calls[n].sent && n in c.boxes && c.boxes[n] != [] then
      var r := c.boxes[n][0];
      c.(boxes := c.boxes[n := c.boxes[n][1..]],
         calls := c.calls[n := Leaving(if r.kind.Error? then None else Some(r))])
    else c
  }

  function Leave(c: Client, n: nat): Client {
    if n in c.calls && c.calls[n].Leaving? then
      c.(registry := c.registry - {n}, calls := c.calls - {n},
         returned := c.returned + match c.calls[n].result case None => [] case Some(r) => [(n, r)])
    else c
  }

  function Act(c: Client, s: Step): Client {
    match s
    case NewId => c.(counter := c.counter + 1, calls := c.calls[c.counter + 1 := Numbered])
    case Register(n) =>
      if n in c.calls && c.calls[n].Numbered? then
        c.(registry := c.registry + {n}, boxes := c.boxes[n := []],
           calls := c.calls[n := Looping(false, c.generation)])
      else c
    case Send(n, ok) =>
      if n in c.calls && c.calls[n].Looping? && !c.calls[n].sent then
        if ok then c.(calls := c.calls[n := Looping(true, c.generation)]) else c.(wantReconnect := true)
      else c
    case Reopen(n) =>
      if n in c.calls && c.calls[n].Looping? && c.calls[n].sentIn != c.generation then
        c.(calls := c.calls[n := Looping(false, c.calls[n].sentIn)])
      else c
    case Get(n) => GetReply(c, n)
    case GiveUp(n) =>
      if n in c.calls && c.calls[n].Looping? then c.(calls := c.calls[n := Leaving(None)]) else c
    case Finally(n) => Leave(c, n)
    case Read(r) => ReadLine(c, r)
    case Put => PutHeld(c)
    case LoseConnection => c.(wantReconnect := true)
    case Connect =>
      if c.wantReconnect && c.holding.None? then c.(generation := c.generation + 1) else c
    case ClearWish => c.(wantReconnect := false)
  }

  function Run(steps: seq<Step>): Client {
    if steps == [] then START else Act(Run(steps[..|steps| - 1]), steps[|steps| - 1])
  }

  // -------------------------------------------------------------------- invariant

  ghost predicate RegistryOk(c: Client) {
    && (forall n :: n in c.calls ==> n <= c.counter)
    && (forall n :: n in c.registry <==> n in c.calls && !c.calls[n].Numbered?)
    && (forall n :: n in c.boxes ==> n <= c.counter && (n in c.calls ==> !c.calls[n].Numbered?))
  }

  ghost predicate RepliesOk(c: Client) {
    && (forall n, r :: n in c.boxes && r in c.boxes[n] ==> r.id == Some(n))
    && (c.holding.Some? ==> c.holding.value.1.id == Some(c.holding.value.0))
    && (forall n :: n in c.calls && c.calls[n].Leaving? && c.calls[n].result.Some? ==>
          c.calls[n].result.value.id == Some(n) && !c.calls[n].result.value.kind.Error?)
    && (forall i :: 0 <= i < |c.returned| ==>
          c.returned[i].1.id == Some(c.returned[i].0) && !c.returned[i].1.kind.Error?)
  }

  ghost predicate OnceOk(c: Client) {
    && (forall i :: 0 <= i < |c.returned| ==> c.returned[i].0 <= c.counter && c.returned[i].0 !in c.calls)
    && (forall i, j :: 0 <= i < j < |c.returned| ==> c.returned[i].0 != c.returned[j].0)
  }

  lemma ActKeepsRegistry(c: Client, s: Step)
    requires RegistryOk(c)
    ensures RegistryOk(Act(c, s))
  {
  }

  lemma PutKeepsReplies(c: Client)
    requires RepliesOk(c)
    ensures RepliesOk(PutHeld(c))
  {
  }

  lemma GetKeepsReplies(c: Client, n: nat)
    requires RepliesOk(c)
    ensures RepliesOk(GetReply(c, n))
  {
    var c' := GetReply(c, n);
    if c' != c {
      assert c.boxes[n][0] in c.boxes[n];
      assert forall r :: r in c.boxes[n][1..] ==> r in c.boxes[n];
    }
  }

  lemma ReadKeepsReplies(c: Client, r: Reply)
    requires RepliesOk(c)
    ensures RepliesOk(ReadLine(c, r))
  {
  }

  lemma LeaveKeepsReplies(c: Client, n: nat)
    requires RepliesOk(c)
    ensures RepliesOk(Leave(c, n))
  {
  }

  lemma ActKeepsReplies(c: Client, s: Step)
    requires RepliesOk(c)
    ensures RepliesOk(Act(c, s))
  {
    hide PutHeld, GetReply, ReadLine, Leave;
    match s
    case Put => PutKeepsReplies(c);
    case Get(n) => GetKeepsReplies(c, n);
    case Read(r) => ReadKeepsReplies(c, r);
    case Finally(n) => LeaveKeepsReplies(c, n);
    case _ =>
  }

  lemma ActKeepsOnce(c: Client, s: Step)
    requires OnceOk(c) && RegistryOk(c)
    ensures OnceOk(Act(c, s))
  {
  }

  lemma {:induction false} RunKeepsAll(steps: seq<Step>)
    ensures RegistryOk(Run(steps)) && RepliesOk(Run(steps)) && OnceOk(Run(steps))
  {
    hide RegistryOk, RepliesOk, OnceOk, Act;
    if steps == [] {
      StartIsOk();
    } else {
      var init, last := steps[..|steps| - 1], steps[|steps| - 1];
      RunKeepsAll(init);
      ActKeepsRegistry(Run(init), last);
      ActKeepsReplies(Run(init), last);
      ActKeepsOnce(Run(init), last);
    }
  }

  lemma StartIsOk()
    ensures RegistryOk(START) && RepliesOk(START) && OnceOk(START)
  {
  }

  /** In every interleaving of callers, replies in any order, lost connections,
      reconnects and resends: a call that returns gets a reply carrying its own id and
      never an error, no two returns share an id, and the registry holds exactly the
      ids of the calls between registration and cleanup. */
  lemma MultiplexingIsSafe(steps: seq<Step>)
    ensures var c := Run(steps);
            && (forall i :: 0 <= i < |c.returned| ==>
                  c.returned[i].1.id == Some(c.returned[i].0) && !c.returned[i].1.kind.Error?)
            && (forall i, j :: 0 <= i < j < |c.returned| ==> c.returned[i].0 != c.returned[j].0)
            && c.registry == set n | n in c.calls && !c.calls[n].Numbered?
  {
    RunKeepsAll(steps);
  }

  // ------------------------------------------------------------ replies get through

  lemma RunsOn(steps: seq<Step>, s: Step)
    ensures Run(steps + [s]) == Act(Run(steps), s)
  {
    assert (steps + [s])[..|steps|] == steps;
  }

  lemma RunsOnTwo(steps: seq<Step>, s1: Step, s2: Step)
    ensures Run(steps + [s1, s2]) == Act(Act(Run(steps), s1), s2)
  {
    hide Act, Run;
    RunsOn(steps, s1);
    RunsOn(steps + [s1], s2);
    assert steps + [s1, s2] == steps + [s1] + [s2];
  }

  lemma RunsOnFour(steps: seq<Step>, s1: Step, s2: Step, s3: Step, s4: Step)
    ensures Run(steps + [s1, s2, s3, s4]) == Act(Act(Act(Act(Run(steps), s1), s2), s3), s4)
  {
    hide Act, Run;
    RunsOnTwo(steps, s1, s2);
    RunsOnTwo(steps + [s1, s2], s3, s4);
    assert steps + [s1, s2, s3, s4] == steps + [s1, s2] + [s3, s4];
  }

  /** A call that has sent its request and waits, nothing having come for it yet. */
  ghost predicate Waits(c: Client, n: nat) {
    n in c.calls && c.calls[n].Looping? && c.calls[n].sent && n in c.boxes && c.boxes[n] == []
  }

  /** In every run: the reply to a waiting call is what the call returns, an error reply
      makes it raise and return nothing, and either way it leaves no trace behind. */
  lemma ReplyIsReturned(steps: seq<Step>, n: nat, r: Reply)
    requires Waits(Run(steps), n) && Run(steps).holding.None? && r.id == Some(n) && !r.kind.Event?
    ensures var c, c' := Run(steps), Run(steps + [Read(r), Put, Get(n), Finally(n)]);
            && c'.returned == c.returned + (if r.kind.Error? then [] else [(n, r)])
            && n !in c'.calls && n !in c'.registry
            && (forall k :: k != n ==> (k in c'.calls <==> k in c.calls) && (k in c'.registry <==> k in c.registry))
            && (forall k :: k != n && k in c.calls ==> c'.calls[k] == c.calls[k])
            && c'.events == c.events && c'.raw == c.raw
  {
    RunKeepsAll(steps);
    RunsOnFour(steps, Read(r), Put, Get(n), Finally(n));
    hide Run;
  }

  /** Of several replies to one call the first to arrive is returned. */
  lemma EarlierReplyWins(steps: seq<Step>, n: nat, r: Reply)
    requires var c := Run(steps);
             n in c.calls && c.calls[n].Looping? && c.calls[n].sent && n in c.boxes && c.boxes[n] != []
             && c.holding.None? && r.id == Some(n) && !r.kind.Event?
    ensures var c, c' := Run(steps), Run(steps + [Read(r), Put, Get(n), Finally(n)]);
            c'.returned == c.returned + (if c.boxes[n][0].kind.Error? then [] else [(n, c.boxes[n][0])])
  {
    RunKeepsAll(steps);
    RunsOnFour(steps, Read(r), Put, Get(n), Finally(n));
    hide Run;
  }

  /** From every run a new request can be made, sent under an id of its own, and wait. */
  lemma RequestWaits(steps: seq<Step>) returns (n: nat)
    ensures n !in Run(steps).calls && n !in Run(steps).registry && forall i :: 0 <= i < |Run(steps).returned| ==> Run(steps).returned[i].0 != n
    ensures var c' := Run(steps + [NewId, Register(n), Send(n, true)]);
            Waits(c', n) && n in c'.registry && c'.holding == Run(steps).holding && c'.returned == Run(steps).returned
  {
    RunKeepsAll(steps);
    n := Run(steps).counter + 1;
    hide Run, Act;
    RunsOnTwo(steps, NewId, Register(n));
    RunsOn(steps + [NewId, Register(n)], Send(n, true));
    assert steps + [NewId, Register(n), Send(n, true)] == steps + [NewId, Register(n)] + [Send(n, true)];
    NewCall(Run(steps), n);
  }

  lemma NewCall(c: Client, n: nat)
    requires n == c.counter + 1
    ensures var c' := Act(Act(Act(c, NewId), Register(n)), Send(n, true));
            Waits(c', n) && n in c'.registry && c'.holding == c.holding && c'.returned == c.returned
  {
  }

  /** A call whose request is out, or is still to be sent. */
  ghost predicate MayResend(c: Client, n: nat) {
    n in c.calls && c.calls[n].Looping? && n in c.boxes && c.boxes[n] == [] && c.holding.None?
    && c.calls[n].sentIn <= c.generation
  }

  lemma Reconnects(c: Client, n: nat, lost: Step)
    requires MayResend(c, n) && (if c.calls[n].sent then lost == LoseConnection else lost == Send(n, false))
    ensures Act(Act(Act(c, lost), Connect), ClearWish) == c.(generation := c.generation + 1, wantReconnect := false)
  {
  }

  lemma Resends(c: Client, n: nat)
    requires MayResend(c, n) && c.calls[n].sentIn != c.generation
    ensures var c' := Act(Act(c, Reopen(n)), Send(n, true));
            Waits(c', n) && c'.calls[n].sentIn == c.generation == c'.generation
            && c'.wantReconnect == c.wantReconnect && c'.returned == c.returned
  {
  }

  /** A connection that is lost is opened anew, and a call that had sent its request, or
      failed to, sends it again and waits. */
  lemma LostRequestIsResent(steps: seq<Step>, n: nat, lost: Step)
    requires var c := Run(steps);
             n in c.calls && c.calls[n].Looping? && n in c.boxes && c.boxes[n] == [] && c.holding.None?
             && (if c.calls[n].sent then lost == LoseConnection else lost == Send(n, false))
    ensures var c' := Run(steps + [lost, Connect, ClearWish] + [Reopen(n), Send(n, true)]);
            && Waits(c', n) && c'.generation == Run(steps).generation + 1 && !c'.wantReconnect
            && c'.calls[n].sentIn == c'.generation && c'.returned == Run(steps).returned
  {
    RunKeepsGenerations(steps);
    hide Run, Act;
    RunsOnTwo(steps, lost, Connect);
    RunsOn(steps + [lost, Connect], ClearWish);
    assert steps + [lost, Connect, ClearWish] == steps + [lost, Connect] + [ClearWish];
    RunsOnTwo(steps + [lost, Connect, ClearWish], Reopen(n), Send(n, true));
    Reconnects(Run(steps), n, lost);
    Resends(Run(steps + [lost, Connect, ClearWish]), n);
  }

  /** A call that gives up returns nothing and is cleaned up, and a reply that comes for
      it later, like every line whose id is not registered, goes to the legacy queue. */
  lemma LateReplyIsSetAside(steps: seq<Step>, n: nat, r: Reply)
    requires var c := Run(steps); n in c.calls && c.calls[n].Looping? && c.holding.None?
    requires r.id == Some(n) && !r.kind.Event?
    ensures var c, c' := Run(steps), Run(steps + [GiveUp(n), Finally(n), Read(r), Put]);
            && c'.returned == c.returned && n !in c'.calls && n !in c'.registry
            && c'.raw == c.raw + [r] && c'.holding.None?
  {
    RunKeepsAll(steps);
    RunsOnFour(steps, GiveUp(n), Finally(n), Read(r), Put);
    hide Run;
  }

  /** The event lines the reader took, in order: it takes one when it holds no reply. */
  function EventsRead(steps: seq<Step>): seq<Reply> {
    if steps == [] then []
    else
      var init, last := steps[..|steps| - 1], steps[|steps| - 1];
      EventsRead(init) + if last.Read? && last.reply.kind.Event? && Run(init).holding.None? then [last.reply] else []
  }

  lemma OnlyReadingAddsEvents(c: Client, s: Step)
    ensures Act(c, s).events ==
            c.events + if s.Read? && s.reply.kind.Event? && c.holding.None? then [s.reply] else []
  {
  }

  /** In every run events reach the event queue, all of them, in order, and nothing else does. */
  lemma {:induction false} EventsArriveInOrder(steps: seq<Step>)
    ensures Run(steps).events == EventsRead(steps)
  {
    hide Act;
    if steps != [] {
      EventsArriveInOrder(steps[..|steps| - 1]);
      OnlyReadingAddsEvents(Run(steps[..|steps| - 1]), steps[|steps| - 1]);
    }
  }

  /** The generation a call was sent in is never ahead of the current one. */
  ghost predicate GenerationsOk(c: Client) {
    forall n :: n in c.calls && c.calls[n].Looping? ==> c.calls[n].sentIn <= c.generation
  }

  lemma ActKeepsGenerations(c: Client, s: Step)
    requires GenerationsOk(c)
    ensures GenerationsOk(Act(c, s))
  {
  }

  lemma {:induction false} RunKeepsGenerations(steps: seq<Step>)
    ensures GenerationsOk(Run(steps))
  {
    hide Act;
    if steps != [] {
      RunKeepsGenerations(steps[..|steps| - 1]);
      ActKeepsGenerations(Run(steps[..|steps| - 1]), steps[|steps| - 1]);
    }
  }
}
