/** How runs of the delivery system compose, and a flush that nothing disturbs. */
module Runs {
  import opened Bytes
  import opened Outbox
  import opened Nodes
  import opened Mail
  import opened Delivery
  import Envelopes

  lemma {:induction false} RunAppends(s: System, a: seq<Step>, b: seq<Step>)
    ensures Run(s, a + b) == Run(Run(s, a), b)
  {
    hide Do;
    if b == [] {
      assert a + b == a;
    } else {
      var last := |a + b| - 1;
      assert (a + b)[..last] == a + b[..|b| - 1] && (a + b)[last] == b[|b| - 1];
      RunAppends(s, a, b[..|b| - 1]);
    }
  }

  lemma RunNothing(s: System)
    ensures Run(s, []) == s
  {
  }

  lemma RunStep(s: System, steps: seq<Step>, i: nat)
    requires i < |steps|
    ensures Run(s, steps[..i + 1]) == Do(Run(s, steps[..i]), steps[i])
  {
    hide Do;
    assert steps[..i + 1][..i] == steps[..i];
  }

  /** Splits a run behind its first `i` steps. */
  lemma RunSplits(s: System, steps: seq<Step>, i: nat)
    requires i <= |steps|
    ensures Run(s, steps) == Run(Run(s, steps[..i]), steps[i..])
  {
    hide Run;
    assert steps == steps[..i] + steps[i..];
    RunAppends(s, steps[..i], steps[i..]);
  }

  lemma RunSingle(s: System, step: Step)
    ensures Run(s, [step]) == Do(s, step)
  {
    hide Do;
    assert [step][..0] == [];
    assert Run(s, []) == s;
  }

  lemma RunOne(s: System, step: Step, rest: seq<Step>)
    ensures Run(s, [step] + rest) == Run(Do(s, step), rest)
  {
    hide Do, Run;
    RunAppends(s, [step], rest);
    RunSingle(s, step);
  }

  lemma RunStaysReachable(s: System, steps: seq<Step>)
    requires Reachable(s)
    ensures Reachable(Run(s, steps))
  {
    hide Run, IsStart;
    var s0, before :| IsStart(s0) && s == Run(s0, before);
    RunAppends(s0, before, steps);
  }

  lemma {:induction false} RunGrows(s: System, steps: seq<Step>, x: Side)
    requires Inv(s)
    ensures Grows(s.At(x), Run(s, steps).At(x))
  {
    hide Act, Inv, LocalOk;
    if steps != [] {
      var init, last := steps[..|steps| - 1], steps[|steps| - 1];
      RunGrows(s, init, x);
      RunKeepsInv(s, init);
      InvHasJournal(Run(s, init), x);
      if last.side == x { ActGrows(Run(s, init).At(x), last.action); }
    }
  }

  lemma InvHasJournal(s: System, x: Side)
    requires Inv(s)
    ensures JournalOk(s.At(x))
  {
    hide PacketsOk, FilesOk, InboxOk, Linked;
  }

  /** A send whose steps both run journals the row as the mailbox's method does. */
  lemma SendIsSend(d: Daemon, isFile: bool, body: bytes, ts: i64)
    requires !d.blocked && d.box.journal.next < TWO_63
    ensures var n, j := d.box.journal.next, d.box.journal;
            var row := Row(ts, if isFile then Envelopes.TYPE_FILE else Envelopes.TYPE_MSG, body);
            CommitSend(BeginSend(d, isFile, body), n, ts) ==
            d.(box := d.box.(journal := Journal(n + 1, j.rows[n := row], j.sent)),
               calls := d.calls - {n}, queued := d.queued[n := row])
  {
    var n := d.box.journal.next;
    var call := Call(if isFile then Envelopes.TYPE_FILE else Envelopes.TYPE_MSG, body);
    assert d.calls[n := call] - {n} == d.calls - {n};
  }

  // ------------------------------------------------------- a flush by itself

  function Turn(d: Daemon): Daemon {
    MarkFlush(NextFlush(d))
  }

  function TurnsOf(d: Daemon, k: nat): Daemon {
    if k == 0 then d else Turn(TurnsOf(d, k - 1))
  }

  function Turns(x: Side, k: nat): seq<Step> {
    if k == 0 then [] else Turns(x, k - 1) + [Step(x, FlushNext), Step(x, FlushMark)]
  }

  lemma {:induction false} RunTurns(s: System, x: Side, k: nat)
    ensures Run(s, Turns(x, k)) == s.With(x, TurnsOf(s.At(x), k))
  {
    hide NextFlush, MarkFlush;
    if k == 0 {
      assert Run(s, []) == s;
    } else {
      RunTurns(s, x, k - 1);
      RunTurn(s, Run(s, Turns(x, k - 1)), x, Turns(x, k - 1));
    }
  }

  lemma RunTurn(s: System, s1: System, x: Side, before: seq<Step>)
    requires s1 == Run(s, before)
    ensures Run(s, before + [Step(x, FlushNext), Step(x, FlushMark)]) == s1.With(x, Turn(s1.At(x)))
  {
    hide NextFlush, MarkFlush, Run;
    var next, mark := Step(x, FlushNext), Step(x, FlushMark);
    RunAppends(s, before, [next] + [mark]);
    assert [next] + [mark] == [next, mark];
    RunOne(s1, next, [mark]);
    RunSingle(Do(s1, next), mark);
  }

  /** Rows the journal can hold: their seqs fit the envelope. */
  ghost predicate ItemsOk(items: seq<Item>) {
    forall i :: 0 <= i < |items| ==> items[i].sn < TWO_63 && items[i].row.typ in {Envelopes.TYPE_MSG, Envelopes.TYPE_FILE}
  }

  lemma PendingIsOk(d: Daemon)
    requires JournalOk(d)
    ensures ItemsOk(PendingItems(d.box.journal))
  {
    var items := PendingItems(d.box.journal);
    forall i | 0 <= i < |items| ensures items[i].sn < TWO_63 && items[i].row.typ in {Envelopes.TYPE_MSG, Envelopes.TYPE_FILE} {
      assert items[i] in items;
    }
  }

  /** `d'` is `d` after a flush that began at `now` has the rows `items` left to go over. */
  ghost predicate Midway(d: Daemon, now: int, items: seq<Item>) {
    ItemsOk(items) && d.flush == Some(Flush(now, items, None))
  }

  lemma NextIs(d: Daemon, now: int, items: seq<Item>)
    requires Midway(d, now, items) && items != []
    ensures NextFlush(d) ==
            match OfferItem(d.box.queues, d.cfg, now, items[0])
            case Err => d.(flush := Some(Flush(now, items[1..], None)))
            case Ok(q) => d.(box := d.box.(queues := q), flush := Some(Flush(now, items[1..], Some(items[0].sn))),
                             stamps := d.stamps + [Stamp(items[0].sn, d.clock)])
  {
    hide OfferItem;
    assert items[0].sn < TWO_64;
  }

  lemma RestIsOk(items: seq<Item>)
    requires ItemsOk(items) && items != []
    ensures ItemsOk(items[1..])
  {
  }

  /** One undisturbed turn is the mailbox's own, mark included. */
  lemma TurnIsFlushItem(d: Daemon, now: int, items: seq<Item>)
    requires Midway(d, now, items) && items != []
    ensures Midway(Turn(d), now, items[1..])
    ensures Turn(d).box == FlushItem(d.box, d.cfg, now, items[0], d.clock)
    ensures Turn(d).cfg == d.cfg && Turn(d).clock == d.clock
  {
    RestIsOk(items);
    NextIs(d, now, items);
    hide OfferItem, NextFlush, ItemsOk;
  }

  /** A clock that stands still. */
  function Still(t: int): nat -> int { _ => t }

  lemma {:induction false} TurnsAreFlushItems(d: Daemon, now: int, items: seq<Item>)
    requires Midway(d, now, items)
    ensures var d' := TurnsOf(d, |items|);
            && Midway(d', now, [])
            && d'.box == FlushItems(d.box, d.cfg, now, items, Still(d.clock))
    decreases |items|
  {
    hide Turn, FlushItem, Midway;
    if items == [] {
    } else {
      TurnIsFlushItem(d, now, items);
      TurnsAreFlushItems(Turn(d), now, items[1..]);
      TurnFirst(d, |items| - 1);
    }
  }

  lemma {:induction false} TurnFirst(d: Daemon, k: nat)
    ensures TurnsOf(Turn(d), k) == TurnsOf(d, k + 1)
  {
    hide Turn;
    if k > 0 { TurnFirst(d, k - 1); }
  }

  /** A flush as a run: begun, one turn a row, ended. */
  function FlushSteps(x: Side, rows: nat): seq<Step> {
    [Step(x, FlushBegin)] + Turns(x, rows) + [Step(x, FlushEnd)]
  }

  /** What is proved of runs is about flushPeer: undisturbed, the steps of a flush leave
      the mailbox as the method leaves it, the clock standing still, and no flush running. */
  lemma FlushIsFlushPeer(s: System, x: Side)
    requires JournalOk(s.At(x)) && !s.At(x).blocked && s.At(x).flush.None?
    ensures var d, d' := s.At(x), Run(s, FlushSteps(x, |s.At(x).box.journal.rows|)).At(x);
            && d'.box == FlushItems(d.box, d.cfg, d.clock, PendingItems(d.box.journal), Still(d.clock))
            && d'.flush.None? && OnlyFlushed(d, d')
  {
    hide Run, JournalOk, PendingItems, NextFlush, MarkFlush, FlushItems, TurnsOf, Turns;
    var d, items := s.At(x), PendingItems(s.At(x).box.journal);
    var begun := BeginFlush(d);
    var begin, end := Step(x, FlushBegin), Step(x, FlushEnd);
    PendingIsOk(d);
    TurnsAreFlushItems(begun, d.clock, items);
    RunOne(s, begin, Turns(x, |items|) + [end]);
    RunAppends(s.With(x, begun), Turns(x, |items|), [end]);
    RunTurns(s.With(x, begun), x, |items|);
    RunSingle(s.With(x, TurnsOf(begun, |items|)), end);
    assert FlushSteps(x, |items|) == [begin] + (Turns(x, |items|) + [end]);
    TurnsOnlyFlush(begun, |items|);
  }

  lemma {:induction false} TurnsOnlyFlush(d: Daemon, k: nat)
    ensures OnlyFlushed(d, TurnsOf(d, k))
  {
    hide NextFlush, MarkFlush;
    if k > 0 {
      TurnsOnlyFlush(d, k - 1);
      FlushFrame(TurnsOf(d, k - 1));
      FlushFrame(NextFlush(TurnsOf(d, k - 1)));
    }
  }
}
