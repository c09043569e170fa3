/** The client's projection of the daemon journal (client/aimless/service.py and the
    inbound half of client/aimless/store.py): one watermark per peer, rows keyed by
    sender and seq. */
module Sync {
  import opened Bytes
  import opened Ranks
  import opened Inbox

  datatype InKey = InKey(sender: string, sn: int)
  datatype MsgRow = MsgRow(conv: string, ts: int, text: string)

  /** What a decrypted payload says; `conv` is empty when the message names none. */
  datatype Opened = Opened(conv: string, ts: int, text: string)

  /** Opening a sealed payload; None stands for the errors that are skipped. */
  type Opener = bytes -> Option<Opened>

  type Rows = map<InKey, MsgRow>

  datatype View = View(rows: Rows, marks: map<string, nat>)

  function Cursor(marks: map<string, nat>, peer: string): nat {
    if peer in marks then marks[peer] else 0
  }

  /** set_cursor never moves a watermark back. */
  function Advance(marks: map<string, nat>, peer: string, sn: nat): map<string, nat> {
    marks[peer := if Cursor(marks, peer) < sn then sn else Cursor(marks, peer)]
  }

  function RowOf(peer: string, o: Opened): MsgRow {
    MsgRow(if o.conv == "" then peer else o.conv, o.ts, o.text)
  }

  /** INSERT OR IGNORE by (sender, seq). */
  function Ingest(rows: Rows, peer: string, sn: int, o: Opened): Rows {
    if InKey(peer, sn) in rows then rows else rows[InKey(peer, sn) := RowOf(peer, o)]
  }

  function Take(rows: Rows, peer: string, m: Arrival, open: Opener): Rows {
    match open(m.entry.payload)
    case None => rows
    case Some(o) => Ingest(rows, peer, m.sn, o)
  }

  /** The journal entries of `msgs` routed into the store, in order. */
  function TakeAll(rows: Rows, peer: string, msgs: seq<Arrival>, open: Opener): Rows {
    if msgs == [] then rows
    else Take(TakeAll(rows, peer, msgs[..|msgs| - 1], open), peer, msgs[|msgs| - 1], open)
  }

  function MaxSeen(msgs: seq<Arrival>, after: nat): (r: nat)
    ensures r >= after
    ensures forall m :: m in msgs ==> m.sn <= r
    ensures r == after || exists m :: m in msgs && m.sn == r
  {
    if msgs == [] then after
    else
      var r := MaxSeen(msgs[..|msgs| - 1], after);
      var m := msgs[|msgs| - 1];
      assert msgs == msgs[..|msgs| - 1] + [m];
      if m.sn > r then m.sn else r
  }

  /** One atomic fetch-and-apply round against the journal rows of `peer`. */
  function SyncRound(v: View, peer: string, journal: map<int, Entry>, open: Opener): View {
    var after := Cursor(v.marks, peer);
    var msgs := Listing(journal, after);
    var top := MaxSeen(msgs, after);
    View(TakeAll(v.rows, peer, msgs, open), if top > after then Advance(v.marks, peer, top) else v.marks)
  }

  /** The same round without a watermark: everything retained is fetched again. */
  function Rescan(rows: Rows, peer: string, journal: map<int, Entry>, open: Opener): Rows {
    TakeAll(rows, peer, Listing(journal, 0), open)
  }

  // ------------------------------------------------------------- what a pass adds

  ghost predicate Openable(m: Arrival, open: Opener) {
    open(m.entry.payload).Some?
  }

  lemma {:induction false} TakeAllAdds(rows: Rows, peer: string, msgs: seq<Arrival>, open: Opener, k: InKey)
    ensures var after := TakeAll(rows, peer, msgs, open);
            && (k in rows ==> k in after && after[k] == rows[k])
            && (k !in rows ==>
                  (k in after <==> k.sender == peer && exists m :: m in msgs && m.sn == k.sn && Openable(m, open)))
  {
    if msgs != [] {
      var init, last := msgs[..|msgs| - 1], msgs[|msgs| - 1];
      TakeAllAdds(rows, peer, init, open, k);
      assert forall m :: m in msgs <==> m in init || m == last;
    }
  }

  lemma NotTakenYet(rows: Rows, peer: string, msgs: seq<Arrival>, open: Opener, sn: int)
    requires InKey(peer, sn) !in rows && forall i :: 0 <= i < |msgs| ==> msgs[i].sn != sn
    ensures InKey(peer, sn) !in TakeAll(rows, peer, msgs, open)
  {
    hide TakeAll;
    TakeAllAdds(rows, peer, msgs, open, InKey(peer, sn));
  }

  /** With one message per seq, an added row is the one its message routes to. */
  lemma {:induction false} TakeAllValues(rows: Rows, peer: string, msgs: seq<Arrival>, open: Opener, at: nat)
    requires at < |msgs| && Openable(msgs[at], open) && InKey(peer, msgs[at].sn) !in rows
    requires forall i, j :: 0 <= i < j < |msgs| ==> msgs[i].sn < msgs[j].sn
    ensures var after, m := TakeAll(rows, peer, msgs, open), msgs[at];
            InKey(peer, m.sn) in after && after[InKey(peer, m.sn)] == RowOf(peer, open(m.entry.payload).value)
  {
    hide RowOf;
    var init, last := msgs[..|msgs| - 1], msgs[|msgs| - 1];
    if at < |init| {
      TakeAllValues(rows, peer, init, open, at);
    } else {
      NotTakenYet(rows, peer, init, open, last.sn);
    }
  }

  /** For any response, repeats included: what a pass adds under a seq is the first
      entry of that seq that opens, filed under the conversation it names, or under the
      sender when it names none, with its own time and text. */
  lemma {:induction false} FirstOpenableIsFiled(rows: Rows, peer: string, msgs: seq<Arrival>, open: Opener, k: InKey) returns (i: nat)
    requires k !in rows && k in TakeAll(rows, peer, msgs, open)
    ensures k.sender == peer && i < |msgs| && msgs[i].sn == k.sn && open(msgs[i].entry.payload).Some?
    ensures forall j :: 0 <= j < i && msgs[j].sn == k.sn ==> open(msgs[j].entry.payload).None?
    ensures var row, o := TakeAll(rows, peer, msgs, open)[k], open(msgs[i].entry.payload).value;
            row.conv == (if o.conv == "" then peer else o.conv) && row.ts == o.ts && row.text == o.text
  {
    var init, last := msgs[..|msgs| - 1], msgs[|msgs| - 1];
    if k in TakeAll(rows, peer, init, open) {
      i := FirstOpenableIsFiled(rows, peer, init, open, k);
      assert forall j :: 0 <= j < |init| ==> init[j] == msgs[j];
    } else {
      i := |init|;
      TakeAllAdds(rows, peer, init, open, k);
      forall j | 0 <= j < i && msgs[j].sn == k.sn ensures open(msgs[j].entry.payload).None? {
        assert init[j] in init;
        assert !Openable(init[j], open);
      }
    }
  }

  /** A round files each new message of the journal under the conversation it names, or
      under its sender when it names none, with its own time and text. */
  lemma RoundFilesMessages(v: View, peer: string, journal: map<int, Entry>, open: Opener, n: int)
    requires InKey(peer, n) !in v.rows && n in journal && n > Cursor(v.marks, peer) && open(journal[n].payload).Some?
    ensures var rows, o := SyncRound(v, peer, journal, open).rows, open(journal[n].payload).value;
            && InKey(peer, n) in rows && rows[InKey(peer, n)].conv == (if o.conv == "" then peer else o.conv)
            && rows[InKey(peer, n)].ts == o.ts && rows[InKey(peer, n)].text == o.text
  {
    hide TakeAll, Listing, RowOf;
    var k := InKey(peer, n);
    PassIs(v.rows, peer, journal, Cursor(v.marks, peer), open, k);
    var msgs := Listing(journal, Cursor(v.marks, peer));
    var i := FirstOpenableIsFiled(v.rows, peer, msgs, open, k);
    ListingHolds(journal, Cursor(v.marks, peer), msgs[i]);
  }

  /** A round leaves the watermarks of all other peers alone, and its own ends at the
      largest seq in the journal, if that is beyond it. */
  lemma RoundMovesOneMark(v: View, peer: string, journal: map<int, Entry>, open: Opener)
    ensures var marks := SyncRound(v, peer, journal, open).marks;
            && (forall p :: p != peer ==> (p in marks <==> p in v.marks) && (p in marks ==> marks[p] == v.marks[p]))
            && Cursor(marks, peer) >= Cursor(v.marks, peer)
            && (forall n :: n in journal ==> n <= Cursor(marks, peer))
            && (Cursor(marks, peer) == Cursor(v.marks, peer) || Cursor(marks, peer) in journal)
  {
    hide TakeAll, Listing;
    var w := Cursor(v.marks, peer);
    var msgs := Listing(journal, w);
    forall m | m in msgs ensures m.sn in journal { ListingHolds(journal, w, m); }
    forall n | n in journal && n > w ensures n <= MaxSeen(msgs, w) { ListingHolds(journal, w, Arrival(n, journal[n])); }
  }

  /** Everything openable up to the watermark is already stored. */
  ghost predicate CaughtUp(v: View, peer: string, journal: map<int, Entry>, open: Opener) {
    forall n :: n in journal && 0 < n <= Cursor(v.marks, peer) && open(journal[n].payload).Some? ==>
      InKey(peer, n) in v.rows
  }

  ghost predicate AllBelow(journal: map<int, Entry>, w: nat) {
    forall n :: n in journal ==> n <= w
  }

  /** `later` is `earlier` with entries trimmed, and with new ones only above `w`. */
  ghost predicate Follows(earlier: map<int, Entry>, later: map<int, Entry>, w: nat) {
    forall n :: n in later ==> n > w || (n in earlier && earlier[n] == later[n])
  }

  /** A pass over the tail above `w` adds exactly its openable entries, each as the
      row its own payload routes to, and leaves the rest alone. */
  lemma PassIs(rows: Rows, peer: string, journal: map<int, Entry>, w: nat, open: Opener, k: InKey)
    ensures var after := TakeAll(rows, peer, Listing(journal, w), open);
            && (k in rows ==> k in after && after[k] == rows[k])
            && (k !in rows ==>
                  (k in after <==> k.sender == peer && k.sn in journal && k.sn > w && open(journal[k.sn].payload).Some?))
            && (k !in rows && k in after ==> after[k] == RowOf(peer, open(journal[k.sn].payload).value))
  {
    hide TakeAll, Listing, RowOf;
    var msgs := Listing(journal, w);
    TakeAllAdds(rows, peer, msgs, open, k);
    if k.sn in journal {
      var m := Arrival(k.sn, journal[k.sn]);
      ListingHolds(journal, w, m);
      if k !in rows && k.sender == peer && m in msgs && Openable(m, open) {
        var at :| 0 <= at < |msgs| && msgs[at] == m;
        TakeAllValues(rows, peer, msgs, open, at);
      }
    }
    forall m | m in msgs && m.sn == k.sn ensures k.sn in journal && m.entry == journal[k.sn] && k.sn > w {
      ListingHolds(journal, w, m);
    }
  }

  /** The openable entries at or below the watermark that are not stored. */
  function Missed(v: View, peer: string, journal: map<int, Entry>, open: Opener): set<int> {
    set n | n in journal && 0 < n <= Cursor(v.marks, peer) && open(journal[n].payload).Some?
            && InKey(peer, n) !in v.rows
  }

  function KeysOf(peer: string, seqs: set<int>): set<InKey> {
    set n | n in seqs :: InKey(peer, n)
  }

  /** Fetching the tail gives what fetching everything gives, less exactly the entries
      missed below the watermark. */
  lemma RoundMisses(v: View, peer: string, journal: map<int, Entry>, open: Opener)
    ensures SyncRound(v, peer, journal, open).rows ==
            Rescan(v.rows, peer, journal, open) - KeysOf(peer, Missed(v, peer, journal, open))
  {
    hide TakeAll, Listing, RowOf;
    var one := SyncRound(v, peer, journal, open).rows;
    var two := Rescan(v.rows, peer, journal, open) - KeysOf(peer, Missed(v, peer, journal, open));
    forall k ensures (k in one <==> k in two) && (k in one ==> one[k] == two[k]) {
      PassIs(v.rows, peer, journal, Cursor(v.marks, peer), open, k);
      PassIs(v.rows, peer, journal, 0, open, k);
      MissedKey(v, peer, journal, open, k);
    }
    assert one.Keys == two.Keys;
  }

  lemma MissedKey(v: View, peer: string, journal: map<int, Entry>, open: Opener, k: InKey)
    ensures k in KeysOf(peer, Missed(v, peer, journal, open)) <==>
            k.sender == peer && k.sn in Missed(v, peer, journal, open)
  {
    if k.sender == peer {
      assert k == InKey(peer, k.sn);
    }
  }

  /** The watermark costs nothing exactly when everything openable up to it is stored. */
  lemma RoundIsCompleteExactlyWhen(v: View, peer: string, journal: map<int, Entry>, open: Opener)
    ensures SyncRound(v, peer, journal, open).rows == Rescan(v.rows, peer, journal, open) <==>
            CaughtUp(v, peer, journal, open)
  {
    hide TakeAll, Listing, RowOf;
    RoundMisses(v, peer, journal, open);
    forall n | n in Missed(v, peer, journal, open)
      ensures InKey(peer, n) in Rescan(v.rows, peer, journal, open)
      ensures InKey(peer, n) !in SyncRound(v, peer, journal, open).rows
    {
      PassIs(v.rows, peer, journal, 0, open, InKey(peer, n));
      MissedKey(v, peer, journal, open, InKey(peer, n));
    }
    if CaughtUp(v, peer, journal, open) {
      assert Missed(v, peer, journal, open) == {};
    } else {
      var n :| n in journal && 0 < n <= Cursor(v.marks, peer) && open(journal[n].payload).Some? && InKey(peer, n) !in v.rows;
      assert n in Missed(v, peer, journal, open);
    }
  }

  lemma RoundCatchesUp(v: View, peer: string, journal: map<int, Entry>, open: Opener)
    requires CaughtUp(v, peer, journal, open)
    ensures var v' := SyncRound(v, peer, journal, open);
            CaughtUp(v', peer, journal, open) && AllBelow(journal, Cursor(v'.marks, peer))
  {
    var after := Cursor(v.marks, peer);
    var tail := Listing(journal, after);
    var v' := SyncRound(v, peer, journal, open);
    forall n | n in journal ensures n <= Cursor(v'.marks, peer) {
      ListingHolds(journal, after, Arrival(n, journal[n]));
    }
    forall n | n in journal && 0 < n && open(journal[n].payload).Some? ensures InKey(peer, n) in v'.rows {
      var m := Arrival(n, journal[n]);
      ListingHolds(journal, after, m);
      TakeAllAdds(v.rows, peer, tail, open, InKey(peer, n));
      assert m in tail ==> Openable(m, open);
    }
  }

  // ------------------------------------------------------------ rounds over time

  /** The watermark client and one that re-fetches everything, side by side. */
  datatype Clients = Clients(view: View, rescanned: Rows)

  const NEW_CLIENTS := Clients(View(map[], map[]), map[])

  function SyncBoth(c: Clients, peer: string, journal: map<int, Entry>, open: Opener): Clients {
    Clients(SyncRound(c.view, peer, journal, open), Rescan(c.rescanned, peer, journal, open))
  }

  /** One round against each state of the journal in turn. */
  function SyncEach(c: Clients, peer: string, journals: seq<map<int, Entry>>, open: Opener): Clients {
    if journals == [] then c
    else SyncBoth(SyncEach(c, peer, journals[..|journals| - 1], open), peer, journals[|journals| - 1], open)
  }

  lemma RoundMovesUp(v: View, peer: string, journal: map<int, Entry>, open: Opener)
    ensures Cursor(SyncRound(v, peer, journal, open).marks, peer) >= Cursor(v.marks, peer)
  {
  }

  /** What is at or below the watermark and not stored is never fetched again. */
  lemma {:induction false} NeverFetchedAgain(c: Clients, peer: string, journals: seq<map<int, Entry>>, open: Opener, n: int)
    requires n <= Cursor(c.view.marks, peer) && InKey(peer, n) !in c.view.rows
    ensures var c' := SyncEach(c, peer, journals, open);
            n <= Cursor(c'.view.marks, peer) && InKey(peer, n) !in c'.view.rows
  {
    hide SyncRound, Rescan, TakeAll, Listing, Cursor;
    if journals != [] {
      var init, last := journals[..|journals| - 1], journals[|journals| - 1];
      NeverFetchedAgain(c, peer, init, open, n);
      NotFetched(SyncEach(c, peer, init, open).view, peer, last, open, n);
    }
  }

  lemma NotFetched(v: View, peer: string, journal: map<int, Entry>, open: Opener, n: int)
    requires n <= Cursor(v.marks, peer) && InKey(peer, n) !in v.rows
    ensures var v' := SyncRound(v, peer, journal, open);
            n <= Cursor(v'.marks, peer) && InKey(peer, n) !in v'.rows
  {
    RoundMovesUp(v, peer, journal, open);
    PassIs(v.rows, peer, journal, Cursor(v.marks, peer), open, InKey(peer, n));
  }

  ghost predicate NothingMissed(c: Clients, peer: string, journals: seq<map<int, Entry>>, open: Opener) {
    forall i :: 0 <= i < |journals| ==>
      CaughtUp(SyncEach(c, peer, journals[..i], open).view, peer, journals[i], open)
  }

  /** A seq the rescanning client has and the watermark client never will. */
  ghost predicate LostAt(c: Clients, peer: string, n: int) {
    n <= Cursor(c.view.marks, peer) && InKey(peer, n) !in c.view.rows && InKey(peer, n) in c.rescanned
  }

  lemma RoundKeepsLoss(c: Clients, peer: string, journal: map<int, Entry>, open: Opener, n: int)
    requires LostAt(c, peer, n)
    ensures LostAt(SyncBoth(c, peer, journal, open), peer, n)
  {
    hide SyncRound, TakeAll, Listing, Cursor;
    NotFetched(c.view, peer, journal, open, n);
    PassIs(c.rescanned, peer, journal, 0, open, InKey(peer, n));
  }

  lemma RoundLoses(c: Clients, peer: string, journal: map<int, Entry>, open: Opener) returns (n: int)
    requires !CaughtUp(c.view, peer, journal, open)
    ensures LostAt(SyncBoth(c, peer, journal, open), peer, n)
  {
    n :| n in journal && 0 < n <= Cursor(c.view.marks, peer) && open(journal[n].payload).Some? && InKey(peer, n) !in c.view.rows;
    hide SyncRound, TakeAll, Listing, Cursor;
    NotFetched(c.view, peer, journal, open, n);
    PassIs(c.rescanned, peer, journal, 0, open, InKey(peer, n));
  }

  lemma {:induction false} OneMissIsALoss(c: Clients, peer: string, journals: seq<map<int, Entry>>, open: Opener, i: nat) returns (n: int)
    requires i < |journals| && !CaughtUp(SyncEach(c, peer, journals[..i], open).view, peer, journals[i], open)
    ensures LostAt(SyncEach(c, peer, journals, open), peer, n)
  {
    hide SyncBoth, LostAt, CaughtUp;
    var init, last := journals[..|journals| - 1], journals[|journals| - 1];
    if i < |init| {
      assert init[..i] == journals[..i];
      n := OneMissIsALoss(c, peer, init, open, i);
      RoundKeepsLoss(SyncEach(c, peer, init, open), peer, last, open, n);
    } else {
      n := RoundLoses(SyncEach(c, peer, init, open), peer, last, open);
    }
  }

  lemma {:induction false} NoMissNoLoss(c: Clients, peer: string, journals: seq<map<int, Entry>>, open: Opener)
    requires c.view.rows == c.rescanned && NothingMissed(c, peer, journals, open)
    ensures SyncEach(c, peer, journals, open).view.rows == SyncEach(c, peer, journals, open).rescanned
  {
    hide SyncRound, Rescan, CaughtUp;
    if journals != [] {
      var n := |journals| - 1;
      var init := journals[..n];
      forall i | 0 <= i < |init| ensures init[..i] == journals[..i] && init[i] == journals[i] {}
      NoMissNoLoss(c, peer, init, open);
      RoundIsCompleteExactlyWhen(SyncEach(c, peer, init, open).view, peer, journals[n], open);
    }
  }

  /** Whatever becomes of the journal between rounds, the watermark client ends with
      the rows of the rescanning one if and only if no round found an openable entry at
      or below its watermark that was not stored. */
  lemma ProjectionIsCompleteExactlyWhen(peer: string, journals: seq<map<int, Entry>>, open: Opener)
    ensures var c := SyncEach(NEW_CLIENTS, peer, journals, open);
            c.view.rows == c.rescanned <==> NothingMissed(NEW_CLIENTS, peer, journals, open)
  {
    hide CaughtUp, SyncBoth;
    if NothingMissed(NEW_CLIENTS, peer, journals, open) {
      NoMissNoLoss(NEW_CLIENTS, peer, journals, open);
    } else {
      var i :| 0 <= i < |journals| && !CaughtUp(SyncEach(NEW_CLIENTS, peer, journals[..i], open).view, peer, journals[i], open);
      var n := OneMissIsALoss(NEW_CLIENTS, peer, journals, open, i);
    }
  }

  ghost predicate InStep(c: Clients, peer: string, journal: map<int, Entry>, open: Opener) {
    c.view.rows == c.rescanned && CaughtUp(c.view, peer, journal, open)
  }

  /** While the journal gains entries only above the watermark, rounds stay complete. */
  lemma RoundStaysInStep(c: Clients, peer: string, earlier: map<int, Entry>, later: map<int, Entry>, open: Opener)
    requires InStep(c, peer, earlier, open) && Follows(earlier, later, Cursor(c.view.marks, peer))
    ensures InStep(SyncBoth(c, peer, later, open), peer, later, open)
  {
    StillCaughtUp(c.view, peer, earlier, later, open);
    hide SyncRound, Rescan, CaughtUp, Follows;
    RoundIsCompleteExactlyWhen(c.view, peer, later, open);
    RoundCatchesUp(c.view, peer, later, open);
  }

  lemma StillCaughtUp(v: View, peer: string, earlier: map<int, Entry>, later: map<int, Entry>, open: Opener)
    requires CaughtUp(v, peer, earlier, open) && Follows(earlier, later, Cursor(v.marks, peer))
    ensures CaughtUp(v, peer, later, open)
  {
  }

  // ----------------------------------------------------- rounds between arrivals

  /** The journal and both clients. */
  datatype World = World(log: Log, clients: Clients)

  function Accept(log: Log, capacity: nat, arrivals: seq<Arrival>): Log {
    if arrivals == [] then log
    else
      var last := arrivals[|arrivals| - 1];
      AddTo(Accept(log, capacity, arrivals[..|arrivals| - 1]), capacity, last.sn, last.entry).0
  }

  /** Every arrival the journal takes for new lies above `w`. */
  ghost predicate NewOnlyAbove(log: Log, capacity: nat, arrivals: seq<Arrival>, w: nat) {
    forall i :: 0 <= i < |arrivals| ==>
      AddTo(Accept(log, capacity, arrivals[..i]), capacity, arrivals[i].sn, arrivals[i].entry).1 ==> arrivals[i].sn > w
  }

  lemma AddFollows(earlier: map<int, Entry>, log: Log, capacity: nat, a: Arrival, w: nat)
    requires Follows(earlier, log.rows, w)
    requires AddTo(log, capacity, a.sn, a.entry).1 ==> a.sn > w
    ensures Follows(earlier, AddTo(log, capacity, a.sn, a.entry).0.rows, w)
  {
    hide Top;
  }

  lemma {:induction false} AcceptFollows(log: Log, capacity: nat, arrivals: seq<Arrival>, w: nat)
    requires NewOnlyAbove(log, capacity, arrivals, w)
    ensures Follows(log.rows, Accept(log, capacity, arrivals).rows, w)
  {
    hide AddTo;
    if arrivals != [] {
      var n := |arrivals| - 1;
      var init := arrivals[..n];
      forall i | 0 <= i < |init| ensures init[..i] == arrivals[..i] && init[i] == arrivals[i] {}
      AcceptFollows(log, capacity, init, w);
      AddFollows(log.rows, Accept(log, capacity, init), capacity, arrivals[n], w);
    }
  }

  /** Arrivals, then one sync round by each client. */
  function Advanced(w: World, peer: string, capacity: nat, arrivals: seq<Arrival>, open: Opener): World {
    var log := Accept(w.log, capacity, arrivals);
    World(log, SyncBoth(w.clients, peer, log.rows, open))
  }

  function RunRounds(peer: string, capacity: nat, rounds: seq<seq<Arrival>>, open: Opener): World {
    if rounds == [] then World(Log(map[], {}), NEW_CLIENTS)
    else Advanced(RunRounds(peer, capacity, rounds[..|rounds| - 1], open), peer, capacity, rounds[|rounds| - 1], open)
  }

  /** Whatever is accepted after a round lies above the watermark that round set. */
  ghost predicate InOrder(peer: string, capacity: nat, rounds: seq<seq<Arrival>>, open: Opener) {
    forall i :: 0 <= i < |rounds| ==>
      var w := RunRounds(peer, capacity, rounds[..i], open);
      NewOnlyAbove(w.log, capacity, rounds[i], Cursor(w.clients.view.marks, peer))
  }

  /** Watermark sync equals full re-scan: after every round the watermark client holds
      exactly the rows of a client that re-fetched the whole journal every time, with
      trimming, undecryptable entries and messages for other conversations. */
  lemma {:induction false} SyncEqualsRescan(peer: string, capacity: nat, rounds: seq<seq<Arrival>>, open: Opener)
    requires InOrder(peer, capacity, rounds, open)
    ensures var w := RunRounds(peer, capacity, rounds, open);
            w.clients.view.rows == w.clients.rescanned && InStep(w.clients, peer, w.log.rows, open)
  {
    hide SyncBoth, Accept, NewOnlyAbove, CaughtUp, Follows;
    if rounds == [] {
      NothingIsCaughtUp(peer, open);
    } else {
      var n := |rounds| - 1;
      var init := rounds[..n];
      forall i | 0 <= i < |init| ensures init[..i] == rounds[..i] && init[i] == rounds[i] {}
      SyncEqualsRescan(peer, capacity, init, open);
      var w := RunRounds(peer, capacity, init, open);
      AcceptFollows(w.log, capacity, rounds[n], Cursor(w.clients.view.marks, peer));
      RoundStaysInStep(w.clients, peer, w.log.rows, Accept(w.log, capacity, rounds[n]).rows, open);
    }
  }

  lemma NothingIsCaughtUp(peer: string, open: Opener)
    ensures CaughtUp(View(map[], map[]), peer, map[], open)
  {
  }

  // -------------------------------------------------------- live events and clears

  /** ingest_opened: store a decrypted message and move the watermark to its seq. */
  function OnEvent(v: View, peer: string, sn: nat, o: Opened): View {
    View(Ingest(v.rows, peer, sn, o), if sn > Cursor(v.marks, peer) then Advance(v.marks, peer, sn) else v.marks)
  }

  /** A live event stores its message, if its seq is new, under the conversation it names
      or else its sender, moves its sender's watermark up to its seq, and does nothing else. */
  lemma EventFilesMessage(v: View, peer: string, sn: nat, o: Opened)
    ensures var v', k := OnEvent(v, peer, sn, o), InKey(peer, sn);
            && k in v'.rows && (k in v.rows ==> v'.rows == v.rows)
            && (k !in v.rows ==>
                  && v'.rows[k].conv == (if o.conv == "" then peer else o.conv)
                  && v'.rows[k].ts == o.ts && v'.rows[k].text == o.text)
            && (forall j :: j != k ==> (j in v'.rows <==> j in v.rows) && (j in v.rows ==> v'.rows[j] == v.rows[j]))
            && Cursor(v'.marks, peer) == (if sn > Cursor(v.marks, peer) then sn else Cursor(v.marks, peer))
            && (forall p :: p != peer ==> (p in v'.marks <==> p in v.marks) && (p in v.marks ==> v'.marks[p] == v.marks[p]))
  {
  }

  /** The openable, unstored entries that an event for `sn` jumps over. */
  function JumpedOver(v: View, peer: string, sn: nat, journal: map<int, Entry>, open: Opener): set<int> {
    set n | n in journal && Cursor(v.marks, peer) < n < sn && open(journal[n].payload).Some?
            && InKey(peer, n) !in v.rows
  }

  /** What rounds can no longer fetch after an event is what they could not before, less
      the entry the event brought, and all it jumps over. */
  lemma EventMisses(v: View, peer: string, sn: nat, o: Opened, journal: map<int, Entry>, open: Opener)
    ensures Missed(OnEvent(v, peer, sn, o), peer, journal, open) ==
            Missed(v, peer, journal, open) - {sn} + JumpedOver(v, peer, sn, journal, open)
  {
    var v' := OnEvent(v, peer, sn, o);
    assert forall n :: n != sn ==> (InKey(peer, n) in v'.rows <==> InKey(peer, n) in v.rows);
    assert InKey(peer, sn) in v'.rows;
  }

  /** After a live event the next round fetches everything there is to fetch if and
      only if every openable entry the event jumps over is already stored. */
  lemma EventKeepsUpExactlyWhen(v: View, peer: string, sn: nat, o: Opened, journal: map<int, Entry>, open: Opener)
    requires CaughtUp(v, peer, journal, open)
    ensures var v' := OnEvent(v, peer, sn, o);
            SyncRound(v', peer, journal, open).rows == Rescan(v'.rows, peer, journal, open) <==>
            forall n :: n in journal && Cursor(v.marks, peer) < n < sn && open(journal[n].payload).Some? ==>
              InKey(peer, n) in v.rows
  {
    var v' := OnEvent(v, peer, sn, o);
    RoundIsCompleteExactlyWhen(v', peer, journal, open);
    hide SyncRound, Rescan;
    assert forall n :: n != sn ==> (InKey(peer, n) in v'.rows <==> InKey(peer, n) in v.rows);
    assert InKey(peer, sn) in v'.rows;
    assert Cursor(v'.marks, peer) == if sn > Cursor(v.marks, peer) then sn else Cursor(v.marks, peer);
  }

  /** An event that jumps ahead loses what it skipped for every later round: with
      entries 1 and 2 waiting, hearing of 2 first hides 1 for good. */
  lemma EventCanSkip(peer: string, open: Opener, e: Entry, journals: seq<map<int, Entry>>)
    requires open(e.payload).Some?
    ensures var v := OnEvent(NEW_CLIENTS.view, peer, 2, open(e.payload).value);
            && InKey(peer, 1) !in SyncEach(Clients(v, v.rows), peer, journals, open).view.rows
            && InKey(peer, 1) in Rescan(v.rows, peer, map[1 := e, 2 := e], open)
  {
    var journal := map[1 := e, 2 := e];
    var v := OnEvent(NEW_CLIENTS.view, peer, 2, open(e.payload).value);
    NeverFetchedAgain(Clients(v, v.rows), peer, journals, open, 1);
    PassIs(v.rows, peer, journal, 0, open, InKey(peer, 1));
  }

  /** clear_history on the inbound rows. */
  function Cleared(v: View, conv: string): View {
    v.(rows := map k | k in v.rows && v.rows[k].conv != conv :: v.rows[k])
  }

  /** A row cleared at or below the watermark does not come back in any later round,
      whatever the journal still retains. */
  lemma ClearedStaysCleared(v: View, peer: string, conv: string, journals: seq<map<int, Entry>>, open: Opener, n: nat)
    requires n <= Cursor(v.marks, peer)
    requires InKey(peer, n) in v.rows && v.rows[InKey(peer, n)].conv == conv
    ensures var w := Cleared(v, conv);
            InKey(peer, n) !in SyncEach(Clients(w, w.rows), peer, journals, open).view.rows
  {
    var w := Cleared(v, conv);
    NeverFetchedAgain(Clients(w, w.rows), peer, journals, open, n);
  }

  /** delete_room: drop the conversation's rows, then move the watermark of a member
      past the dismissed backlog (`latest` is 0 when no scan point is given). */
  function Deleted(v: View, conv: string, peer: string, latest: nat): View {
    var cleared := Cleared(v, conv);
    if latest == 0 then cleared else cleared.(marks := Advance(v.marks, peer, latest))
  }

  /** Deleting a room takes exactly its rows and moves at most the one watermark, up to
      the scan point when there is one. */
  lemma DeletingTakesTheRoom(v: View, conv: string, peer: string, latest: nat)
    ensures var v' := Deleted(v, conv, peer, latest);
            && (forall k :: k in v'.rows <==> k in v.rows && v.rows[k].conv != conv)
            && (forall k :: k in v'.rows ==> v'.rows[k] == v.rows[k])
            && Cursor(v'.marks, peer) == (if latest > Cursor(v.marks, peer) then latest else Cursor(v.marks, peer))
            && (forall p :: p != peer ==> (p in v'.marks <==> p in v.marks) && (p in v.marks ==> v'.marks[p] == v.marks[p]))
  {
  }

  /** The rows of every conversation but `conv`. */
  function Others(rows: Rows, conv: string): Rows {
    map k | k in rows && rows[k].conv != conv :: rows[k]
  }

  /** Entry `n` opens, for a conversation other than `conv`. */
  ghost predicate ForOthers(conv: string, peer: string, journal: map<int, Entry>, open: Opener, n: int)
    requires n in journal
  {
    open(journal[n].payload).Some? && RowOf(peer, open(journal[n].payload).value).conv != conv
  }

  /** Stored rows carry what their journal entry routes to. */
  ghost predicate RowsMatch(v: View, peer: string, journal: map<int, Entry>, open: Opener) {
    forall n :: n in journal && InKey(peer, n) in v.rows && open(journal[n].payload).Some? ==>
      v.rows[InKey(peer, n)] == RowOf(peer, open(journal[n].payload).value)
  }

  /** Everything for the other conversations up to the watermark is stored. */
  ghost predicate OthersCaughtUp(v: View, conv: string, peer: string, journal: map<int, Entry>, open: Opener) {
    forall n :: n in journal && 0 < n <= Cursor(v.marks, peer) && ForOthers(conv, peer, journal, open, n) ==>
      InKey(peer, n) in v.rows
  }

  ghost predicate Within(journal: map<int, Entry>, source: map<int, Entry>) {
    forall n :: n in journal ==> n in source && source[n] == journal[n]
  }

  lemma MatchWithin(v: View, peer: string, journal: map<int, Entry>, source: map<int, Entry>, open: Opener)
    requires RowsMatch(v, peer, source, open) && Within(journal, source)
    ensures RowsMatch(v, peer, journal, open)
  {
  }

  /** While all journals agree on what each seq holds, rounds keep rows and entries matched. */
  lemma RoundKeepsMatch(v: View, peer: string, journal: map<int, Entry>, source: map<int, Entry>, open: Opener)
    requires RowsMatch(v, peer, source, open) && Within(journal, source)
    ensures RowsMatch(SyncRound(v, peer, journal, open), peer, source, open)
  {
    hide TakeAll, Listing, RowOf;
    var v' := SyncRound(v, peer, journal, open);
    forall n | n in source && InKey(peer, n) in v'.rows && open(source[n].payload).Some?
      ensures v'.rows[InKey(peer, n)] == RowOf(peer, open(source[n].payload).value)
    {
      PassIs(v.rows, peer, journal, Cursor(v.marks, peer), open, InKey(peer, n));
    }
  }

  lemma {:induction false} RoundsKeepMatch(c: Clients, peer: string, journals: seq<map<int, Entry>>, source: map<int, Entry>, open: Opener)
    requires RowsMatch(c.view, peer, source, open) && forall i :: 0 <= i < |journals| ==> Within(journals[i], source)
    ensures RowsMatch(SyncEach(c, peer, journals, open).view, peer, source, open)
  {
    hide SyncRound, Rescan, RowsMatch, Within;
    if journals != [] {
      var init, last := journals[..|journals| - 1], journals[|journals| - 1];
      forall i | 0 <= i < |init| ensures Within(init[i], source) { assert init[i] == journals[i]; }
      RoundsKeepMatch(c, peer, init, source, open);
      RoundKeepsMatch(SyncEach(c, peer, init, open).view, peer, last, source, open);
    }
  }

  /** The row of one key, as far as the other conversations go, after a pass from `w`. */
  lemma OthersAfterPass(v: View, conv: string, peer: string, journal: map<int, Entry>, w: nat, open: Opener, k: InKey)
    requires RowsMatch(v, peer, journal, open)
    ensures var rows := Others(TakeAll(Cleared(v, conv).rows, peer, Listing(journal, w), open), conv);
            && (k in Others(v.rows, conv) ==> k in rows && rows[k] == v.rows[k])
            && (k !in Others(v.rows, conv) ==>
                  (k in rows <==> k.sender == peer && k.sn in journal && k.sn > w
                                  && ForOthers(conv, peer, journal, open, k.sn)))
            && (k !in Others(v.rows, conv) && k in rows ==> rows[k] == RowOf(peer, open(journal[k.sn].payload).value))
  {
    hide TakeAll, Listing, RowOf;
    PassIs(Cleared(v, conv).rows, peer, journal, w, open, k);
  }

  lemma CaughtUpIsForOthers(v: View, conv: string, peer: string, journal: map<int, Entry>, open: Opener)
    requires CaughtUp(v, peer, journal, open)
    ensures OthersCaughtUp(v, conv, peer, journal, open)
  {
  }

  /** The watermark is shared by all conversations of a peer: after deleting a room,
      the next round fetches everything of the peer's other conversations if and only
      if what of theirs lies at or below the new watermark had been stored before. */
  lemma DeletingKeepsOthersExactlyWhen(v: View, conv: string, peer: string, latest: nat,
                                       journal: map<int, Entry>, open: Opener)
    requires OthersCaughtUp(v, conv, peer, journal, open) && RowsMatch(v, peer, journal, open)
    ensures var v' := Deleted(v, conv, peer, latest);
            Others(SyncRound(v', peer, journal, open).rows, conv) == Others(Rescan(v'.rows, peer, journal, open), conv) <==>
            forall n :: n in journal && Cursor(v.marks, peer) < n <= latest && ForOthers(conv, peer, journal, open, n) ==>
              InKey(peer, n) in v.rows
  {
    hide TakeAll, Listing, RowOf;
    var v' := Deleted(v, conv, peer, latest);
    var w := Cursor(v'.marks, peer);
    assert w == if latest > Cursor(v.marks, peer) then latest else Cursor(v.marks, peer);
    var one := Others(SyncRound(v', peer, journal, open).rows, conv);
    var two := Others(Rescan(v'.rows, peer, journal, open), conv);
    forall k
      ensures (k in one ==> k in two && one[k] == two[k])
      ensures k in two && k !in one <==>
              k.sender == peer && k.sn in journal && 0 < k.sn <= w && ForOthers(conv, peer, journal, open, k.sn)
              && k !in Others(v.rows, conv)
    {
      OthersAfterPass(v, conv, peer, journal, w, open, k);
      OthersAfterPass(v, conv, peer, journal, 0, open, k);
    }
    OthersDiffer(v, conv, peer, latest, journal, open, one, two);
  }

  lemma OthersDiffer(v: View, conv: string, peer: string, latest: nat, journal: map<int, Entry>, open: Opener,
                     one: Rows, two: Rows)
    requires OthersCaughtUp(v, conv, peer, journal, open) && RowsMatch(v, peer, journal, open)
    requires forall k :: k in one ==> k in two && one[k] == two[k]
    requires var w := if latest > Cursor(v.marks, peer) then latest else Cursor(v.marks, peer);
             forall k :: k in two && k !in one <==>
               k.sender == peer && k.sn in journal && 0 < k.sn <= w && ForOthers(conv, peer, journal, open, k.sn)
               && k !in Others(v.rows, conv)
    ensures one == two <==>
            forall n :: n in journal && Cursor(v.marks, peer) < n <= latest && ForOthers(conv, peer, journal, open, n) ==>
              InKey(peer, n) in v.rows
  {
    hide RowOf;
    if n :| n in journal && Cursor(v.marks, peer) < n <= latest && ForOthers(conv, peer, journal, open, n)
            && InKey(peer, n) !in v.rows {
      var k := InKey(peer, n);
      assert k in two && k !in one;
    } else {
      assert forall k: InKey :: k.sender == peer ==> k == InKey(peer, k.sn);
      assert one.Keys == two.Keys;
    }
  }

  /** Deleting one room can hide another conversation's message, in every later round:
      with an entry for another conversation waiting below the room's last one, deleting
      the room up to that one loses the other. */
  lemma DeletingCanHide(peer: string, conv: string, open: Opener, home: Entry, work: Entry, journals: seq<map<int, Entry>>)
    requires open(home.payload).Some? && RowOf(peer, open(home.payload).value).conv != conv
    ensures var v := Deleted(NEW_CLIENTS.view, conv, peer, 2);
            && InKey(peer, 1) in Others(Rescan(v.rows, peer, map[1 := home, 2 := work], open), conv)
            && InKey(peer, 1) !in SyncEach(Clients(v, v.rows), peer, journals, open).view.rows
  {
    var journal := map[1 := home, 2 := work];
    var v := Deleted(NEW_CLIENTS.view, conv, peer, 2);
    PassIs(v.rows, peer, journal, 0, open, InKey(peer, 1));
    NeverFetchedAgain(Clients(v, v.rows), peer, journals, open, 1);
  }

  // -------------------------------------------------------------------- the objects

  class Store {
    var inbound: Rows
    var watermark: map<string, nat>

    ghost function Contents(): View
      reads this
    {
      View(inbound, watermark)
    }

    constructor ()
      ensures Contents() == View(map[], map[])
    {
      inbound, watermark := map[], map[];
    }

    method SetCursor(peer: string, sn: nat)
      modifies this`watermark
      ensures watermark == Advance(old(watermark), peer, sn)
      ensures Cursor(watermark, peer) >= Cursor(old(watermark), peer)
    {
      watermark := Advance(watermark, peer, sn);
    }

    method IngestRow(peer: string, sn: int, o: Opened) returns (isNew: bool)
      modifies this`inbound
      ensures inbound == Ingest(old(inbound), peer, sn, o)
      ensures isNew == (InKey(peer, sn) !in old(inbound))
    {
      isNew := InKey(peer, sn) !in inbound;
      if isNew {
        inbound := inbound[InKey(peer, sn) := RowOf(peer, o)];
      }
    }

    /** One entry of a fetched response: undecryptable ones are passed over. */
    method TakeOne(peer: string, m: Arrival, open: Opener) returns (isNew: bool)
      modifies this`inbound
      ensures inbound == Take(old(inbound), peer, m, open)
      ensures |inbound| == |old(inbound)| + if isNew then 1 else 0
    {
      var text := open(m.entry.payload);
      if text.None? {
        return false;
      }
      ghost var before := inbound;
      isNew := IngestRow(peer, m.sn, text.value);
      if isNew {
        assert inbound.Keys == before.Keys + {InKey(peer, m.sn)};
      }
    }

    /** Sync.apply on a fetched response. */
    method Apply(peer: string, msgs: seq<Arrival>, open: Opener) returns (added: nat)
      modifies this
      ensures inbound == TakeAll(old(inbound), peer, msgs, open)
      ensures watermark ==
                var after := Cursor(old(watermark), peer);
                if MaxSeen(msgs, after) > after then Advance(old(watermark), peer, MaxSeen(msgs, after)) else old(watermark)
      ensures added == |inbound| - |old(inbound)|
    {
      hide Take, Advance, Cursor;
      var after := Cursor(watermark, peer);
      var maxSeen := after;
      added := 0;
      for i := 0 to |msgs|
        invariant inbound == TakeAll(old(inbound), peer, msgs[..i], open)
        invariant maxSeen == MaxSeen(msgs[..i], after)
        invariant watermark == old(watermark)
        invariant added == |inbound| - |old(inbound)|
      {
        var m := msgs[i];
        assert msgs[..i + 1][..i] == msgs[..i];
        if m.sn > maxSeen {
          maxSeen := m.sn;
        }
        var isNew := TakeOne(peer, m, open);
        if isNew {
          added := added + 1;
        }
      }
      assert msgs[..|msgs|] == msgs;
      if maxSeen > after {
        SetCursor(peer, maxSeen);
      }
    }

    /** sync_peer: an atomic fetch of the journal tail and its application. The
        watermark is a SQLite integer, as the seq it is compared with. */
    method SyncPeer(peer: string, inbox: InboxStore, open: Opener) returns (added: nat)
      requires Cursor(watermark, peer) < TWO_63 && inbox.Valid()
      modifies this
      ensures Contents() == SyncRound(old(Contents()), peer, inbox.rows, open)
      ensures added == |inbound| - |old(inbound)|
      ensures Cursor(watermark, peer) < TWO_63
    {
      hide TakeAll, Listing, Reflects;
      var after := Cursor(watermark, peer);
      var msgs := inbox.After(after);
      inbox.RowsAreInt64();
      forall m | m in msgs ensures m.sn < TWO_63 {
        ListingHolds(inbox.rows, after, m);
      }
      added := Apply(peer, msgs, open);
    }
  }
}
