/** Delivery tracking of outgoing messages (client/aimless/store.py): one row per
    recipient and seq, and the queries that summarise them. */
module Deliveries {
  import opened Bytes
  import opened Ranks

  datatype Slot = Slot(node: string, sn: nat)
  datatype Track = Track(mid: string, acked: bool)
  type Table = map<Slot, Track>

  // --------------------------------------------------------------------- queries

  function Tracked(t: Table, mid: string): set<Slot> {
    set k | k in t && t[k].mid == mid
  }

  function AckedOf(t: Table, mid: string): set<Slot> {
    set k | k in t && t[k].mid == mid && t[k].acked
  }

  /** None for an untracked message. */
  function IsDelivered(t: Table, mid: string): Option<bool> {
    if |Tracked(t, mid)| == 0 then None else Some(|AckedOf(t, mid)| == |Tracked(t, mid)|)
  }

  function Undelivered(t: Table, mid: string): set<Slot> {
    set k | k in t && t[k].mid == mid && !t[k].acked
  }

  function Recipients(t: Table, mid: string): set<string> {
    set k | k in t && t[k].mid == mid :: k.node
  }

  function CountFor(t: Table, mid: string, node: string): nat {
    |set k | k in t && t[k].mid == mid && k.node == node|
  }

  function AckedFor(t: Table, mid: string, node: string): nat {
    |set k | k in t && t[k].mid == mid && k.node == node && t[k].acked|
  }

  function DoneRecipients(t: Table, mid: string): set<string> {
    set node | node in Recipients(t, mid) && AckedFor(t, mid, node) == CountFor(t, mid, node)
  }

  /** delivery_members: recipients, and recipients with every chunk acked. */
  function Members(t: Table, mid: string): (nat, nat) {
    (|Recipients(t, mid)|, |DoneRecipients(t, mid)|)
  }

  lemma DoneExactlyWhen(t: Table, mid: string, node: string)
    requires node in Recipients(t, mid)
    ensures node in DoneRecipients(t, mid) <==>
            forall k :: k in t && t[k].mid == mid && k.node == node ==> t[k].acked
  {
    var all := set k | k in t && t[k].mid == mid && k.node == node;
    var acked := set k | k in t && t[k].mid == mid && k.node == node && t[k].acked;
    SubsetSize(acked, all);
    if |acked| == |all| {
      forall k | k in t && t[k].mid == mid && k.node == node ensures t[k].acked {
        assert k in all;
        assert k in acked;
      }
    }
    if forall k :: k in t && t[k].mid == mid && k.node == node ==> t[k].acked {
      assert acked == all;
    }
  }

  /** delivery_members counts the recipients, and those all of whose chunks are acked. */
  lemma MembersCountRecipients(t: Table, mid: string, all: set<string>, done: set<string>)
    requires forall node :: node in all <==> exists k :: k in t && t[k].mid == mid && k.node == node
    requires forall node :: node in done <==>
               node in all && forall k :: k in t && t[k].mid == mid && k.node == node ==> t[k].acked
    ensures Members(t, mid) == (|all|, |done|)
  {
    hide CountFor, AckedFor;
    forall node ensures node in all <==> node in Recipients(t, mid) {
      if node in all {
        var k :| k in t && t[k].mid == mid && k.node == node;
        assert k.node in Recipients(t, mid);
      }
    }
    assert all == Recipients(t, mid);
    forall node | node in all ensures node in done <==> node in DoneRecipients(t, mid) { DoneExactlyWhen(t, mid, node); }
    assert done == DoneRecipients(t, mid);
  }

  lemma AllDoneExactlyWhen(t: Table, mid: string)
    ensures |DoneRecipients(t, mid)| == |Recipients(t, mid)| <==> Undelivered(t, mid) == {}
  {
    var open := Undelivered(t, mid);
    SubsetSize(DoneRecipients(t, mid), Recipients(t, mid));
    if open == {} {
      forall node | node in Recipients(t, mid) ensures node in DoneRecipients(t, mid) {
        forall k | k in t && t[k].mid == mid && k.node == node ensures t[k].acked { assert k !in open; }
        DoneExactlyWhen(t, mid, node);
      }
      assert DoneRecipients(t, mid) == Recipients(t, mid);
    } else {
      var k :| k in open;
      assert k.node in Recipients(t, mid);
      DoneExactlyWhen(t, mid, k.node);
      assert k.node !in DoneRecipients(t, mid);
    }
  }

  /** Three ways of asking agree on every table: all rows acked, all recipients done,
      nothing undelivered. An untracked message is delivered under none of them. */
  lemma ViewsAgree(t: Table, mid: string)
    ensures IsDelivered(t, mid) == Some(true) <==> Members(t, mid).0 > 0 && Members(t, mid).1 == Members(t, mid).0
    ensures IsDelivered(t, mid) == Some(true) <==> Tracked(t, mid) != {} && Undelivered(t, mid) == {}
    ensures IsDelivered(t, mid).None? <==> Members(t, mid) == (0, 0)
    ensures |AckedOf(t, mid)| + |Undelivered(t, mid)| == |Tracked(t, mid)|
  {
    var all, acked, open := Tracked(t, mid), AckedOf(t, mid), Undelivered(t, mid);
    assert all == acked + open;
    assert acked !! open;
    hide Tracked, AckedOf, Undelivered, Recipients, CountFor, AckedFor;
    assert |all| == |acked| + |open|;
    RecipientsExist(t, mid);
    AllDoneExactlyWhen(t, mid);
  }

  lemma RecipientsExist(t: Table, mid: string)
    ensures Tracked(t, mid) == {} <==> Recipients(t, mid) == {}
  {
    if Tracked(t, mid) != {} {
      var k :| k in Tracked(t, mid);
      assert k.node in Recipients(t, mid);
    }
    if Recipients(t, mid) != {} {
      var node :| node in Recipients(t, mid);
      var k :| k in t && t[k].mid == mid && k.node == node;
      assert k in Tracked(t, mid);
    }
  }

  // --------------------------------------------------------------------- summary

  /** One row of the GROUP BY msg_id, node query. */
  datatype Group = Group(mid: string, node: string, cnt: nat, acked: nat)

  ghost predicate IsGroup(t: Table, g: Group) {
    && g.node in Recipients(t, g.mid)
    && g.cnt == CountFor(t, g.mid, g.node) && g.acked == AckedFor(t, g.mid, g.node)
  }

  /** The query's answer: one row per message asked for and recipient, in any order. */
  ghost predicate IsListing(t: Table, ids: set<string>, groups: seq<Group>) {
    && (forall g :: g in groups ==> g.mid in ids && IsGroup(t, g))
    && (forall i, j :: 0 <= i < j < |groups| ==> (groups[i].mid, groups[i].node) != (groups[j].mid, groups[j].node))
    && (forall mid, node :: mid in ids && node in Recipients(t, mid) ==>
          Group(mid, node, CountFor(t, mid, node), AckedFor(t, mid, node)) in groups)
  }

  function NodesSeen(groups: seq<Group>, mid: string): set<string> {
    set g | g in groups && g.mid == mid :: g.node
  }

  function NodesDone(groups: seq<Group>, mid: string): set<string> {
    set g | g in groups && g.mid == mid && g.acked == g.cnt :: g.node
  }

  ghost predicate SummarisesOne(summary: map<string, (nat, nat)>, groups: seq<Group>, mid: string) {
    && (mid in summary <==> NodesSeen(groups, mid) != {})
    && (mid in summary ==> summary[mid] == (|NodesSeen(groups, mid)|, |NodesDone(groups, mid)|))
  }

  ghost predicate Summarises(summary: map<string, (nat, nat)>, groups: seq<Group>) {
    forall mid :: SummarisesOne(summary, groups, mid)
  }

  lemma NodesGrow(groups: seq<Group>, g: Group, mid: string)
    ensures NodesSeen(groups + [g], mid) == NodesSeen(groups, mid) + if mid == g.mid then {g.node} else {}
    ensures NodesDone(groups + [g], mid) ==
            NodesDone(groups, mid) + if mid == g.mid && g.acked == g.cnt then {g.node} else {}
    ensures NodesDone(groups, mid) <= NodesSeen(groups, mid)
  {
    var longer := groups + [g];
    assert forall x :: x in longer <==> x in groups || x == g;
  }

  function Counted(summary: map<string, (nat, nat)>, g: Group): map<string, (nat, nat)> {
    var (total, done) := if g.mid in summary then summary[g.mid] else (0, 0);
    summary[g.mid := (total + 1, done + if g.acked == g.cnt then 1 else 0)]
  }

  lemma SummaryGrows(groups: seq<Group>, g: Group, summary: map<string, (nat, nat)>, mid: string)
    requires SummarisesOne(summary, groups, mid) && g.node !in NodesSeen(groups, g.mid)
    ensures SummarisesOne(Counted(summary, g), groups + [g], mid)
  {
    NodesGrow(groups, g, mid);
    hide NodesSeen, NodesDone;
    if mid == g.mid {
      var seen, done := NodesSeen(groups, mid), NodesDone(groups, mid);
      assert |seen + {g.node}| == |seen| + 1;
      assert g.node !in done && |done + {g.node}| == |done| + 1;
      assert mid !in summary ==> |seen| == 0 && |done| == 0;
    }
  }

  /** The accumulation loop over the query's rows. */
  method Accumulate(groups: seq<Group>) returns (summary: map<string, (nat, nat)>)
    requires forall i, j :: 0 <= i < j < |groups| ==> (groups[i].mid, groups[i].node) != (groups[j].mid, groups[j].node)
    ensures Summarises(summary, groups)
  {
    summary := map[];
    for i := 0 to |groups|
      invariant Summarises(summary, groups[..i])
    {
      var g := groups[i];
      assert g.node !in NodesSeen(groups[..i], g.mid);
      ghost var next := groups[..i + 1];
      assert next == groups[..i] + [g];
      forall mid ensures SummarisesOne(Counted(summary, g), next, mid) {
        assert SummarisesOne(summary, groups[..i], mid);
        SummaryGrows(groups[..i], g, summary, mid);
      }
      summary := Counted(summary, g);
    }
    assert groups[..|groups|] == groups;
  }

  lemma ListingCounts(t: Table, ids: set<string>, groups: seq<Group>, mid: string)
    requires IsListing(t, ids, groups) && mid in ids
    ensures NodesSeen(groups, mid) == Recipients(t, mid)
    ensures NodesDone(groups, mid) == DoneRecipients(t, mid)
  {
    hide CountFor, AckedFor;
    forall node | node in Recipients(t, mid) ensures node in NodesSeen(groups, mid) {
      assert Group(mid, node, CountFor(t, mid, node), AckedFor(t, mid, node)) in groups;
    }
    forall node | node in DoneRecipients(t, mid) ensures node in NodesDone(groups, mid) {
      assert Group(mid, node, CountFor(t, mid, node), AckedFor(t, mid, node)) in groups;
    }
  }

  /** Listed so far: every recipient of the messages in `ids`, and `nodes` of `mid`. */
  ghost predicate ListedSoFar(t: Table, ids: set<string>, mid: string, nodes: set<string>, groups: seq<Group>) {
    && (forall g :: g in groups ==> IsGroup(t, g) && (g.mid in ids || (g.mid == mid && g.node in nodes)))
    && (forall i, j :: 0 <= i < j < |groups| ==> (groups[i].mid, groups[i].node) != (groups[j].mid, groups[j].node))
    && (forall m, node :: m in ids && node in Recipients(t, m) ==>
          Group(m, node, CountFor(t, m, node), AckedFor(t, m, node)) in groups)
    && (forall node :: node in nodes ==>
          Group(mid, node, CountFor(t, mid, node), AckedFor(t, mid, node)) in groups)
  }

  lemma ListsOneMore(t: Table, ids: set<string>, mid: string, nodes: set<string>, groups: seq<Group>, node: string)
    requires ListedSoFar(t, ids, mid, nodes, groups) && mid !in ids
    requires node in Recipients(t, mid) && node !in nodes
    ensures ListedSoFar(t, ids, mid, nodes + {node},
                        groups + [Group(mid, node, CountFor(t, mid, node), AckedFor(t, mid, node))])
  {
    hide CountFor, AckedFor, Recipients;
    var g := Group(mid, node, CountFor(t, mid, node), AckedFor(t, mid, node));
    var longer := groups + [g];
    assert forall x :: x in longer <==> x in groups || x == g;
    forall i | 0 <= i < |groups| ensures (groups[i].mid, groups[i].node) != (mid, node) {
      assert groups[i] in groups;
    }
  }

  lemma ListsOneMessage(t: Table, ids: set<string>, mid: string, groups: seq<Group>)
    requires ListedSoFar(t, ids, mid, Recipients(t, mid), groups)
    ensures forall next: string :: ListedSoFar(t, ids + {mid}, next, {}, groups)
  {
    hide CountFor, AckedFor, Recipients;
  }

  /** The grouping query: its rows come in some order, one per message and recipient. */
  method GroupRows(t: Table, ids: set<string>) returns (groups: seq<Group>)
    ensures IsListing(t, ids, groups)
  {
    hide CountFor, AckedFor, Recipients;
    groups := [];
    var left := ids;
    while left != {}
      invariant left <= ids
      invariant forall next: string :: ListedSoFar(t, ids - left, next, {}, groups)
      decreases left
    {
      var mid :| mid in left;
      ghost var finished := ids - left;
      left := left - {mid};
      var nodes := Recipients(t, mid);
      assert nodes - nodes == {};
      while nodes != {}
        invariant nodes <= Recipients(t, mid)
        invariant ListedSoFar(t, finished, mid, Recipients(t, mid) - nodes, groups)
        decreases nodes
      {
        var node :| node in nodes;
        ListsOneMore(t, finished, mid, Recipients(t, mid) - nodes, groups, node);
        assert Recipients(t, mid) - nodes + {node} == Recipients(t, mid) - (nodes - {node});
        groups := groups + [Group(mid, node, CountFor(t, mid, node), AckedFor(t, mid, node))];
        nodes := nodes - {node};
      }
      assert Recipients(t, mid) - {} == Recipients(t, mid);
      ListsOneMessage(t, finished, mid, groups);
      assert finished + {mid} == ids - left;
    }
    assert ids - {} == ids;
    assert ListedSoFar(t, ids, "", {}, groups);
  }

  /** _delivery_summary: for every message asked for, what delivery_members says, and
      no entry for an untracked one. The empty id is never asked for. */
  method DeliverySummary(t: Table, mids: set<string>) returns (summary: map<string, (nat, nat)>)
    ensures summary.Keys == set mid | mid in mids && mid != "" && Tracked(t, mid) != {}
    ensures forall mid :: mid in summary ==> summary[mid] == Members(t, mid)
  {
    var groups := GroupRows(t, mids - {""});
    summary := Accumulate(groups);
    forall mid
      ensures mid in summary <==> mid in mids - {""} && Tracked(t, mid) != {}
      ensures mid in summary ==> summary[mid] == Members(t, mid)
    {
      assert SummarisesOne(summary, groups, mid);
      if mid in mids - {""} {
        ListingCounts(t, mids - {""}, groups, mid);
        RecipientsExist(t, mid);
      } else {
        assert NodesSeen(groups, mid) == {};
      }
    }
  }

  // ---------------------------------------------------------------------- updates

  /** add_sent's INSERT OR IGNORE of every tracked key. */
  function AddSent(t: Table, mid: string, keys: set<Slot>): Table {
    map k | k in t.Keys + keys :: if k in t then t[k] else Track(mid, false)
  }

  function MarkDelivered(t: Table, k: Slot): Table {
    if k in t then t[k := t[k].(acked := true)] else t
  }

  /** Recording a message tracks every key that was free for it, unacked, and leaves the
      keys already tracked, of whatever message, as they were. */
  lemma AddSentTracks(t: Table, mid: string, keys: set<Slot>, k: Slot)
    ensures var t' := AddSent(t, mid, keys);
            && (k in t' <==> k in t || k in keys)
            && (k in t ==> t'[k] == t[k])
            && (k in keys && k !in t ==> t'[k].mid == mid && !t'[k].acked)
  {
  }

  /** So a message recorded under free keys is tracked with all of them, and undelivered
      unless it has none. */
  lemma RecordedIsUndelivered(t: Table, mid: string, keys: set<Slot>)
    requires keys !! t.Keys && Tracked(t, mid) == {}
    ensures var t' := AddSent(t, mid, keys);
            Tracked(t', mid) == keys && Undelivered(t', mid) == keys
            && IsDelivered(t', mid) == if keys == {} then None else Some(false)
  {
    var t' := AddSent(t, mid, keys);
    forall k | k in t ensures t[k].mid != mid { assert k !in Tracked(t, mid); }
    assert Tracked(t', mid) == keys;
    assert AckedOf(t', mid) == {};
  }

  /** Recording a message again, or recording another one, never takes an ack away. */
  lemma AddSentKeepsAcks(t: Table, mid: string, keys: set<Slot>, other: string)
    ensures AckedOf(AddSent(t, mid, keys), other) == AckedOf(t, other)
    ensures Tracked(t, other) <= Tracked(AddSent(t, mid, keys), other)
    ensures AddSent(AddSent(t, mid, keys), mid, keys) == AddSent(t, mid, keys)
  {
  }

  /** One ack credits one row of one message: the counts of that message move by at
      most one and every other message keeps its rows. */
  lemma AckCreditsOne(t: Table, k: Slot, mid: string)
    ensures var t' := MarkDelivered(t, k);
            && Tracked(t', mid) == Tracked(t, mid)
            && Undelivered(t', mid) == Undelivered(t, mid) - {k}
            && (k in t && t[k].mid == mid ==> AckedOf(t', mid) == AckedOf(t, mid) + {k})
            && (!(k in t && t[k].mid == mid) ==> AckedOf(t', mid) == AckedOf(t, mid) && Members(t', mid) == Members(t, mid))
  {
    var t' := MarkDelivered(t, k);
    if !(k in t && t[k].mid == mid) {
      assert Recipients(t', mid) == Recipients(t, mid);
      forall node ensures CountFor(t', mid, node) == CountFor(t, mid, node) && AckedFor(t', mid, node) == AckedFor(t, mid, node) {
        assert (set k | k in t && t[k].mid == mid && k.node == node) == (set k | k in t' && t'[k].mid == mid && k.node == node);
        assert (set k | k in t && t[k].mid == mid && k.node == node && t[k].acked)
            == (set k | k in t' && t'[k].mid == mid && k.node == node && t'[k].acked);
      }
      assert DoneRecipients(t', mid) == DoneRecipients(t, mid);
    }
  }

  /** So acking every tracked key of a message, in any order, is what delivers it. */
  function MarkAll(t: Table, acks: seq<Slot>): Table {
    if acks == [] then t else MarkDelivered(MarkAll(t, acks[..|acks| - 1]), acks[|acks| - 1])
  }

  lemma ElementsAppend(acks: seq<Slot>)
    requires acks != []
    ensures Elements(acks) == Elements(acks[..|acks| - 1]) + {acks[|acks| - 1]}
  {
    var init := acks[..|acks| - 1];
    forall k | k in Elements(init) ensures k in Elements(acks) {
      var i :| 0 <= i < |init| && init[i] == k;
      assert acks[i] == k;
    }
  }

  lemma {:induction false} MarkAllLeaves(t: Table, mid: string, acks: seq<Slot>)
    ensures Tracked(MarkAll(t, acks), mid) == Tracked(t, mid)
    ensures Undelivered(MarkAll(t, acks), mid) == Undelivered(t, mid) - Elements(acks)
  {
    hide Tracked, Undelivered, Elements, MarkDelivered, Members, AckedOf;
    if acks == [] {
      assert Elements(acks) == {} by { NoElements(); }
    } else {
      var init, last := acks[..|acks| - 1], acks[|acks| - 1];
      MarkAllLeaves(t, mid, init);
      AckCreditsOne(MarkAll(t, init), last, mid);
      ElementsAppend(acks);
    }
  }

  lemma NoElements()
    ensures Elements<Slot>([]) == {}
  {
  }

  lemma DeliveredExactlyWhenAllAcked(t: Table, mid: string, acks: seq<Slot>)
    ensures IsDelivered(MarkAll(t, acks), mid) == Some(true) <==>
            Tracked(t, mid) != {} && Undelivered(t, mid) <= Elements(acks)
  {
    hide IsDelivered, Tracked, Undelivered, Elements, Members, AckedOf, MarkAll;
    MarkAllLeaves(t, mid, acks);
    var left, acked := Undelivered(t, mid), Elements(acks);
    if left - acked == {} {
      forall k | k in left ensures k in acked { assert k !in left - acked; }
    }
    ViewsAgree(MarkAll(t, acks), mid);
  }

  // ------------------------------------------------------------------- the object

  class DeliveryStore {
    var table: Table

    constructor ()
      ensures table == map[]
    {
      table := map[];
    }

    method Record(mid: string, keys: set<Slot>)
      modifies this
      ensures table == AddSent(old(table), mid, keys)
    {
      var rest := keys;
      while rest != {}
        invariant rest <= keys
        invariant table == AddSent(old(table), mid, keys - rest)
        decreases rest
      {
        var k :| k in rest;
        if k !in table {
          table := table[k := Track(mid, false)];
        }
        rest := rest - {k};
      }
      assert keys - rest == keys;
    }

    /** Marks one chunk acked and says which message it belongs to, if any. */
    method Mark(node: string, sn: nat) returns (mid: Option<string>)
      modifies this
      ensures table == MarkDelivered(old(table), Slot(node, sn))
      ensures mid == if Slot(node, sn) in old(table) then Some(old(table)[Slot(node, sn)].mid) else None
    {
      var k := Slot(node, sn);
      if k !in table {
        return None;
      }
      mid := Some(table[k].mid);
      if !table[k].acked {
        table := table[k := Track(table[k].mid, true)];
      }
    }
  }
}
