/** The per-peer landing buffer for file chunks (daemon/attachments.go): a table
    keyed by (transfer, index) under a byte budget, evicting whole transfers. */
module Attachments {
  import opened Bytes
  import opened Ranks

  const HEADER_SIZE: nat := 20

  datatype Routing = Routing(tid: string, index: nat, total: nat)

  /** The unencrypted header: 16 raw id bytes, index and total as little-endian uint16. */
  function ParseHeader(payload: bytes): (r: Option<Routing>)
    ensures r.Some? ==> r.value.index < r.value.total && |r.value.tid| == 32
  {
    if |payload| < HEADER_SIZE then None
    else
      var index, total := FromLittleEndian(payload[16..18]), FromLittleEndian(payload[18..20]);
      if total == 0 || index >= total then None
      else Some(Routing(Hex(payload[..16]), index, total))
  }

  datatype Key = Key(tid: string, idx: nat)
  datatype Chunk = Chunk(total: nat, sn: nat, ts: int, payload: bytes)
  type Table = map<Key, Chunk>

  // ------------------------------------------------------------ bytes in use

  ghost function Used(t: Table): nat
    decreases |t|
  {
    if t == map[] then 0
    else
      assert exists k :: k in t;
      var k :| k in t;
      |t[k].payload| + Used(t - {k})
  }

  lemma {:induction false} UsedWithout(t: Table, k: Key)
    requires k in t
    ensures Used(t) == |t[k].payload| + Used(t - {k})
    decreases |t|
  {
    assert t != map[];
    var c :| c in t && Used(t) == |t[c].payload| + Used(t - {c});
    if c != k {
      UsedWithout(t - {c}, k);
      UsedWithout(t - {k}, c);
      assert t - {c} - {k} == t - {k} - {c};
    }
  }

  lemma UsedAfterInsert(t: Table, k: Key, c: Chunk)
    requires k !in t
    ensures Used(t[k := c]) == Used(t) + |c.payload|
  {
    UsedWithout(t[k := c], k);
    assert t[k := c] - {k} == t;
  }

  // --------------------------------------------------------------- transfers

  function Tids(t: Table): set<string> {
    set k | k in t :: k.tid
  }

  function Indices(t: Table, tid: string): set<nat> {
    set k | k in t && k.tid == tid :: k.idx
  }

  function Drop(t: Table, gone: set<string>): Table {
    map k | k in t && k.tid !in gone :: t[k]
  }

  /** One GROUP BY row: MIN(ts), COUNT(*), MAX(total). */
  datatype Transfer = Transfer(tid: string, ts: int, cnt: nat, tot: int)

  function Group(t: Table, tid: string): Transfer
    requires tid in Tids(t)
  {
    var k :| k in t && k.tid == tid;
    var times := set k | k in t && k.tid == tid :: t[k].ts;
    var totals := set k | k in t && k.tid == tid :: t[k].total;
    assert t[k].ts in times && t[k].total in totals;
    Transfer(tid, Min(times), |Indices(t, tid)|, Max(totals))
  }

  lemma {:induction false} DropFreesBytes(t: Table, gone: set<string>)
    ensures Used(Drop(t, gone)) <= Used(t)
    decreases |t|
  {
    if t == map[] {
      assert Drop(t, gone) == map[];
    } else {
      var k :| k in t;
      UsedWithout(t, k);
      DropFreesBytes(t - {k}, gone);
      if k.tid in gone {
        assert Drop(t, gone) == Drop(t - {k}, gone);
      } else {
        UsedWithout(Drop(t, gone), k);
        assert Drop(t, gone) - {k} == Drop(t - {k}, gone);
      }
    }
  }

  lemma GroupSurvivesDrop(t: Table, gone: set<string>, tid: string)
    requires tid in Tids(t) && tid !in gone
    ensures tid in Tids(Drop(t, gone)) && Group(Drop(t, gone), tid) == Group(t, tid)
  {
    var d := Drop(t, gone);
    forall k | k in t && k.tid == tid ensures k in d && d[k] == t[k] {}
    assert (set k | k in t && k.tid == tid) == (set k | k in d && k.tid == tid);
    var k :| k in t && k.tid == tid;
    assert k in d;
    assert (set k | k in t && k.tid == tid :: t[k].ts) == (set k | k in d && k.tid == tid :: d[k].ts);
    assert (set k | k in t && k.tid == tid :: t[k].total) == (set k | k in d && k.tid == tid :: d[k].total);
    assert Indices(t, tid) == Indices(d, tid);
  }

  lemma TidsAfterDrop(t: Table, gone: set<string>)
    ensures Tids(Drop(t, gone)) == Tids(t) - gone
  {
    forall tid | tid in Tids(t) - gone ensures tid in Tids(Drop(t, gone)) {
      GroupSurvivesDrop(t, gone, tid);
    }
  }

  // ---------------------------------------------------------- eviction order

  /** Go's string comparison. */
  predicate Less(a: string, b: string) {
    b != [] && (a == [] || a[0] < b[0] || (a[0] == b[0] && Less(a[1..], b[1..])))
  }

  /** It is the lexicographic order: at the first difference the smaller character
      decides, and a proper prefix comes first. */
  lemma {:induction false} LessIs(a: string, b: string)
    ensures Less(a, b) <==>
            exists k :: 0 <= k <= |a| && k <= |b| && a[..k] == b[..k] && k < |b| && (k == |a| || a[k] < b[k])
  {
    if a != [] && b != [] && a[0] == b[0] {
      LessIs(a[1..], b[1..]);
      if k :| 0 <= k <= |a| - 1 && k <= |b| - 1 && a[1..][..k] == b[1..][..k] && k < |b| - 1 && (k == |a| - 1 || a[1..][k] < b[1..][k]) {
        assert a[..k + 1] == [a[0]] + a[1..][..k] && b[..k + 1] == [b[0]] + b[1..][..k];
        assert 0 <= k + 1 <= |a| && a[..k + 1] == b[..k + 1];
      }
      if k :| 0 <= k <= |a| && k <= |b| && a[..k] == b[..k] && k < |b| && (k == |a| || a[k] < b[k]) {
        assert k > 0;
        assert a[1..][..k - 1] == a[..k][1..] && b[1..][..k - 1] == b[..k][1..];
      }
    } else if a == [] {
      assert b != [] ==> a[..0] == b[..0];
    } else if b != [] {
      assert a[..0] == b[..0];
      assert forall k :: 0 < k <= |a| && k <= |b| && a[..k] == b[..k] ==> a[..k][0] == b[..k][0];
    }
  }

  lemma {:induction false} LessIsTotal(a: string, b: string)
    ensures a == b || Less(a, b) || Less(b, a)
    ensures !(Less(a, b) && (a == b || Less(b, a)))
  {
    if a != [] && b != [] && a[0] == b[0] {
      LessIsTotal(a[1..], b[1..]);
      assert a == [a[0]] + a[1..] && b == [b[0]] + b[1..];
    }
  }

  lemma {:induction false} LessIsTransitive(a: string, b: string, c: string)
    requires Less(a, b) && Less(b, c)
    ensures Less(a, c)
  {
    if a != [] && a[0] == b[0] == c[0] {
      LessIsTransitive(a[1..], b[1..], c[1..]);
    }
  }

  predicate Incomplete(r: Transfer) {
    r.cnt < r.tot
  }

  /** Eviction order: incomplete before complete, then oldest first chunk, then tid. */
  predicate Before(a: Transfer, b: Transfer) {
    if Incomplete(a) != Incomplete(b) then Incomplete(a)
    else a.ts < b.ts || (a.ts == b.ts && Less(a.tid, b.tid))
  }

  lemma BeforeIsTotal(a: Transfer, b: Transfer)
    ensures a.tid == b.tid || Before(a, b) || Before(b, a)
    ensures !(Before(a, b) && Before(b, a))
  {
    LessIsTotal(a.tid, b.tid);
  }

  lemma BeforeIsTransitive(a: Transfer, b: Transfer, c: Transfer)
    requires Before(a, b) && Before(b, c)
    ensures Before(a, c)
  {
    if Less(a.tid, b.tid) && Less(b.tid, c.tid) {
      LessIsTransitive(a.tid, b.tid, c.tid);
    }
  }

  // -------------------------------------------------------- the policy itself

  function Candidates(t: Table, exclude: string): set<string> {
    Tids(t) - {exclude}
  }

  /** `gone` is a prefix of the candidates in eviction order. */
  ghost predicate IsPrefix(t: Table, exclude: string, gone: set<string>) {
    && gone <= Candidates(t, exclude)
    && forall u, v :: u in Candidates(t, exclude) && v in gone && Before(Group(t, u), Group(t, v)) ==> u in gone
  }

  ghost predicate Fits(t: Table, gone: set<string>, need: nat, budget: int) {
    Used(Drop(t, gone)) + need <= budget
  }

  /** `gone` is the shortest prefix of the eviction order that makes room. */
  ghost predicate Policy(t: Table, exclude: string, need: nat, budget: int, gone: set<string>) {
    && IsPrefix(t, exclude, gone)
    && Fits(t, gone, need, budget)
    && forall fewer :: fewer < gone && IsPrefix(t, exclude, fewer) ==> !Fits(t, fewer, need, budget)
  }

  lemma PrefixesAreNested(t: Table, exclude: string, a: set<string>, b: set<string>)
    requires IsPrefix(t, exclude, a) && IsPrefix(t, exclude, b)
    ensures a <= b || b <= a
  {
    if !(a <= b) && !(b <= a) {
      var u :| u in a && u !in b;
      var v :| v in b && v !in a;
      BeforeIsTotal(Group(t, u), Group(t, v));
      assert false;
    }
  }

  /** The policy leaves no choice. */
  lemma PolicyIsUnique(t: Table, exclude: string, need: nat, budget: int, a: set<string>, b: set<string>)
    requires Policy(t, exclude, need, budget, a) && Policy(t, exclude, need, budget, b)
    ensures a == b
  {
    PrefixesAreNested(t, exclude, a, b);
  }

  lemma {:induction false} ShortestPrefix(t: Table, exclude: string, need: nat, budget: int, some: set<string>)
    returns (gone: set<string>)
    requires IsPrefix(t, exclude, some) && Fits(t, some, need, budget)
    ensures Policy(t, exclude, need, budget, gone)
    decreases some
  {
    if fewer :| fewer < some && IsPrefix(t, exclude, fewer) && Fits(t, fewer, need, budget) {
      gone := ShortestPrefix(t, exclude, need, budget, fewer);
    } else {
      gone := some;
    }
  }

  /** Room can be made exactly when the other transfers together free enough. */
  lemma RoomExactlyWhen(t: Table, exclude: string, need: nat, budget: int)
    ensures (exists gone :: Policy(t, exclude, need, budget, gone)) <==>
            Fits(t, Candidates(t, exclude), need, budget)
  {
    var all := Candidates(t, exclude);
    if Fits(t, all, need, budget) {
      var gone := ShortestPrefix(t, exclude, need, budget, all);
    }
    if gone :| Policy(t, exclude, need, budget, gone) {
      var d := Drop(t, gone);
      DropFreesBytes(d, all);
      assert Drop(d, all) == Drop(t, all);
    }
  }

  datatype Outcome = Duplicate | Stored(table: Table) | Refused

  /** What one Add does to the table: nothing, or the policy's evictions plus the new chunk. */
  ghost function AddTo(t: Table, budget: int, key: Key, c: Chunk): Outcome {
    if key in t then Duplicate
    else if exists gone :: Policy(t, key.tid, |c.payload|, budget, gone) then
      var gone :| Policy(t, key.tid, |c.payload|, budget, gone);
      Stored(Drop(t, gone)[key := c])
    else Refused
  }

  /** What every row that came through the header parser satisfies. */
  ghost predicate WellFormed(t: Table) {
    forall k :: k in t ==> k.tid != "" && k.idx < t[k].total
  }

  ghost predicate WithinBudget(t: Table, budget: int) {
    Used(t) <= if budget < 0 then 0 else budget
  }

  lemma AddKeepsBudget(t: Table, budget: int, key: Key, c: Chunk)
    requires AddTo(t, budget, key, c).Stored?
    ensures WithinBudget(AddTo(t, budget, key, c).table, budget)
    ensures key in AddTo(t, budget, key, c).table
  {
    var gone :| Policy(t, key.tid, |c.payload|, budget, gone)
                && AddTo(t, budget, key, c) == Stored(Drop(t, gone)[key := c]);
    UsedAfterInsert(Drop(t, gone), key, c);
  }

  function OwnChunks(t: Table, tid: string): Table {
    map k | k in t && k.tid == tid :: t[k]
  }

  /** An Add is refused exactly when the chunk does not fit beside its own transfer. */
  lemma RefusedExactlyWhen(t: Table, budget: int, key: Key, c: Chunk)
    requires key !in t
    ensures AddTo(t, budget, key, c).Refused? <==>
            Used(OwnChunks(t, key.tid)) + |c.payload| > budget
  {
    RoomExactlyWhen(t, key.tid, |c.payload|, budget);
    OwnIsTheRest(t, key.tid);
  }

  lemma OwnIsTheRest(t: Table, tid: string)
    ensures OwnChunks(t, tid) == Drop(t, Candidates(t, tid))
    ensures Used(OwnChunks(t, tid)) <= Used(t)
  {
    DropFreesBytes(t, Candidates(t, tid));
  }

  // ------------------------------------------------------------ completeness

  function Below(n: nat): (r: set<nat>)
    ensures |r| == n
    ensures forall i :: i in r <==> 0 <= i < n
  {
    if n == 0 then {} else Below(n - 1) + {n - 1}
  }

  /** Transfers whose row count equals their largest announced total. */
  function Pending(t: Table): set<string> {
    set tid | tid in Tids(t) && Group(t, tid).cnt == Group(t, tid).tot
  }

  lemma IndicesAreBelowTotal(t: Table, tid: string)
    requires WellFormed(t) && tid in Tids(t)
    ensures Group(t, tid).tot >= 0 && Indices(t, tid) <= Below(Group(t, tid).tot)
  {
    var totals := set k | k in t && k.tid == tid :: t[k].total;
    var k :| k in t && k.tid == tid;
    assert t[k].total in totals;
    forall i | i in Indices(t, tid) ensures i in Below(Group(t, tid).tot) {
      assert t[Key(tid, i)].total in totals;
    }
  }

  /** Counting rows is enough: a transfer is listed as complete exactly when every
      index below its total is there. */
  lemma PendingExactlyWhen(t: Table, tid: string)
    requires WellFormed(t) && tid in Tids(t)
    ensures Group(t, tid).tot >= 0
    ensures tid in Pending(t) <==> Indices(t, tid) == Below(Group(t, tid).tot)
  {
    IndicesAreBelowTotal(t, tid);
    SubsetSize(Indices(t, tid), Below(Group(t, tid).tot));
  }

  /** All indices below the largest announced total are there. */
  ghost predicate IsWhole(t: Table, tid: string) {
    exists last :: last in t && last.tid == tid
      && (forall k :: k in t && k.tid == tid ==> t[k].total <= t[last].total)
      && Indices(t, tid) == Below(t[last].total)
  }

  lemma WholeWhenComplete(t: Table, tid: string)
    requires WellFormed(t) && tid in Tids(t)
    ensures Incomplete(Group(t, tid)) <==> !IsWhole(t, tid)
  {
    PendingExactlyWhen(t, tid);
    IndicesAreBelowTotal(t, tid);
    SubsetSize(Indices(t, tid), Below(Group(t, tid).tot));
    var totals := set k | k in t && k.tid == tid :: t[k].total;
    var some :| some in t && some.tid == tid;
    assert t[some].total in totals;
    var most :| most in t && most.tid == tid && t[most].total == Max(totals);
    forall k | k in t && k.tid == tid ensures t[k].total <= t[most].total { assert t[k].total in totals; }
    if last :| last in t && last.tid == tid && (forall k :: k in t && k.tid == tid ==> t[k].total <= t[last].total)
               && Indices(t, tid) == Below(t[last].total) {
      assert t[last].total == t[most].total;
    }
  }

  /** A group's time is that of its oldest chunk. */
  lemma OldestChunk(t: Table, tid: string) returns (k: Key)
    requires tid in Tids(t)
    ensures k in t && k.tid == tid && t[k].ts == Group(t, tid).ts
    ensures forall j :: j in t && j.tid == tid ==> t[k].ts <= t[j].ts
  {
    var times := set k | k in t && k.tid == tid :: t[k].ts;
    var some :| some in t && some.tid == tid;
    assert t[some].ts in times;
    k :| k in t && k.tid == tid && t[k].ts == Min(times);
    forall j | j in t && j.tid == tid ensures t[k].ts <= t[j].ts {
      MinIsLeast(times, t[j].ts);
    }
  }

  /** Which transfers make room. When an Add evicts `v` and leaves `u` alone, `v` is not
      a whole transfer while `u` lacks chunks, and between two of a kind `v` has a chunk at
      least as old as all of `u`'s; if their oldest are of one age, `v`'s id comes first.
      The transfer being added to is never evicted. */
  lemma EvictionOrder(t: Table, budget: int, key: Key, c: Chunk, u: string, v: string) returns (oldest: Key)
    requires WellFormed(t) && AddTo(t, budget, key, c).Stored?
    requires var t' := AddTo(t, budget, key, c).table;
             v in Tids(t) && v !in Tids(t') && u in Tids(t) && u in Tids(t') && u != key.tid
    ensures v != key.tid && !(IsWhole(t, v) && !IsWhole(t, u))
    ensures oldest in t && oldest.tid == v
    ensures (IsWhole(t, u) <==> IsWhole(t, v)) ==>
              forall k :: k in t && k.tid == u ==>
                t[oldest].ts <= t[k].ts && (t[oldest].ts == t[k].ts ==> Less(v, u))
  {
    var gone :| Policy(t, key.tid, |c.payload|, budget, gone)
                && AddTo(t, budget, key, c) == Stored(Drop(t, gone)[key := c]);
    TidsAfterInsert(Drop(t, gone), key, c);
    TidsAfterDrop(t, gone);
    assert v in gone && u !in gone && u in Candidates(t, key.tid);
    BeforeIsTotal(Group(t, u), Group(t, v));
    assert Before(Group(t, v), Group(t, u));
    WholeWhenComplete(t, u);
    WholeWhenComplete(t, v);
    oldest := OldestChunk(t, v);
    var young := OldestChunk(t, u);
  }

  lemma TidsAfterInsert(t: Table, key: Key, c: Chunk)
    ensures Tids(t[key := c]) == Tids(t) + {key.tid}
  {
    var t' := t[key := c];
    assert key in t';
    forall tid | tid in Tids(t) ensures tid in Tids(t') {
      var k :| k in t && k.tid == tid;
      assert k in t';
    }
  }

  /** What an Add leaves of the table: whole transfers go or stay as they were, and the
      new chunk joins with its content. */
  lemma AddKeepsOrEvicts(t: Table, budget: int, key: Key, c: Chunk, k: Key)
    requires AddTo(t, budget, key, c).Stored?
    ensures var t' := AddTo(t, budget, key, c).table;
            && key !in t && key in t' && t'[key] == c
            && (k in t' && k != key ==> k in t && t'[k] == t[k])
            && (k in t && k !in t' ==> k.tid != key.tid && k.tid !in Tids(t'))
  {
    var gone :| Policy(t, key.tid, |c.payload|, budget, gone)
                && AddTo(t, budget, key, c) == Stored(Drop(t, gone)[key := c]);
    TidsAfterInsert(Drop(t, gone), key, c);
    TidsAfterDrop(t, gone);
  }

  /** One transfer's indices in index order, as FetchTid lists its chunks. */
  function FetchOrder(t: Table, tid: string): (r: seq<nat>)
    ensures forall i :: 0 <= i < |r| ==> Key(tid, r[i]) in t
  {
    var r := AscendingNats(Indices(t, tid));
    assert forall i :: 0 <= i < |r| ==> r[i] in r && r[i] in Indices(t, tid);
    r
  }

  lemma {:induction false} IncreasingReaches(r: seq<nat>, i: nat)
    requires Increasing(r) && i < |r|
    ensures r[i] >= i
  {
    if i > 0 { IncreasingReaches(r, i - 1); }
  }

  lemma IncreasingBelow(r: seq<nat>, i: nat)
    requires Increasing(r) && i < |r| && forall x :: x in r ==> x < |r|
    ensures r[i] == i
    decreases |r| - i
  {
    IncreasingReaches(r, i);
    assert r[i] in r;
    if i + 1 < |r| {
      IncreasingBelow(r, i + 1);
      assert r[i] < r[i + 1];
    }
  }

  /** A pending transfer is fetched with index `i` at position `i`. */
  lemma FetchIsPositional(t: Table, tid: string, i: nat)
    requires WellFormed(t) && tid in Pending(t) && i < |FetchOrder(t, tid)|
    ensures |FetchOrder(t, tid)| == Group(t, tid).tot
    ensures FetchOrder(t, tid)[i] == i
  {
    PendingExactlyWhen(t, tid);
    IncreasingBelow(FetchOrder(t, tid), i);
  }

  // ---------------------------------------------------------------- the store

  ghost predicate Distinct(rows: seq<Transfer>) {
    forall i, j :: 0 <= i < j < |rows| ==> rows[i].tid != rows[j].tid
  }

  ghost predicate Named(rows: seq<Transfer>) {
    forall r :: r in rows ==> r.tid != ""
  }

  function BestTs(rows: seq<Transfer>, tid: string): int {
    if rows == [] then 0
    else if rows[0].tid == tid then rows[0].ts
    else BestTs(rows[1..], tid)
  }

  lemma {:induction false} BestTsFinds(rows: seq<Transfer>, i: nat)
    requires Distinct(rows) && i < |rows|
    ensures BestTs(rows, rows[i].tid) == rows[i].ts
  {
    if i > 0 { BestTsFinds(rows[1..], i - 1); }
  }

  predicate Eligible(r: Transfer, exclude: string, incomplete: bool) {
    r.tid != exclude && r.cnt != 0 && Incomplete(r) == incomplete
  }

  ghost predicate FirstAmong(rows: seq<Transfer>, upto: nat, exclude: string, incomplete: bool, best: string)
    requires upto <= |rows|
  {
    if best == "" then
      forall j :: 0 <= j < upto ==> !Eligible(rows[j], exclude, incomplete)
    else
      exists i :: 0 <= i < upto && rows[i].tid == best && Eligible(rows[i], exclude, incomplete)
        && forall j :: 0 <= j < upto && j != i && Eligible(rows[j], exclude, incomplete) ==> Before(rows[i], rows[j])
  }

  /** The scan inside pickEviction, for one completeness class. */
  method Pick(rows: seq<Transfer>, exclude: string, incomplete: bool) returns (best: string)
    requires Distinct(rows) && Named(rows)
    ensures FirstAmong(rows, |rows|, exclude, incomplete, best)
  {
    best := "";
    ghost var at := 0;
    for n := 0 to |rows|
      invariant best == "" ==> forall j :: 0 <= j < n ==> !Eligible(rows[j], exclude, incomplete)
      invariant best != "" ==> 0 <= at < n && rows[at].tid == best && Eligible(rows[at], exclude, incomplete)
      invariant best != "" ==>
          forall j :: 0 <= j < n && j != at && Eligible(rows[j], exclude, incomplete) ==> Before(rows[at], rows[j])
    {
      var t := rows[n];
      if t.tid == exclude || t.cnt == 0 {
        continue;
      }
      if Incomplete(t) != incomplete {
        continue;
      }
      if best != "" {
        BestTsFinds(rows, at);
        BeforeIsTotal(rows[at], t);
      }
      if best == "" || t.ts < BestTs(rows, best) || (t.ts == BestTs(rows, best) && Less(t.tid, best)) {
        forall j | best != "" && 0 <= j < n && j != at && Eligible(rows[j], exclude, incomplete)
          ensures Before(t, rows[j])
        {
          BeforeIsTransitive(t, rows[at], rows[j]);
        }
        best := t.tid;
        at := n;
        assert t in rows;
      }
    }
  }

  ghost predicate IsVictim(rows: seq<Transfer>, exclude: string, v: string) {
    if v == "" then
      forall r :: r in rows ==> r.tid == exclude || r.cnt == 0
    else
      exists i :: 0 <= i < |rows| && rows[i].tid == v && v != exclude && rows[i].cnt != 0
        && forall j :: 0 <= j < |rows| && j != i && rows[j].tid != exclude && rows[j].cnt != 0 ==> Before(rows[i], rows[j])
  }

  method PickEviction(rows: seq<Transfer>, exclude: string) returns (v: string)
    requires Distinct(rows) && Named(rows)
    ensures IsVictim(rows, exclude, v)
    ensures v == "" ==> forall r :: r in rows ==> r.tid == exclude || r.cnt == 0
    ensures v != "" ==>
              exists i :: 0 <= i < |rows| && rows[i].tid == v && v != exclude && rows[i].cnt != 0
                && forall j :: 0 <= j < |rows| && j != i && rows[j].tid != exclude && rows[j].cnt != 0 ==>
                     if rows[i].cnt < rows[i].tot then
                       rows[j].cnt < rows[j].tot ==> rows[i].ts <= rows[j].ts && (rows[i].ts == rows[j].ts ==> Less(v, rows[j].tid))
                     else
                       rows[j].cnt >= rows[j].tot && rows[i].ts <= rows[j].ts && (rows[i].ts == rows[j].ts ==> Less(v, rows[j].tid))
  {
    v := Pick(rows, exclude, true);
    if v != "" {
      return;
    }
    v := Pick(rows, exclude, false);
  }

  /** SELECT COALESCE(SUM(LENGTH(payload)), 0). */
  method SumBytes(t: Table) returns (used: nat)
    ensures used == Used(t)
  {
    used := 0;
    var rest := t;
    while rest != map[]
      invariant used + Used(rest) == Used(t)
      decreases |rest|
    {
      var k :| k in rest;
      UsedWithout(rest, k);
      used := used + |rest[k].payload|;
      rest := rest - {k};
    }
  }

  /** The GROUP BY listing, in no particular order. */
  method Transfers(t: Table) returns (rows: seq<Transfer>)
    ensures Distinct(rows)
    ensures forall r :: r in rows ==> r.tid in Tids(t) && r == Group(t, r.tid)
    ensures forall tid :: tid in Tids(t) ==> Group(t, tid) in rows
  {
    rows := [];
    var rest := Tids(t);
    while rest != {}
      invariant rest <= Tids(t)
      invariant Distinct(rows)
      invariant forall r :: r in rows ==> r.tid in Tids(t) - rest && r == Group(t, r.tid)
      invariant forall tid :: tid in Tids(t) - rest ==> Group(t, tid) in rows
      decreases rest
    {
      var tid :| tid in rest;
      forall i | 0 <= i < |rows| ensures rows[i].tid != tid { assert rows[i] in rows; }
      rows := rows + [Group(t, tid)];
      rest := rest - {tid};
    }
  }

  lemma GroupIsNonEmpty(t: Table, tid: string)
    requires tid in Tids(t)
    ensures Group(t, tid).cnt > 0
  {
    var k :| k in t && k.tid == tid;
    assert k.idx in Indices(t, tid);
  }

  /** Evicting the first candidate extends a prefix to the next longer one. */
  lemma NextPrefix(t: Table, exclude: string, need: nat, budget: int, gone: set<string>, v: string)
    requires IsPrefix(t, exclude, gone)
    requires v in Candidates(t, exclude) - gone
    requires forall u :: u in Candidates(t, exclude) - gone && u != v ==> Before(Group(t, v), Group(t, u))
    requires !Fits(t, gone, need, budget)
    requires forall fewer :: fewer < gone && IsPrefix(t, exclude, fewer) ==> !Fits(t, fewer, need, budget)
    ensures IsPrefix(t, exclude, gone + {v})
    ensures forall fewer :: fewer < gone + {v} && IsPrefix(t, exclude, fewer) ==> !Fits(t, fewer, need, budget)
  {
    forall u | u in Candidates(t, exclude) && Before(Group(t, u), Group(t, v)) ensures u in gone + {v} {
      BeforeIsTotal(Group(t, u), Group(t, v));
    }
    forall fewer | fewer < gone + {v} && IsPrefix(t, exclude, fewer)
      ensures !Fits(t, fewer, need, budget)
    {
      PrefixesAreNested(t, exclude, fewer, gone);
      if !(fewer < gone) {
        assert fewer == gone;
      }
    }
  }

  lemma DropOneMore(t: Table, gone: set<string>, v: string)
    requires v in Tids(Drop(t, gone))
    ensures Drop(Drop(t, gone), {v}) == Drop(t, gone + {v})
    ensures |Drop(t, gone + {v})| < |Drop(t, gone)|
  {
    var tx, next := Drop(t, gone), Drop(t, gone + {v});
    var k :| k in tx && k.tid == v;
    assert next.Keys <= tx.Keys - {k};
    SubsetSize(next.Keys, tx.Keys - {k});
  }

  lemma NothingLeft(t: Table, gone: set<string>, rows: seq<Transfer>, exclude: string)
    requires gone <= Candidates(t, exclude)
    requires forall tid :: tid in Tids(Drop(t, gone)) ==> Group(Drop(t, gone), tid) in rows
    requires IsVictim(rows, exclude, "")
    ensures gone == Candidates(t, exclude)
  {
    TidsAfterDrop(t, gone);
    forall u | u in Tids(Drop(t, gone)) ensures u == exclude {
      GroupIsNonEmpty(Drop(t, gone), u);
      assert Group(Drop(t, gone), u) in rows;
    }
    forall u | u in Candidates(t, exclude) ensures u in gone { assert u !in Tids(Drop(t, gone)); }
  }

  /** makeRoomTx on the transaction's view of the table. */
  method MakeRoomTx(t: Table, need: nat, exclude: string, budget: int)
    returns (r: Result<Table>, ghost gone: set<string>)
    requires WellFormed(t)
    ensures r.Ok? ==> r.value == Drop(t, gone) && Policy(t, exclude, need, budget, gone)
    ensures r.Err? ==> forall any :: !Policy(t, exclude, need, budget, any)
  {
    gone := {};
    RoomExactlyWhen(t, exclude, need, budget);
    if need > budget {
      return Err, {};
    }
    var tx := t;
    assert Drop(t, {}) == t;
    var used := SumBytes(tx);
    while used + need > budget
      invariant tx == Drop(t, gone) && used == Used(tx)
      invariant IsPrefix(t, exclude, gone)
      invariant forall fewer :: fewer < gone && IsPrefix(t, exclude, fewer) ==> !Fits(t, fewer, need, budget)
      decreases |tx|
    {
      var rows := Transfers(tx);
      hide Used, Group, Drop, Before, Tids;
      forall row | row in rows ensures row.tid != "" {}
      var victim := PickEviction(rows, exclude);
      if victim == "" {
        NothingLeft(t, gone, rows, exclude);
        return Err, {};
      }
      VictimIsNext(t, gone, rows, exclude, victim);
      NextPrefix(t, exclude, need, budget, gone, victim);
      DropOneMore(t, gone, victim);
      tx := Drop(tx, {victim});
      gone := gone + {victim};
      used := SumBytes(tx);
    }
    return Ok(tx), gone;
  }

  lemma VictimIsNext(t: Table, gone: set<string>, rows: seq<Transfer>, exclude: string, v: string)
    requires forall r :: r in rows ==> r.tid in Tids(Drop(t, gone)) && r == Group(Drop(t, gone), r.tid)
    requires forall tid :: tid in Tids(Drop(t, gone)) ==> Group(Drop(t, gone), tid) in rows
    requires v != "" && IsVictim(rows, exclude, v)
    ensures v in Tids(Drop(t, gone)) && v in Candidates(t, exclude) - gone
    ensures forall u :: u in Candidates(t, exclude) - gone && u != v ==> Before(Group(t, v), Group(t, u))
  {
    TidsAfterDrop(t, gone);
    var i :| 0 <= i < |rows| && rows[i].tid == v && v != exclude && rows[i].cnt != 0
      && forall j :: 0 <= j < |rows| && j != i && rows[j].tid != exclude && rows[j].cnt != 0 ==> Before(rows[i], rows[j]);
    assert rows[i] in rows;
    GroupSurvivesDrop(t, gone, v);
    forall u | u in Candidates(t, exclude) - gone && u != v
      ensures Before(Group(t, v), Group(t, u))
    {
      GroupSurvivesDrop(t, gone, u);
      GroupIsNonEmpty(t, u);
      assert Group(Drop(t, gone), u) in rows;
      var j :| 0 <= j < |rows| && rows[j] == Group(Drop(t, gone), u);
    }
  }

  class AttachmentStore {
    const budget: int
    var table: Table

    ghost predicate Valid()
      reads this
    {
      WellFormed(table) && WithinBudget(table, budget)
    }

    constructor (budget: int)
      ensures Valid() && table == map[] && this.budget == budget
    {
      this.budget := budget;
      table := map[];
    }

    /** Stores one parsed chunk, or leaves the table exactly as it was. */
    method Add(tid: string, index: nat, total: nat, sn: nat, ts: int, payload: bytes)
      returns (r: Result<bool>)
      requires Valid() && tid != "" && index < total
      modifies this
      ensures Valid()
      ensures match AddTo(old(table), budget, Key(tid, index), Chunk(total, sn, ts, payload))
              case Duplicate => r == Ok(false) && table == old(table)
              case Refused => r == Err && table == old(table)
              case Stored(t) => r == Ok(true) && table == t
    {
      var key, c := Key(tid, index), Chunk(total, sn, ts, payload);
      if key in table {
        return Ok(false);
      }
      var room, gone := MakeRoomTx(table, |payload|, tid, budget);
      if room.Err? {
        return Err;
      }
      ghost var policy :| Policy(table, tid, |payload|, budget, policy)
                          && AddTo(table, budget, key, c) == Stored(Drop(table, policy)[key := c]);
      PolicyIsUnique(table, tid, |payload|, budget, gone, policy);
      AddKeepsBudget(table, budget, key, c);
      table := room.value[key := c];
      return Ok(true);
    }

    /** Frees a consumed transfer and nothing else. */
    method AckTid(tid: string)
      requires Valid()
      modifies this
      ensures Valid()
      ensures Tids(table) == old(Tids(table)) - {tid}
      ensures forall k :: k in table <==> k in old(table) && k.tid != tid
      ensures forall k :: k in table ==> table[k] == old(table)[k]
    {
      DropFreesBytes(table, {tid});
      TidsAfterDrop(table, {tid});
      table := Drop(table, {tid});
    }
  }
}
