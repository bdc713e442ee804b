/**
 The client's route cache: learned ranges with the directory version that published them.
 Inserts are atomic; evictions load, filter and store, so they may overwrite what was
 inserted in between.
 */
module RouteCache {
  import opened Options

  /** Hash prefixes and ordered key ranges are intervals of two separate ordered spaces. */
  datatype Space = Hash | Ordered

  datatype Range = Range(space: Space, lo: int, hi: int)

  datatype Point = Point(space: Space, at: int)

  datatype Entry = Entry(range: Range, endpoint: int, version: nat)

  predicate Contains(r: Range, p: Point) {
    r.space == p.space && r.lo <= p.at < r.hi
  }

  predicate Overlaps(a: Range, b: Range) {
    a.space == b.space && a.lo < b.hi && b.lo < a.hi && a.lo < a.hi && b.lo < b.hi
  }

  /** Overlap is a shared point, and nothing else. */
  lemma OverlapIsASharedPoint(a: Range, b: Range)
    ensures Overlaps(a, b) <==> exists p :: Contains(a, p) && Contains(b, p)
  {
    if Overlaps(a, b) {
      var p := Point(a.space, if a.lo <= b.lo then b.lo else a.lo);
      assert Contains(a, p) && Contains(b, p);
    }
  }

  predicate Disjoint(entries: seq<Entry>) {
    forall i, j | 0 <= i < j < |entries| :: !Overlaps(entries[i].range, entries[j].range)
  }

  // ----- Lookup -----

  predicate Covers(entries: seq<Entry>, p: Point) {
    exists e | e in entries :: Contains(e.range, p)
  }

  /** The first match. With disjoint ranges it is the only one. */
  method Lookup(entries: seq<Entry>, p: Point) returns (hit: Option<Entry>)
    ensures hit.None? <==> !Covers(entries, p)
    ensures hit.Some? ==> hit.value in entries && Contains(hit.value.range, p)
    ensures hit.Some? && Disjoint(entries) ==> forall e | e in entries && Contains(e.range, p) :: e == hit.value
  {
    var i := 0;
    while i < |entries|
      invariant 0 <= i <= |entries| && forall j | 0 <= j < i :: !Contains(entries[j].range, p)
    {
      if Contains(entries[i].range, p) {
        if Disjoint(entries) {
          OnlyMatch(entries, p, i);
        }
        return Some(entries[i]);
      }
      i := i + 1;
    }
    hit := None;
  }

  lemma OnlyMatch(entries: seq<Entry>, p: Point, i: nat)
    requires Disjoint(entries) && i < |entries| && Contains(entries[i].range, p)
    ensures forall e | e in entries && Contains(e.range, p) :: e == entries[i]
  {
    forall e | e in entries && Contains(e.range, p)
      ensures e == entries[i]
    {
      var j :| 0 <= j < |entries| && entries[j] == e;
      if j != i {
        OverlapIsASharedPoint(entries[if i < j then i else j].range, entries[if i < j then j else i].range);
      }
    }
  }

  // ----- Insert and evict -----

  predicate Stale(entries: seq<Entry>, e: Entry) {
    exists x | x in entries :: x.version > e.version && Overlaps(x.range, e.range)
  }

  /** What a rewrite of the cache leaves in place. */
  datatype Filter = NotOverlapping(range: Range) | NotDialing(endpoint: int) | NotCovering(key: Point, hash: Point)

  predicate Passes(f: Filter, e: Entry) {
    match f
    case NotOverlapping(range) => !Overlaps(e.range, range)
    case NotDialing(endpoint) => e.endpoint != endpoint
    case NotCovering(key, hash) => !Contains(e.range, key) && !Contains(e.range, hash)
  }

  function Keep(entries: seq<Entry>, f: Filter): seq<Entry> {
    if entries == [] then [] else (if Passes(f, entries[0]) then [entries[0]] else []) + Keep(entries[1..], f)
  }

  function Inserted(entries: seq<Entry>, e: Entry): seq<Entry> {
    if Stale(entries, e) then entries else Keep(entries, NotOverlapping(e.range)) + [e]
  }

  lemma {:induction false} KeepMember(entries: seq<Entry>, f: Filter, e: Entry)
    ensures e in Keep(entries, f) <==> e in entries && Passes(f, e)
    decreases |entries|
  {
    if entries != [] {
      KeepMember(entries[1..], f, e);
      assert entries == [entries[0]] + entries[1..];
    }
  }

  lemma {:induction false} KeepDisjoint(entries: seq<Entry>, f: Filter)
    requires Disjoint(entries)
    ensures Disjoint(Keep(entries, f))
    decreases |entries|
  {
    if entries != [] {
      KeepDisjoint(entries[1..], f);
      var rest, all := Keep(entries[1..], f), Keep(entries, f);
      forall i, j | 0 <= i < j < |all|
        ensures !Overlaps(all[i].range, all[j].range)
      {
        if Passes(f, entries[0]) && i == 0 {
          KeepMember(entries[1..], f, all[j]);
          assert all[j] in rest;
          var k :| 0 <= k < |entries[1..]| && entries[1..][k] == all[j];
          assert entries[k + 1] == all[j];
        }
      }
    }
  }

  lemma InsertDisjoint(entries: seq<Entry>, e: Entry)
    requires Disjoint(entries)
    ensures Disjoint(Inserted(entries, e))
  {
    var f := NotOverlapping(e.range);
    KeepDisjoint(entries, f);
    var kept := Keep(entries, f);
    forall i | 0 <= i < |kept|
      ensures !Overlaps(kept[i].range, e.range)
    {
      KeepMember(entries, f, kept[i]);
      assert kept[i] in kept;
    }
  }

  /** `insert`, over the shared vector. */
  method Insert(entries: seq<Entry>, e: Entry) returns (next: seq<Entry>)
    ensures next == Inserted(entries, e)
  {
    var i := 0;
    while i < |entries|
      invariant 0 <= i <= |entries|
      invariant forall j | 0 <= j < i :: !(entries[j].version > e.version && Overlaps(entries[j].range, e.range))
    {
      if entries[i].version > e.version && Overlaps(entries[i].range, e.range) {
        return entries;
      }
      i := i + 1;
    }
    ghost var f := NotOverlapping(e.range);
    next, i := [], |entries|;
    assert entries[|entries|..] == [];
    while i > 0
      invariant 0 <= i <= |entries| && next == Keep(entries[i..], f)
    {
      i := i - 1;
      assert entries[i..][1..] == entries[i + 1..];
      if !Overlaps(entries[i].range, e.range) {
        next := [entries[i]] + next;
      }
    }
    assert entries[0..] == entries;
    next := next + [e];
  }

  // ----- Every interleaving -----

  /** The cache, and what evicting threads have loaded and not yet stored. */
  datatype World = World(entries: seq<Entry>, loads: map<int, (seq<Entry>, Filter)>)

  const Empty := World([], map[])

  datatype Step =
    | Learn(e: Entry)
    | Load(thread: int, f: Filter)
    | Store(thread: int)

  function Next(w: World, s: Step): World {
    match s
    case Learn(e) => w.(entries := Inserted(w.entries, e))
    case Load(t, f) => w.(loads := w.loads[t := (w.entries, f)])
    case Store(t) =>
      if t !in w.loads then w
      else
        var kept := Keep(w.loads[t].0, w.loads[t].1);
        World(if |kept| == |w.loads[t].0| then w.entries else kept, w.loads - {t})
  }

  function Exec(w: World, run: seq<Step>): World
    decreases |run|
  {
    if run == [] then w else Exec(Next(w, run[0]), run[1..])
  }

  predicate Inv(w: World) {
    Disjoint(w.entries) && forall t | t in w.loads :: Disjoint(w.loads[t].0)
  }

  lemma StepKeeps(w: World, s: Step)
    requires Inv(w)
    ensures Inv(Next(w, s))
  {
    match s
    case Learn(e) => InsertDisjoint(w.entries, e);
    case Load(t, f) =>
    case Store(t) =>
      if t in w.loads {
        KeepDisjoint(w.loads[t].0, w.loads[t].1);
      }
  }

  lemma {:induction false} RunKeeps(w: World, run: seq<Step>)
    requires Inv(w)
    ensures Inv(Exec(w, run))
    decreases |run|
  {
    hide Inv, Next;
    if run != [] {
      StepKeeps(w, run[0]);
      RunKeeps(Next(w, run[0]), run[1..]);
    }
  }

  /** The cache is a partial function of the point, however inserts and evictions interleave. */
  lemma OneRoutePerPoint(run: seq<Step>, p: Point, a: Entry, b: Entry)
    requires a in Exec(Empty, run).entries && b in Exec(Empty, run).entries && Contains(a.range, p) && Contains(b.range, p)
    ensures a == b
  {
    RunKeeps(Empty, run);
    var entries := Exec(Empty, run).entries;
    var i :| 0 <= i < |entries| && entries[i] == a;
    OnlyMatch(entries, p, i);
  }

  // ----- Versions -----

  /** The version covering a point, if any does. */
  predicate At(entries: seq<Entry>, p: Point, version: nat) {
    exists e | e in entries :: Contains(e.range, p) && e.version == version
  }

  /** One insert never lowers the version of a point it leaves covered. */
  lemma InsertNeverLowers(entries: seq<Entry>, e: Entry, p: Point, v: nat, v': nat)
    requires Disjoint(entries) && At(entries, p, v) && At(Inserted(entries, e), p, v')
    ensures v <= v'
  {
    var a :| a in entries && Contains(a.range, p) && a.version == v;
    var b :| b in Inserted(entries, e) && Contains(b.range, p) && b.version == v';
    var i :| 0 <= i < |entries| && entries[i] == a;
    OnlyMatch(entries, p, i);
    if !Stale(entries, e) {
      KeepMember(entries, NotOverlapping(e.range), b);
      if b == e {
        OverlapIsASharedPoint(a.range, e.range);
      }
    }
  }

  /** A route that is learned is the one route of its whole range; a stale one changes nothing. */
  lemma LearnedRouteWins(entries: seq<Entry>, e: Entry, p: Point)
    requires Disjoint(entries) && Contains(e.range, p)
    ensures if Stale(entries, e) then Inserted(entries, e) == entries
      else e in Inserted(entries, e) && forall x | x in Inserted(entries, e) && Contains(x.range, p) :: x == e
  {
    if !Stale(entries, e) {
      InsertDisjoint(entries, e);
      var next := Inserted(entries, e);
      assert next[|next| - 1] == e;
      OnlyMatch(next, p, |next| - 1);
    }
  }

  predicate Within(a: Range, b: Range) {
    a.space == b.space && b.lo <= a.lo && a.hi <= b.hi
  }

  /** The insert replaces only routes that its own range takes over whole. */
  predicate Gapless(entries: seq<Entry>, e: Entry) {
    Stale(entries, e) || forall x | x in entries && Overlaps(x.range, e.range) :: Within(x.range, e.range)
  }

  /** An insert keeps every covered point covered exactly when it is gapless. */
  lemma InsertKeepsCoverIff(entries: seq<Entry>, e: Entry)
    requires Disjoint(entries)
    ensures (forall p | Covers(entries, p) :: Covers(Inserted(entries, e), p)) <==> Gapless(entries, e)
  {
    var f := NotOverlapping(e.range);
    if Stale(entries, e) {
    } else if Gapless(entries, e) {
      forall p | Covers(entries, p)
        ensures Covers(Inserted(entries, e), p)
      {
        var a :| a in entries && Contains(a.range, p);
        KeepMember(entries, f, a);
        if Overlaps(a.range, e.range) {
          assert e in Inserted(entries, e);
        } else {
          assert a in Inserted(entries, e);
        }
      }
    } else {
      var x :| x in entries && Overlaps(x.range, e.range) && !Within(x.range, e.range);
      var p := Point(x.range.space, if x.range.lo < e.range.lo then x.range.lo else x.range.hi - 1);
      assert Contains(x.range, p) && !Contains(e.range, p);
      var i :| 0 <= i < |entries| && entries[i] == x;
      OnlyMatch(entries, p, i);
      forall b | b in Inserted(entries, e)
        ensures !Contains(b.range, p)
      {
        KeepMember(entries, f, b);
      }
      assert Covers(entries, p) && !Covers(Inserted(entries, e), p);
    }
  }

  /** No point that both caches cover has a lower version in the second. */
  ghost predicate NeverLowers(was: seq<Entry>, now: seq<Entry>) {
    forall p, v, v' :: At(was, p, v) && At(now, p, v') ==> v <= v'
  }

  /** The store changes nothing, or no route learned meanwhile is newer than a stored one it overlaps. */
  predicate Fresh(w: World, thread: int) {
    thread in w.loads ==>
      var loaded, f := w.loads[thread].0, w.loads[thread].1;
      || |Keep(loaded, f)| == |loaded|
      || forall x, y | x in Keep(loaded, f) && y in w.entries && Overlaps(x.range, y.range) :: y.version <= x.version
  }

  lemma SameNeverLowers(entries: seq<Entry>)
    requires Disjoint(entries)
    ensures NeverLowers(entries, entries)
  {
    forall p, v, v' | At(entries, p, v) && At(entries, p, v')
      ensures v <= v'
    {
      var a :| a in entries && Contains(a.range, p) && a.version == v;
      var i :| 0 <= i < |entries| && entries[i] == a;
      OnlyMatch(entries, p, i);
    }
  }

  lemma LowersNothingIff(was: seq<Entry>, now: seq<Entry>)
    ensures NeverLowers(was, now) <==>
      forall x, y | x in now && y in was && Overlaps(x.range, y.range) :: y.version <= x.version
  {
    hide Overlaps, Contains;
    if NeverLowers(was, now) {
      forall x, y | x in now && y in was && Overlaps(x.range, y.range)
        ensures y.version <= x.version
      {
        OverlapIsASharedPoint(x.range, y.range);
        var p :| Contains(x.range, p) && Contains(y.range, p);
        assert At(was, p, y.version) && At(now, p, x.version);
      }
    } else {
      var p, v, v' :| At(was, p, v) && At(now, p, v') && v > v';
      var y :| y in was && Contains(y.range, p) && y.version == v;
      var x :| x in now && Contains(x.range, p) && x.version == v';
      OverlapIsASharedPoint(x.range, y.range);
    }
  }

  /** A step lowers no still-covered point exactly when it is not a store over something newer. */
  lemma StepNeverLowersIff(w: World, s: Step)
    requires Inv(w)
    ensures NeverLowers(w.entries, Next(w, s).entries) <==> (s.Store? ==> Fresh(w, s.thread))
  {
    hide NeverLowers;
    SameNeverLowers(w.entries);
    match s
    case Learn(e) => InsertNeverLowersAnywhere(w.entries, e);
    case Load(t, f) =>
    case Store(t) =>
      if t in w.loads {
        LowersNothingIff(w.entries, Keep(w.loads[t].0, w.loads[t].1));
      }
  }

  lemma InsertNeverLowersAnywhere(entries: seq<Entry>, e: Entry)
    requires Disjoint(entries)
    ensures NeverLowers(entries, Inserted(entries, e))
  {
    forall p, v, v' | At(entries, p, v) && At(Inserted(entries, e), p, v')
      ensures v <= v'
    {
      InsertNeverLowers(entries, e, p, v, v');
    }
  }

  predicate FreshRun(w: World, run: seq<Step>)
    decreases |run|
  {
    run == [] || ((run[0].Store? ==> Fresh(w, run[0].thread)) && FreshRun(Next(w, run[0]), run[1..]))
  }

  ghost predicate AlwaysNeverLowers(w: World, run: seq<Step>)
    decreases |run|
  {
    run == [] || (NeverLowers(w.entries, Next(w, run[0]).entries) && AlwaysNeverLowers(Next(w, run[0]), run[1..]))
  }

  /** Over any interleaving, no step lowers a still-covered point exactly when every store is fresh. */
  lemma {:induction false} RunNeverLowersIff(w: World, run: seq<Step>)
    requires Inv(w)
    ensures AlwaysNeverLowers(w, run) <==> FreshRun(w, run)
    decreases |run|
  {
    hide Inv, Next, NeverLowers, Fresh;
    if run != [] {
      StepKeeps(w, run[0]);
      StepNeverLowersIff(w, run[0]);
      RunNeverLowersIff(Next(w, run[0]), run[1..]);
    }
  }

  predicate CoveredThroughout(w: World, run: seq<Step>, p: Point)
    decreases |run|
  {
    Covers(w.entries, p) && (run == [] || CoveredThroughout(Next(w, run[0]), run[1..], p))
  }

  /** Over any run whose stores are fresh, a point that stays covered never falls to a lower version. */
  lemma {:induction false} CoveredPointIsMonotone(w: World, run: seq<Step>, p: Point, v: nat, v': nat)
    requires Inv(w) && FreshRun(w, run) && CoveredThroughout(w, run, p)
    requires At(w.entries, p, v) && At(Exec(w, run).entries, p, v')
    ensures v <= v'
    decreases |run|
  {
    hide Inv, Next, Fresh;
    if run == [] {
      DisjointOf(w);
      SameNeverLowers(w.entries);
    } else {
      var w' := Next(w, run[0]);
      StepKeeps(w, run[0]);
      StepNeverLowersIff(w, run[0]);
      assert Covers(w'.entries, p);
      var b :| b in w'.entries && Contains(b.range, p);
      assert At(w'.entries, p, b.version);
      CoveredPointIsMonotone(w', run[1..], p, b.version, v');
    }
  }

  lemma DisjointOf(w: World)
    requires Inv(w)
    ensures Disjoint(w.entries)
  {
  }

  lemma ExecTwo(w: World, a: Step, b: Step)
    ensures Exec(w, [a, b]) == Next(Next(w, a), b)
  {
    ExecOne(Next(w, a), b);
    assert [a, b][1..] == [b];
  }

  lemma ExecOne(w: World, a: Step)
    ensures Exec(w, [a]) == Next(w, a)
  {
    assert [a][1..] == [];
  }

  lemma ExecThree(w: World, a: Step, b: Step, c: Step)
    ensures Exec(w, [a, b, c]) == Next(Next(Next(w, a), b), c)
  {
    ExecTwo(Next(w, a), b, c);
    assert [a, b, c][1..] == [b, c];
  }

  lemma KeepOne(x: Entry, f: Filter)
    ensures Keep([x], f) == if Passes(f, x) then [x] else []
  {
    var none: seq<Entry> := [];
    assert [x][1..] == none && Keep(none, f) == none;
    assert [x] + none == [x] && none + none == none;
  }

  lemma InsertFirst(e: Entry)
    ensures Inserted([], e) == [e]
  {
    var none: seq<Entry> := [];
    assert none + [e] == [e];
  }

  lemma InsertSecond(x: Entry, e: Entry)
    requires !(x.version > e.version && Overlaps(x.range, e.range))
    ensures Inserted([x], e) == if Overlaps(x.range, e.range) then [e] else [x, e]
  {
    KeepOne(x, NotOverlapping(e.range));
    var none: seq<Entry> := [];
    assert none + [e] == [e] && [x] + [e] == [x, e];
  }

  /** A narrower newer route drops the wide one whole, and then an older route is let in beside it. */
  lemma GapLetsAnOlderRouteIn()
    ensures var p := Point(Ordered, 7);
      var wide, narrow, late := Entry(Range(Ordered, 0, 10), 1, 7), Entry(Range(Ordered, 0, 5), 2, 8),
                                Entry(Range(Ordered, 5, 10), 3, 5);
      var run := [Learn(wide), Learn(narrow), Learn(late)];
      At(Exec(Empty, run[..1]).entries, p, 7) && At(Exec(Empty, run).entries, p, 5)
  {
    var p := Point(Ordered, 7);
    var wide, narrow, late := Entry(Range(Ordered, 0, 10), 1, 7), Entry(Range(Ordered, 0, 5), 2, 8),
                              Entry(Range(Ordered, 5, 10), 3, 5);
    var run := [Learn(wide), Learn(narrow), Learn(late)];
    InsertFirst(wide);
    InsertSecond(wide, narrow);
    InsertSecond(narrow, late);
    var one := [wide];
    assert run[..1] == [Learn(wide)];
    ExecOne(Empty, Learn(wide));
    ExecThree(Empty, Learn(wide), Learn(narrow), Learn(late));
    assert wide in one && late in [narrow, late];
  }

  lemma KeepTwo(x: Entry, y: Entry, f: Filter)
    ensures Keep([x, y], f) == (if Passes(f, x) then [x] else []) + if Passes(f, y) then [y] else []
  {
    assert [x, y][1..] == [y];
    KeepOne(y, f);
  }

  lemma {:induction false} ExecAppend(w: World, run: seq<Step>, s: Step)
    ensures Exec(w, run + [s]) == Next(Exec(w, run), s)
    decreases |run|
  {
    hide Next;
    if run == [] {
      assert run + [s] == [s];
      ExecOne(w, s);
    } else {
      assert (run + [s])[1..] == run[1..] + [s];
      ExecAppend(Next(w, run[0]), run[1..], s);
    }
  }

  /** An eviction that loaded before a newer route was learned stores the older one back over it. */
  lemma EvictionBringsAnOlderRouteBack()
    ensures var p := Point(Ordered, 3);
      var grave, older, newer := Entry(Range(Ordered, 20, 30), 9, 7), Entry(Range(Ordered, 0, 10), 1, 7),
                                 Entry(Range(Ordered, 0, 10), 2, 8);
      var run := [Learn(grave), Learn(older), Load(1, NotDialing(9)), Learn(newer)];
      At(Exec(Empty, run).entries, p, 8) && At(Exec(Empty, run + [Store(1)]).entries, p, 7)
  {
    var p := Point(Ordered, 3);
    var grave, older, newer := Entry(Range(Ordered, 20, 30), 9, 7), Entry(Range(Ordered, 0, 10), 1, 7),
                               Entry(Range(Ordered, 0, 10), 2, 8);
    var s1, s2, s3, s4 := Learn(grave), Learn(older), Load(1, NotDialing(9)), Learn(newer);
    InsertFirst(grave);
    InsertSecond(grave, older);
    ExecThree(Empty, s1, s2, s3);
    KeepTwo(grave, older, NotOverlapping(newer.range));
    KeepTwo(grave, older, NotDialing(9));
    assert Inserted([grave, older], newer) == [grave, newer];
    assert [s1, s2, s3, s4] == [s1, s2, s3] + [s4];
    ExecAppend(Empty, [s1, s2, s3], s4);
    ExecAppend(Empty, [s1, s2, s3, s4], Store(1));
    assert Exec(Empty, [s1, s2, s3, s4] + [Store(1)]).entries == [older];
    assert newer in [grave, newer] && older in [older];
  }
}
