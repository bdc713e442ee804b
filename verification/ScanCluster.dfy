/**
 A client scan against the cluster's own pages: when it is exact, and when it ends. The data
 is fixed; the tablets, payloads and budgets may differ at every request.
 */
module ScanCluster {
  import opened Options
  import opened Keys
  import opened ScanClient
  import opened ScanServer
  import opened ScanRouting

  /** Disjoint tablets that hold all the data, and a page budget the server accepts. */
  ghost predicate Sane(stored: seq<Key>, l: Layout) {
    Tiling(l.dir) && Covers(l.dir, stored) && l.budget.maxItems > 0 && l.budget.maxBytes > 0
  }

  /** Every request is answered as `handle_scan` answers it. */
  ghost predicate Serving(stored: seq<Key>, visible: Key -> bool, layouts: nat -> Layout, direction: Direction, serve: Server) {
    forall n, lo, hi :: Answers(stored, visible, layouts(n), direction, lo, hi, serve(n, lo, hi))
  }

  // ----- Hidden keys -----

  /** The keys a page of `n` candidates looks at from position `s` on. */
  function PageAt(stored: seq<Key>, direction: Direction, s: nat, n: nat): seq<Key>
    requires if direction.Forward? then s + n <= |stored| else n <= s + 1 <= |stored|
  {
    if direction.Forward? then stored[s..s + n] else Reversed(stored[s + 1 - n..s + 1])
  }

  /**
   A page that starts at position `s` looks at `p`, which is hidden, within its first
   `maxItems` keys, is not cut by the values it shows, and stops before `q`, which is visible.
   */
  predicate Blocks(stored: seq<Key>, visible: Key -> bool, l: Layout, direction: Direction, s: nat, p: nat, q: nat)
    requires s < |stored| && p < |stored| && q < |stored|
  {
    var m := l.budget.maxItems;
    && !visible(stored[p]) && visible(stored[q])
    && (if direction.Forward? then s <= p < s + m < q else q < s - m < p <= s)
    && ValuesFit(visible, l.weigh, l.budget, PageAt(stored, direction, s, m + 1))
  }

  /** No tablet has a key hidden where it ends a page early. */
  ghost predicate Clean(stored: seq<Key>, visible: Key -> bool, l: Layout, direction: Direction) {
    forall i, s, p, q | 0 <= i < |l.dir| && 0 <= s < |stored| && 0 <= p < |stored| && 0 <= q < |stored|
      && Contains(l.dir[i], stored[s]) && Contains(l.dir[i], stored[q]) ::
      !Blocks(stored, visible, l, direction, s, p, q)
  }

  /** A slice holds only keys of its tablet. */
  lemma SliceWithin(r: Range, stored: seq<Key>, lo: Option<Key>, hi: Option<Key>, j: nat)
    requires Sorted(stored) && Rank(stored, LowerOf(lo, r)) <= j < UpperRank(stored, UpperOf(hi, r))
    ensures Contains(r, stored[j])
  {
    hide Rank, Less;
    LowerOfRank(stored, lo, r);
    UpperOfRank(stored, hi, r);
    RankSplits(stored, r.start, j);
    if r.end.Some? {
      RankSplits(stored, r.end.value, j);
    }
  }

  lemma {:induction false} FirstVisible(visible: Key -> bool, s: seq<Key>) returns (i: nat)
    requires Visible(visible, s) != []
    ensures i < |s| && visible(s[i])
    decreases |s|
  {
    if visible(s[0]) {
      i := 0;
    } else {
      var j := FirstVisible(visible, s[1..]);
      i := j + 1;
    }
  }

  /** A clogged page of a tablet is a hidden key in the way. */
  lemma CloggedBlocks(stored: seq<Key>, visible: Key -> bool, l: Layout, direction: Direction, lo: Option<Key>,
                      hi: Option<Key>, i: nat)
    requires Sorted(stored) && i < |l.dir|
    requires Clogged(visible, l.weigh, l.budget, Slice(l.dir[i], stored, direction, lo, hi))
    ensures !Clean(stored, visible, l, direction)
  {
    hide Rank, Less, Visible, Contains, Slice, Sorted, ValuesFit, PageAt;
    var r, m := l.dir[i], l.budget.maxItems;
    var window := Slice(r, stored, direction, lo, hi);
    var a :| 0 <= a < m && !visible(window[..m][a]);
    var b := FirstVisible(visible, window[m + 1..]);
    b := b + m + 1;
    assert visible(window[b]) && !visible(window[a]);
    var s := SlicePosition(r, stored, direction, lo, hi, 0);
    var p := SlicePosition(r, stored, direction, lo, hi, a);
    var q := SlicePosition(r, stored, direction, lo, hi, b);
    SliceOrder(r, stored, direction, lo, hi, a, b);
    SliceStart(r, stored, direction, lo, hi, m + 1);
    assert Blocks(stored, visible, l, direction, s, p, q);
  }

  /** Where the slice's `j`-th key is stored. */
  ghost function PositionOf(r: Range, stored: seq<Key>, direction: Direction, lo: Option<Key>, hi: Option<Key>, j: nat): int {
    if direction.Forward? then Rank(stored, LowerOf(lo, r)) + j else UpperRank(stored, UpperOf(hi, r)) - 1 - j
  }

  lemma SlicePosition(r: Range, stored: seq<Key>, direction: Direction, lo: Option<Key>, hi: Option<Key>, j: nat)
    returns (at: nat)
    requires Sorted(stored) && j < |Slice(r, stored, direction, lo, hi)|
    ensures at == PositionOf(r, stored, direction, lo, hi, j) && at < |stored|
    ensures stored[at] == Slice(r, stored, direction, lo, hi)[j] && Contains(r, stored[at])
  {
    hide Rank, Less, Contains, LowerOf, UpperOf, Sorted, Reversed;
    var x, y := Rank(stored, LowerOf(lo, r)), UpperRank(stored, UpperOf(hi, r));
    at := PositionOf(r, stored, direction, lo, hi, j);
    if direction.Reverse? {
      ReversedIndex(stored, x, y, j);
    }
    SliceWithin(r, stored, lo, hi, at);
  }

  /** A page over the slice looks at the keys stored from the slice's first one on. */
  lemma SliceStart(r: Range, stored: seq<Key>, direction: Direction, lo: Option<Key>, hi: Option<Key>, n: nat)
    requires 0 < n <= |Slice(r, stored, direction, lo, hi)|
    ensures var s := PositionOf(r, stored, direction, lo, hi, 0);
      && 0 <= s < |stored| && (if direction.Forward? then s + n <= |stored| else n <= s + 1)
      && Slice(r, stored, direction, lo, hi)[..n] == PageAt(stored, direction, s, n)
  {
    hide Rank, LowerOf, UpperOf, Reversed;
    var x, y := Rank(stored, LowerOf(lo, r)), UpperRank(stored, UpperOf(hi, r));
    if direction.Reverse? {
      ReversedPrefix(stored, x, y, Reversed(stored[x..y])[..n]);
    }
  }

  lemma SliceOrder(r: Range, stored: seq<Key>, direction: Direction, lo: Option<Key>, hi: Option<Key>, a: nat, b: nat)
    ensures var p := (j: nat) => PositionOf(r, stored, direction, lo, hi, j);
      if direction.Forward? then p(a) == p(0) + a && p(b) == p(0) + b else p(a) == p(0) - a && p(b) == p(0) - b
  {
    hide Rank;
  }

  /** Over clean tablets every answer is honest, whatever the layout. */
  lemma CleanIsHonest(stored: seq<Key>, visible: Key -> bool, l: Layout, direction: Direction, lo: Option<Key>,
                      hi: Option<Key>, a: Answer)
    requires Sorted(stored) && Sane(stored, l) && Clean(stored, visible, l, direction)
    requires Answers(stored, visible, l, direction, lo, hi, a)
    ensures Honest(Visible(visible, stored), direction, lo, hi, a)
  {
    hide Rank, Less, Sorted, Visible, HonestForward, HonestReverse, Tiling, Covers, Clean, Clogged, Truthful, Slice, PageFor,
         IsPrevious, GapFor;
    if !EmptyWindow(lo, hi) {
      var at :| Routed(l.dir, direction, lo, hi, at) && AnswersFrom(stored, visible, l, direction, lo, hi, at, a);
      AnswerHonestIff(stored, visible, l, direction, lo, hi, at, a);
      if at.Some? {
        RoutedServes(l.dir, stored, direction, lo, hi, at.value);
        var window := Slice(l.dir[at.value], stored, direction, lo, hi);
        TruthfulIff(visible, l.weigh, l.budget, window);
        if Clogged(visible, l.weigh, l.budget, window) {
          CloggedBlocks(stored, visible, l, direction, lo, hi, at.value);
        }
      }
    }
  }

  lemma CleanServerIsHonest(stored: seq<Key>, visible: Key -> bool, layouts: nat -> Layout, direction: Direction, serve: Server)
    requires Sorted(stored) && Serving(stored, visible, layouts, direction, serve)
    requires forall n :: Sane(stored, layouts(n)) && Clean(stored, visible, layouts(n), direction)
    ensures HonestServer(Visible(visible, stored), direction, serve)
  {
    hide Sorted, Sane, Clean, Answers, Honest, Visible;
    forall n, lo, hi
      ensures Honest(Visible(visible, stored), direction, lo, hi, serve(n, lo, hi))
    {
      CleanIsHonest(stored, visible, layouts(n), direction, lo, hi, serve(n, lo, hi));
    }
  }

  /** What `scan` returns over the cluster, from the first request on. */
  function ScanOf(direction: Direction, start: Option<Key>, end: Option<Key>, limit: Option<nat>, serve: Server,
                  patience: nat): Outcome {
    ScanFrom(direction, start, end, limit, serve, patience, 0, 0, None, [])
  }

  /**
   The whole path, client and server: tablets may split, merge or leave gaps between any two
   pages, and still an answer is exactly the visible keys of the range, in order, cut to the
   limit, as long as no tablet has a key hidden where it ends a page early.
   */
  lemma ClusterScanIsExact(stored: seq<Key>, visible: Key -> bool, layouts: nat -> Layout, direction: Direction,
                           serve: Server, start: Option<Key>, end: Option<Key>, limit: Option<nat>, patience: nat)
    requires Sorted(stored) && Serving(stored, visible, layouts, direction, serve)
    requires forall n :: Sane(stored, layouts(n)) && Clean(stored, visible, layouts(n), direction)
    ensures var o := ScanOf(direction, start, end, limit, serve, patience);
      o.Found? ==> o.out == Truncated(limit, Wanted(Visible(visible, stored), direction, start, end))
  {
    hide Sorted, Sane, Clean, Answers, Honest, Visible, Wanted, Truncated, ScanFrom;
    CleanServerIsHonest(stored, visible, layouts, direction, serve);
    VisibleSorted(visible, stored);
    assert Sorted([]) by { NoneSorted(); }
    ScanOutcome(Visible(visible, stored), [], direction, start, end, limit, serve, patience);
  }

  lemma NoneSorted()
    ensures Sorted([])
  {
  }

  // ----- A hidden key in the way costs a visible one -----

  /** The scan that starts a page at `s` and ends behind `q`. */
  function StartAt(stored: seq<Key>, direction: Direction, s: nat, q: nat): Option<Key>
    requires s < |stored| && q < |stored|
  {
    Some(if direction.Forward? then stored[s] else stored[q])
  }

  function EndAt(stored: seq<Key>, direction: Direction, s: nat, q: nat): Option<Key>
    requires s < |stored| && q < |stored|
  {
    Some(Successor(if direction.Forward? then stored[q] else stored[s]))
  }

  /** Positions `s` and `q` of one tablet, with `q` further on in scan order. */
  predicate Spans(stored: seq<Key>, r: Range, direction: Direction, s: nat, q: nat) {
    && s < |stored| && q < |stored| && Contains(r, stored[s]) && Contains(r, stored[q])
    && if direction.Forward? then s < q else q < s
  }

  lemma SpanSlice(stored: seq<Key>, r: Range, direction: Direction, s: nat, q: nat)
    requires Sorted(stored) && Spans(stored, r, direction, s, q)
    ensures Slice(r, stored, direction, StartAt(stored, direction, s, q), EndAt(stored, direction, s, q)) ==
      if direction.Forward? then stored[s..q + 1] else Reversed(stored[q..s + 1])
  {
    hide Rank, Less, Reversed;
    var x, y := if direction.Forward? then s else q, if direction.Forward? then q else s;
    var lo, hi := StartAt(stored, direction, s, q), EndAt(stored, direction, s, q);
    RankOfKey(stored, x);
    RankOfKey(stored, y);
    LowerOfRank(stored, lo, r);
    UpperOfRank(stored, hi, r);
    RankMonotone(stored, r.start, stored[x]);
    if r.end.Some? {
      RankSplits(stored, r.end.value, y);
    }
  }

  /** The tablet that holds both ends of the span is the one asked. */
  lemma SpanRouted(stored: seq<Key>, dir: seq<Range>, direction: Direction, s: nat, q: nat, i: nat, at: Option<nat>)
    requires Sorted(stored) && Tiling(dir) && i < |dir| && Spans(stored, dir[i], direction, s, q)
    requires Routed(dir, direction, StartAt(stored, direction, s, q), EndAt(stored, direction, s, q), at)
    ensures at == Some(i)
  {
    hide Less, Sorted;
    if direction.Forward? {
      assert Contains(dir[i], stored[s]);
    } else {
      var hi := EndAt(stored, direction, s, q);
      if at.Some? && HoldsInside(dir, hi, at.value) {
        HoldsBelow(dir[at.value], stored[s]);
      } else {
        StartsAtOrBelow(dir[i], stored[s]);
        assert StartsBelow(dir[i], hi);
        LastBelow(dir[i], dir[at.value], stored[s]);
      }
    }
  }

  lemma HoldsBelow(r: Range, k: Key)
    requires Contains(r, Successor(k)) && r.start != Successor(k)
    ensures Contains(r, k)
  {
    hide Less, Successor;
    LessTotal(r.start, Successor(k));
    SuccessorIsLeast(k, r.start);
    SuccessorIsLeast(k, k);
    LessIrreflexive(k);
    if Less(r.start, k) {
      NotBoth(r.start, k);
    }
    if r.end.Some? {
      LessTransitive(k, Successor(k), r.end.value);
    }
  }

  lemma StartsAtOrBelow(r: Range, k: Key)
    requires Contains(r, k)
    ensures Less(r.start, Successor(k))
  {
    hide Less, Successor;
    LessTotal(r.start, k);
    SuccessorIsLeast(k, r.start);
  }

  /** Of the tablets that start at or below a key, the last one's start lies in the tablet that holds the key. */
  lemma LastBelow(r: Range, t: Range, k: Key)
    requires Contains(r, k) && Less(t.start, Successor(k)) && !Less(t.start, r.start)
    ensures Contains(r, t.start)
  {
    hide Less, Successor;
    SuccessorIsLeast(k, t.start);
    if r.end.Some? && Less(t.start, k) {
      LessTransitive(t.start, k, r.end.value);
    }
  }

  /** The span's page reaches the far end of its scan. */
  lemma SpanEnds(stored: seq<Key>, r: Range, direction: Direction, s: nat, q: nat, p: Page)
    requires Spans(stored, r, direction, s, q) && p.rangeStart == r.start && p.rangeEnd == r.end && p.exhausted
    ensures Ends(direction, StartAt(stored, direction, s, q), EndAt(stored, direction, s, q), Served(p))
  {
    hide Less, Successor;
    if direction.Forward? && r.end.Some? {
      SuccessorIsLeast(stored[q], r.end.value);
      NotBoth(stored[q], r.end.value);
      LessIrreflexive(stored[q]);
    }
  }

  lemma SpanIsOpen(stored: seq<Key>, direction: Direction, r: Range, s: nat, q: nat)
    requires Sorted(stored) && Spans(stored, r, direction, s, q)
    ensures !EmptyWindow(StartAt(stored, direction, s, q), EndAt(stored, direction, s, q))
  {
    hide Less, Successor;
    var x, y := if direction.Forward? then s else q, if direction.Forward? then q else s;
    SuccessorIsLeast(stored[y], stored[x]);
  }

  lemma BeyondPage(stored: seq<Key>, direction: Direction, s: nat, q: nat, n: nat)
    requires Sorted(stored) && s < |stored| && q < |stored|
    requires if direction.Forward? then s + n <= q else q + n <= s
    ensures stored[q] !in PageAt(stored, direction, s, n)
  {
    hide Less, Reversed;
    var c := PageAt(stored, direction, s, n);
    LessIrreflexive(stored[q]);
    forall j | 0 <= j < n
      ensures c[j] != stored[q]
    {
      if direction.Reverse? {
        ReversedIndex(stored, s + 1 - n, s + 1, j);
      }
      var k := if direction.Forward? then s + j else s - j;
      assert c[j] == stored[k];
      assert if k < q then Less(stored[k], stored[q]) else Less(stored[q], stored[k]);
    }
  }

  predicate SpanOf(stored: seq<Key>, direction: Direction, s: nat, q: nat, window: seq<Key>)
    requires s < |stored| && q < |stored| && if direction.Forward? then s <= q else q <= s
  {
    window == if direction.Forward? then stored[s..q + 1] else Reversed(stored[q..s + 1])
  }

  lemma SpanStart(stored: seq<Key>, direction: Direction, s: nat, q: nat, window: seq<Key>, n: nat)
    requires s < |stored| && q < |stored| && if direction.Forward? then s + n <= q else q + n <= s
    requires SpanOf(stored, direction, s, q, window)
    ensures n < |window| && window[..n] == PageAt(stored, direction, s, n)
  {
    hide Reversed;
    if direction.Reverse? {
      ReversedPrefix(stored, q, s + 1, window[..n]);
    }
  }

  lemma HiddenInPage(stored: seq<Key>, visible: Key -> bool, direction: Direction, s: nat, p: nat, n: nat)
    requires s < |stored| && if direction.Forward? then s <= p < s + n <= |stored| else n <= s + 1 && s - n < p <= s
    requires !visible(stored[p])
    ensures !AllVisible(visible, PageAt(stored, direction, s, n))
  {
    hide Reversed;
    if direction.Reverse? {
      ReversedIndex(stored, s + 1 - n, s + 1, s - p);
    }
    var a := if direction.Forward? then p - s else s - p;
    assert PageAt(stored, direction, s, n)[a] == stored[p];
  }

  /** The page over a blocked span claims to be exhausted without offering the key at its end. */
  lemma BlockedPage(stored: seq<Key>, visible: Key -> bool, l: Layout, direction: Direction, s: nat, p: nat, q: nat,
                    window: seq<Key>)
    requires Sorted(stored) && l.budget.maxItems > 0 && s < |stored| && p < |stored| && q < |stored|
    requires Blocks(stored, visible, l, direction, s, p, q) && SpanOf(stored, direction, s, q, window)
    ensures PageFor(visible, l.weigh, l.budget, window).exhausted
    ensures stored[q] !in PageFor(visible, l.weigh, l.budget, window).entries
  {
    hide Less, Visible, Fill, Overruns, ValuesFit, AllVisible, PageAt, Sorted, SpanOf, CutShort;
    var m := l.budget.maxItems;
    PageTells(visible, l.weigh, l.budget, window);
    var c := Candidates(window, m);
    SpanStart(stored, direction, s, q, window, m);
    SpanStart(stored, direction, s, q, window, m + 1);
    assert c == window[..m + 1] && c[..m] == window[..m];
    HiddenInPage(stored, visible, direction, s, p, m);
    BeyondPage(stored, direction, s, q, m + 1);
    VisibleMember(visible, c, stored[q]);
  }

  /** A hidden key in the way of a page: this scan answers without a visible key of its range. */
  lemma BlockedScanOmits(stored: seq<Key>, visible: Key -> bool, layouts: nat -> Layout, direction: Direction, serve: Server,
                         i: nat, s: nat, p: nat, q: nat)
    requires Sorted(stored) && Serving(stored, visible, layouts, direction, serve)
    requires Sane(stored, layouts(0)) && i < |layouts(0).dir| && p < |stored|
    requires Spans(stored, layouts(0).dir[i], direction, s, q)
    requires Blocks(stored, visible, layouts(0), direction, s, p, q)
    ensures var start, end := StartAt(stored, direction, s, q), EndAt(stored, direction, s, q);
      var o := ScanOf(direction, start, end, None, serve, 1);
      && o.Found? && stored[q] !in o.out && stored[q] in Wanted(Visible(visible, stored), direction, start, end)
  {
    hide Rank, Less, Sorted, Visible, Covers, PageFor, Slice, Reversed, Blocks, Wanted, EndsAt, Contains, Truncated;
    var l := layouts(0);
    var start, end := StartAt(stored, direction, s, q), EndAt(stored, direction, s, q);
    SpanIsOpen(stored, direction, l.dir[i], s, q);
    var a := serve(0, start, end);
    assert Answers(stored, visible, l, direction, start, end, a);
    var at :| Routed(l.dir, direction, start, end, at) && AnswersFrom(stored, visible, l, direction, start, end, at, a);
    SpanRouted(stored, l.dir, direction, s, q, i, at);
    SpanSlice(stored, l.dir[i], direction, s, q);
    BlockedPage(stored, visible, l, direction, s, p, q, Slice(l.dir[i], stored, direction, start, end));
    SpanEnds(stored, l.dir[i], direction, s, q, a.page);
    OnePageScan(direction, start, end, serve);
    BlockedIsVisible(stored, visible, l, direction, s, p, q);
    SpanWanted(stored, visible, l.dir[i], direction, s, q);
  }

  lemma BlockedIsVisible(stored: seq<Key>, visible: Key -> bool, l: Layout, direction: Direction, s: nat, p: nat, q: nat)
    requires s < |stored| && p < |stored| && q < |stored| && Blocks(stored, visible, l, direction, s, p, q)
    ensures visible(stored[q])
  {
  }

  lemma OnePageScan(direction: Direction, start: Option<Key>, end: Option<Key>, serve: Server)
    requires Ends(direction, start, end, serve(0, start, end))
    ensures ScanOf(direction, start, end, None, serve, 1) == Found(serve(0, start, end).page.entries)
  {
    var p := serve(0, start, end).page;
    assert [] + p.entries == p.entries;
    assert LowerFor(direction, start, None) == start && UpperFor(direction, end, None) == end;
  }

  lemma SpanWanted(stored: seq<Key>, visible: Key -> bool, r: Range, direction: Direction, s: nat, q: nat)
    requires Sorted(stored) && Spans(stored, r, direction, s, q) && visible(stored[q])
    ensures stored[q] in
      Wanted(Visible(visible, stored), direction, StartAt(stored, direction, s, q), EndAt(stored, direction, s, q))
  {
    hide Rank, Less, Visible, Reversed;
    var keys := Visible(visible, stored);
    var lo, hi := StartAt(stored, direction, s, q), EndAt(stored, direction, s, q);
    SpanIsOpen(stored, direction, r, s, q);
    WindowOrder(stored, lo, hi);
    var x, y := if direction.Forward? then s else q, if direction.Forward? then q else s;
    RankOfKey(stored, x);
    RankOfKey(stored, y);
    VisibleWindow(visible, stored, x, y + 1, lo, hi);
    assert stored[x..y + 1][q - x] == stored[q];
    VisibleMember(visible, stored[x..y + 1], stored[q]);
    InEitherOrder(keys[LowerRank(keys, lo)..UpperRank(keys, hi)], stored[q]);
  }

  lemma InEitherOrder(s: seq<Key>, k: Key)
    requires k in s
    ensures k in Reversed(s)
  {
    var j :| 0 <= j < |s| && s[j] == k;
    assert Reversed(s)[|s| - 1 - j] == k;
  }

  /** Every answer of every scan over one layout is exact. */
  ghost predicate EveryScanExact(stored: seq<Key>, visible: Key -> bool, direction: Direction, serve: Server) {
    forall start, end, limit, patience ::
      var o := ScanOf(direction, start, end, limit, serve, patience);
      o.Found? ==> o.out == Truncated(limit, Wanted(Visible(visible, stored), direction, start, end))
  }

  /**
   Scans over a fixed layout, of keys or of keys and values, are all exact exactly when no
   tablet has a key hidden where it ends a page early.
   */
  lemma EveryScanExactIff(stored: seq<Key>, visible: Key -> bool, l: Layout, direction: Direction, serve: Server)
    requires Sorted(stored) && Sane(stored, l)
    requires Serving(stored, visible, n => l, direction, serve)
    ensures EveryScanExact(stored, visible, direction, serve) <==> Clean(stored, visible, l, direction)
  {
    hide Sorted, Sane, Visible, Wanted, Truncated, ScanOf, Serving, Blocks, Contains;
    if Clean(stored, visible, l, direction) {
      forall start, end, limit, patience
        ensures var o := ScanOf(direction, start, end, limit, serve, patience);
          o.Found? ==> o.out == Truncated(limit, Wanted(Visible(visible, stored), direction, start, end))
      {
        ClusterScanIsExact(stored, visible, n => l, direction, serve, start, end, limit, patience);
      }
    } else {
      var i, s, p, q :| 0 <= i < |l.dir| && 0 <= s < |stored| && 0 <= p < |stored| && 0 <= q < |stored|
        && Contains(l.dir[i], stored[s]) && Contains(l.dir[i], stored[q])
        && Blocks(stored, visible, l, direction, s, p, q);
      SpansFor(stored, visible, l, direction, i, s, p, q);
      BlockedScanOmits(stored, visible, n => l, direction, serve, i, s, p, q);
      var start, end := StartAt(stored, direction, s, q), EndAt(stored, direction, s, q);
      var o := ScanOf(direction, start, end, None, serve, 1);
      NotCut(Wanted(Visible(visible, stored), direction, start, end));
      assert !EveryScanExact(stored, visible, direction, serve);
    }
  }

  lemma NotCut(s: seq<Key>)
    ensures Truncated(None, s) == s
  {
  }

  lemma SpansFor(stored: seq<Key>, visible: Key -> bool, l: Layout, direction: Direction, i: nat, s: nat, p: nat, q: nat)
    requires s < |stored| && p < |stored| && q < |stored| && Blocks(stored, visible, l, direction, s, p, q)
    requires i < |l.dir| && Contains(l.dir[i], stored[s]) && Contains(l.dir[i], stored[q])
    ensures Spans(stored, l.dir[i], direction, s, q)
  {
  }

  // ----- When a scan ends -----

  /** Some tablet reaches the far end of the scan. */
  ghost predicate Anchored(dir: seq<Range>, direction: Direction, start: Option<Key>, end: Option<Key>) {
    exists i | 0 <= i < |dir| :: Anchors(dir[i], direction, start, end)
  }

  predicate Anchors(r: Range, direction: Direction, start: Option<Key>, end: Option<Key>) {
    if direction.Forward? then
      StartsBelow(r, end) && (r.end.None? || (end.Some? && !Less(r.end.value, end.value)))
    else !Less(From(start), r.start)
  }

  ghost predicate CutsOf(dir: seq<Range>, cuts: seq<Key>) {
    Sorted(cuts) && forall i | 0 <= i < |dir| :: dir[i].start in cuts && (dir[i].end.Some? ==> dir[i].end.value in cuts)
  }

  /** A forward cursor in a gap below an anchored end always finds a next tablet before that end. */
  lemma GapHasNext(dir: seq<Range>, start: Option<Key>, end: Option<Key>, cursor: Key, next: Option<Key>)
    requires Anchored(dir, Forward, start, end) && (end.Some? ==> Less(cursor, end.value))
    requires IsNext(dir, cursor, next) && forall i | 0 <= i < |dir| :: !Contains(dir[i], cursor)
    ensures next.Some? && Proper(next, end)
  {
    hide Less;
    var i :| 0 <= i < |dir| && Anchors(dir[i], Forward, start, end);
    var r := dir[i];
    if r.end.Some? {
      LessTotal(r.end.value, end.value);
      if Less(end.value, r.end.value) {
        LessTransitive(cursor, end.value, r.end.value);
      }
    }
    assert Less(cursor, r.start);
    LessTotal(next.value, r.start);
    if end.Some? && Less(next.value, r.start) {
      LessTransitive(next.value, r.start, end.value);
    }
  }

  /** A reverse window above an anchored start always has a tablet below its end. */
  lemma AnchorIsBelow(dir: seq<Range>, start: Option<Key>, end: Option<Key>, hi: Option<Key>)
    requires Anchored(dir, Reverse, start, end) && Proper(start, hi)
    ensures !IsPrevious(dir, hi, None)
  {
    hide Less;
    var i :| 0 <= i < |dir| && Anchors(dir[i], Reverse, start, end);
    if hi.Some? {
      LessTotal(From(start), dir[i].start);
      if Less(dir[i].start, From(start)) {
        LessTransitive(dir[i].start, From(start), hi.value);
      }
    }
    assert StartsBelow(dir[i], hi);
  }

  /** Over an anchored layout every window of the scan gets a page, or a gap it can jump. */
  lemma AnchoredIsSteady(stored: seq<Key>, visible: Key -> bool, l: Layout, cuts: seq<Key>, direction: Direction,
                         start: Option<Key>, end: Option<Key>, lo: Option<Key>, hi: Option<Key>, a: Answer)
    requires Sorted(stored) && Sane(stored, l) && CutsOf(l.dir, cuts) && Answers(stored, visible, l, direction, lo, hi, a)
    requires Anchored(l.dir, direction, start, end) && FarBound(direction, start, end, lo, hi) && Proper(lo, hi)
    ensures SteadyPage(cuts, direction, hi, a)
  {
    hide Rank, Less, Sorted, Visible, Tiling, Covers, Anchored, IsPrevious, IsBefore, Contains;
    ProperIsNotEmpty(lo, hi);
    var at :| Routed(l.dir, direction, lo, hi, at) && AnswersFrom(stored, visible, l, direction, lo, hi, at, a);
    if at.Some? {
      RoutedServes(l.dir, stored, direction, lo, hi, at.value);
      NotAGap(l.dir[at.value], stored, visible, l.weigh, l.budget, direction, lo, hi);
    } else if direction.Forward? {
      GapHasNext(l.dir, start, end, From(lo), a.page.rangeEnd);
    } else {
      AnchorIsBelow(l.dir, start, end, hi);
    }
  }

  /** A tablet's page is never mistaken for a gap, and never refused. */
  lemma NotAGap(r: Range, stored: seq<Key>, visible: Key -> bool, weigh: Key -> Weight, budget: Budget,
                direction: Direction, lo: Option<Key>, hi: Option<Key>)
    requires budget.maxItems > 0
    ensures var p := TabletPage(r, stored, visible, weigh, budget, direction, lo, hi);
      !IsGap(p) && Usable(p) && p.rangeStart == r.start && p.rangeEnd == r.end
  {
    hide Fill, Slice, Overruns, AllVisible, Visible;
    PageTells(visible, weigh, budget, Slice(r, stored, direction, lo, hi));
  }

  /** A page that ends the scan comes from a tablet that reaches its far end. */
  lemma EndIsAnchored(stored: seq<Key>, visible: Key -> bool, l: Layout, direction: Direction,
                      start: Option<Key>, end: Option<Key>, lo: Option<Key>, hi: Option<Key>, a: Answer)
    requires Sorted(stored) && Sane(stored, l) && Answers(stored, visible, l, direction, lo, hi, a)
    requires FarBound(direction, start, end, lo, hi) && Proper(start, end) && Ends(direction, start, end, a)
    ensures Anchored(l.dir, direction, start, end)
  {
    hide Rank, Less, Sorted, Visible, Tiling, Covers, IsPrevious, IsBefore, IsNext;
    var at :| Routed(l.dir, direction, lo, hi, at) && AnswersFrom(stored, visible, l, direction, lo, hi, at, a);
    RoutedServes(l.dir, stored, direction, lo, hi, at.value);
    var r := l.dir[at.value];
    NotAGap(r, stored, visible, l.weigh, l.budget, direction, lo, hi);
    if direction.Forward? && end.Some? {
      HolderIsBelow(r, lo, end.value, start);
    }
    assert Anchors(r, direction, start, end);
  }

  lemma HolderIsBelow(r: Range, lo: Option<Key>, end: Key, start: Option<Key>)
    requires Contains(r, From(lo)) && !EmptyWindow(lo, Some(end)) && Less(From(start), end)
    ensures Less(r.start, end)
  {
    hide Less;
    EmptyIsLeast(From(start));
    if lo.Some? {
      LessTotal(r.start, lo.value);
      if Less(r.start, lo.value) {
        LessTransitive(r.start, lo.value, end);
      }
    } else {
      EmptyIsLeast(r.start);
      LessTotal(r.start, []);
      FirstIsBelow(From(start), end);
    }
  }

  lemma FirstIsBelow(k: Key, end: Key)
    requires Less(k, end)
    ensures Less([], end)
  {
  }

  /** With no far bound nothing is refused: every window gets a page or a gap. */
  lemma UnboundedIsServed(stored: seq<Key>, visible: Key -> bool, l: Layout, direction: Direction,
                          start: Option<Key>, end: Option<Key>, lo: Option<Key>, hi: Option<Key>, a: Answer)
    requires Sorted(stored) && Sane(stored, l) && l.dir != [] && Answers(stored, visible, l, direction, lo, hi, a)
    requires FarBound(direction, start, end, lo, hi) && (if direction.Forward? then end else start).None?
    ensures a.Served? && Usable(a.page)
  {
    hide Rank, Less, Sorted, Visible, Tiling, Covers, IsPrevious, IsBefore, IsNext, Contains;
    var at :| Routed(l.dir, direction, lo, hi, at) && AnswersFrom(stored, visible, l, direction, lo, hi, at, a);
    if at.Some? {
      RoutedServes(l.dir, stored, direction, lo, hi, at.value);
      NotAGap(l.dir[at.value], stored, visible, l.weigh, l.budget, direction, lo, hi);
    } else if direction.Reverse? && hi.None? {
      NoTablets(l.dir);
    }
  }

  /**
   Over a fixed clean layout a scan without a limit ends with its answer exactly when some
   tablet reaches the far end of its range.
   */
  lemma ScanEndsIff(stored: seq<Key>, visible: Key -> bool, l: Layout, cuts: seq<Key>, direction: Direction, serve: Server,
                    start: Option<Key>, end: Option<Key>, patience: nat)
    requires Sorted(stored) && Sane(stored, l) && Clean(stored, visible, l, direction) && CutsOf(l.dir, cuts)
    requires Serving(stored, visible, n => l, direction, serve) && Proper(start, end)
    requires patience > |Wanted(Visible(visible, stored), direction, start, end)| + |cuts|
    ensures ScanOf(direction, start, end, None, serve, patience).Found? <==> Anchored(l.dir, direction, start, end)
  {
    hide Sane, Clean, Answers, Honest, Visible, Wanted, ScanFrom, Anchored, Proper, FarBound, SteadyPage, Ends;
    if Anchored(l.dir, direction, start, end) {
      CleanServerIsHonest(stored, visible, n => l, direction, serve);
      VisibleSorted(visible, stored);
      forall n, lo, hi | FarBound(direction, start, end, lo, hi) && Proper(lo, hi)
        ensures SteadyPage(cuts, direction, hi, serve(n, lo, hi))
      {
        AnchoredIsSteady(stored, visible, l, cuts, direction, start, end, lo, hi, serve(n, lo, hi));
      }
      ScanOutcome(Visible(visible, stored), cuts, direction, start, end, None, serve, patience);
    } else {
      NoAnchorNoEnd(stored, visible, l, direction, serve, start, end);
      ScanRunsOn(direction, start, end, serve, patience, 0, 0, None, []);
    }
  }

  lemma NoAnchorNoEnd(stored: seq<Key>, visible: Key -> bool, l: Layout, direction: Direction, serve: Server,
                      start: Option<Key>, end: Option<Key>)
    requires Sorted(stored) && Sane(stored, l) && Serving(stored, visible, n => l, direction, serve)
    requires Proper(start, end) && !Anchored(l.dir, direction, start, end)
    ensures NeverEnds(direction, start, end, serve)
  {
    hide Sane, Answers, Anchored, Proper, FarBound, Ends;
    forall n, lo, hi | FarBound(direction, start, end, lo, hi)
      ensures !Ends(direction, start, end, serve(n, lo, hi))
    {
      if Ends(direction, start, end, serve(n, lo, hi)) {
        EndIsAnchored(stored, visible, l, direction, start, end, lo, hi, serve(n, lo, hi));
      }
    }
  }

  /**
   An unbounded scan that no tablet anchors never comes back, however many requests it may
   make: a reverse scan when no tablet starts at the first key, a forward scan when every
   tablet has an end.
   */
  lemma UnanchoredScanRunsForEver(stored: seq<Key>, visible: Key -> bool, l: Layout, direction: Direction, serve: Server,
                                  start: Option<Key>, end: Option<Key>, patience: nat)
    requires Sorted(stored) && Sane(stored, l) && l.dir != [] && Serving(stored, visible, n => l, direction, serve)
    requires Proper(start, end) && (if direction.Forward? then end else start).None?
    requires !Anchored(l.dir, direction, start, end)
    ensures ScanOf(direction, start, end, None, serve, patience).OutOfPatience?
  {
    hide Sane, Answers, Anchored, Proper, Ends, ScanFrom, Usable;
    NoAnchorNoEnd(stored, visible, l, direction, serve, start, end);
    forall n, lo, hi | FarBound(direction, start, end, lo, hi)
      ensures serve(n, lo, hi).Served? && Usable(serve(n, lo, hi).page)
    {
      UnboundedIsServed(stored, visible, l, direction, start, end, lo, hi, serve(n, lo, hi));
    }
    ScanRunsOn(direction, start, end, serve, patience, 0, 0, None, []);
  }
}
