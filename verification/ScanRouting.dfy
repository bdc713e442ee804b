/**
 Routing one page window through a directory of tablets. For every directory whose tablets
 are disjoint and hold all the data, gaps included, the answer is an honest page exactly when
 the tablet's own page tells the truth about being exhausted.
 */
module ScanRouting {
  import opened Options
  import opened Keys
  import opened ScanClient
  import opened ScanServer

  datatype Range = Range(start: Key, end: Option<Key>)

  predicate Contains(r: Range, k: Key) {
    !Less(k, r.start) && (r.end.None? || Less(k, r.end.value))
  }

  /** Writable tablets: nonempty ranges that do not overlap. */
  ghost predicate Tiling(dir: seq<Range>) {
    && (forall i | 0 <= i < |dir| :: Contains(dir[i], dir[i].start))
    && (forall i, j, k | 0 <= i < j < |dir| && Contains(dir[i], k) :: !Contains(dir[j], k))
  }

  ghost predicate Covers(dir: seq<Range>, stored: seq<Key>) {
    forall k | k in stored :: exists i | 0 <= i < |dir| :: Contains(dir[i], k)
  }

  // ----- Visible keys and positions -----

  lemma {:induction false} VisibleMember(visible: Key -> bool, s: seq<Key>, k: Key)
    ensures k in Visible(visible, s) <==> k in s && visible(k)
    decreases |s|
  {
    if s != [] {
      VisibleMember(visible, s[1..], k);
      assert s == [s[0]] + s[1..];
    }
  }

  lemma {:induction false} VisibleSorted(visible: Key -> bool, s: seq<Key>)
    requires Sorted(s)
    ensures Sorted(Visible(visible, s))
    decreases |s|
  {
    hide Less;
    if s != [] {
      VisibleSorted(visible, s[1..]);
      var v, rest := Visible(visible, s), Visible(visible, s[1..]);
      forall i, j | 0 <= i < j < |v|
        ensures Less(v[i], v[j])
      {
        if visible(s[0]) {
          assert v == [s[0]] + rest;
          VisibleMember(visible, s[1..], v[j]);
          assert v[j] in rest;
          assert v[j] in s[1..];
        }
      }
    }
  }

  /** The visible keys below a bound are the visible ones among the stored keys below it. */
  lemma {:induction false} VisibleBelow(visible: Key -> bool, s: seq<Key>, b: Key)
    requires Sorted(s)
    ensures Visible(visible, s[..Rank(s, b)]) == Visible(visible, s)[..Rank(Visible(visible, s), b)]
    decreases |s|
  {
    hide Less, Rank, Visible, Sorted;
    if s == [] {
      assert s[..Rank(s, b)] == s;
      assert |Visible(visible, s)| == 0;
    } else if Less(s[0], b) {
      var n, rest := Rank(s[1..], b), Visible(visible, s[1..]);
      TailSorted(s);
      VisibleBelow(visible, s[1..], b);
      RankStep(s, b);
      VisibleStep(visible, s);
      assert s[..1 + n] == [s[0]] + s[1..][..n];
      VisibleStep(visible, s[..1 + n]);
      assert s[..1 + n][1..] == s[1..][..n];
      if visible(s[0]) {
        RankStep([s[0]] + rest, b);
        assert ([s[0]] + rest)[1..] == rest;
        assert ([s[0]] + rest)[..1 + Rank(rest, b)] == [s[0]] + rest[..Rank(rest, b)];
      }
    } else {
      NoneBelow(visible, s, b);
      assert s[..0] == [] && |Visible(visible, [])| == 0;
    }
  }

  lemma TailSorted(s: seq<Key>)
    requires Sorted(s) && s != []
    ensures Sorted(s[1..])
  {
  }

  lemma RankStep(s: seq<Key>, b: Key)
    requires s != [] && Less(s[0], b)
    ensures Rank(s, b) == 1 + Rank(s[1..], b)
  {
  }

  lemma VisibleStep(visible: Key -> bool, s: seq<Key>)
    requires s != []
    ensures Visible(visible, s) ==
      if visible(s[0]) then [s[0]] + Visible(visible, s[1..]) else Visible(visible, s[1..])
  {
  }

  lemma NoneBelow(visible: Key -> bool, s: seq<Key>, b: Key)
    requires Sorted(s) && s != [] && !Less(s[0], b)
    ensures Rank(s, b) == 0 && Rank(Visible(visible, s), b) == 0
  {
    hide Less, Visible;
    var v := Visible(visible, s);
    if v != [] {
      VisibleMember(visible, s, v[0]);
      var i :| 0 <= i < |s| && s[i] == v[0];
      RankSplits(s, b, i);
    }
  }

  /** A window of stored keys shows the same window of the visible ones. */
  lemma VisibleWindow(visible: Key -> bool, s: seq<Key>, x: nat, y: nat, lo: Option<Key>, hi: Option<Key>)
    requires Sorted(s) && x == LowerRank(s, lo) && y == UpperRank(s, hi) && x <= y
    ensures var v := Visible(visible, s);
      LowerRank(v, lo) <= UpperRank(v, hi) && Visible(visible, s[x..y]) == v[LowerRank(v, lo)..UpperRank(v, hi)]
  {
    hide Rank, Less, Sorted;
    var v := Visible(visible, s);
    Below(visible, s, lo, hi);
    assert s[..y] == s[..x] + s[x..y];
    VisibleAppend(visible, s[..x], s[x..y]);
    assert v[..LowerRank(v, lo)] + Visible(visible, s[x..y]) == v[..UpperRank(v, hi)];
    assert |v[..LowerRank(v, lo)]| <= |v[..UpperRank(v, hi)]|;
  }

  lemma Below(visible: Key -> bool, s: seq<Key>, lo: Option<Key>, hi: Option<Key>)
    requires Sorted(s)
    ensures var v := Visible(visible, s);
      && Visible(visible, s[..LowerRank(s, lo)]) == v[..LowerRank(v, lo)]
      && Visible(visible, s[..UpperRank(s, hi)]) == v[..UpperRank(v, hi)]
  {
    hide Rank, Less, Sorted;
    assert s[..0] == [] && s[..|s|] == s;
    if lo.Some? {
      VisibleBelow(visible, s, lo.value);
    }
    if hi.Some? {
      VisibleBelow(visible, s, hi.value);
    }
  }

  lemma {:induction false} VisibleReversed(visible: Key -> bool, s: seq<Key>)
    ensures Visible(visible, Reversed(s)) == Reversed(Visible(visible, s))
    decreases |s|
  {
    hide Reversed;
    var none: seq<Key> := [];
    ReversedSmall();
    if s != [] {
      var head := [s[0]];
      assert s == head + s[1..] && head[1..] == none;
      ReversedAppend(head, s[1..]);
      ReversedOne(s[0]);
      VisibleReversed(visible, s[1..]);
      VisibleAppend(visible, Reversed(s[1..]), head);
      var rest := Visible(visible, s[1..]);
      if visible(s[0]) {
        ReversedAppend(head, rest);
      } else {
        assert none + rest == rest && Reversed(rest) + none == Reversed(rest);
      }
    }
  }

  lemma ReversedSmall()
    ensures Reversed([]) == []
  {
  }

  lemma ReversedOne(k: Key)
    ensures Reversed([k]) == [k]
  {
  }

  // ----- Honest pages from one tablet -----

  /** What a tablet's page says, when its claim to be exhausted is true. */
  predicate TruthfulPage(visible: Key -> bool, window: seq<Key>, entries: seq<Key>, exhausted: bool) {
    && entries <= Visible(visible, window) && (exhausted ==> entries == Visible(visible, window))
    && (!exhausted ==> entries != [] && exists i | 0 <= i < |window| - 1 :: window[i] == entries[|entries| - 1])
  }

  function PageOf(entries: seq<Key>, exhausted: bool, r: Range): Page {
    Page(entries, exhausted, if entries == [] then None else Some(entries[|entries| - 1]), r.start, r.end)
  }

  function LowerOf(lo: Option<Key>, r: Range): Key {
    if lo.Some? && !Less(lo.value, r.start) then lo.value else r.start
  }

  function UpperOf(hi: Option<Key>, r: Range): Option<Key> {
    if hi.None? then r.end else if r.end.None? || Less(hi.value, r.end.value) then hi else r.end
  }

  lemma UpperOfRank(keys: seq<Key>, hi: Option<Key>, r: Range)
    requires Sorted(keys)
    ensures UpperRank(keys, UpperOf(hi, r)) == Min(UpperRank(keys, hi), UpperRank(keys, r.end))
  {
    hide Rank, Less, Sorted;
    if hi.Some? && r.end.Some? {
      if Less(hi.value, r.end.value) {
        NotBoth(hi.value, r.end.value);
        RankMonotone(keys, hi.value, r.end.value);
      } else {
        RankMonotone(keys, r.end.value, hi.value);
      }
    }
  }

  lemma LowerOfRank(keys: seq<Key>, lo: Option<Key>, r: Range)
    requires Sorted(keys)
    ensures Rank(keys, LowerOf(lo, r)) == Max(LowerRank(keys, lo), Rank(keys, r.start))
  {
    hide Rank, Less, Sorted;
    if lo.Some? {
      if Less(lo.value, r.start) {
        NotBoth(lo.value, r.start);
        RankMonotone(keys, lo.value, r.start);
      } else {
        RankMonotone(keys, r.start, lo.value);
      }
    }
  }

  /** A key of the window past the last entry leaves room for the next page. */
  lemma RoomForward(stored: seq<Key>, x: nat, y: nat, i: nat, hi: Option<Key>)
    requires Sorted(stored) && x <= i && i + 1 < y <= UpperRank(stored, hi)
    ensures hi.Some? ==> Less(Successor(stored[i]), hi.value)
  {
    hide Rank, Less, Successor;
    if hi.Some? {
      var k, n := stored[i], stored[i + 1];
      RankSplits(stored, hi.value, i + 1);
      assert Less(k, n);
      SuccessorIsLeast(k, n);
      NotBoth(k, n);
      LessIrreflexive(k);
      LessTotal(n, Successor(k));
      if Less(Successor(k), n) {
        LessTransitive(Successor(k), n, hi.value);
      }
    }
  }

  lemma RoomReverse(stored: seq<Key>, x: nat, y: nat, i: nat, lo: Option<Key>)
    requires Sorted(stored) && LowerRank(stored, lo) <= x < i < y <= |stored|
    ensures Less(From(lo), stored[i])
  {
    hide Rank, Less;
    LowerRankIsFrom(stored, lo);
    RankSplits(stored, From(lo), i - 1);
    LessTotal(From(lo), stored[i - 1]);
    assert Less(stored[i - 1], stored[i]);
    if Less(From(lo), stored[i - 1]) {
      LessTransitive(From(lo), stored[i - 1], stored[i]);
    }
  }

  /** The slice of one tablet that a window asks for, in scan order. */
  function Slice(r: Range, stored: seq<Key>, direction: Direction, lo: Option<Key>, hi: Option<Key>): seq<Key> {
    var x, y := Rank(stored, LowerOf(lo, r)), UpperRank(stored, UpperOf(hi, r));
    if x > y then [] else if direction.Forward? then stored[x..y] else Reversed(stored[x..y])
  }

  /** How many visible keys a tablet's slice holds, counted by position. */
  lemma SliceCounts(stored: seq<Key>, visible: Key -> bool, r: Range, direction: Direction, lo: Option<Key>, hi: Option<Key>)
    requires Sorted(stored) && !EmptyWindow(Some(LowerOf(lo, r)), UpperOf(hi, r))
    ensures var keys := Visible(visible, stored);
      |Visible(visible, Slice(r, stored, direction, lo, hi))| ==
      Min(UpperRank(keys, hi), UpperRank(keys, r.end)) - Max(LowerRank(keys, lo), Rank(keys, r.start))
  {
    hide Rank, Less, Sorted, Visible, Reversed;
    var keys := Visible(visible, stored);
    VisibleSorted(visible, stored);
    var lower, upper := LowerOf(lo, r), UpperOf(hi, r);
    WindowOrder(stored, Some(lower), upper);
    VisibleWindow(visible, stored, Rank(stored, lower), UpperRank(stored, upper), Some(lower), upper);
    VisibleReversed(visible, stored[Rank(stored, lower)..UpperRank(stored, upper)]);
    UpperOfRank(keys, hi, r);
    LowerOfRank(keys, lo, r);
  }

  lemma ForwardPageIsHonest(stored: seq<Key>, visible: Key -> bool, r: Range, lo: Option<Key>, hi: Option<Key>,
                            entries: seq<Key>, exhausted: bool, x: nat, y: nat)
    requires Sorted(stored) && Contains(r, From(lo)) && !EmptyWindow(lo, hi)
    requires x == Rank(stored, LowerOf(lo, r)) && y == UpperRank(stored, UpperOf(hi, r)) && x <= y
    requires TruthfulPage(visible, stored[x..y], entries, exhausted)
    ensures HonestForward(Visible(visible, stored), lo, hi, PageOf(entries, exhausted, r))
  {
    hide Rank, Less, Sorted, Visible, Successor;
    var keys := Visible(visible, stored);
    VisibleSorted(visible, stored);
    UpperOfRank(keys, hi, r);
    UpperOfRank(stored, hi, r);
    StartsAt(keys, lo, r);
    StartsAt(stored, lo, r);
    VisibleWindow(visible, stored, x, y, lo, UpperOf(hi, r));
    if !exhausted {
      var i :| 0 <= i < y - x - 1 && stored[x..y][i] == entries[|entries| - 1];
      RoomForward(stored, x, y, x + i, hi);
    }
  }

  /** A tablet that holds the window's start starts no later than it. */
  lemma StartsAt(keys: seq<Key>, lo: Option<Key>, r: Range)
    requires Sorted(keys) && Contains(r, From(lo))
    ensures Rank(keys, LowerOf(lo, r)) == LowerRank(keys, lo)
  {
    hide Rank;
    RankOfEmpty(keys);
    LowerOfRank(keys, lo, r);
    LowerRankIsFrom(keys, lo);
    RankMonotone(keys, r.start, From(lo));
  }

  /** No data between the tablet's end and the window's end. */
  predicate NothingAbove(keys: seq<Key>, r: Range, hi: Option<Key>) {
    UpperRank(keys, hi) <= UpperRank(keys, r.end)
  }

  lemma ReversePageIsHonest(stored: seq<Key>, visible: Key -> bool, r: Range, lo: Option<Key>, hi: Option<Key>,
                            entries: seq<Key>, exhausted: bool, x: nat, y: nat)
    requires Sorted(stored) && (hi.Some? ==> Less(r.start, hi.value)) && NothingAbove(stored, r, hi)
    requires x == Rank(stored, LowerOf(lo, r)) && y == UpperRank(stored, UpperOf(hi, r)) && x <= y
    requires TruthfulPage(visible, Reversed(stored[x..y]), entries, exhausted)
    ensures HonestReverse(Visible(visible, stored), lo, hi, PageOf(entries, exhausted, r))
  {
    hide Rank, Less, Sorted, Visible, Reversed;
    var keys := Visible(visible, stored);
    VisibleSorted(visible, stored);
    UpperOfRank(stored, hi, r);
    LowerOfRank(keys, lo, r);
    LowerOfRank(stored, lo, r);
    var a, b := Rank(keys, LowerOf(lo, r)), UpperRank(keys, hi);
    VisibleWindow(visible, stored, x, y, Some(LowerOf(lo, r)), hi);
    VisibleReversed(visible, stored[x..y]);
    ReversedPrefix(keys, a, b, entries);
    if !exhausted {
      var i :| 0 <= i < y - x - 1 && Reversed(stored[x..y])[i] == entries[|entries| - 1];
      ReversedIndex(stored, x, y, i);
      RoomReverse(stored, x, y, y - 1 - i, lo);
    }
  }

  lemma ReversedIndex(s: seq<Key>, x: nat, y: nat, i: nat)
    requires x <= y <= |s| && i < y - x
    ensures Reversed(s[x..y])[i] == s[y - 1 - i]
  {
  }

  lemma ReversedPrefix(keys: seq<Key>, a: nat, b: nat, entries: seq<Key>)
    requires a <= b <= |keys| && entries <= Reversed(keys[a..b])
    ensures entries == Reversed(keys[b - |entries|..b])
  {
    forall i | 0 <= i < |entries|
      ensures entries[i] == Reversed(keys[b - |entries|..b])[i]
    {
      ReversedIndex(keys, a, b, i);
      ReversedIndex(keys, b - |entries|, b, i);
    }
  }

  /** A window that ends at or below the tablet's reach: an empty page that ends this tablet. */
  lemma EmptyReverseIsHonest(stored: seq<Key>, visible: Key -> bool, r: Range, lo: Option<Key>, hi: Option<Key>)
    requires Sorted(stored) && !EmptyWindow(lo, hi) && (hi.Some? ==> Less(r.start, hi.value)) && NothingAbove(stored, r, hi)
    requires EmptyWindow(Some(LowerOf(lo, r)), UpperOf(hi, r)) && Contains(r, r.start)
    ensures HonestReverse(Visible(visible, stored), lo, hi, PageOf([], true, r))
  {
    hide Rank, Less, Sorted, Visible, Reversed;
    var keys := Visible(visible, stored);
    VisibleSorted(visible, stored);
    UpperOfRank(stored, hi, r);
    UpperOfRank(keys, hi, r);
    LowerOfRank(keys, lo, r);
    LowerOfRank(stored, lo, r);
    RankMonotone(stored, UpperOf(hi, r).value, LowerOf(lo, r));
    RankMonotone(keys, UpperOf(hi, r).value, LowerOf(lo, r));
    AboveIsVisible(stored, visible, r, hi);
    WindowOrder(keys, lo, hi);
    WindowOrder(keys, Some(r.start), hi);
    ReversedSmall();
    assert keys[UpperRank(keys, hi)..UpperRank(keys, hi)] == [];
  }

  lemma AboveIsVisible(stored: seq<Key>, visible: Key -> bool, r: Range, hi: Option<Key>)
    requires Sorted(stored) && NothingAbove(stored, r, hi)
    ensures NothingAbove(Visible(visible, stored), r, hi)
  {
    hide Rank, Less, Sorted, Visible;
    var keys := Visible(visible, stored);
    Below(visible, stored, None, hi);
    Below(visible, stored, None, r.end);
    var x, y := UpperRank(stored, hi), UpperRank(stored, r.end);
    assert stored[..y] == stored[..x] + stored[x..y];
    VisibleAppend(visible, stored[..x], stored[x..y]);
    assert |keys[..UpperRank(keys, hi)]| <= |keys[..UpperRank(keys, r.end)]|;
  }

  lemma WindowOrder(keys: seq<Key>, lo: Option<Key>, hi: Option<Key>)
    requires Sorted(keys) && !EmptyWindow(lo, hi)
    ensures LowerRank(keys, lo) <= UpperRank(keys, hi)
  {
    hide Rank, Less, Sorted;
    if lo.Some? && hi.Some? {
      NotBoth(lo.value, hi.value);
      RankMonotone(keys, lo.value, hi.value);
    }
  }

  // ----- The directory -----

  method Lookup(dir: seq<Range>, k: Key) returns (at: Option<nat>)
    ensures at.Some? ==> at.value < |dir| && Contains(dir[at.value], k)
    ensures at.None? ==> forall i | 0 <= i < |dir| :: !Contains(dir[i], k)
  {
    var i := 0;
    while i < |dir|
      invariant 0 <= i <= |dir| && forall j | 0 <= j < i :: !Contains(dir[j], k)
    {
      if Contains(dir[i], k) {
        return Some(i);
      }
      i := i + 1;
    }
    at := None;
  }

  predicate StartsBelow(r: Range, hi: Option<Key>) {
    hi.Some? ==> Less(r.start, hi.value)
  }

  /** The greatest start below a bound, or of all. */
  predicate IsPrevious(dir: seq<Range>, hi: Option<Key>, at: Option<nat>) {
    if at.Some? then
      && at.value < |dir| && StartsBelow(dir[at.value], hi)
      && (forall i | 0 <= i < |dir| && StartsBelow(dir[i], hi) :: !Less(dir[at.value].start, dir[i].start))
    else forall i | 0 <= i < |dir| :: !StartsBelow(dir[i], hi)
  }

  /** `previous_tablet` and `last_tablet` */
  method Previous(dir: seq<Range>, hi: Option<Key>) returns (at: Option<nat>)
    ensures IsPrevious(dir, hi, at) && (at.Some? ==> at.value < |dir|)
  {
    hide Less;
    at := None;
    var i := 0;
    while i < |dir|
      invariant 0 <= i <= |dir| && IsPrevious(dir[..i], hi, at)
    {
      assert forall j | 0 <= j < i :: dir[..i + 1][j] == dir[..i][j];
      if StartsBelow(dir[i], hi) && (at.None? || Less(dir[at.value].start, dir[i].start)) {
        LessIrreflexive(dir[i].start);
        if at.Some? {
          forall j | 0 <= j < i && StartsBelow(dir[j], hi)
            ensures !Less(dir[i].start, dir[j].start)
          {
            assert !Less(dir[..i][at.value].start, dir[..i][j].start);
            if Less(dir[i].start, dir[j].start) {
              LessTransitive(dir[at.value].start, dir[i].start, dir[j].start);
            }
          }
        }
        at := Some(i);
      }
      i := i + 1;
    }
    assert dir[..i] == dir;
  }

  predicate IsNext(dir: seq<Range>, cursor: Key, next: Option<Key>) {
    && (next.Some? ==> Less(cursor, next.value) && exists i | 0 <= i < |dir| :: dir[i].start == next.value)
    && (forall i | 0 <= i < |dir| && Less(cursor, dir[i].start) :: next.Some? && !Less(dir[i].start, next.value))
  }

  /** The greatest end at or below the cursor, or the first key of all. */
  predicate IsBefore(dir: seq<Range>, cursor: Key, before: Key) {
    && (before == [] || (!Less(cursor, before) && exists i | 0 <= i < |dir| :: dir[i].end == Some(before)))
    && (forall i | 0 <= i < |dir| && dir[i].end.Some? && !Less(cursor, dir[i].end.value) :: !Less(before, dir[i].end.value))
  }

  lemma BeforeIsBelow(dir: seq<Range>, cursor: Key, before: Key)
    requires IsBefore(dir, cursor, before)
    ensures !Less(cursor, before)
  {
    EmptyIsLeast(cursor);
  }

  /** `scan_gap`: the nearest end at or below the cursor, and the nearest start above it. */
  method GapBounds(dir: seq<Range>, cursor: Key) returns (before: Key, next: Option<Key>)
    ensures IsNext(dir, cursor, next) && IsBefore(dir, cursor, before)
  {
    hide Less, IsNext, IsBefore;
    NoBounds(cursor);
    before, next := [], None;
    var i := 0;
    assert dir[..0] == [];
    while i < |dir|
      invariant 0 <= i <= |dir| && IsNext(dir[..i], cursor, next) && IsBefore(dir[..i], cursor, before)
    {
      var r := dir[i];
      assert dir[..i + 1] == dir[..i] + [r];
      NextJoins(dir[..i], r, cursor, next);
      BeforeJoins(dir[..i], r, cursor, before);
      if Less(cursor, r.start) && (next.None? || Less(r.start, next.value)) {
        next := Some(r.start);
      }
      if r.end.Some? && !Less(cursor, r.end.value) && Less(before, r.end.value) {
        before := r.end.value;
      }
      i := i + 1;
    }
    assert dir[..i] == dir;
  }

  lemma NoBounds(cursor: Key)
    ensures IsNext([], cursor, None) && IsBefore([], cursor, [])
  {
  }

  lemma NextJoins(dir: seq<Range>, r: Range, cursor: Key, next: Option<Key>)
    requires IsNext(dir, cursor, next)
    ensures IsNext(dir + [r], cursor,
                   if Less(cursor, r.start) && (next.None? || Less(r.start, next.value)) then Some(r.start) else next)
  {
    hide Less;
    var all := dir + [r];
    assert all[|dir|] == r && forall j | 0 <= j < |dir| :: all[j] == dir[j];
    LessIrreflexive(r.start);
    if Less(cursor, r.start) && next.Some? && Less(r.start, next.value) {
      forall j | 0 <= j < |dir| && Less(cursor, dir[j].start)
        ensures !Less(dir[j].start, r.start)
      {
        if Less(dir[j].start, r.start) {
          LessTransitive(dir[j].start, r.start, next.value);
        }
      }
    }
  }

  lemma BeforeJoins(dir: seq<Range>, r: Range, cursor: Key, before: Key)
    requires IsBefore(dir, cursor, before)
    ensures IsBefore(dir + [r], cursor,
                     if r.end.Some? && !Less(cursor, r.end.value) && Less(before, r.end.value) then r.end.value else before)
  {
    hide Less;
    var all := dir + [r];
    assert all[|dir|] == r && forall j | 0 <= j < |dir| :: all[j] == dir[j];
    if r.end.Some? && !Less(cursor, r.end.value) && Less(before, r.end.value) {
      LessIrreflexive(r.end.value);
      forall j | 0 <= j < |dir| && dir[j].end.Some? && !Less(cursor, dir[j].end.value)
        ensures !Less(r.end.value, dir[j].end.value)
      {
        if Less(r.end.value, dir[j].end.value) {
          LessTransitive(before, r.end.value, dir[j].end.value);
        }
      }
    }
  }

  lemma EmptyIsLeast(k: Key)
    ensures !Less(k, [])
  {
  }

  /** A forward gap holds no data up to the next tablet. */
  lemma GapHoldsNothing(dir: seq<Range>, stored: seq<Key>, cursor: Key, next: Key)
    requires Sorted(stored) && Covers(dir, stored) && (forall i | 0 <= i < |dir| :: !Contains(dir[i], cursor))
    requires IsNext(dir, cursor, Some(next))
    ensures Rank(stored, next) == Rank(stored, cursor)
  {
    hide Rank, Less;
    NotBoth(cursor, next);
    RankMonotone(stored, cursor, next);
    var n := Rank(stored, cursor);
    if n < Rank(stored, next) {
      var k := stored[n];
      RankSplits(stored, next, n);
      RankSplits(stored, cursor, n);
      assert k in stored;
      var i :| 0 <= i < |dir| && Contains(dir[i], k);
      HoldsCursor(dir[i], cursor, k, next);
    }
  }

  /** A tablet that holds a key between the cursor and the next start holds the cursor. */
  lemma HoldsCursor(r: Range, cursor: Key, k: Key, next: Key)
    requires Contains(r, k) && !Less(k, cursor) && Less(k, next) && (Less(cursor, r.start) ==> !Less(r.start, next))
    ensures Contains(r, cursor)
  {
    hide Less;
    LessTotal(cursor, k);
    LessTotal(r.start, k);
    if Less(r.start, k) {
      LessTransitive(r.start, k, next);
    }
    LessIrreflexive(cursor);
    if r.end.Some? && Less(cursor, k) {
      LessTransitive(cursor, k, r.end.value);
    }
  }

  /** Between the previous tablet's end and the bound there is no data. */
  lemma PreviousReaches(dir: seq<Range>, stored: seq<Key>, hi: Option<Key>, at: nat)
    requires Sorted(stored) && Covers(dir, stored) && Tiling(dir) && at < |dir| && IsPrevious(dir, hi, Some(at))
    ensures NothingAbove(stored, dir[at], hi)
  {
    hide Rank, Less;
    var r := dir[at];
    var n := UpperRank(stored, r.end);
    if n < UpperRank(stored, hi) {
      var k := stored[n];
      if r.end.Some? {
        RankSplits(stored, r.end.value, n);
      }
      if hi.Some? {
        RankSplits(stored, hi.value, n);
      }
      assert k in stored;
      var i :| 0 <= i < |dir| && Contains(dir[i], k);
      Swallows(dir[i], r, k, hi);
    }
  }

  /** A tablet that reaches a key past another's end, and starts no later, holds the other's start. */
  lemma Swallows(t: Range, r: Range, k: Key, hi: Option<Key>)
    requires Contains(t, k) && Contains(r, r.start) && (hi.Some? ==> Less(k, hi.value))
    requires r.end.Some? && !Less(k, r.end.value) && (StartsBelow(t, hi) ==> !Less(r.start, t.start))
    ensures Contains(t, r.start) && !Contains(r, k)
  {
    hide Less;
    LessTotal(t.start, k);
    if hi.Some? && Less(t.start, k) {
      LessTransitive(t.start, k, hi.value);
    }
    assert StartsBelow(t, hi);
    LessTotal(k, r.end.value);
    if t.end.Some? {
      if Less(r.end.value, k) {
        LessTransitive(r.end.value, k, t.end.value);
      }
      LessTransitive(r.start, r.end.value, t.end.value);
    }
  }

  // ----- One request -----

  /** One tablet's page for a window. */
  function TabletPage(r: Range, stored: seq<Key>, visible: Key -> bool, weigh: Key -> Weight, budget: Budget,
                      direction: Direction, lo: Option<Key>, hi: Option<Key>): Page {
    var f := PageFor(visible, weigh, budget, Slice(r, stored, direction, lo, hi));
    PageOf(f.entries, f.exhausted, r)
  }

  /** The tablet starts where it may serve the window, and no data is skipped between the two. */
  predicate Serves(r: Range, stored: seq<Key>, direction: Direction, lo: Option<Key>, hi: Option<Key>) {
    && Contains(r, r.start) && !EmptyWindow(lo, hi)
    && if direction.Forward? then Contains(r, From(lo)) else StartsBelow(r, hi) && NothingAbove(stored, r, hi)
  }

  /** Both clamps meet: the tablet holds nothing of the window, and says so. */
  lemma EmptySlice(r: Range, stored: seq<Key>, visible: Key -> bool, weigh: Key -> Weight, budget: Budget,
                   direction: Direction, lo: Option<Key>, hi: Option<Key>)
    requires Sorted(stored) && EmptyWindow(Some(LowerOf(lo, r)), UpperOf(hi, r))
    ensures Slice(r, stored, direction, lo, hi) == []
    ensures TabletPage(r, stored, visible, weigh, budget, direction, lo, hi) == PageOf([], true, r)
  {
    hide Rank, Less;
    RankMonotone(stored, UpperOf(hi, r).value, LowerOf(lo, r));
    assert Candidates([], budget.maxItems) == [];
  }

  /** A tablet's page is honest exactly when its claim to be exhausted is true. */
  lemma TabletHonestIff(r: Range, stored: seq<Key>, visible: Key -> bool, weigh: Key -> Weight, budget: Budget,
                        direction: Direction, lo: Option<Key>, hi: Option<Key>)
    requires Sorted(stored) && Serves(r, stored, direction, lo, hi) && budget.maxItems > 0
    ensures var p := TabletPage(r, stored, visible, weigh, budget, direction, lo, hi);
      Honest(Visible(visible, stored), direction, lo, hi, Served(p)) <==>
      Truthful(visible, Slice(r, stored, direction, lo, hi), budget.maxItems, p.exhausted)
  {
    hide Rank, Less, Sorted, Visible, HonestForward, HonestReverse, Reversed, Candidates, Truthful, PageFor, Slice, Clogged;
    var window := Slice(r, stored, direction, lo, hi);
    var f := PageFor(visible, weigh, budget, window);
    TruthfulIff(visible, weigh, budget, window);
    if EmptyWindow(Some(LowerOf(lo, r)), UpperOf(hi, r)) {
      EmptySlice(r, stored, visible, weigh, budget, direction, lo, hi);
      NothingYet(visible, weigh, budget.maxBytes);
      if direction.Forward? {
        EmptyForwardIsHonest(stored, visible, r, lo, hi);
      } else {
        EmptyReverseIsHonest(stored, visible, r, lo, hi);
      }
    } else if Truthful(visible, window, budget.maxItems, f.exhausted) {
      TruthIsHonest(r, stored, visible, weigh, budget, direction, lo, hi);
    } else {
      LieIsNotHonest(r, stored, visible, weigh, budget, direction, lo, hi);
    }
  }

  lemma TruthIsHonest(r: Range, stored: seq<Key>, visible: Key -> bool, weigh: Key -> Weight, budget: Budget,
                      direction: Direction, lo: Option<Key>, hi: Option<Key>)
    requires Sorted(stored) && Serves(r, stored, direction, lo, hi) && budget.maxItems > 0
    requires !EmptyWindow(Some(LowerOf(lo, r)), UpperOf(hi, r))
    requires var window := Slice(r, stored, direction, lo, hi);
      Truthful(visible, window, budget.maxItems, PageFor(visible, weigh, budget, window).exhausted)
    ensures Honest(Visible(visible, stored), direction, lo, hi,
                   Served(TabletPage(r, stored, visible, weigh, budget, direction, lo, hi)))
  {
    hide Rank, Less, Sorted, Visible, HonestForward, HonestReverse, Reversed, PageFor, Truthful, Clogged, TruthfulPage;
    var window := Slice(r, stored, direction, lo, hi);
    var f := PageFor(visible, weigh, budget, window);
    PageIsTruthful(visible, weigh, budget, window);
    WindowOrder(stored, Some(LowerOf(lo, r)), UpperOf(hi, r));
    var x, y := Rank(stored, LowerOf(lo, r)), UpperRank(stored, UpperOf(hi, r));
    if direction.Forward? {
      ForwardPageIsHonest(stored, visible, r, lo, hi, f.entries, f.exhausted, x, y);
    } else {
      ReversePageIsHonest(stored, visible, r, lo, hi, f.entries, f.exhausted, x, y);
    }
  }

  lemma PageIsTruthful(visible: Key -> bool, weigh: Key -> Weight, budget: Budget, window: seq<Key>)
    requires budget.maxItems > 0
    requires Truthful(visible, window, budget.maxItems, PageFor(visible, weigh, budget, window).exhausted)
    ensures var f := PageFor(visible, weigh, budget, window); TruthfulPage(visible, window, f.entries, f.exhausted)
  {
    hide Visible, Fill, AllVisible, Overruns;
    var f := PageFor(visible, weigh, budget, window);
    TruthfulIff(visible, weigh, budget, window);
    PageTells(visible, weigh, budget, window);
    var c := Candidates(window, budget.maxItems);
    VisibleSplit(visible, window, |c|);
    assert window[..|c|] == c;
    if !f.exhausted {
      var i :| 0 <= i < |c| - 1 && c[i] == f.entries[|f.entries| - 1];
      assert window[i] == f.entries[|f.entries| - 1];
    }
  }

  lemma LieIsNotHonest(r: Range, stored: seq<Key>, visible: Key -> bool, weigh: Key -> Weight, budget: Budget,
                       direction: Direction, lo: Option<Key>, hi: Option<Key>)
    requires Sorted(stored) && Serves(r, stored, direction, lo, hi) && budget.maxItems > 0
    requires !EmptyWindow(Some(LowerOf(lo, r)), UpperOf(hi, r))
    requires var window := Slice(r, stored, direction, lo, hi);
      !Truthful(visible, window, budget.maxItems, PageFor(visible, weigh, budget, window).exhausted)
    ensures !Honest(Visible(visible, stored), direction, lo, hi,
                    Served(TabletPage(r, stored, visible, weigh, budget, direction, lo, hi)))
  {
    hide Rank, Less, Sorted, Visible, Reversed, PageFor, Slice, Candidates, Clogged, AllVisible, CutShort, Overruns;
    var keys, window := Visible(visible, stored), Slice(r, stored, direction, lo, hi);
    var f := PageFor(visible, weigh, budget, window);
    ShorterThanShown(visible, weigh, budget, window);
    SliceCounts(stored, visible, r, direction, lo, hi);
    VisibleSorted(visible, stored);
    if direction.Forward? {
      StartsAt(keys, lo, r);
      LowerOfRank(keys, lo, r);
    } else {
      AboveIsVisible(stored, visible, r, hi);
    }
  }

  lemma ShorterThanShown(visible: Key -> bool, weigh: Key -> Weight, budget: Budget, window: seq<Key>)
    requires budget.maxItems > 0
    requires !Truthful(visible, window, budget.maxItems, PageFor(visible, weigh, budget, window).exhausted)
    ensures PageFor(visible, weigh, budget, window).exhausted
    ensures |PageFor(visible, weigh, budget, window).entries| < |Visible(visible, window)|
  {
    hide Visible, Fill, AllVisible, Overruns, CutShort;
    PageTells(visible, weigh, budget, window);
    var c := Candidates(window, budget.maxItems);
    VisibleSplit(visible, window, |c|);
    assert window[..|c|] == c;
  }

  /** Reads one tablet's clamped slice. */
  method ScanTablet(r: Range, stored: seq<Key>, visible: Key -> bool, weigh: Key -> Weight, budget: Budget,
                    direction: Direction, lo: Option<Key>, hi: Option<Key>)
    returns (page: Page)
    requires Sorted(stored) && budget.maxItems > 0
    ensures page == TabletPage(r, stored, visible, weigh, budget, direction, lo, hi)
    ensures Serves(r, stored, direction, lo, hi) ==>
      (Honest(Visible(visible, stored), direction, lo, hi, Served(page)) <==>
       Truthful(visible, Slice(r, stored, direction, lo, hi), budget.maxItems, page.exhausted))
  {
    hide Rank, Less, Sorted, Visible, Honest, Reversed, Candidates, Truthful, Tells, Serves;
    if Serves(r, stored, direction, lo, hi) {
      TabletHonestIff(r, stored, visible, weigh, budget, direction, lo, hi);
    }
    var lower, upper := LowerOf(lo, r), UpperOf(hi, r);
    if EmptyWindow(Some(lower), upper) {
      EmptySlice(r, stored, visible, weigh, budget, direction, lo, hi);
      return PageOf([], true, r);
    }
    WindowOrder(stored, Some(lower), upper);
    var slice := stored[Rank(stored, lower)..UpperRank(stored, upper)];
    var entries, exhausted := ScanRange(if direction.Forward? then slice else Reversed(slice), visible, weigh, budget);
    page := PageOf(entries, exhausted, r);
  }

  /** Only a window without a start can be empty here, and then it ends at the first key of all. */
  lemma EmptyForwardIsHonest(stored: seq<Key>, visible: Key -> bool, r: Range, lo: Option<Key>, hi: Option<Key>)
    requires Sorted(stored) && !EmptyWindow(lo, hi) && Contains(r, From(lo))
    requires EmptyWindow(Some(LowerOf(lo, r)), UpperOf(hi, r))
    ensures HonestForward(Visible(visible, stored), lo, hi, PageOf([], true, r))
  {
    hide Rank, Less, Sorted, Visible;
    var keys := Visible(visible, stored);
    VisibleSorted(visible, stored);
    UpperOfRank(keys, hi, r);
    StartsAt(keys, lo, r);
    RankMonotone(keys, UpperOf(hi, r).value, LowerOf(lo, r));
    assert keys[LowerRank(keys, lo)..LowerRank(keys, lo)] == [];
  }

  /** One request's view of the cluster: its writable tablets, the payloads and the page budget. */
  datatype Layout = Layout(dir: seq<Range>, weigh: Key -> Weight, budget: Budget)

  function CursorOf(direction: Direction, lo: Option<Key>, hi: Option<Key>): Key {
    if direction.Forward? then From(lo) else From(hi)
  }

  /** A tablet holds the cursor, and not just as its first key. */
  predicate HoldsInside(dir: seq<Range>, cursor: Option<Key>, i: nat) {
    i < |dir| && cursor.Some? && Contains(dir[i], cursor.value) && dir[i].start != cursor.value
  }

  /** `route_scan_cursor`: forward cursors are inclusive, reverse cursors step down on exact boundaries. */
  ghost predicate Routed(dir: seq<Range>, direction: Direction, lo: Option<Key>, hi: Option<Key>, at: Option<nat>) {
    if direction.Forward? then
      if at.Some? then at.value < |dir| && Contains(dir[at.value], From(lo))
      else forall i | 0 <= i < |dir| :: !Contains(dir[i], From(lo))
    else if exists i: nat :: HoldsInside(dir, hi, i) then at.Some? && HoldsInside(dir, hi, at.value)
    else IsPrevious(dir, hi, at)
  }

  /** `scan_gap` */
  ghost predicate GapFor(dir: seq<Range>, cursor: Key, p: Page) {
    IsGap(p) && IsNext(dir, cursor, p.rangeEnd) && IsBefore(dir, cursor, p.rangeStart)
  }

  /** What `handle_scan` may answer, given where the window's cursor is routed. */
  ghost predicate AnswersFrom(stored: seq<Key>, visible: Key -> bool, l: Layout, direction: Direction, lo: Option<Key>,
                              hi: Option<Key>, at: Option<nat>, a: Answer)
    requires Routed(l.dir, direction, lo, hi, at)
  {
    if at.Some? then
      a == Served(TabletPage(l.dir[at.value], stored, visible, l.weigh, l.budget, direction, lo, hi))
    else if direction.Reverse? && hi.None? then a.Failed?
    else a.Served? && GapFor(l.dir, CursorOf(direction, lo, hi), a.page)
  }

  predicate Refuses(l: Layout, lo: Option<Key>, hi: Option<Key>) {
    l.budget.maxItems == 0 || l.budget.maxBytes == 0 || EmptyWindow(lo, hi)
  }

  ghost predicate Answers(stored: seq<Key>, visible: Key -> bool, l: Layout, direction: Direction, lo: Option<Key>,
                          hi: Option<Key>, a: Answer) {
    if Refuses(l, lo, hi) then a.Failed?
    else exists at :: Routed(l.dir, direction, lo, hi, at) && AnswersFrom(stored, visible, l, direction, lo, hi, at, a)
  }

  lemma RoutedServes(dir: seq<Range>, stored: seq<Key>, direction: Direction, lo: Option<Key>, hi: Option<Key>, at: nat)
    requires Sorted(stored) && Tiling(dir) && Covers(dir, stored) && !EmptyWindow(lo, hi)
    requires Routed(dir, direction, lo, hi, Some(at))
    ensures at < |dir| && Serves(dir[at], stored, direction, lo, hi)
  {
    hide Rank, Less, Sorted, Covers, IsPrevious, NothingAbove;
    if direction.Reverse? {
      if HoldsInside(dir, hi, at) {
        HeldReaches(stored, dir[at], hi.value);
      } else {
        PreviousStarts(dir, hi, at);
        PreviousReaches(dir, stored, hi, at);
      }
    }
  }

  /**
   Whatever the directory, gaps included, an answer is honest exactly when its page tells the
   truth about being exhausted.
   */
  lemma AnswerHonestIff(stored: seq<Key>, visible: Key -> bool, l: Layout, direction: Direction, lo: Option<Key>,
                        hi: Option<Key>, at: Option<nat>, a: Answer)
    requires Sorted(stored) && Tiling(l.dir) && Covers(l.dir, stored) && !Refuses(l, lo, hi)
    requires Routed(l.dir, direction, lo, hi, at) && AnswersFrom(stored, visible, l, direction, lo, hi, at, a)
    ensures Honest(Visible(visible, stored), direction, lo, hi, a) <==>
      (at.Some? ==>
         Truthful(visible, Slice(l.dir[at.value], stored, direction, lo, hi), l.budget.maxItems, a.page.exhausted))
  {
    hide Rank, Less, Sorted, Visible, HonestForward, HonestReverse, Covers, Candidates, IsPrevious, Truthful, TabletPage,
         Slice, IsNext, IsBefore;
    if at.Some? {
      RoutedServes(l.dir, stored, direction, lo, hi, at.value);
      TabletHonestIff(l.dir[at.value], stored, visible, l.weigh, l.budget, direction, lo, hi);
    } else if direction.Reverse? && hi.None? {
      assert a.Failed?;
    } else {
      BeforeIsBelow(l.dir, CursorOf(direction, lo, hi), a.page.rangeStart);
      GapIsHonest(l.dir, stored, visible, direction, lo, hi, CursorOf(direction, lo, hi), a.page);
    }
  }

  /**
   `handle_scan` over ordered tablets: the routed tablet's page, a gap or a refusal. The
   answer is honest exactly when the page tells the truth about being exhausted.
   */
  method HandleScan(stored: seq<Key>, visible: Key -> bool, l: Layout, direction: Direction, lo: Option<Key>,
                    hi: Option<Key>)
    returns (answer: Answer, at: Option<nat>)
    requires Sorted(stored) && Tiling(l.dir) && Covers(l.dir, stored)
    ensures Answers(stored, visible, l, direction, lo, hi, answer)
    ensures answer.Failed? <==> Refuses(l, lo, hi) || (direction.Reverse? && hi.None? && l.dir == [])
    ensures !Refuses(l, lo, hi) ==>
      && Routed(l.dir, direction, lo, hi, at)
      && (Honest(Visible(visible, stored), direction, lo, hi, answer) <==>
          (at.Some? ==>
             Truthful(visible, Slice(l.dir[at.value], stored, direction, lo, hi), l.budget.maxItems, answer.page.exhausted)))
  {
    hide Rank, Less, Sorted, Visible, Honest, Covers, Candidates, IsPrevious, Truthful, TabletPage, Slice, Tiling, IsNext,
         IsBefore, Serves;
    if l.budget.maxItems == 0 || l.budget.maxBytes == 0 || EmptyWindow(lo, hi) {
      return Failed, None;
    }
    var cursor := CursorOf(direction, lo, hi);
    at := Route(l.dir, direction, lo, hi);
    if at.Some? {
      var page := ScanTablet(l.dir[at.value], stored, visible, l.weigh, l.budget, direction, lo, hi);
      answer := Served(page);
    } else if direction.Reverse? && hi.None? {
      NoTablets(l.dir);
      answer := Failed;
    } else {
      var before, next := GapBounds(l.dir, cursor);
      answer := Served(Page([], false, None, before, next));
    }
    AnswerHonestIff(stored, visible, l, direction, lo, hi, at, answer);
  }

  /** `route_scan_cursor`, with `last_tablet` for a reverse scan without an end. */
  method Route(dir: seq<Range>, direction: Direction, lo: Option<Key>, hi: Option<Key>) returns (at: Option<nat>)
    requires Tiling(dir)
    ensures Routed(dir, direction, lo, hi, at) && (at.Some? ==> at.value < |dir|)
  {
    hide Less, IsPrevious;
    if direction.Forward? {
      at := Lookup(dir, From(lo));
      return;
    }
    at := None;
    if hi.Some? {
      at := Lookup(dir, hi.value);
    }
    if at.Some? && dir[at.value].start != hi.value {
      assert HoldsInside(dir, hi, at.value);
      return;
    }
    assert forall i: nat :: !HoldsInside(dir, hi, i);
    at := Previous(dir, hi);
  }

  lemma NoTablets(dir: seq<Range>)
    requires IsPrevious(dir, None, None)
    ensures dir == []
  {
    assert dir != [] ==> StartsBelow(dir[0], None);
  }

  lemma PreviousStarts(dir: seq<Range>, hi: Option<Key>, at: nat)
    requires IsPrevious(dir, hi, Some(at))
    ensures at < |dir| && StartsBelow(dir[at], hi)
  {
  }

  lemma HeldReaches(stored: seq<Key>, r: Range, hi: Key)
    requires Sorted(stored) && Contains(r, hi) && r.start != hi
    ensures StartsBelow(r, Some(hi)) && NothingAbove(stored, r, Some(hi))
  {
    hide Rank, Less;
    LessTotal(r.start, hi);
    if r.end.Some? {
      NotBoth(hi, r.end.value);
      RankMonotone(stored, hi, r.end.value);
    }
  }

  lemma GapIsHonest(dir: seq<Range>, stored: seq<Key>, visible: Key -> bool, direction: Direction, lo: Option<Key>,
                    hi: Option<Key>, cursor: Key, p: Page)
    requires Sorted(stored) && Covers(dir, stored) && IsGap(p) && !EmptyWindow(lo, hi)
    requires IsNext(dir, cursor, p.rangeEnd) && !Less(cursor, p.rangeStart)
    requires direction.Forward? ==> cursor == From(lo) && forall i | 0 <= i < |dir| :: !Contains(dir[i], cursor)
    requires direction.Reverse? ==> hi == Some(cursor) && IsPrevious(dir, hi, None)
    ensures Honest(Visible(visible, stored), direction, lo, hi, Served(p))
  {
    hide Rank, Less, Visible, Covers;
    var keys := Visible(visible, stored);
    VisibleSorted(visible, stored);
    if direction.Forward? {
      if p.rangeEnd.Some? {
        GapHoldsNothing(dir, stored, cursor, p.rangeEnd.value);
        SameVisibleRank(stored, visible, cursor, p.rangeEnd.value);
        LowerRankIsFrom(keys, lo);
      }
    } else {
      NothingBelow(dir, stored, cursor);
      SameVisibleRank(stored, visible, [], cursor);
      RankOfEmpty(keys);
      RankMonotone(keys, p.rangeStart, cursor);
    }
  }

  lemma NothingBelow(dir: seq<Range>, stored: seq<Key>, cursor: Key)
    requires Sorted(stored) && Covers(dir, stored) && IsPrevious(dir, Some(cursor), None)
    ensures Rank(stored, cursor) == 0 == Rank(stored, [])
  {
    hide Rank, Less;
    RankOfEmpty(stored);
    if Rank(stored, cursor) > 0 {
      var k := stored[0];
      RankSplits(stored, cursor, 0);
      assert k in stored;
      var i :| 0 <= i < |dir| && Contains(dir[i], k);
      HolderStartsBelow(dir[i], k, cursor);
    }
  }

  lemma HolderStartsBelow(r: Range, k: Key, cursor: Key)
    requires Contains(r, k) && Less(k, cursor)
    ensures StartsBelow(r, Some(cursor))
  {
    hide Less;
    LessTotal(r.start, k);
    if Less(r.start, k) {
      LessTransitive(r.start, k, cursor);
    }
  }

  lemma SameVisibleRank(stored: seq<Key>, visible: Key -> bool, a: Key, b: Key)
    requires Sorted(stored) && Rank(stored, a) == Rank(stored, b)
    ensures Rank(Visible(visible, stored), a) == Rank(Visible(visible, stored), b)
  {
    hide Rank, Less, Visible;
    var keys := Visible(visible, stored);
    VisibleBelow(visible, stored, a);
    VisibleBelow(visible, stored, b);
    assert |keys[..Rank(keys, a)]| == |keys[..Rank(keys, b)]|;
  }
}
