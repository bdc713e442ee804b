/**
 The resumable scan: a cursor that routes every page by key, against a server whose tablets
 may be split, merged or missing between any two pages.
 */
module ScanClient {
  import opened Options
  import opened Keys

  datatype Direction = Forward | Reverse

  datatype Page = Page(entries: seq<Key>, exhausted: bool, lastKey: Option<Key>, rangeStart: Key, rangeEnd: Option<Key>)

  datatype Answer = Served(page: Page) | Stale | Failed

  datatype Outcome = Found(out: seq<Key>) | Errored | OutOfPatience

  function Or(a: Option<Key>, b: Option<Key>): Option<Key> {
    if a.Some? then a else b
  }

  function From(lo: Option<Key>): Key {
    if lo.Some? then lo.value else []
  }

  function Min(a: nat, b: nat): nat {
    if a <= b then a else b
  }

  function Max(a: nat, b: nat): nat {
    if a <= b then b else a
  }

  predicate EmptyWindow(lo: Option<Key>, hi: Option<Key>) {
    lo.Some? && hi.Some? && !Less(lo.value, hi.value)
  }

  /** The window has room for a key. */
  predicate Proper(lo: Option<Key>, hi: Option<Key>) {
    hi.Some? ==> Less(From(lo), hi.value)
  }

  predicate IsGap(p: Page) {
    p.entries == [] && !p.exhausted && p.lastKey.None?
  }

  // ----- What the server promises of one page -----

  /** Forward: a gap names the next tablet; a slice is the start of its tablet's keys in the window. */
  predicate HonestForward(keys: seq<Key>, lo: Option<Key>, hi: Option<Key>, p: Page) {
    var pos := LowerRank(keys, lo);
    var upper := Min(UpperRank(keys, hi), UpperRank(keys, p.rangeEnd));
    if IsGap(p) then p.rangeEnd.Some? ==> Less(From(lo), p.rangeEnd.value) && Rank(keys, p.rangeEnd.value) == pos
    else
      && (p.rangeEnd.Some? ==> Less(From(lo), p.rangeEnd.value))
      && pos + |p.entries| <= upper && p.entries == keys[pos..pos + |p.entries|]
      && (p.exhausted ==> pos + |p.entries| == upper)
      && (!p.exhausted ==> p.entries != [] && p.lastKey == Some(p.entries[|p.entries| - 1]))
      && (!p.exhausted && hi.Some? ==> Less(Successor(p.lastKey.value), hi.value))
  }

  /** Reverse: the tablet starts below the window's end, and no key lies between the two. */
  predicate HonestReverse(keys: seq<Key>, lo: Option<Key>, hi: Option<Key>, p: Page) {
    var pos := UpperRank(keys, hi);
    var lower := Max(LowerRank(keys, lo), Rank(keys, p.rangeStart));
    if IsGap(p) then Rank(keys, p.rangeStart) == pos
    else
      && (hi.Some? ==> Less(p.rangeStart, hi.value))
      && lower <= pos && |p.entries| <= pos - lower && p.entries == Reversed(keys[pos - |p.entries|..pos])
      && (p.exhausted ==> |p.entries| == pos - lower)
      && (!p.exhausted ==> p.entries != [] && p.lastKey == Some(p.entries[|p.entries| - 1]))
      && (!p.exhausted ==> Less(From(lo), p.lastKey.value))
  }

  predicate Honest(keys: seq<Key>, dir: Direction, lo: Option<Key>, hi: Option<Key>, a: Answer) {
    if EmptyWindow(lo, hi) then a.Failed?
    else a.Served? ==> if dir.Forward? then HonestForward(keys, lo, hi, a.page) else HonestReverse(keys, lo, hi, a.page)
  }

  type Server = (nat, Option<Key>, Option<Key>) -> Answer

  /** The data is fixed; tablets, budgets and failures may differ at every request. */
  ghost predicate HonestServer(keys: seq<Key>, dir: Direction, serve: Server) {
    forall n, lo, hi :: Honest(keys, dir, lo, hi, serve(n, lo, hi))
  }

  // ----- The cursor -----

  /** A cursor window `[lo, hi)` that stands `t` keys into the scan. */
  predicate At(keys: seq<Key>, dir: Direction, start: Option<Key>, end: Option<Key>, lo: Option<Key>, hi: Option<Key>, t: nat) {
    if dir.Forward? then hi == end && LowerRank(keys, lo) == LowerRank(keys, start) + t
    else lo == start && UpperRank(keys, hi) + t == UpperRank(keys, end)
  }

  class ScanCursor {
    const direction: Direction
    const start: Option<Key>
    const end: Option<Key>
    var resume: Option<Key>
    var done: bool

    constructor (direction: Direction, start: Option<Key>, end: Option<Key>)
      ensures this.direction == direction && this.start == start && this.end == end && resume == None && !done
    {
      this.direction, this.start, this.end, resume, done := direction, start, end, None, false;
    }

    function Lower(): Option<Key>
      reads this
    {
      if direction.Forward? then Or(resume, start) else start
    }

    function Upper(): Option<Key>
      reads this
    {
      if direction.Forward? then end else Or(resume, end)
    }

    /**
     `advance_cursor`: a page cut short without a last key is refused, the scan ends exactly
     on an exhausted page that reaches the far bound, and any other page moves the cursor. An
     honest page moves it by exactly its entries, and ends the scan only when nothing of the
     range is left.
     */
    method Advance(page: Page, ghost keys: seq<Key>, ghost t: nat) returns (ok: bool)
      requires Sorted(keys) && !done
      modifies this
      ensures ok <==> Usable(page)
      ensures done <==> Ends(direction, start, end, Served(page))
      ensures !done ==> resume == Onward(direction, old(resume), page)
      ensures Expected(keys, direction, start, end, old(resume), t, page) ==>
        ok && if done then LowerRank(keys, start) + t + |page.entries| == UpperRank(keys, end)
              else At(keys, direction, start, end, Lower(), Upper(), t + |page.entries|)
    {
      hide Rank, Less, Honest, At;
      if Expected(keys, direction, start, end, resume, t, page) {
        Moves(keys, direction, start, end, Lower(), Upper(), t, page, resume);
      }
      if page.entries == [] && !page.exhausted && page.lastKey.None? {
        if direction.Forward? {
          if page.rangeEnd.Some? {
            resume := page.rangeEnd;
          }
        } else {
          resume := Some(page.rangeStart);
        }
        return true;
      }
      if !page.exhausted {
        if page.lastKey.None? {
          return false;
        }
        resume := Some(if direction.Forward? then Successor(page.lastKey.value) else page.lastKey.value);
        return true;
      }
      if direction.Forward? {
        if page.rangeEnd.Some? && (end.None? || Less(page.rangeEnd.value, end.value)) {
          resume := page.rangeEnd;
        } else {
          done := true;
        }
      } else {
        if Less(From(start), page.rangeStart) {
          resume := Some(page.rangeStart);
        } else {
          done := true;
        }
      }
      ok := true;
    }
  }

  /** An honest page for a cursor that stands `t` keys into the scan. */
  predicate Expected(keys: seq<Key>, dir: Direction, start: Option<Key>, end: Option<Key>, resume: Option<Key>, t: nat,
                     p: Page) {
    var lo, hi := LowerFor(dir, start, resume), UpperFor(dir, end, resume);
    !EmptyWindow(lo, hi) && At(keys, dir, start, end, lo, hi, t) && Honest(keys, dir, lo, hi, Served(p))
  }

  /** The page's tablet reaches the far end of the scan. */
  predicate EndsAt(dir: Direction, start: Option<Key>, end: Option<Key>, p: Page) {
    if dir.Forward? then p.rangeEnd.None? || (end.Some? && !Less(p.rangeEnd.value, end.value))
    else !Less(From(start), p.rangeStart)
  }

  /** Refused pages are cut short without a last key. */
  predicate Usable(p: Page) {
    IsGap(p) || p.exhausted || p.lastKey.Some?
  }

  /** The answer ends the scan. */
  predicate Ends(dir: Direction, start: Option<Key>, end: Option<Key>, a: Answer) {
    a.Served? && a.page.exhausted && EndsAt(dir, start, end, a.page)
  }

  /** Where a page that does not end the scan sends the cursor. */
  function Onward(dir: Direction, resume: Option<Key>, p: Page): Option<Key> {
    if IsGap(p) then if dir.Forward? then Or(p.rangeEnd, resume) else Some(p.rangeStart)
    else if p.exhausted then if dir.Forward? then p.rangeEnd else Some(p.rangeStart)
    else if p.lastKey.None? then resume
    else Some(if dir.Forward? then Successor(p.lastKey.value) else p.lastKey.value)
  }

  /**
   Moving past an honest page passes exactly its entries, and ends the scan only when
   nothing of the range is left.
   */
  lemma Moves(keys: seq<Key>, dir: Direction, start: Option<Key>, end: Option<Key>, lo: Option<Key>, hi: Option<Key>,
              t: nat, p: Page, resume: Option<Key>)
    requires Sorted(keys) && !EmptyWindow(lo, hi) && At(keys, dir, start, end, lo, hi, t)
    requires Honest(keys, dir, lo, hi, Served(p))
    requires if dir.Forward? then lo == Or(resume, start) && hi == end else lo == start && hi == Or(resume, end)
    ensures MovesOn(keys, dir, start, end, t, p, resume)
  {
    hide Rank, Less, MovesOn, HonestForward, HonestReverse, At;
    if IsGap(p) {
      MovesPastGap(keys, dir, start, end, lo, hi, t, p, resume);
    } else if !p.exhausted {
      MovesPastCut(keys, dir, start, end, lo, hi, t, p, resume);
    } else if dir.Forward? {
      MovesForward(keys, start, end, lo, t, p, resume);
    } else {
      MovesReverse(keys, start, end, hi, t, p, resume);
    }
  }

  function LowerFor(dir: Direction, start: Option<Key>, resume: Option<Key>): Option<Key> {
    if dir.Forward? then Or(resume, start) else start
  }

  function UpperFor(dir: Direction, end: Option<Key>, resume: Option<Key>): Option<Key> {
    if dir.Forward? then end else Or(resume, end)
  }

  /** The page is usable; past it the cursor stands `|p.entries|` keys further, or the range is done. */
  predicate MovesOn(keys: seq<Key>, dir: Direction, start: Option<Key>, end: Option<Key>, t: nat, p: Page,
                    resume: Option<Key>) {
    var next := Onward(dir, resume, p);
    var lo, hi := LowerFor(dir, start, next), UpperFor(dir, end, next);
    && Usable(p)
    && if Ends(dir, start, end, Served(p)) then LowerRank(keys, start) + t + |p.entries| == UpperRank(keys, end)
       else At(keys, dir, start, end, lo, hi, t + |p.entries|) && (!IsGap(p) ==> next.Some? && Proper(lo, hi))
  }

  lemma MovesPastGap(keys: seq<Key>, dir: Direction, start: Option<Key>, end: Option<Key>, lo: Option<Key>, hi: Option<Key>,
                     t: nat, p: Page, resume: Option<Key>)
    requires !EmptyWindow(lo, hi) && At(keys, dir, start, end, lo, hi, t) && Honest(keys, dir, lo, hi, Served(p)) && IsGap(p)
    requires lo == LowerFor(dir, start, resume) && hi == UpperFor(dir, end, resume)
    ensures MovesOn(keys, dir, start, end, t, p, resume)
  {
    hide Rank, Less;
  }

  lemma MovesPastCut(keys: seq<Key>, dir: Direction, start: Option<Key>, end: Option<Key>, lo: Option<Key>, hi: Option<Key>,
                     t: nat, p: Page, resume: Option<Key>)
    requires Sorted(keys) && !EmptyWindow(lo, hi) && At(keys, dir, start, end, lo, hi, t)
    requires Honest(keys, dir, lo, hi, Served(p)) && !IsGap(p) && !p.exhausted
    requires lo == LowerFor(dir, start, resume) && hi == UpperFor(dir, end, resume)
    ensures MovesOn(keys, dir, start, end, t, p, resume)
  {
    hide Rank, Less, Successor, Sorted, Reversed;
    LastEntry(keys, dir, lo, hi, p);
  }

  lemma MovesForward(keys: seq<Key>, start: Option<Key>, end: Option<Key>, lo: Option<Key>, t: nat, p: Page,
                     resume: Option<Key>)
    requires Sorted(keys) && At(keys, Forward, start, end, lo, end, t) && HonestForward(keys, lo, end, p) && !IsGap(p)
    requires p.exhausted && lo == LowerFor(Forward, start, resume)
    ensures MovesOn(keys, Forward, start, end, t, p, resume)
  {
    hide Rank, Less, Successor, Sorted;
    UpperBounds(keys, p.rangeEnd, end, !EndsAt(Forward, start, end, p));
  }

  lemma MovesReverse(keys: seq<Key>, start: Option<Key>, end: Option<Key>, hi: Option<Key>, t: nat, p: Page,
                     resume: Option<Key>)
    requires Sorted(keys) && At(keys, Reverse, start, end, start, hi, t) && HonestReverse(keys, start, hi, p) && !IsGap(p)
    requires p.exhausted && hi == UpperFor(Reverse, end, resume)
    ensures MovesOn(keys, Reverse, start, end, t, p, resume)
  {
    hide Rank, Less, Sorted, HonestReverse;
    ReverseReaches(keys, start, hi, p);
    LowerBounds(keys, p.rangeStart, start);
    RankOfEmpty(keys);
  }

  /** An exhausted reverse page leaves nothing above its tablet's start or the window's. */
  lemma ReverseReaches(keys: seq<Key>, lo: Option<Key>, hi: Option<Key>, p: Page)
    requires HonestReverse(keys, lo, hi, p) && !IsGap(p) && p.exhausted
    ensures |p.entries| == UpperRank(keys, hi) - Max(LowerRank(keys, lo), Rank(keys, p.rangeStart))
  {
    hide Rank, Less, Reversed;
  }

  lemma UpperBounds(keys: seq<Key>, re: Option<Key>, end: Option<Key>, more: bool)
    requires Sorted(keys) && (more <==> re.Some? && (end.None? || Less(re.value, end.value)))
    ensures more ==> UpperRank(keys, re) <= UpperRank(keys, end)
    ensures !more ==> UpperRank(keys, end) <= UpperRank(keys, re)
  {
    if re.Some? && end.Some? {
      if more {
        if Less(end.value, re.value) {
          LessTransitive(re.value, end.value, re.value);
          LessIrreflexive(re.value);
        }
        RankMonotone(keys, re.value, end.value);
      } else {
        RankMonotone(keys, end.value, re.value);
      }
    }
  }

  lemma LowerBounds(keys: seq<Key>, rs: Key, start: Option<Key>)
    requires Sorted(keys)
    ensures if Less(From(start), rs) then LowerRank(keys, start) <= Rank(keys, rs) else Rank(keys, rs) <= LowerRank(keys, start)
  {
    RankOfEmpty(keys);
    if Less(From(start), rs) {
      if Less(rs, From(start)) {
        LessTransitive(rs, From(start), rs);
        LessIrreflexive(rs);
      }
      RankMonotone(keys, From(start), rs);
    } else {
      RankMonotone(keys, rs, From(start));
    }
  }

  /** Where the cursor lands after a page that was cut short. */
  lemma LastEntry(keys: seq<Key>, dir: Direction, lo: Option<Key>, hi: Option<Key>, p: Page)
    requires Sorted(keys) && !EmptyWindow(lo, hi) && Honest(keys, dir, lo, hi, Served(p)) && !IsGap(p) && !p.exhausted
    ensures p.lastKey.Some?
    ensures dir.Forward? ==> Rank(keys, Successor(p.lastKey.value)) == LowerRank(keys, lo) + |p.entries|
    ensures dir.Reverse? ==> Rank(keys, p.lastKey.value) == UpperRank(keys, hi) - |p.entries|
  {
    hide Rank, Less;
    if dir.Forward? {
      RankOfKey(keys, LowerRank(keys, lo) + |p.entries| - 1);
    } else {
      RankOfKey(keys, UpperRank(keys, hi) - |p.entries|);
    }
  }

  // ----- The whole scan -----

  /** What a scan is for: the keys of `[start, end)` in scan order. */
  function Wanted(keys: seq<Key>, dir: Direction, start: Option<Key>, end: Option<Key>): seq<Key> {
    var a, b := LowerRank(keys, start), UpperRank(keys, end);
    if a > b then [] else if dir.Forward? then keys[a..b] else Reversed(keys[a..b])
  }

  function Truncated(limit: Option<nat>, s: seq<Key>): seq<Key> {
    if limit.Some? && limit.value < |s| then s[..limit.value] else s
  }

  /** No failures, boundaries from one fixed set, and every gap with data still to come is jumped. */
  ghost predicate Steady(cuts: seq<Key>, dir: Direction, start: Option<Key>, end: Option<Key>, serve: Server) {
    forall n, lo, hi | FarBound(dir, start, end, lo, hi) && Proper(lo, hi) :: SteadyPage(cuts, dir, hi, serve(n, lo, hi))
  }

  /** The bound that a scan's windows share: a forward scan keeps its end, a reverse scan its start. */
  predicate FarBound(dir: Direction, start: Option<Key>, end: Option<Key>, lo: Option<Key>, hi: Option<Key>) {
    if dir.Forward? then hi == end else lo == start
  }

  predicate SteadyPage(cuts: seq<Key>, dir: Direction, hi: Option<Key>, a: Answer) {
    && a.Served? && (IsGap(a.page) ==> dir.Forward? && a.page.rangeEnd.Some? && Proper(a.page.rangeEnd, hi))
    && if dir.Forward? then a.page.rangeEnd.Some? ==> a.page.rangeEnd.value in cuts else a.page.rangeStart in cuts
  }

  /** The first `t` keys in scan order. */
  function Delivered(keys: seq<Key>, dir: Direction, start: Option<Key>, end: Option<Key>, t: nat): seq<Key>
    requires Within(keys, dir, start, end, t)
  {
    var a, b := LowerRank(keys, start), UpperRank(keys, end);
    if dir.Forward? then keys[a..a + t] else Reversed(keys[b - t..b])
  }

  /** Taking a page's entries one by one, up to the limit. */
  method Take(out: seq<Key>, entries: seq<Key>, limit: Option<nat>, ghost before: seq<Key>) returns (out': seq<Key>)
    requires out == Truncated(limit, before)
    ensures out' == Truncated(limit, before + entries)
  {
    out' := out;
    var i := 0;
    assert before + entries[..0] == before;
    while i < |entries|
      invariant 0 <= i <= |entries| && out' == Truncated(limit, before + entries[..i])
    {
      ghost var so := before + entries[..i];
      assert before + entries[..i + 1] == so + [entries[i]];
      if limit.Some? && |out'| >= limit.value {
        assert forall j | i <= j <= |entries| :: (before + entries[..j])[..limit.value] == so[..limit.value];
        assert entries[..|entries|] == entries;
        return;
      }
      out' := out' + [entries[i]];
      i := i + 1;
    }
    assert entries[..i] == entries;
  }

  /** `t` keys of the range exist to be delivered. */
  predicate Within(keys: seq<Key>, dir: Direction, start: Option<Key>, end: Option<Key>, t: nat) {
    && (if dir.Forward? then LowerRank(keys, start) + t <= |keys| else t <= UpperRank(keys, end))
    && (t > 0 ==> LowerRank(keys, start) + t <= UpperRank(keys, end))
  }

  lemma ForwardDelivered(keys: seq<Key>, start: Option<Key>, end: Option<Key>, t: nat, p: Page, lo: Option<Key>)
    requires At(keys, Forward, start, end, lo, end, t) && Within(keys, Forward, start, end, t)
    requires HonestForward(keys, lo, end, p)
    ensures Within(keys, Forward, start, end, t + |p.entries|)
    ensures Delivered(keys, Forward, start, end, t + |p.entries|) == Delivered(keys, Forward, start, end, t) + p.entries
  {
    hide Rank, Less, LowerRank, UpperRank, Successor;
    var a := LowerRank(keys, start);
    assert p.entries != [] ==> a + t + |p.entries| <= UpperRank(keys, end);
    assert p.entries == keys[a + t..a + t + |p.entries|];
    ForwardGrows(keys, a, t, p.entries);
  }

  lemma ReverseDelivered(keys: seq<Key>, start: Option<Key>, end: Option<Key>, t: nat, p: Page, hi: Option<Key>)
    requires At(keys, Reverse, start, end, start, hi, t) && Within(keys, Reverse, start, end, t)
    requires HonestReverse(keys, start, hi, p)
    ensures Within(keys, Reverse, start, end, t + |p.entries|)
    ensures Delivered(keys, Reverse, start, end, t + |p.entries|) == Delivered(keys, Reverse, start, end, t) + p.entries
  {
    hide Rank, Less, LowerRank, UpperRank, Reversed;
    ReverseGrows(keys, UpperRank(keys, end), t, p.entries);
  }

  /** One honest page delivers exactly the next keys. */
  lemma PageDelivered(keys: seq<Key>, dir: Direction, start: Option<Key>, end: Option<Key>, t: nat, p: Page,
                      lo: Option<Key>, hi: Option<Key>)
    requires !EmptyWindow(lo, hi) && At(keys, dir, start, end, lo, hi, t) && Within(keys, dir, start, end, t)
    requires Honest(keys, dir, lo, hi, Served(p))
    ensures Within(keys, dir, start, end, t + |p.entries|)
    ensures Delivered(keys, dir, start, end, t + |p.entries|) == Delivered(keys, dir, start, end, t) + p.entries
  {
    hide Delivered, Within, HonestForward, HonestReverse;
    if dir.Forward? {
      ForwardDelivered(keys, start, end, t, p, lo);
    } else {
      ReverseDelivered(keys, start, end, t, p, hi);
    }
  }

  lemma ForwardGrows(keys: seq<Key>, a: nat, t: nat, entries: seq<Key>)
    requires a + t + |entries| <= |keys| && entries == keys[a + t..a + t + |entries|]
    ensures keys[a..a + (t + |entries|)] == keys[a..a + t] + entries
  {
  }

  lemma ReverseGrows(keys: seq<Key>, b: nat, t: nat, entries: seq<Key>)
    requires t + |entries| <= b <= |keys| && entries == Reversed(keys[b - t - |entries|..b - t])
    ensures Reversed(keys[b - (t + |entries|)..b]) == Reversed(keys[b - t..b]) + entries
  {
    hide Reversed;
    var i := b - t - |entries|;
    Joined(keys, i, b - t, b);
    ReversedAppend(keys[i..b - t], keys[b - t..b]);
  }

  lemma Joined(keys: seq<Key>, i: nat, j: nat, k: nat)
    requires i <= j <= k <= |keys|
    ensures keys[i..k] == keys[i..j] + keys[j..k]
  {
  }

  lemma ReversedAppend(a: seq<Key>, b: seq<Key>)
    ensures Reversed(a + b) == Reversed(b) + Reversed(a)
  {
  }

  /** How many more requests a steady server can need. */
  ghost function Left(keys: seq<Key>, cuts: seq<Key>, dir: Direction, lo: Option<Key>, hi: Option<Key>): int {
    if dir.Forward? then UpperRank(keys, hi) - LowerRank(keys, lo) + |cuts| - Rank(cuts, Successor(From(lo)))
    else UpperRank(keys, hi) - LowerRank(keys, lo) + UpperRank(cuts, hi)
  }

  lemma LeftIsBounded(keys: seq<Key>, cuts: seq<Key>, dir: Direction, lo: Option<Key>, hi: Option<Key>)
    requires Sorted(keys) && !EmptyWindow(lo, hi)
    ensures 0 <= Left(keys, cuts, dir, lo, hi) <= |Wanted(keys, dir, lo, hi)| + |cuts|
  {
    hide Rank;
    if lo.Some? && hi.Some? {
      if Less(hi.value, lo.value) {
        LessTransitive(hi.value, lo.value, hi.value);
        LessIrreflexive(hi.value);
      }
      RankMonotone(keys, lo.value, hi.value);
    }
  }

  lemma LeftShrinks(keys: seq<Key>, cuts: seq<Key>, dir: Direction, lo: Option<Key>, hi: Option<Key>, p: Page,
                    next: Option<Key>)
    requires Sorted(keys) && Sorted(cuts) && !EmptyWindow(lo, hi) && Honest(keys, dir, lo, hi, Served(p))
    requires SteadyPage(cuts, dir, hi, Served(p))
    requires dir.Forward? ==> next == if p.exhausted || IsGap(p) then p.rangeEnd else Some(Successor(p.lastKey.value))
    requires dir.Reverse? ==> next == Some(if p.exhausted then p.rangeStart else p.lastKey.value)
    requires next.Some?
    requires dir.Forward? ==> LowerRank(keys, next) == LowerRank(keys, lo) + |p.entries|
    requires dir.Reverse? ==> UpperRank(keys, next) == UpperRank(keys, hi) - |p.entries|
    ensures dir.Forward? ==> Left(keys, cuts, dir, next, hi) < Left(keys, cuts, dir, lo, hi)
    ensures dir.Reverse? ==> Left(keys, cuts, dir, lo, next) < Left(keys, cuts, dir, lo, hi)
  {
    hide Rank, Less;
    if dir.Forward? {
      if p.exhausted || IsGap(p) {
        CutPassed(cuts, From(lo), next.value);
      } else {
        var j := LowerRank(keys, lo) + |p.entries| - 1;
        LowerRankIsFrom(keys, lo);
        assert p.lastKey.value == p.entries[|p.entries| - 1] == keys[j];
        RankSplits(keys, From(lo), j);
        CutsMonotone(cuts, From(lo), p.lastKey.value);
      }
    } else if p.exhausted {
      var i :| 0 <= i < |cuts| && cuts[i] == next.value;
      RankOfKey(cuts, i);
      if hi.Some? {
        RankSplits(cuts, hi.value, i);
      }
    } else if hi.Some? {
      var j := UpperRank(keys, hi) - |p.entries|;
      RankSplits(keys, hi.value, j);
      NotBoth(keys[j], hi.value);
      RankMonotone(cuts, next.value, hi.value);
    }
  }

  lemma NotBoth(a: Key, b: Key)
    requires Less(a, b)
    ensures !Less(b, a)
  {
    if Less(b, a) {
      LessTransitive(a, b, a);
      LessIrreflexive(a);
    }
  }

  lemma LowerRankIsFrom(keys: seq<Key>, lo: Option<Key>)
    ensures LowerRank(keys, lo) == Rank(keys, From(lo))
  {
    RankOfEmpty(keys);
  }

  lemma CutPassed(cuts: seq<Key>, lo: Key, next: Key)
    requires Sorted(cuts) && next in cuts && Less(lo, next)
    ensures Rank(cuts, Successor(lo)) < Rank(cuts, Successor(next))
  {
    hide Rank, Less, Successor;
    var i :| 0 <= i < |cuts| && cuts[i] == next;
    RankOfKey(cuts, i);
    RankSplits(cuts, Successor(lo), i);
    SuccessorIsLeast(lo, next);
    NotBoth(lo, next);
    LessIrreflexive(lo);
  }

  lemma CutsMonotone(cuts: seq<Key>, lo: Key, last: Key)
    requires Sorted(cuts) && !Less(last, lo)
    ensures Rank(cuts, Successor(lo)) <= Rank(cuts, Successor(Successor(last)))
  {
    hide Rank, Less, Successor;
    var s := Successor(last);
    if Less(Successor(s), Successor(lo)) {
      SuccessorIsLeast(lo, Successor(s));
      SuccessorIsLeast(s, s);
      SuccessorIsLeast(last, last);
      LessTransitive(last, s, Successor(s));
      if Less(Successor(s), lo) {
        LessTransitive(last, Successor(s), lo);
      }
    }
    RankMonotone(cuts, Successor(lo), Successor(Successor(last)));
  }

  /** The next request is allowed, and enough requests are left to finish. */
  ghost predicate OnTrack(keys: seq<Key>, cuts: seq<Key>, dir: Direction, lo: Option<Key>, hi: Option<Key>, budget: int) {
    Proper(lo, hi) && 0 <= Left(keys, cuts, dir, lo, hi) < budget
  }

  lemma StaysOnTrack(keys: seq<Key>, cuts: seq<Key>, dir: Direction, start: Option<Key>, end: Option<Key>,
                     limit: Option<nat>, resume: Option<Key>, t: nat, out: seq<Key>, p: Page, budget: int)
    requires Sorted(keys) && Sorted(cuts) && Tracks(keys, dir, start, end, limit, resume, t, out)
    requires var lo, hi := LowerFor(dir, start, resume), UpperFor(dir, end, resume);
      && Honest(keys, dir, lo, hi, Served(p)) && SteadyPage(cuts, dir, hi, Served(p))
      && OnTrack(keys, cuts, dir, lo, hi, budget)
    requires !Ends(dir, start, end, Served(p))
    ensures var next := Onward(dir, resume, p);
      OnTrack(keys, cuts, dir, LowerFor(dir, start, next), UpperFor(dir, end, next), budget - 1)
  {
    hide Rank, Less, LowerRank, UpperRank, Left, HonestForward, HonestReverse, Within, Delivered, EndsAt, Truncated;
    var lo, hi := LowerFor(dir, start, resume), UpperFor(dir, end, resume);
    ProperIsNotEmpty(lo, hi);
    Moves(keys, dir, start, end, lo, hi, t, p, resume);
    var next := Onward(dir, resume, p);
    ProperIsNotEmpty(lo, hi);
    LeftShrinks(keys, cuts, dir, lo, hi, p, next);
    ProperIsNotEmpty(LowerFor(dir, start, next), UpperFor(dir, end, next));
    LeftIsBounded(keys, cuts, dir, LowerFor(dir, start, next), UpperFor(dir, end, next));
  }

  predicate LimitMet(limit: Option<nat>, out: seq<Key>) {
    limit.Some? && |out| >= limit.value
  }

  /** How the scan goes on from its `n`-th request, with `patience` requests left to make. */
  function ScanFrom(dir: Direction, start: Option<Key>, end: Option<Key>, limit: Option<nat>, serve: Server, patience: nat,
                    n: nat, restarts: nat, resume: Option<Key>, out: seq<Key>): Outcome
    decreases patience
  {
    if LimitMet(limit, out) then Found(out)
    else if patience == 0 then OutOfPatience
    else
      var a := serve(n, LowerFor(dir, start, resume), UpperFor(dir, end, resume));
      if a.Stale? && restarts < 3 then
        ScanFrom(dir, start, end, limit, serve, patience - 1, n + 1, restarts + 1, None, [])
      else if !a.Served? || !Usable(a.page) then Errored
      else
        var out' := Truncated(limit, out + a.page.entries);
        if Ends(dir, start, end, a) then Found(out')
        else
          ScanFrom(dir, start, end, limit, serve, patience - 1, n + 1, restarts, Onward(dir, resume, a.page), out')
  }

  /**
   `scan`, giving up after `patience` requests. Whatever the tablets do between honest
   pages, an answer is the keys of the range in order, each once, cut to the limit. With
   fixed boundaries and no failure there is an answer within one request per key and
   boundary.
   */
  method Scan(ghost keys: seq<Key>, ghost cuts: seq<Key>, direction: Direction, start: Option<Key>, end: Option<Key>,
              limit: Option<nat>, serve: Server, patience: nat)
    returns (outcome: Outcome)
    requires Sorted(keys) && Sorted(cuts)
    ensures outcome == ScanFrom(direction, start, end, limit, serve, patience, 0, 0, None, [])
    ensures HonestServer(keys, direction, serve) && outcome.Found? ==>
      outcome.out == Truncated(limit, Wanted(keys, direction, start, end))
    ensures (HonestServer(keys, direction, serve) && Steady(cuts, direction, start, end, serve) && Proper(start, end)
             && patience > |Wanted(keys, direction, start, end)| + |cuts|) ==> outcome.Found?
  {
    hide Less, EndsAt, Honest, SteadyPage, Sorted, At, Expected;
    ScanOutcome(keys, cuts, direction, start, end, limit, serve, patience);
    var cursor := new ScanCursor(direction, start, end);
    var out: seq<Key> := [];
    var requests, restarts := 0, 0;
    ghost var t: nat := 0;
    while !cursor.done
      invariant fresh(cursor) && cursor.direction == direction && cursor.start == start && cursor.end == end
      invariant requests <= patience && out == Truncated(limit, out)
      invariant ScanFrom(direction, start, end, limit, serve, patience, 0, 0, None, []) ==
        if cursor.done then Found(out)
        else ScanFrom(direction, start, end, limit, serve, patience - requests, requests, restarts, cursor.resume, out)
      decreases patience - requests
    {
      if limit.Some? && |out| >= limit.value {
        return Found(out);
      }
      if requests == patience {
        return OutOfPatience;
      }
      var answer := serve(requests, cursor.Lower(), cursor.Upper());
      requests := requests + 1;
      if answer.Stale? && restarts < 3 {
        restarts := restarts + 1;
        cursor := new ScanCursor(direction, start, end);
        out, t := [], 0;
        continue;
      }
      if !answer.Served? {
        return Errored;
      }
      out := Take(out, answer.page.entries, limit, out);
      var ok := cursor.Advance(answer.page, keys, t);
      if !ok {
        return Errored;
      }
      t := t + |answer.page.entries|;
    }
    outcome := Found(out);
  }

  // ----- What a scan over honest pages returns -----

  /** The keys collected so far are the first `t` of the scan, and the cursor stands behind them. */
  predicate Tracks(keys: seq<Key>, dir: Direction, start: Option<Key>, end: Option<Key>, limit: Option<nat>,
                   resume: Option<Key>, t: nat, out: seq<Key>) {
    && Within(keys, dir, start, end, t) && out == Truncated(limit, Delivered(keys, dir, start, end, t))
    && At(keys, dir, start, end, LowerFor(dir, start, resume), UpperFor(dir, end, resume), t)
  }

  lemma TracksOn(keys: seq<Key>, dir: Direction, start: Option<Key>, end: Option<Key>, limit: Option<nat>,
                 resume: Option<Key>, t: nat, out: seq<Key>, p: Page)
    requires Sorted(keys) && Tracks(keys, dir, start, end, limit, resume, t, out) && !LimitMet(limit, out)
    requires Honest(keys, dir, LowerFor(dir, start, resume), UpperFor(dir, end, resume), Served(p))
    ensures Usable(p)
    ensures var out' := Truncated(limit, out + p.entries);
      if Ends(dir, start, end, Served(p)) then out' == Truncated(limit, Wanted(keys, dir, start, end))
      else Tracks(keys, dir, start, end, limit, Onward(dir, resume, p), t + |p.entries|, out')
  {
    hide Rank, Less, Delivered, Within, HonestForward, HonestReverse, LowerRank, UpperRank, At, EndsAt, Wanted;
    var lo, hi := LowerFor(dir, start, resume), UpperFor(dir, end, resume);
    PageDelivered(keys, dir, start, end, t, p, lo, hi);
    Moves(keys, dir, start, end, lo, hi, t, p, resume);
    if Ends(dir, start, end, Served(p)) {
      AllDelivered(keys, dir, start, end, t + |p.entries|);
    }
  }

  /**
   Whatever the tablets do between honest pages, an answer is the keys of the range in
   order, each once, cut to the limit.
   */
  lemma {:induction false} ScanIsExact(keys: seq<Key>, dir: Direction, start: Option<Key>, end: Option<Key>,
                                       limit: Option<nat>, serve: Server, patience: nat, n: nat, restarts: nat,
                                       resume: Option<Key>, t: nat, out: seq<Key>)
    requires Sorted(keys) && HonestServer(keys, dir, serve) && Tracks(keys, dir, start, end, limit, resume, t, out)
    ensures var o := ScanFrom(dir, start, end, limit, serve, patience, n, restarts, resume, out);
      o.Found? ==> o.out == Truncated(limit, Wanted(keys, dir, start, end))
    decreases patience
  {
    hide Rank, Less, Tracks, Honest, Wanted, Truncated, EndsAt;
    if LimitMet(limit, out) {
      LimitReached(keys, dir, start, end, limit, resume, t, out);
    } else if patience > 0 {
      var a := serve(n, LowerFor(dir, start, resume), UpperFor(dir, end, resume));
      if a.Stale? && restarts < 3 {
        Begins(keys, dir, start, end, limit);
        ScanIsExact(keys, dir, start, end, limit, serve, patience - 1, n + 1, restarts + 1, None, 0, []);
      } else if a.Served? {
        TracksOn(keys, dir, start, end, limit, resume, t, out, a.page);
        if !Ends(dir, start, end, a) {
          ScanIsExact(keys, dir, start, end, limit, serve, patience - 1, n + 1, restarts, Onward(dir, resume, a.page),
                      t + |a.page.entries|, Truncated(limit, out + a.page.entries));
        }
      }
    }
  }

  /** With fixed boundaries and no failure, one request per key and boundary is enough. */
  lemma {:induction false} ScanEnds(keys: seq<Key>, cuts: seq<Key>, dir: Direction, start: Option<Key>, end: Option<Key>,
                                    limit: Option<nat>, serve: Server, patience: nat, n: nat, restarts: nat,
                                    resume: Option<Key>, t: nat, out: seq<Key>)
    requires Sorted(keys) && HonestServer(keys, dir, serve) && Tracks(keys, dir, start, end, limit, resume, t, out)
    requires Sorted(cuts) && Steady(cuts, dir, start, end, serve)
    requires OnTrack(keys, cuts, dir, LowerFor(dir, start, resume), UpperFor(dir, end, resume), patience)
    ensures ScanFrom(dir, start, end, limit, serve, patience, n, restarts, resume, out).Found?
    decreases patience
  {
    hide Rank, Less, Tracks, Honest, Truncated, EndsAt, SteadyPage, OnTrack, EmptyWindow, Proper;
    var lo, hi := LowerFor(dir, start, resume), UpperFor(dir, end, resume);
    HasBudget(keys, cuts, dir, lo, hi, patience);
    if !LimitMet(limit, out) {
      var a := serve(n, lo, hi);
      IsServed(cuts, dir, hi, a);
      TracksOn(keys, dir, start, end, limit, resume, t, out, a.page);
      if !Ends(dir, start, end, a) {
        StaysOnTrack(keys, cuts, dir, start, end, limit, resume, t, out, a.page, patience);
        ScanEnds(keys, cuts, dir, start, end, limit, serve, patience - 1, n + 1, restarts, Onward(dir, resume, a.page),
                 t + |a.page.entries|, Truncated(limit, out + a.page.entries));
      }
    }
  }

  /** What a scan from its start returns. */
  lemma ScanOutcome(keys: seq<Key>, cuts: seq<Key>, dir: Direction, start: Option<Key>, end: Option<Key>,
                    limit: Option<nat>, serve: Server, patience: nat)
    requires Sorted(keys) && Sorted(cuts)
    ensures var o := ScanFrom(dir, start, end, limit, serve, patience, 0, 0, None, []);
      && (HonestServer(keys, dir, serve) && o.Found? ==> o.out == Truncated(limit, Wanted(keys, dir, start, end)))
      && ((HonestServer(keys, dir, serve) && Steady(cuts, dir, start, end, serve) && Proper(start, end)
           && patience > |Wanted(keys, dir, start, end)| + |cuts|) ==> o.Found?)
  {
    hide Rank, Less, Honest, SteadyPage, ScanFrom, Tracks, Wanted, Left;
    Begins(keys, dir, start, end, limit);
    if HonestServer(keys, dir, serve) {
      ScanIsExact(keys, dir, start, end, limit, serve, patience, 0, 0, None, 0, []);
      if Proper(start, end) {
        ProperIsNotEmpty(start, end);
        LeftIsBounded(keys, cuts, dir, start, end);
        if Steady(cuts, dir, start, end, serve) && patience > |Wanted(keys, dir, start, end)| + |cuts| {
          ScanEnds(keys, cuts, dir, start, end, limit, serve, patience, 0, 0, None, 0, []);
        }
      }
    }
  }

  /** No page ever ends the scan. */
  ghost predicate NeverEnds(dir: Direction, start: Option<Key>, end: Option<Key>, serve: Server) {
    forall n, lo, hi | FarBound(dir, start, end, lo, hi) :: !Ends(dir, start, end, serve(n, lo, hi))
  }

  /** Every window with the scan's far bound is answered with a usable page. */
  ghost predicate NeverFails(dir: Direction, start: Option<Key>, end: Option<Key>, serve: Server) {
    forall n, lo, hi | FarBound(dir, start, end, lo, hi) ::
      serve(n, lo, hi).Served? && Usable(serve(n, lo, hi).page)
  }

  /** An unlimited scan that no page ends finds nothing, and without failures asks for ever. */
  lemma {:induction false} ScanRunsOn(dir: Direction, start: Option<Key>, end: Option<Key>, serve: Server, patience: nat,
                                      n: nat, restarts: nat, resume: Option<Key>, out: seq<Key>)
    requires NeverEnds(dir, start, end, serve)
    ensures var o := ScanFrom(dir, start, end, None, serve, patience, n, restarts, resume, out);
      !o.Found? && (NeverFails(dir, start, end, serve) ==> o.OutOfPatience?)
    decreases patience
  {
    hide EndsAt, Truncated;
    if patience > 0 {
      var a := serve(n, LowerFor(dir, start, resume), UpperFor(dir, end, resume));
      if a.Stale? && restarts < 3 {
        ScanRunsOn(dir, start, end, serve, patience - 1, n + 1, restarts + 1, None, []);
      } else if a.Served? && Usable(a.page) {
        assert !Ends(dir, start, end, a);
        ScanRunsOn(dir, start, end, serve, patience - 1, n + 1, restarts, Onward(dir, resume, a.page),
                   Truncated(None, out + a.page.entries));
      }
    }
  }

  lemma IsServed(cuts: seq<Key>, dir: Direction, hi: Option<Key>, a: Answer)
    requires SteadyPage(cuts, dir, hi, a)
    ensures a.Served?
  {
  }

  lemma HasBudget(keys: seq<Key>, cuts: seq<Key>, dir: Direction, lo: Option<Key>, hi: Option<Key>, budget: int)
    requires OnTrack(keys, cuts, dir, lo, hi, budget)
    ensures budget > 0 && Proper(lo, hi) && !EmptyWindow(lo, hi)
  {
    ProperIsNotEmpty(lo, hi);
  }

  lemma ProperIsNotEmpty(lo: Option<Key>, hi: Option<Key>)
    requires Proper(lo, hi)
    ensures !EmptyWindow(lo, hi)
  {
  }

  lemma Begins(keys: seq<Key>, dir: Direction, start: Option<Key>, end: Option<Key>, limit: Option<nat>)
    ensures Tracks(keys, dir, start, end, limit, None, 0, [])
  {
    hide Rank, Less;
  }

  lemma AllDelivered(keys: seq<Key>, dir: Direction, start: Option<Key>, end: Option<Key>, t: nat)
    requires Within(keys, dir, start, end, t) && LowerRank(keys, start) + t == UpperRank(keys, end)
    ensures Delivered(keys, dir, start, end, t) == Wanted(keys, dir, start, end)
  {
  }

  /** Once the limit is reached, nothing further can change the answer. */
  lemma LimitReached(keys: seq<Key>, dir: Direction, start: Option<Key>, end: Option<Key>, limit: Option<nat>,
                     resume: Option<Key>, t: nat, out: seq<Key>)
    requires Tracks(keys, dir, start, end, limit, resume, t, out) && LimitMet(limit, out)
    ensures out == Truncated(limit, Wanted(keys, dir, start, end))
  {
    hide Rank, Less, LowerRank, UpperRank, Reversed, At;
    if t > 0 {
      DeliveredIsPrefix(keys, dir, start, end, t);
    }
  }

  lemma DeliveredIsPrefix(keys: seq<Key>, dir: Direction, start: Option<Key>, end: Option<Key>, t: nat)
    requires Within(keys, dir, start, end, t) && t > 0
    ensures Delivered(keys, dir, start, end, t) <= Wanted(keys, dir, start, end)
  {
    hide Rank, Less, LowerRank, UpperRank, Reversed;
    var a, b := LowerRank(keys, start), UpperRank(keys, end);
    if dir.Forward? {
      Joined(keys, a, a + t, b);
    } else {
      Joined(keys, a, b - t, b);
      ReversedAppend(keys[a..b - t], keys[b - t..b]);
    }
  }
}
