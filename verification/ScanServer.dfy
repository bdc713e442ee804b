/**
 The server side of a scan: one tablet's bounded page over its ordered index, and the routing
 of a page window through the directory.
 */
module ScanServer {
  import opened Keys
  import opened ScanClient

  /** Inline bytes are charged against the page budget before they are emitted, other payloads after. */
  datatype Weight = Inline(len: nat) | Descriptor(len: nat)

  datatype Budget = Budget(maxItems: nat, maxBytes: nat, keysOnly: bool)

  function Visible(visible: Key -> bool, s: seq<Key>): (v: seq<Key>)
    ensures |v| <= |s|
  {
    if s == [] then [] else (if visible(s[0]) then [s[0]] else []) + Visible(visible, s[1..])
  }

  lemma {:induction false} VisibleAppend(visible: Key -> bool, a: seq<Key>, b: seq<Key>)
    ensures Visible(visible, a + b) == Visible(visible, a) + Visible(visible, b)
  {
    if a == [] {
      assert a + b == b;
    } else {
      assert (a + b)[1..] == a[1..] + b && (a + b)[0] == a[0];
      VisibleAppend(visible, a[1..], b);
      var head := if visible(a[0]) then [a[0]] else [];
      assert head + (Visible(visible, a[1..]) + Visible(visible, b)) == (head + Visible(visible, a[1..])) + Visible(visible, b);
    }
  }

  lemma VisibleOne(visible: Key -> bool, s: seq<Key>, i: nat)
    requires i < |s|
    ensures Visible(visible, s[..i + 1]) == Visible(visible, s[..i]) + if visible(s[i]) then [s[i]] else []
  {
    assert s[..i + 1] == s[..i] + [s[i]];
    VisibleAppend(visible, s[..i], [s[i]]);
    var none: seq<Key> := [];
    assert [s[i]][1..] == none;
  }

  /** The stored keys a page looks at: one more than it may emit. */
  function Candidates(window: seq<Key>, maxItems: nat): (c: seq<Key>)
    ensures |c| <= maxItems + 1 && c <= window
  {
    window[..Min(|window|, maxItems + 1)]
  }

  predicate AllVisible(visible: Key -> bool, s: seq<Key>) {
    forall i | 0 <= i < |s| :: visible(s[i])
  }

  lemma {:induction false} AllVisibleCount(visible: Key -> bool, s: seq<Key>)
    ensures |Visible(visible, s)| == |s| <==> AllVisible(visible, s)
    decreases |s|
  {
    if s != [] {
      AllVisibleCount(visible, s[1..]);
      assert AllVisible(visible, s) <==> visible(s[0]) && AllVisible(visible, s[1..]);
    }
  }

  /** The bytes charged for emitted entries; a first value over the budget is described, not charged. */
  function Charged(weigh: Key -> Weight, maxBytes: nat, entries: seq<Key>): nat {
    if entries == [] then 0
    else
      var n := |entries| - 1;
      var before := Charged(weigh, maxBytes, entries[..n]);
      match weigh(entries[n])
      case Inline(len) => if before + len <= maxBytes then before + len else before
      case Descriptor(len) => before + len
  }

  /** No entry but the first has an inline value that would overrun the bytes charged before it. */
  predicate BytesFit(weigh: Key -> Weight, maxBytes: nat, entries: seq<Key>) {
    forall n | 0 < n < |entries| && weigh(entries[n]).Inline? ::
      Charged(weigh, maxBytes, entries[..n]) + weigh(entries[n]).len <= maxBytes
  }

  /** The candidates' visible keys are within the byte budget. */
  predicate ValuesFit(visible: Key -> bool, weigh: Key -> Weight, budget: Budget, c: seq<Key>) {
    budget.keysOnly || BytesFit(weigh, budget.maxBytes, Visible(visible, c))
  }

  lemma BytesFitOne(weigh: Key -> Weight, maxBytes: nat, entries: seq<Key>, key: Key)
    requires BytesFit(weigh, maxBytes, entries)
    ensures BytesFit(weigh, maxBytes, entries + [key]) <==>
      (entries != [] && weigh(key).Inline? ==> Charged(weigh, maxBytes, entries) + weigh(key).len <= maxBytes)
  {
    hide Charged;
    var more := entries + [key];
    assert more[..|entries|] == entries && more[|entries|] == key;
    forall n | 0 < n < |entries| && weigh(more[n]).Inline?
      ensures Charged(weigh, maxBytes, more[..n]) + weigh(more[n]).len <= maxBytes
    {
      assert more[..n] == entries[..n];
    }
  }

  lemma BytesFitPrefix(weigh: Key -> Weight, maxBytes: nat, entries: seq<Key>, all: seq<Key>)
    requires entries <= all && BytesFit(weigh, maxBytes, all)
    ensures BytesFit(weigh, maxBytes, entries)
  {
    hide Charged;
    forall n | 0 < n < |entries| && weigh(entries[n]).Inline?
      ensures Charged(weigh, maxBytes, entries[..n]) + weigh(entries[n]).len <= maxBytes
    {
      assert entries[..n] == all[..n];
    }
  }

  datatype Filled = Filled(entries: seq<Key>, exhausted: bool)

  /** The page made of `entries` so far and the candidates not yet looked at. */
  function Fill(visible: Key -> bool, weigh: Key -> Weight, budget: Budget, candidates: seq<Key>, entries: seq<Key>,
                bytes: nat): Filled
    decreases |candidates|
  {
    if candidates == [] then Filled(entries, true)
    else if |entries| >= budget.maxItems then Filled(entries, false)
    else
      var key, rest := candidates[0], candidates[1..];
      if !visible(key) then Fill(visible, weigh, budget, rest, entries, bytes)
      else if budget.keysOnly then Fill(visible, weigh, budget, rest, entries + [key], bytes)
      else
        match weigh(key)
        case Descriptor(len) => Fill(visible, weigh, budget, rest, entries + [key], bytes + len)
        case Inline(len) =>
          if bytes + len <= budget.maxBytes then Fill(visible, weigh, budget, rest, entries + [key], bytes + len)
          else if entries != [] then Filled(entries, false)
          else Fill(visible, weigh, budget, rest, [key], bytes)
  }

  /** `scan_range`'s page over the stored keys of a window in scan order. */
  function PageFor(visible: Key -> bool, weigh: Key -> Weight, budget: Budget, window: seq<Key>): Filled {
    Fill(visible, weigh, budget, Candidates(window, budget.maxItems), [], 0)
  }

  /** A page that is cut short still has its last entry before the last candidate. */
  predicate CutShort(c: seq<Key>, entries: seq<Key>) {
    entries != [] && exists i | 0 <= i < |c| - 1 :: c[i] == entries[|entries| - 1]
  }

  /** The next visible candidate's inline value would overrun the bytes charged so far. */
  predicate Overruns(visible: Key -> bool, weigh: Key -> Weight, budget: Budget, c: seq<Key>, entries: seq<Key>) {
    var shown := Visible(visible, c);
    && !budget.keysOnly && entries != [] && |entries| < |shown| && weigh(shown[|entries|]).Inline?
    && Charged(weigh, budget.maxBytes, entries) + weigh(shown[|entries|]).len > budget.maxBytes
  }

  /** What a page over the candidates `c` says, from any point of its making. */
  predicate Tells(visible: Key -> bool, weigh: Key -> Weight, budget: Budget, c: seq<Key>, f: Filled) {
    && f.entries <= Visible(visible, c) && (f.exhausted ==> f.entries == Visible(visible, c))
    && (!f.exhausted ==> CutShort(c, f.entries))
    && (!f.exhausted ==> |f.entries| == budget.maxItems || Overruns(visible, weigh, budget, c, f.entries))
    && (f.exhausted <==> (|c| <= budget.maxItems || !AllVisible(visible, c[..budget.maxItems]))
                         && ValuesFit(visible, weigh, budget, c))
  }

  lemma {:induction false} FillTells(visible: Key -> bool, weigh: Key -> Weight, budget: Budget, c: seq<Key>, i: nat,
                                     last: nat, entries: seq<Key>, bytes: nat)
    requires i <= |c| <= budget.maxItems + 1 && entries == Visible(visible, c[..i]) && |entries| <= budget.maxItems
    requires budget.maxItems > 0 && (!budget.keysOnly ==> bytes == Charged(weigh, budget.maxBytes, entries))
    requires entries != [] ==> last < i && c[last] == entries[|entries| - 1]
    requires i <= budget.maxItems || !AllVisible(visible, c[..budget.maxItems])
    requires budget.keysOnly || BytesFit(weigh, budget.maxBytes, entries)
    ensures Tells(visible, weigh, budget, c, Fill(visible, weigh, budget, c[i..], entries, bytes))
    decreases |c| - i
  {
    hide Visible, Charged, AllVisible, BytesFit;
    if i == |c| {
      assert c[..i] == c;
      assert c[i..] == [];
    } else {
      var key := c[i];
      assert c[i..][0] == key && c[i..][1..] == c[i + 1..];
      VisibleOne(visible, c, i);
      VisibleSplit(visible, c, i);
      AllVisibleCount(visible, c[..i]);
      if |entries| >= budget.maxItems {
        assert i == budget.maxItems;
        assert CutShort(c, entries);
      } else if !visible(key) {
        HiddenAt(visible, c, i, budget.maxItems);
        FillTells(visible, weigh, budget, c, i + 1, last, entries, bytes);
      } else {
        SlotsLeft(visible, c, i, budget.maxItems);
        ChargedOne(weigh, budget.maxBytes, entries, key);
        if !budget.keysOnly {
          BytesFitOne(weigh, budget.maxBytes, entries, key);
        }
        if !budget.keysOnly && weigh(key).Inline? && bytes + weigh(key).len > budget.maxBytes && entries != [] {
          NextShown(visible, c, i);
          OverrunsByHere(visible, weigh, budget, c, i);
          assert CutShort(c, entries);
          assert Overruns(visible, weigh, budget, c, entries);
        } else {
          assert entries == [] ==> entries + [key] == [key];
          var bytes' := if budget.keysOnly then bytes else Charged(weigh, budget.maxBytes, entries + [key]);
          FillTells(visible, weigh, budget, c, i + 1, i, entries + [key], bytes');
        }
      }
    }
  }

  lemma OverrunsByHere(visible: Key -> bool, weigh: Key -> Weight, budget: Budget, c: seq<Key>, i: nat)
    requires i < |c| && !budget.keysOnly && !BytesFit(weigh, budget.maxBytes, Visible(visible, c[..i + 1]))
    ensures !ValuesFit(visible, weigh, budget, c)
  {
    hide Visible, BytesFit;
    VisibleSplit(visible, c, i + 1);
    if ValuesFit(visible, weigh, budget, c) {
      BytesFitPrefix(weigh, budget.maxBytes, Visible(visible, c[..i + 1]), Visible(visible, c));
    }
  }

  lemma HiddenAt(visible: Key -> bool, c: seq<Key>, i: nat, maxItems: nat)
    requires i < |c| <= maxItems + 1 && !visible(c[i])
    ensures i + 1 <= maxItems || (i == maxItems && |c| == maxItems + 1)
    ensures i < maxItems <= |c| ==> !AllVisible(visible, c[..maxItems])
  {
    if i < maxItems <= |c| {
      assert c[..maxItems][i] == c[i];
    }
  }

  /** An entry slot is still free at the last candidate only when a hidden key came before. */
  lemma SlotsLeft(visible: Key -> bool, c: seq<Key>, i: nat, maxItems: nat)
    requires i < |c| <= maxItems + 1 && |Visible(visible, c[..i])| < maxItems
    ensures i + 1 <= maxItems || !AllVisible(visible, c[..maxItems])
  {
    AllVisibleCount(visible, c[..i]);
  }

  /** What every page of `scan_range` tells its reader. */
  lemma PageTells(visible: Key -> bool, weigh: Key -> Weight, budget: Budget, window: seq<Key>)
    requires budget.maxItems > 0
    ensures Tells(visible, weigh, budget, Candidates(window, budget.maxItems), PageFor(visible, weigh, budget, window))
  {
    var c := Candidates(window, budget.maxItems);
    NothingYet(visible, weigh, budget.maxBytes);
    assert BytesFit(weigh, budget.maxBytes, []);
    assert c[..0] == [] && c[0..] == c;
    FillTells(visible, weigh, budget, c, 0, 0, [], 0);
  }

  /**
   `scan_range` over the stored keys of a window in scan order. Hidden keys (system,
   expired) fill candidate slots without being emitted; the page claims to be exhausted
   whenever it ran through its candidates.
   */
  method ScanRange(window: seq<Key>, visible: Key -> bool, weigh: Key -> Weight, budget: Budget)
    returns (entries: seq<Key>, exhausted: bool)
    requires budget.maxItems > 0
    ensures Filled(entries, exhausted) == PageFor(visible, weigh, budget, window)
    ensures Tells(visible, weigh, budget, Candidates(window, budget.maxItems), Filled(entries, exhausted))
  {
    PageTells(visible, weigh, budget, window);
    hide Tells;
    var candidates := Candidates(window, budget.maxItems);
    entries, exhausted := [], true;
    var bytes: nat, i := 0, 0;
    assert candidates[0..] == candidates;
    while i < |candidates|
      invariant 0 <= i <= |candidates| && exhausted
      invariant PageFor(visible, weigh, budget, window) == Fill(visible, weigh, budget, candidates[i..], entries, bytes)
    {
      var key := candidates[i];
      assert candidates[i..][0] == key && candidates[i..][1..] == candidates[i + 1..];
      if |entries| >= budget.maxItems {
        return entries, false;
      }
      if visible(key) {
        if !budget.keysOnly {
          var w := weigh(key);
          if w.Inline? {
            if bytes + w.len <= budget.maxBytes {
              bytes := bytes + w.len;
            } else if entries != [] {
              return entries, false;
            }
          } else {
            bytes := bytes + w.len;
          }
        }
        assert entries == [] ==> entries + [key] == [key];
        entries := entries + [key];
      }
      i := i + 1;
    }
    assert candidates[i..] == [];
  }

  lemma NothingYet(visible: Key -> bool, weigh: Key -> Weight, maxBytes: nat)
    ensures Visible(visible, []) == [] && Charged(weigh, maxBytes, []) == 0
  {
  }

  lemma ChargedOne(weigh: Key -> Weight, maxBytes: nat, entries: seq<Key>, key: Key)
    ensures var before, w := Charged(weigh, maxBytes, entries), weigh(key);
      Charged(weigh, maxBytes, entries + [key])
      == if w.Inline? && before + w.len > maxBytes then before else before + w.len
  {
    assert (entries + [key])[..|entries|] == entries;
  }

  lemma NextShown(visible: Key -> bool, s: seq<Key>, i: nat)
    requires i < |s| && visible(s[i])
    ensures var n := |Visible(visible, s[..i])|; n < |Visible(visible, s)| && Visible(visible, s)[n] == s[i]
  {
    VisibleSplit(visible, s, i + 1);
    VisibleOne(visible, s, i);
  }

  lemma VisibleSplit(visible: Key -> bool, s: seq<Key>, i: nat)
    requires i <= |s|
    ensures Visible(visible, s) == Visible(visible, s[..i]) + Visible(visible, s[i..])
  {
    assert s == s[..i] + s[i..];
    VisibleAppend(visible, s[..i], s[i..]);
  }

  /** The page's claim to be exhausted is true: no visible key lies beyond its candidates. */
  predicate Truthful(visible: Key -> bool, window: seq<Key>, maxItems: nat, exhausted: bool) {
    exhausted ==> Visible(visible, window[|Candidates(window, maxItems)|..]) == []
  }

  /**
   A key hidden among the first `maxItems` of the window, a visible one beyond the candidates,
   and values that do not end the page before it has run through its candidates.
   */
  predicate Clogged(visible: Key -> bool, weigh: Key -> Weight, budget: Budget, window: seq<Key>) {
    var m := budget.maxItems;
    && |window| > m + 1 && !AllVisible(visible, window[..m]) && Visible(visible, window[m + 1..]) != []
    && ValuesFit(visible, weigh, budget, window[..m + 1])
  }

  /** Only a window longer than the candidates can hide a visible key from the page. */
  lemma TruthfulBeyond(visible: Key -> bool, window: seq<Key>, maxItems: nat, exhausted: bool)
    ensures Truthful(visible, window, maxItems, exhausted) <==>
      (exhausted && |window| > maxItems + 1 ==> Visible(visible, window[maxItems + 1..]) == [])
  {
    var c := Candidates(window, maxItems);
    if |window| <= maxItems + 1 {
      assert window[|c|..] == [];
    }
  }

  lemma ExhaustedIff(visible: Key -> bool, weigh: Key -> Weight, budget: Budget, window: seq<Key>)
    requires budget.maxItems > 0 && |window| > budget.maxItems + 1
    ensures PageFor(visible, weigh, budget, window).exhausted <==>
      !AllVisible(visible, window[..budget.maxItems]) && ValuesFit(visible, weigh, budget, window[..budget.maxItems + 1])
  {
    hide Fill, ValuesFit, Visible, AllVisible, CutShort, Overruns;
    PageTells(visible, weigh, budget, window);
    assert window[..budget.maxItems + 1][..budget.maxItems] == window[..budget.maxItems];
  }

  lemma ExhaustedShows(visible: Key -> bool, weigh: Key -> Weight, budget: Budget, window: seq<Key>)
    requires budget.maxItems > 0
    ensures var f := PageFor(visible, weigh, budget, window);
      Truthful(visible, window, budget.maxItems, f.exhausted) <==> (f.exhausted ==> f.entries == Visible(visible, window))
  {
    hide Fill, ValuesFit, Visible, AllVisible, CutShort, Overruns;
    PageTells(visible, weigh, budget, window);
    var c := Candidates(window, budget.maxItems);
    VisibleSplit(visible, window, |c|);
    assert window[..|c|] == c;
  }

  /**
   A page lies about being exhausted over the clogged windows and no others: there the
   visible keys past its candidates are never offered.
   */
  lemma TruthfulIff(visible: Key -> bool, weigh: Key -> Weight, budget: Budget, window: seq<Key>)
    requires budget.maxItems > 0
    ensures var f := PageFor(visible, weigh, budget, window);
      && (Truthful(visible, window, budget.maxItems, f.exhausted) <==> !Clogged(visible, weigh, budget, window))
      && (Truthful(visible, window, budget.maxItems, f.exhausted) <==>
            (f.exhausted ==> f.entries == Visible(visible, window)))
  {
    hide PageFor, ValuesFit, Visible, AllVisible, Truthful;
    var f := PageFor(visible, weigh, budget, window);
    TruthfulBeyond(visible, window, budget.maxItems, f.exhausted);
    ExhaustedShows(visible, weigh, budget, window);
    if |window| > budget.maxItems + 1 {
      ExhaustedIff(visible, weigh, budget, window);
    }
  }
}
