/** Byte-string keys in lexicographic order, and positions in a sorted key list. */
module Keys {
  import opened Options
  import opened LittleEndian

  type Key = seq<byte>

  predicate Less(a: Key, b: Key) {
    b != [] && (a == [] || a[0] < b[0] || (a[0] == b[0] && Less(a[1..], b[1..])))
  }

  lemma {:induction false} LessTransitive(a: Key, b: Key, c: Key)
    requires Less(a, b) && Less(b, c)
    ensures Less(a, c)
    decreases |a|
  {
    if a != [] && a[0] == b[0] == c[0] {
      LessTransitive(a[1..], b[1..], c[1..]);
    }
  }

  lemma {:induction false} LessIrreflexive(a: Key)
    ensures !Less(a, a)
    decreases |a|
  {
    if a != [] {
      LessIrreflexive(a[1..]);
    }
  }

  lemma {:induction false} LessTotal(a: Key, b: Key)
    ensures Less(a, b) || a == b || Less(b, a)
    decreases |a|
  {
    if a != [] && b != [] && a[0] == b[0] {
      LessTotal(a[1..], b[1..]);
      if a[1..] == b[1..] {
        assert a == [a[0]] + a[1..] && b == [b[0]] + b[1..];
      }
    }
  }

  /** `key_successor` */
  function Successor(k: Key): Key {
    k + [0]
  }

  /** The successor is the least key above `k`: exactly `k` and what lies below it are below the successor. */
  lemma {:induction false} SuccessorIsLeast(k: Key, m: Key)
    ensures Less(m, Successor(k)) <==> m == k || Less(m, k)
    decreases |k|
  {
    if k == [] {
      if m != [] {
        LessIrreflexive([]);
        assert !Less(m[1..], []);
      }
    } else if m != [] {
      assert Successor(k)[1..] == Successor(k[1..]) && Successor(k)[0] == k[0];
      SuccessorIsLeast(k[1..], m[1..]);
      if m[0] == k[0] && m[1..] == k[1..] {
        assert m == [m[0]] + m[1..] && k == [k[0]] + k[1..];
      }
    }
  }

  predicate Sorted(keys: seq<Key>) {
    forall i, j | 0 <= i < j < |keys| :: Less(keys[i], keys[j])
  }

  /** How many of the sorted keys lie below a bound. */
  function Rank(keys: seq<Key>, b: Key): (n: nat)
    ensures n <= |keys|
  {
    if keys == [] || !Less(keys[0], b) then 0 else 1 + Rank(keys[1..], b)
  }

  lemma {:induction false} RankSplits(keys: seq<Key>, b: Key, i: nat)
    requires Sorted(keys) && i < |keys|
    ensures Less(keys[i], b) <==> i < Rank(keys, b)
    decreases |keys|
  {
    if Less(keys[0], b) {
      if i > 0 {
        RankSplits(keys[1..], b, i - 1);
      }
    } else if i > 0 && Less(keys[i], b) {
      LessTransitive(keys[0], keys[i], b);
    }
  }

  lemma RankMonotone(keys: seq<Key>, a: Key, b: Key)
    requires Sorted(keys) && !Less(b, a)
    ensures Rank(keys, a) <= Rank(keys, b)
  {
    var i := Rank(keys, b);
    if i < Rank(keys, a) {
      RankSplits(keys, a, i);
      RankSplits(keys, b, i);
      LessTotal(a, b);
      if Less(a, b) {
        LessTransitive(keys[i], a, b);
      }
    }
  }

  lemma RankOfKey(keys: seq<Key>, i: nat)
    requires Sorted(keys) && i < |keys|
    ensures Rank(keys, keys[i]) == i && Rank(keys, Successor(keys[i])) == i + 1
  {
    var k := keys[i];
    var r, s := Rank(keys, k), Rank(keys, Successor(k));
    LessIrreflexive(k);
    RankSplits(keys, k, i);
    SuccessorIsLeast(k, k);
    RankSplits(keys, Successor(k), i);
    if r < i {
      RankSplits(keys, k, r);
    }
    if s > i + 1 {
      RankSplits(keys, Successor(k), i + 1);
      SuccessorIsLeast(k, keys[i + 1]);
      assert Less(k, keys[i + 1]);
      if Less(keys[i + 1], k) {
        LessTransitive(k, keys[i + 1], k);
      }
    }
  }

  lemma RankOfEmpty(keys: seq<Key>)
    ensures Rank(keys, []) == 0
  {
  }

  /** Positions of optional bounds: no lower bound is the first key, no upper bound past the last. */
  function LowerRank(keys: seq<Key>, b: Option<Key>): (n: nat)
    ensures n <= |keys|
  {
    if b.Some? then Rank(keys, b.value) else 0
  }

  function UpperRank(keys: seq<Key>, b: Option<Key>): (n: nat)
    ensures n <= |keys|
  {
    if b.Some? then Rank(keys, b.value) else |keys|
  }

  function Reversed(s: seq<Key>): (r: seq<Key>)
    ensures |r| == |s|
  {
    seq(|s|, i requires 0 <= i < |s| => s[|s| - 1 - i])
  }
}
