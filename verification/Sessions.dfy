/**
 Mutation identities of one session: the client's sequence allocator and acknowledgement
 floor, and the tablet's retained outcomes.
 */
module Sessions {
  const U64_MAX: nat := 0xFFFF_FFFF_FFFF_FFFF
  const SESSION_OUTCOME_CAP: nat := 1024

  /** One transmission: the identity's sequence, and the floor its call carries. */
  datatype Msg = Msg(seqno: nat, ack: nat)

  // ----- The client -----

  class SeqState {
    var next: nat
    var acked: nat
    var inFlight: set<nat>

    /** Everything at or below the floor was issued and is complete. */
    ghost predicate Valid()
      reads this
    {
      0 < next <= U64_MAX && acked < next && forall s | s in inFlight :: 0 < s < next
    }

    /** No live identity has fallen to the floor. */
    ghost predicate FloorSafe()
      reads this
    {
      forall s | s in inFlight :: acked < s
    }

    constructor ()
      ensures Valid() && FloorSafe() && next == 1 && acked == 0 && inFlight == {}
    {
      next, acked, inFlight := 1, 0, {};
    }

    /** A fresh identity, above every one issued before. */
    method Alloc() returns (msg: Msg, ok: bool)
      requires Valid()
      modifies this
      ensures Valid() && acked == old(acked) && (ok <==> old(next) < U64_MAX)
      ensures ok ==> msg == Msg(old(next), acked) && next == old(next) + 1 && inFlight == old(inFlight) + {old(next)}
      ensures ok ==> msg.seqno !in old(inFlight) && acked < msg.seqno
      ensures !ok ==> unchanged(this)
      ensures old(FloorSafe()) ==> FloorSafe()
    {
      if next == U64_MAX {
        return Msg(0, 0), false;
      }
      msg, ok := Msg(next, acked), true;
      next := next + 1;
      inFlight := inFlight + {msg.seqno};
    }

    /** A resumed identity. It keeps the floor safe exactly when it is above the floor. */
    method Adopt(seqno: nat) returns (msg: Msg, ok: bool)
      requires Valid() && seqno <= U64_MAX
      modifies this
      ensures Valid() && acked == old(acked) && (ok <==> 0 < seqno < U64_MAX)
      ensures ok ==> msg == Msg(seqno, acked) && inFlight == old(inFlight) + {seqno}
      ensures ok ==> next == if seqno >= old(next) then seqno + 1 else old(next)
      ensures !ok ==> unchanged(this)
      ensures ok && old(FloorSafe()) ==> (FloorSafe() <==> acked < seqno)
    {
      if seqno == 0 || seqno == U64_MAX {
        return Msg(0, 0), false;
      }
      inFlight := inFlight + {seqno};
      if seqno >= next {
        next := seqno + 1;
      }
      msg, ok := Msg(seqno, acked), true;
    }

    /** Moves the floor over everything issued that is no longer in flight, and no further. */
    method Complete(seqno: nat)
      requires Valid()
      modifies this
      ensures Valid() && next == old(next) && inFlight == old(inFlight) - {seqno} && acked >= old(acked)
      ensures forall s | old(acked) < s <= acked :: s !in inFlight
      ensures acked + 1 == next || acked + 1 in inFlight
      ensures old(FloorSafe()) ==> FloorSafe()
    {
      inFlight := inFlight - {seqno};
      while acked < U64_MAX
        invariant Valid() && next == old(next) && inFlight == old(inFlight) - {seqno} && acked >= old(acked)
        invariant forall s | old(acked) < s <= acked :: s !in inFlight
        decreases next - acked
      {
        var candidate := acked + 1;
        if candidate >= next || candidate in inFlight {
          break;
        }
        acked := candidate;
      }
    }
  }

  // ----- The tablet -----

  /** A session's floor and the commit position of each retained outcome. */
  datatype Dedup = Dedup(known: bool, floor: nat, outcomes: map<nat, nat>)

  const Unknown := Dedup(false, 0, map[])

  datatype Gate = Admit | Hit(commit: nat) | Expired | Overloaded

  function Max(a: nat, b: nat): nat {
    if a <= b then b else a
  }

  /** `check_identity`: a session never seen here is admitted whatever its floor. */
  function Check(d: Dedup, m: Msg): Gate {
    if !d.known then Admit
    else if m.seqno <= Max(d.floor, m.ack) then Expired
    else if m.seqno in d.outcomes then Hit(d.outcomes[m.seqno])
    else if |d.outcomes| >= SESSION_OUTCOME_CAP then Overloaded
    else Admit
  }

  /** `advance_floor` */
  function Advanced(d: Dedup, ack: nat): Dedup {
    if ack > d.floor then Dedup(d.known, ack, map s | s in d.outcomes && s > ack :: d.outcomes[s]) else d
  }

  /** Applying one commit: install its outcome, then advance the floor. */
  function Applied(d: Dedup, m: Msg, commit: nat): Dedup {
    Advanced(Dedup(true, d.floor, d.outcomes[m.seqno := commit]), m.ack)
  }

  /** The state after the first `n` commits of a log. */
  function Folded(log: seq<Msg>, n: nat): Dedup
    requires n <= |log|
  {
    if n == 0 then Unknown else Applied(Folded(log, n - 1), log[n - 1], n - 1)
  }

  class SessionDedup {
    var known: bool
    var floor: nat
    var outcomes: map<nat, nat>

    function View(): Dedup
      reads this
    {
      Dedup(known, floor, outcomes)
    }

    constructor ()
      ensures View() == Unknown
    {
      known, floor, outcomes := false, 0, map[];
    }

    /**
     The floor only rises, and drops exactly the outcomes it passes: what was expired stays
     expired, and an outcome above the acknowledgement is still answered.
     */
    method AdvanceFloor(ack: nat)
      modifies this
      ensures View() == Advanced(old(View()), ack)
      ensures known == old(known) && floor == Max(old(floor), ack)
      ensures forall m: Msg :: Check(old(View()), m).Expired? ==> Check(View(), m).Expired?
      ensures forall m: Msg :: Check(old(View()), m).Hit? && m.seqno > ack ==> Check(View(), m) == Check(old(View()), m)
    {
      if ack > floor {
        floor := ack;
        outcomes := map s | s in outcomes && s > ack :: outcomes[s];
      }
    }

    /**
     Commits one identity: the tablet goes on remembering everything it executed, the new one
     included, so no retry of it is admitted again.
     */
    method Commit(m: Msg, commit: nat, ghost log: seq<Msg>)
      requires Remembers(View(), log) && commit == |log|
      modifies this
      ensures View() == Applied(old(View()), m, commit) && Remembers(View(), log + [m])
      ensures forall ack: nat :: var gate := Check(View(), Msg(m.seqno, ack)); gate.Expired? || gate == Hit(commit)
    {
      ApplyRemembers(View(), log, m);
      known := true;
      outcomes := outcomes[m.seqno := commit];
      AdvanceFloor(m.ack);
    }

    /** Checkpoint restore, then the log's tail: the very state the running tablet held. */
    method Restore(saved: Dedup, ghost log: seq<Msg>, cut: nat, tail: seq<Msg>)
      requires cut <= |log| && tail == log[cut..] && saved == Folded(log, cut) && WellFormed(saved)
      modifies this
      ensures View() == Folded(log, |log|)
    {
      hide Remembers, Applied, Check;
      known, floor, outcomes := saved.known, 0, map[];
      AdvanceFloor(saved.floor);
      outcomes := saved.outcomes;
      var i := 0;
      while i < |tail|
        invariant 0 <= i <= |tail| && View() == Folded(log, cut + i)
      {
        FoldRemembers(log, cut + i);
        Commit(tail[i], cut + i, log[..cut + i]);
        i := i + 1;
      }
    }
  }

  /** What the checkpoint builder insists on: outcomes strictly above the floor. */
  predicate WellFormed(d: Dedup) {
    forall s | s in d.outcomes :: s > d.floor
  }

  // ----- What the retained state remembers -----

  /** An executed identity is retained at its own commit, or lies at or below the floor. */
  predicate Remembers(d: Dedup, log: seq<Msg>) {
    && (d.known <==> log != [])
    && (forall i | 0 <= i < |log| :: log[i].seqno in d.outcomes || log[i].seqno <= d.floor)
    && (forall s | s in d.outcomes :: d.outcomes[s] < |log| && log[d.outcomes[s]].seqno == s)
  }

  lemma {:induction false} FoldRemembers(log: seq<Msg>, n: nat)
    requires n <= |log|
    ensures Remembers(Folded(log, n), log[..n])
    decreases n
  {
    if n > 0 {
      FoldRemembers(log, n - 1);
      var d := Folded(log, n - 1);
      assert log[..n] == log[..n - 1] + [log[n - 1]];
      ApplyRemembers(d, log[..n - 1], log[n - 1]);
    }
  }

  lemma ApplyRemembers(d: Dedup, log: seq<Msg>, m: Msg)
    requires Remembers(d, log)
    ensures Remembers(Applied(d, m, |log|), log + [m])
  {
    var d', log' := Applied(d, m, |log|), log + [m];
    forall i | 0 <= i < |log'|
      ensures log'[i].seqno in d'.outcomes || log'[i].seqno <= d'.floor
    {
      if i < |log| {
        assert log'[i] == log[i];
      }
    }
  }

  lemma {:induction false} FoldPrefix(log: seq<Msg>, more: seq<Msg>, n: nat)
    requires n <= |log|
    ensures Folded(log + more, n) == Folded(log, n)
    decreases n
  {
    if n > 0 {
      FoldPrefix(log, more, n - 1);
    }
  }

  predicate Distinct(log: seq<Msg>) {
    forall i, j | 0 <= i < j < |log| :: log[i].seqno != log[j].seqno
  }

  /** An identity the gate admits has never executed here. */
  lemma AdmitIsFresh(log: seq<Msg>, m: Msg)
    requires Check(Folded(log, |log|), m).Admit?
    ensures forall i | 0 <= i < |log| :: log[i].seqno != m.seqno
  {
    FoldRemembers(log, |log|);
    assert log[..|log|] == log;
  }

  /** A retry answered from the retained outcomes gets the outcome of its own execution. */
  lemma HitIsItsOwn(log: seq<Msg>, m: Msg)
    requires Check(Folded(log, |log|), m).Hit?
    ensures var c := Check(Folded(log, |log|), m).commit; c < |log| && log[c].seqno == m.seqno
  {
    FoldRemembers(log, |log|);
    assert log[..|log|] == log;
  }

  // ----- When the checkpoint builder accepts the state -----

  /** The highest acknowledgement among the first `n` commits. */
  function Acknowledged(log: seq<Msg>, n: nat): nat
    requires n <= |log|
  {
    if n == 0 then 0 else Max(Acknowledged(log, n - 1), log[n - 1].ack)
  }

  /**
   Each identity was committed above every acknowledgement before it, or its own or a later
   commit acknowledges more than those did.
   */
  ghost predicate Settled(log: seq<Msg>, n: nat)
    requires n <= |log|
  {
    forall i | 0 <= i < n :: log[i].seqno > Acknowledged(log, i) || Passed(log, i, n)
  }

  ghost predicate Passed(log: seq<Msg>, i: nat, n: nat)
    requires i <= n <= |log|
  {
    exists j | i <= j < n :: log[j].ack > Acknowledged(log, i)
  }

  lemma {:induction false} FloorIsTheHighest(log: seq<Msg>, n: nat)
    requires n <= |log|
    ensures Folded(log, n).floor == Acknowledged(log, n)
    decreases n
  {
    if n > 0 {
      FloorIsTheHighest(log, n - 1);
    }
  }

  /** The highest acknowledgement moves only by a commit that acknowledges more. */
  lemma {:induction false} PassedIff(log: seq<Msg>, i: nat, n: nat)
    requires i <= n <= |log|
    ensures Acknowledged(log, i) <= Acknowledged(log, n)
    ensures Passed(log, i, n) <==> Acknowledged(log, i) < Acknowledged(log, n)
    decreases n - i
  {
    if i < n {
      PassedIff(log, i, n - 1);
      if Passed(log, i, n - 1) {
        var j :| i <= j < n - 1 && log[j].ack > Acknowledged(log, i);
        assert Passed(log, i, n);
      }
      assert log[n - 1].ack > Acknowledged(log, i) ==> Passed(log, i, n);
    }
  }

  predicate Cleared(log: seq<Msg>, i: nat, n: nat)
    requires i < |log| && n <= |log|
  {
    log[i].seqno > Acknowledged(log, i) || Acknowledged(log, i) < Acknowledged(log, n)
  }

  lemma SettledMeans(log: seq<Msg>, n: nat)
    requires n <= |log|
    ensures Settled(log, n) <==> forall i | 0 <= i < n :: Cleared(log, i, n)
  {
    hide Passed, Acknowledged;
    forall i | 0 <= i < n
      ensures Cleared(log, i, n) <==> log[i].seqno > Acknowledged(log, i) || Passed(log, i, n)
    {
      PassedIff(log, i, n);
    }
  }

  lemma ClearedStep(log: seq<Msg>, i: nat, n: nat)
    requires i <= n < |log|
    ensures log[n].ack > Acknowledged(log, n) ==> Cleared(log, i, n + 1)
    ensures log[n].ack <= Acknowledged(log, n) ==> (Cleared(log, i, n + 1) <==> Cleared(log, i, n))
    ensures log[n].ack <= Acknowledged(log, n) && i == n ==> (Cleared(log, i, n + 1) <==> log[n].seqno > Acknowledged(log, n))
  {
    assert Acknowledged(log, n + 1) == Max(Acknowledged(log, n), log[n].ack);
    hide Acknowledged;
    PassedIff(log, i, n);
  }

  lemma SettledStep(log: seq<Msg>, n: nat)
    requires n < |log|
    ensures Settled(log, n + 1) <==>
      log[n].ack > Acknowledged(log, n) || (log[n].seqno > Acknowledged(log, n) && Settled(log, n))
  {
    hide Settled, Acknowledged, Cleared;
    SettledMeans(log, n);
    SettledMeans(log, n + 1);
    ClearedStep(log, n, n);
    if Settled(log, n + 1) {
      assert Cleared(log, n, n + 1);
      if log[n].ack <= Acknowledged(log, n) {
        forall i | 0 <= i < n
          ensures Cleared(log, i, n)
        {
          assert Cleared(log, i, n + 1);
          ClearedStep(log, i, n);
        }
      }
    } else {
      var i :| 0 <= i < n + 1 && !Cleared(log, i, n + 1);
      ClearedStep(log, i, n);
      assert i == n || !Cleared(log, i, n);
    }
  }

  lemma AppliedWellFormedIff(d: Dedup, m: Msg, commit: nat)
    ensures WellFormed(Applied(d, m, commit)) <==> m.ack > d.floor || (m.seqno > d.floor && WellFormed(d))
  {
    var installed := d.outcomes[m.seqno := commit];
    assert m.seqno in installed;
    assert forall s | s in d.outcomes :: s in installed;
  }

  lemma NothingIsSettled(log: seq<Msg>)
    ensures Settled(log, 0) && WellFormed(Unknown)
  {
  }

  /** A tablet's state is one the checkpoint builder accepts exactly when its log is settled. */
  lemma {:induction false} WellFormedIff(log: seq<Msg>, n: nat)
    requires n <= |log|
    ensures WellFormed(Folded(log, n)) <==> Settled(log, n)
    decreases n
  {
    hide Settled, Applied, WellFormed, Acknowledged;
    if n == 0 {
      NothingIsSettled(log);
    } else {
      WellFormedIff(log, n - 1);
      FloorIsTheHighest(log, n - 1);
      SettledStep(log, n - 1);
      AppliedWellFormedIff(Folded(log, n - 1), log[n - 1], n - 1);
    }
  }
}
