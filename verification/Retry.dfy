/**
 The retry loop of one client call, against any network: redirects that make progress or do
 not, overload, dead members, broken and silent connections.
 */
module Retry {
  import opened Options
  import opened Sessions
  import opened Keys

  const MAX_STALE_REPEATS: nat := 12
  const RANGE_REBASE_RETRIES: nat := 12
  const MAX_RECONNECTS: nat := 2

  type Endpoint = int

  datatype Status =
    | Done
    | Redirected(tablet: nat, target: Endpoint, version: nat)
    | Bare
    | Overloaded(rebase: bool)
    | Terminal

  /** How one hop ends. A refused dial transmits nothing; the rest were transmitted. */
  datatype Reply =
    | Refused
    | Broken(dedup: bool)
    | Silent(dedup: bool)
    | Failed
    | Answered(status: Status)

  /** What the network does at one hop: the cached route, and the reply. */
  datatype Hop = Hop(cached: Option<Endpoint>, reply: Reply)

  type Network = nat -> Hop

  datatype Outcome = Response(status: Status) | TooManyRedirects | AllFailed | Ambiguous | OtherError

  /** One hop of a call: what was addressed where, and how it ended. */
  datatype Sent = Sent(msg: Msg, endpoint: Endpoint, reply: Reply)

  datatype Config = Config(seeds: seq<Endpoint>, maxRedirects: nat, deliveryRetries: nat)

  /** Every endpoint that can ever be named lies in a finite set. */
  ghost predicate Within(members: set<Endpoint>, c: Config, net: Network) {
    && (forall e | e in c.seeds :: e in members)
    && (forall n: nat :: Named(members, net(n)))
  }

  predicate Named(members: set<Endpoint>, h: Hop) {
    && (h.cached.Some? ==> h.cached.value in members)
    && (h.reply.Answered? && h.reply.status.Redirected? ==> h.reply.status.target in members)
  }

  // ----- Seed rotation -----

  lemma Rotation(cursor: nat, len: nat, j: nat) returns (i: nat)
    requires j < len
    ensures i < len && (cursor + i) % len == j
  {
    var c := cursor % len;
    i := if j >= c then j - c else j + len - c;
    assert cursor == len * (cursor / len) + c;
    if j >= c {
      ModOf(cursor + i, len, cursor / len, j);
    } else {
      ModOf(cursor + i, len, cursor / len + 1, j);
    }
  }

  lemma ModOf(n: nat, len: nat, q: nat, j: nat)
    requires j < len && n == len * q + j
    ensures n % len == j
  {
    var d := n / len;
    assert n == len * d + n % len;
    assert d < q ==> len * (d + 1) <= len * q;
    assert d > q ==> len * (q + 1) <= len * d;
  }

  function SeedAt(seeds: seq<Endpoint>, position: nat): Endpoint
    requires seeds != []
  {
    seeds[position % |seeds|]
  }

  /** The next untried seed from the cursor on; none only when every seed was tried. */
  method NextSeed(seeds: seq<Endpoint>, tried: set<Endpoint>, cursor: nat) returns (pick: Option<Endpoint>, cursor': nat)
    ensures pick.Some? ==> pick.value in seeds && pick.value !in tried
    ensures pick.None? ==> forall e | e in seeds :: e in tried
  {
    hide SeedAt;
    cursor' := cursor;
    while cursor' < cursor + |seeds|
      invariant cursor <= cursor' <= cursor + |seeds|
      invariant forall k | cursor <= k < cursor' :: SeedAt(seeds, k) in tried
    {
      var candidate := SeedAt(seeds, cursor');
      cursor' := cursor' + 1;
      if candidate !in tried {
        SeedIsSeed(seeds, cursor' - 1);
        return Some(candidate), cursor';
      }
    }
    pick := None;
    forall e | e in seeds
      ensures e in tried
    {
      var k := SeedReached(seeds, cursor, e);
    }
  }

  lemma SeedIsSeed(seeds: seq<Endpoint>, position: nat)
    requires seeds != []
    ensures SeedAt(seeds, position) in seeds
  {
  }

  /** One turn of the rotation meets every seed. */
  lemma SeedReached(seeds: seq<Endpoint>, cursor: nat, e: Endpoint) returns (k: nat)
    requires e in seeds
    ensures cursor <= k < cursor + |seeds| && SeedAt(seeds, k) == e
  {
    var j :| 0 <= j < |seeds| && seeds[j] == e;
    var i := Rotation(cursor, |seeds|, j);
    k := cursor + i;
  }

  // ----- Redirect progress -----

  datatype Knowledge = Knowledge(visited: set<(nat, Endpoint, nat)>, tablets: set<nat>, version: nat)

  /** A redirect is progress when routing knowledge improves. */
  predicate Progress(k: Knowledge, tablet: nat, target: Endpoint, version: nat) {
    && (tablet, target, version) !in k.visited
    && (version > k.version || (version == k.version && tablet !in k.tablets) || k.version == 0)
  }

  /** Routing knowledge after one answer. */
  function Learned(k: Knowledge, r: Reply): Knowledge {
    if r.Answered? && r.status.Redirected? && Progress(k, r.status.tablet, r.status.target, r.status.version) then
      Knowledge(k.visited + {(r.status.tablet, r.status.target, r.status.version)}, k.tablets + {r.status.tablet},
                Max(k.version, r.status.version))
    else k
  }

  const Ignorant := Knowledge({}, {}, 0)

  /** Routing knowledge after the hops of a trace. */
  function Known(trace: seq<Sent>): Knowledge {
    if trace == [] then Ignorant else Learned(Known(trace[..|trace| - 1]), trace[|trace| - 1].reply)
  }

  /** The hop was answered with a redirect that improved routing knowledge. */
  predicate Improves(trace: seq<Sent>, i: nat)
    requires i < |trace|
  {
    var r := trace[i].reply;
    r.Answered? && r.status.Redirected? && Progress(Known(trace[..i]), r.status.tablet, r.status.target, r.status.version)
  }

  /** Every redirect that is progress, to an endpoint the call had not dialed, is followed by the next hop. */
  ghost predicate Followed(trace: seq<Sent>) {
    forall i | 0 <= i < |trace| - 1 && Improves(trace, i) && Undialed(trace[..i + 1], trace[i].reply.status.target) ::
      trace[i + 1].endpoint == trace[i].reply.status.target
  }

  predicate Undialed(trace: seq<Sent>, e: Endpoint) {
    forall i | 0 <= i < |trace| :: trace[i].endpoint != e
  }

  // ----- The loop -----

  /** How much retrying is left. */
  function Left(c: Config, untried: nat, redirects: nat, stale: nat, rebase: nat, reconnects: nat): int {
    13 * (c.maxRedirects + 1 - redirects) + (MAX_STALE_REPEATS - stale) + 3 * untried
    + (MAX_RECONNECTS - reconnects) + (RANGE_REBASE_RETRIES - rebase)
  }

  function Bound(c: Config, members: set<Endpoint>): nat {
    13 * (c.maxRedirects + 1) + 3 * |members| + 26
  }

  /** An answer that says the request was not executed here. */
  predicate Bounced(r: Reply) {
    r.Answered? && (r.status.Redirected? || r.status.Bare? || r.status.Overloaded?)
  }

  /** A hop that may be followed by another transmission of the same call. */
  predicate Retryable(mutating: bool, r: Reply) {
    r.Refused? || Bounced(r) || (r.Broken? && (!mutating || r.dedup)) || (r.Silent? && mutating && r.dedup)
  }

  /** A transmission whose effect the client does not know. */
  predicate Unknowable(r: Reply) {
    r.Broken? || r.Silent?
  }

  ghost predicate AnySilent(trace: seq<Sent>) {
    exists i | 0 <= i < |trace| :: trace[i].reply.Silent?
  }

  ghost predicate AllRetryable(mutating: bool, trace: seq<Sent>) {
    forall i | 0 <= i < |trace| :: Retryable(mutating, trace[i].reply)
  }

  /** Dead and silent members are not dialed again in the same call. */
  predicate GivesUp(r: Reply) {
    r.Refused? || r.Silent?
  }

  /** One identity and floor throughout, the network's own replies, and nobody redialed who was given up. */
  ghost predicate Trail(net: Network, msg: Msg, trace: seq<Sent>) {
    && (forall i | 0 <= i < |trace| :: trace[i].msg == msg && trace[i].reply == net(i).reply)
    && (forall i, j | 0 <= i < j < |trace| && GivesUp(trace[i].reply) :: trace[j].endpoint != trace[i].endpoint)
  }

  /** Whom the call has given up, and that it dialed each of them. */
  ghost predicate Dialed(tried: set<Endpoint>, trace: seq<Sent>) {
    && (forall i | 0 <= i < |trace| && GivesUp(trace[i].reply) :: trace[i].endpoint in tried)
    && (forall e | e in tried :: exists i | 0 <= i < |trace| :: trace[i].endpoint == e)
  }

  /** Every connection breaks after the request went out, on servers with durable dedup. */
  ghost predicate AllBroken(net: Network) {
    forall n: nat :: net(n) == Hop(None, Broken(true))
  }

  /** One transmission stays unanswered, and then every member only says it is not the one. */
  ghost predicate SilentThenBare(net: Network) {
    net(0) == Hop(None, Silent(true)) && forall n: nat | n > 0 :: net(n) == Hop(None, Answered(Bare))
  }

  /** Two different seeds, and at least one redelivery allowed. */
  ghost predicate CanMask(c: Config, mutating: bool, net: Network) {
    mutating && SilentThenBare(net) && c.deliveryRetries > 0 && exists a, b :: a in c.seeds && b in c.seeds && a != b
  }

  lemma TriedShrinks(members: set<Endpoint>, tried: set<Endpoint>, e: Endpoint)
    ensures |members - (tried + {e})| <= |members - tried|
    ensures e in members && e !in tried ==> |members - (tried + {e})| == |members - tried| - 1
  {
    assert members - (tried + {e}) == (members - tried) - {e};
  }

  /** The counters a bounced answer moves. */
  datatype Counters = Counters(redirects: nat, stale: nat, rebase: nat, streak: nat, tried: set<Endpoint>, known: Knowledge,
                               follow: Option<Endpoint>)

  predicate InRange(c: Config, n: Counters) {
    n.redirects <= c.maxRedirects + 1 && n.stale <= MAX_STALE_REPEATS && n.rebase <= RANGE_REBASE_RETRIES
  }

  ghost function LeftOf(c: Config, members: set<Endpoint>, n: Counters, reconnects: nat): int {
    Left(c, |members - n.tried|, n.redirects, n.stale, n.rebase, reconnects)
  }

  predicate IsProgress(n: Counters, s: Status) {
    s.Redirected? && Progress(n.known, s.tablet, s.target, s.version)
  }

  /** Waited out without spending the redirect budget: a short stale streak, or a range that is being rebased. */
  predicate Waits(n: Counters, s: Status) {
    || (s.Redirected? && !IsProgress(n, s) && n.stale < MAX_STALE_REPEATS)
    || (s.Overloaded? && s.rebase && n.rebase < RANGE_REBASE_RETRIES)
  }

  /** The answer that ends a streak: a stale redirect too many, or the third overload in a row. */
  predicate Condemns(n: Counters, s: Status) {
    !Waits(n, s) && ((s.Redirected? && !IsProgress(n, s)) || (s.Overloaded? && n.streak >= 2))
  }

  /** Reacts to a redirect or an overload: whatever it was, less retrying is left. */
  method Bounce(c: Config, endpoint: Endpoint, status: Status, n: Counters, ghost members: set<Endpoint>, ghost reconnects: nat)
    returns (n': Counters)
    requires InRange(c, n) && n.redirects <= c.maxRedirects && Bounced(Answered(status)) && n.follow.None?
    requires status.Redirected? ==> status.target in members
    ensures InRange(c, n') && LeftOf(c, members, n', reconnects) < LeftOf(c, members, n, reconnects)
    ensures n'.redirects == n.redirects + if Waits(n, status) then 0 else 1
    ensures n'.follow == if IsProgress(n, status) then Some(status.target) else None
    ensures n'.tried == n.tried + if Condemns(n, status) then {endpoint} else {}
    ensures n'.known == Learned(n.known, Answered(status))
    ensures IsProgress(n, status) ==> !Progress(n'.known, status.tablet, status.target, status.version)
  {
    TriedShrinks(members, n.tried, endpoint);
    match status
    case Bare => n' := n.(streak := 0, stale := 0, redirects := n.redirects + 1);
    case Redirected(tablet, target, version) =>
      if Progress(n.known, tablet, target, version) {
        var known := Knowledge(n.known.visited + {(tablet, target, version)}, n.known.tablets + {tablet},
                               Max(n.known.version, version));
        n' := n.(streak := 0, stale := 0, redirects := n.redirects + 1, known := known, follow := Some(target));
      } else if n.stale + 1 > MAX_STALE_REPEATS {
        n' := n.(streak := 0, stale := 0, redirects := n.redirects + 1, tried := n.tried + {endpoint});
      } else {
        n' := n.(streak := 0, stale := n.stale + 1);
      }
    case Overloaded(isRebase) =>
      if isRebase && n.rebase < RANGE_REBASE_RETRIES {
        n' := n.(rebase := n.rebase + 1);
      } else if n.streak + 1 >= 3 {
        n' := n.(redirects := n.redirects + 1, streak := 0, tried := n.tried + {endpoint});
      } else {
        n' := n.(redirects := n.redirects + 1, streak := n.streak + 1);
      }
  }

  /** Every hop uses up retrying: giving up its endpoint, reconnecting, or just having been made. */
  lemma Spends(c: Config, members: set<Endpoint>, n: Counters, endpoint: Endpoint, reconnects: nat)
    requires endpoint in members && endpoint !in n.tried && reconnects <= MAX_RECONNECTS && InRange(c, n)
    ensures var m := n.(follow := None);
      var fewer := m.(tried := m.tried + {endpoint});
      && LeftOf(c, members, m, reconnects) == LeftOf(c, members, n, reconnects) >= 1
      && LeftOf(c, members, fewer, reconnects) < LeftOf(c, members, n, reconnects)
      && LeftOf(c, members, fewer, 0) < LeftOf(c, members, n, reconnects)
      && LeftOf(c, members, m, reconnects + 1) < LeftOf(c, members, n, reconnects)
  {
    TriedShrinks(members, n.tried, endpoint);
  }

  lemma TraceGrows(net: Network, mutating: bool, msg: Msg, trace: seq<Sent>, sent: Sent, tried: set<Endpoint>)
    requires sent.msg == msg && sent.reply == net(|trace|).reply && Trail(net, msg, trace) && Dialed(tried, trace)
    requires AllRetryable(mutating, trace) && sent.endpoint !in tried
    ensures AnySilent(trace + [sent]) <==> AnySilent(trace) || sent.reply.Silent?
    ensures Trail(net, msg, trace + [sent]) && (trace + [sent])[..|trace|] == trace && (trace + [sent])[|trace|] == sent
    ensures Retryable(mutating, sent.reply) ==> AllRetryable(mutating, trace + [sent])
    ensures Dialed(tried + {sent.endpoint}, trace + [sent])
    ensures !GivesUp(sent.reply) ==> Dialed(tried, trace + [sent])
  {
    var longer := trace + [sent];
    assert forall i | 0 <= i < |trace| :: longer[i] == trace[i];
    assert longer[|trace|] == sent;
    forall e | e in tried + {sent.endpoint}
      ensures exists i | 0 <= i < |longer| :: longer[i].endpoint == e
    {
      if e in tried {
        var i :| 0 <= i < |trace| && trace[i].endpoint == e;
        assert longer[i].endpoint == e;
      }
    }
  }

  lemma HopAt(c: Config, members: set<Endpoint>, net: Network, n: nat)
    requires Within(members, c, net)
    ensures Named(members, net(n)) && (forall e | e in c.seeds :: e in members)
  {
  }

  /** Where the next hop goes: a fresh redirect, the cached route, or an untried seed. */
  method Route(c: Config, n: Counters, cached: Option<Endpoint>, cursor: nat) returns (pick: Option<Endpoint>, cursor': nat)
    ensures pick.Some? ==> pick.value !in n.tried && (pick == n.follow || pick == cached || pick.value in c.seeds)
    ensures n.follow.Some? && n.follow.value !in n.tried ==> pick == n.follow
    ensures n.follow.None? && cached.Some? && cached.value !in n.tried ==> pick == cached
    ensures pick.None? ==> forall e | e in c.seeds :: e in n.tried
  {
    if n.follow.Some? && n.follow.value !in n.tried {
      return n.follow, cursor;
    }
    if cached.Some? && cached.value !in n.tried {
      return cached, cursor;
    }
    pick, cursor' := NextSeed(c.seeds, n.tried, cursor);
  }

  /** Where a reply ends the call, what it ends with. */
  predicate EndsWith(mutating: bool, r: Reply, o: Outcome) {
    match o
    case Response(status) => r == Answered(status) && (status.Done? || status.Terminal?)
    case Ambiguous => mutating && Unknowable(r)
    case OtherError => r.Failed? || (r.Silent? && !mutating)
    case _ => false
  }

  /** Reacts to one reply: an end, or less retrying left. */
  method React(c: Config, mutating: bool, endpoint: Endpoint, reply: Reply, n: Counters, reconnects: nat, deliveries: nat,
               ghost members: set<Endpoint>)
    returns (end: Option<Outcome>, n': Counters, reconnects': nat, deliveries': nat)
    requires InRange(c, n) && n.redirects <= c.maxRedirects && reconnects <= MAX_RECONNECTS
    requires endpoint in members && endpoint !in n.tried && Named(members, Hop(None, reply))
    ensures end.Some? ==> EndsWith(mutating, reply, end.value)
    ensures end.None? ==> Retryable(mutating, reply) && InRange(c, n') && reconnects' <= MAX_RECONNECTS
    ensures end.None? ==> LeftOf(c, members, n', reconnects') < LeftOf(c, members, n, reconnects)
    ensures end.None? ==> n'.redirects <= n.redirects + 1 && (n'.follow.Some? ==> n'.follow.value in members)
    ensures end.None? ==> n'.tried == n.tried + {endpoint} || (n'.tried == n.tried && !GivesUp(reply))
    ensures end.None? ==> n'.known == Learned(n.known, reply)
    ensures end.None? && reply.Answered? && IsProgress(n, reply.status) ==> n'.follow == Some(reply.status.target)
    ensures reply == Broken(true) ==> end.None? && n'.redirects == n.redirects && n'.follow.None?
    ensures reply == Answered(Bare) ==> end.None? && n'.redirects == n.redirects + 1 && n'.follow.None? && n'.tried == n.tried
    ensures reply == Silent(true) && mutating && deliveries < c.deliveryRetries ==>
      end.None? && n'.redirects == n.redirects && n'.follow.None? && n'.tried == n.tried + {endpoint}
    ensures reply.Answered? && reply.status.Redirected? && n == Unspent ==>
      end.None? && n'.follow == Some(reply.status.target) && n'.tried == {}
  {
    hide LeftOf;
    Spends(c, members, n, endpoint, reconnects);
    end, n', reconnects', deliveries' := None, n.(follow := None), reconnects, deliveries;
    match reply
    case Refused => n' := n'.(tried := n'.tried + {endpoint});
    case Broken(dedup) =>
      if mutating && !dedup {
        end := Some(Ambiguous);
      } else if reconnects < MAX_RECONNECTS {
        reconnects' := reconnects + 1;
      } else {
        n', reconnects' := n'.(tried := n'.tried + {endpoint}), 0;
      }
    case Silent(dedup) =>
      if !mutating {
        end := Some(OtherError);
      } else if !dedup || deliveries >= c.deliveryRetries {
        end := Some(Ambiguous);
      } else {
        deliveries', n' := deliveries + 1, n'.(tried := n'.tried + {endpoint});
      }
    case Failed => end := Some(OtherError);
    case Answered(status) =>
      if status.Done? || status.Terminal? {
        end := Some(Response(status));
      } else {
        n' := Bounce(c, endpoint, status, n', members, reconnects);
      }
  }

  const Unspent := Counters(0, 0, 0, 0, {}, Ignorant, None)

  /** What the outcome of a call says of the hops it made. */
  ghost predicate Truthful(c: Config, mutating: bool, msg: Msg, net: Network, o: Outcome, trace: seq<Sent>) {
    && Trail(net, msg, trace) && (trace != [] ==> AllRetryable(mutating, trace[..|trace| - 1]))
    && (o.Response? || o.OtherError? ==> trace != [] && EndsWith(mutating, trace[|trace| - 1].reply, o))
    && (o.TooManyRedirects? ==> |trace| > c.maxRedirects && AllRetryable(mutating, trace))
    && (o.AllFailed? ==> AllRetryable(mutating, trace) && (mutating ==> !AnySilent(trace)) && SeedsTried(c, trace))
    && (o.Ambiguous? ==> mutating && trace != [] && (AnySilent(trace) || Unknowable(trace[|trace| - 1].reply)))
    && FirstFollowed(trace) && Followed(trace)
  }

  ghost predicate AnyBroken(trace: seq<Sent>) {
    exists i | 0 <= i < |trace| :: trace[i].reply.Broken?
  }

  ghost predicate AnyUnknowable(trace: seq<Sent>) {
    exists i | 0 <= i < |trace| :: Unknowable(trace[i].reply)
  }

  lemma MaskedIff(c: Config, mutating: bool, msg: Msg, net: Network, o: Outcome, trace: seq<Sent>)
    requires Truthful(c, mutating, msg, net, o, trace)
    ensures mutating && o.AllFailed? ==> (AnyUnknowable(trace) <==> AnyBroken(trace))
    ensures mutating && o.TooManyRedirects? ==> (AnyUnknowable(trace) <==> AnyBroken(trace) || AnySilent(trace))
  {
    hide Trail, AllRetryable, SeedsTried, FirstFollowed, Followed;
  }

  ghost predicate SeedsTried(c: Config, trace: seq<Sent>) {
    forall e | e in c.seeds :: exists i | 0 <= i < |trace| :: trace[i].endpoint == e
  }

  /** A redirect of the first hop is followed by the second. */
  predicate FirstFollowed(trace: seq<Sent>) {
    |trace| > 1 && trace[0].reply.Answered? && trace[0].reply.status.Redirected? ==>
      trace[1].endpoint == trace[0].reply.status.target
  }

  /** The loop between two hops. */
  ghost predicate Standing(c: Config, mutating: bool, msg: Msg, net: Network, members: set<Endpoint>, n: Counters,
                           unanswered: bool, trace: seq<Sent>) {
    && InRange(c, n) && (n.follow.Some? ==> n.follow.value in members)
    && Trail(net, msg, trace) && AllRetryable(mutating, trace) && Dialed(n.tried, trace)
    && (unanswered <==> mutating && AnySilent(trace))
    && n.redirects <= |trace| && (trace == [] ==> n == Unspent) && FirstFollowed(trace)
    && Followed(trace) && n.known == Known(trace) && Pointed(n, trace)
    && (|trace| == 1 && trace[0].reply.Answered? && trace[0].reply.status.Redirected? ==>
          n.follow == Some(trace[0].reply.status.target) && n.tried == {})
  }

  /** The last hop's progress redirect is where the next hop goes. */
  predicate Pointed(n: Counters, trace: seq<Sent>) {
    trace != [] && Improves(trace, |trace| - 1) ==> n.follow == Some(trace[|trace| - 1].reply.status.target)
  }

  lemma FollowedGrows(n: Counters, trace: seq<Sent>, sent: Sent)
    requires Followed(trace) && Pointed(n, trace) && Dialed(n.tried, trace)
    requires n.follow.Some? && n.follow.value !in n.tried ==> sent.endpoint == n.follow.value
    ensures Followed(trace + [sent])
  {
    hide Known;
    var longer := trace + [sent];
    forall i | 0 <= i < |longer| - 1 && Improves(longer, i) && Undialed(longer[..i + 1], longer[i].reply.status.target)
      ensures longer[i + 1].endpoint == longer[i].reply.status.target
    {
      assert longer[..i] == trace[..i] && longer[..i + 1] == trace[..i + 1] && longer[i] == trace[i];
      assert Improves(trace, i);
      if i == |trace| - 1 {
        var target := trace[i].reply.status.target;
        assert trace[..i + 1] == trace;
        assert n.follow == Some(target);
        assert target !in n.tried;
      } else {
        assert longer[i + 1] == trace[i + 1];
      }
    }
  }

  lemma KnownGrows(n: Counters, trace: seq<Sent>, sent: Sent, n': Counters)
    requires n.known == Known(trace) && n'.known == Learned(n.known, sent.reply)
    requires sent.reply.Answered? && IsProgress(n, sent.reply.status) ==> n'.follow == Some(sent.reply.status.target)
    ensures n'.known == Known(trace + [sent]) && Pointed(n', trace + [sent])
  {
    assert (trace + [sent])[..|trace|] == trace;
  }

  lemma StandingGrows(c: Config, mutating: bool, msg: Msg, net: Network, members: set<Endpoint>, n: Counters,
                      unanswered: bool, trace: seq<Sent>, sent: Sent, n': Counters)
    requires Standing(c, mutating, msg, net, members, n, unanswered, trace)
    requires sent.msg == msg && sent.reply == net(|trace|).reply && sent.endpoint !in n.tried && Retryable(mutating, sent.reply)
    requires n.follow.Some? && n.follow.value !in n.tried ==> sent.endpoint == n.follow.value
    requires InRange(c, n') && n'.redirects <= n.redirects + 1 && (n'.follow.Some? ==> n'.follow.value in members)
    requires n'.tried == n.tried + {sent.endpoint} || (n'.tried == n.tried && !GivesUp(sent.reply))
    requires sent.reply.Answered? && sent.reply.status.Redirected? && n == Unspent ==>
      n'.follow == Some(sent.reply.status.target) && n'.tried == {}
    requires n'.known == Learned(n.known, sent.reply)
    requires sent.reply.Answered? && IsProgress(n, sent.reply.status) ==> n'.follow == Some(sent.reply.status.target)
    ensures Standing(c, mutating, msg, net, members, n', unanswered || (mutating && sent.reply.Silent?), trace + [sent])
  {
    hide Trail, AllRetryable, Dialed, AnySilent, Retryable, Followed, Known, Pointed, Learned;
    FollowedGrows(n, trace, sent);
    KnownGrows(n, trace, sent, n');
    TraceGrows(net, mutating, msg, trace, sent, n.tried);
    assert trace != [] ==> (trace + [sent])[0] == trace[0];
    assert |trace| > 1 ==> (trace + [sent])[1] == trace[1];
  }

  lemma EndsByReply(c: Config, mutating: bool, msg: Msg, net: Network, members: set<Endpoint>, n: Counters,
                    unanswered: bool, trace: seq<Sent>, sent: Sent, o: Outcome)
    requires Standing(c, mutating, msg, net, members, n, unanswered, trace)
    requires sent.msg == msg && sent.reply == net(|trace|).reply && sent.endpoint !in n.tried
    requires EndsWith(mutating, sent.reply, o)
    requires n.follow.Some? && n.follow.value !in n.tried ==> sent.endpoint == n.follow.value
    ensures Truthful(c, mutating, msg, net, o, trace + [sent])
  {
    hide Trail, AllRetryable, Dialed, AnySilent, Retryable, Followed, Known, Pointed, Learned;
    FollowedGrows(n, trace, sent);
    TraceGrows(net, mutating, msg, trace, sent, n.tried);
    assert trace != [] ==> (trace + [sent])[0] == trace[0];
    assert |trace| > 1 ==> (trace + [sent])[1] == trace[1];
  }

  lemma EndsByExhaustion(c: Config, mutating: bool, msg: Msg, net: Network, members: set<Endpoint>, n: Counters,
                         unanswered: bool, trace: seq<Sent>)
    requires Standing(c, mutating, msg, net, members, n, unanswered, trace)
    ensures n.redirects > c.maxRedirects ==> Truthful(c, mutating, msg, net, TooManyRedirects, trace)
    ensures (forall e | e in c.seeds :: e in n.tried) ==>
      Truthful(c, mutating, msg, net, if mutating && unanswered then Ambiguous else AllFailed, trace)
    ensures (forall e | e in c.seeds :: e in n.tried) && c.seeds != [] ==> trace != []
  {
    hide Trail, Dialed, Retryable, Followed, Known, Pointed;
    assert forall i | 0 <= i < |trace| - 1 :: trace[..|trace| - 1][i] == trace[i];
    if forall e | e in c.seeds :: e in n.tried {
      SeedsDialed(c, n.tried, trace);
    }
  }

  /**
   One call. Whatever the network answers, it ends within a bound; every transmission
   carries the one identity and floor; and each one that is followed by another was
   answered without executing, or failed where retrying the identity is safe. A mutating
   call that reports plain failure may have been executed all the same exactly when, for
   "all failed", a connection broke after sending, and for "too many redirects", one broke
   or stayed silent. Both happen: when every connection breaks, all members failed; and when
   one transmission stays unanswered and the rest are bounced, too many redirects.
   */
  method Execute(c: Config, mutating: bool, msg: Msg, net: Network, ghost members: set<Endpoint>)
    returns (outcome: Outcome, trace: seq<Sent>)
    requires Within(members, c, net)
    ensures |trace| <= Bound(c, members) && Truthful(c, mutating, msg, net, outcome, trace)
    ensures mutating && outcome.AllFailed? ==> (AnyUnknowable(trace) <==> AnyBroken(trace))
    ensures mutating && outcome.TooManyRedirects? ==> (AnyUnknowable(trace) <==> AnyBroken(trace) || AnySilent(trace))
    ensures AllBroken(net) && c.seeds != [] ==> outcome.AllFailed? && AnyBroken(trace)
    ensures CanMask(c, mutating, net) ==> outcome.TooManyRedirects? && AnySilent(trace)
  {
    trace := [];
    var n := Unspent;
    var reconnects: nat, deliveries: nat, cursor: nat := 0, 0, 0;
    var unanswered := false;
    Opening(c, mutating, msg, net, members);
    while true
      invariant Between(c, mutating, msg, net, members, n, unanswered, reconnects, deliveries, trace)
      decreases LeftOf(c, members, n, reconnects)
    {
      hide Between, Truthful, LeftOf, Bound, AllBroken, CanMask, Within, Retryable, GivesUp, EndsWith, AnySilent, AnyBroken,
           AnyUnknowable, Learned, IsProgress, Unspent;
      BeforeHop(c, mutating, msg, net, members, n, unanswered, reconnects, deliveries, trace);
      if n.redirects > c.maxRedirects {
        MaskedIff(c, mutating, msg, net, TooManyRedirects, trace);
        return TooManyRedirects, trace;
      }
      var hop := net(|trace|);
      HopAt(c, members, net, |trace|);
      var pick;
      pick, cursor := Route(c, n, hop.cached, cursor);
      if pick.None? {
        outcome := if mutating && unanswered then Ambiguous else AllFailed;
        MaskedIff(c, mutating, msg, net, outcome, trace);
        return;
      }
      var sent := Sent(msg, pick.value, hop.reply);
      var end, n', reconnects', deliveries' :=
        React(c, mutating, sent.endpoint, hop.reply, n, reconnects, deliveries, members);
      AfterHop(c, mutating, msg, net, members, n, unanswered, reconnects, deliveries, trace, sent, end, n', reconnects',
               deliveries');
      trace := trace + [sent];
      if end.Some? {
        MaskedIff(c, mutating, msg, net, end.value, trace);
        return end.value, trace;
      }
      n, unanswered := n', unanswered || (mutating && hop.reply.Silent?);
      reconnects, deliveries := reconnects', deliveries';
    }
  }

  /** All that holds between two hops. */
  ghost predicate Between(c: Config, mutating: bool, msg: Msg, net: Network, members: set<Endpoint>, n: Counters,
                          unanswered: bool, reconnects: nat, deliveries: nat, trace: seq<Sent>) {
    && Standing(c, mutating, msg, net, members, n, unanswered, trace) && reconnects <= MAX_RECONNECTS
    && Story(c, mutating, net, n, unanswered, deliveries, trace)
    && |trace| + LeftOf(c, members, n, reconnects) <= Bound(c, members)
  }

  lemma Opening(c: Config, mutating: bool, msg: Msg, net: Network, members: set<Endpoint>)
    ensures Between(c, mutating, msg, net, members, Unspent, false, 0, 0, [])
  {
    assert members - Unspent.tried == members;
  }

  lemma BeforeHop(c: Config, mutating: bool, msg: Msg, net: Network, members: set<Endpoint>, n: Counters,
                  unanswered: bool, reconnects: nat, deliveries: nat, trace: seq<Sent>)
    requires Between(c, mutating, msg, net, members, n, unanswered, reconnects, deliveries, trace)
    ensures InRange(c, n) && reconnects <= MAX_RECONNECTS && (n.follow.Some? ==> n.follow.value in members)
    ensures LeftOf(c, members, n, reconnects) >= 0 && |trace| <= Bound(c, members)
    ensures n.redirects > c.maxRedirects ==> Truthful(c, mutating, msg, net, TooManyRedirects, trace)
    ensures (forall e | e in c.seeds :: e in n.tried) ==>
      Truthful(c, mutating, msg, net, if mutating && unanswered then Ambiguous else AllFailed, trace)
    ensures AllBroken(net) && c.seeds != [] ==> n.redirects <= c.maxRedirects && !unanswered
    ensures AllBroken(net) && c.seeds != [] && (forall e | e in c.seeds :: e in n.tried) ==> AnyBroken(trace)
    ensures CanMask(c, mutating, net) ==> exists e | e in c.seeds :: e !in n.tried
    ensures CanMask(c, mutating, net) && n.redirects > c.maxRedirects ==> AnySilent(trace)
  {
    hide Truthful, LeftOf, Bound, Story, AllBroken, CanMask, AnySilent, AnyBroken;
    NotNegative(c, members, n, reconnects);
    EndsByExhaustion(c, mutating, msg, net, members, n, unanswered, trace);
    StoryEnds(c, mutating, msg, net, members, n, unanswered, deliveries, trace);
  }

  /** What `React` promises of one hop carries the call to its end, or to its next hop with less retrying left. */
  lemma AfterHop(c: Config, mutating: bool, msg: Msg, net: Network, members: set<Endpoint>, n: Counters, unanswered: bool,
                 reconnects: nat, deliveries: nat, trace: seq<Sent>, sent: Sent, end: Option<Outcome>, n': Counters,
                 reconnects': nat, deliveries': nat)
    requires Between(c, mutating, msg, net, members, n, unanswered, reconnects, deliveries, trace)
    requires sent.msg == msg && sent.reply == net(|trace|).reply && sent.endpoint in members && sent.endpoint !in n.tried
    requires n.follow.Some? && n.follow.value !in n.tried ==> sent.endpoint == n.follow.value
    requires end.Some? ==> EndsWith(mutating, sent.reply, end.value)
    requires end.None? ==> Reacted(c, mutating, members, sent, n, reconnects, n', reconnects')
    requires sent.reply == Broken(true) ==> end.None? && n'.redirects == n.redirects && n'.follow.None?
    requires sent.reply == Answered(Bare) ==>
      end.None? && n'.redirects == n.redirects + 1 && n'.follow.None? && n'.tried == n.tried
    requires sent.reply == Silent(true) && mutating && deliveries < c.deliveryRetries ==>
      end.None? && n'.redirects == n.redirects && n'.follow.None? && n'.tried == n.tried + {sent.endpoint}
    ensures end.Some? ==> Truthful(c, mutating, msg, net, end.value, trace + [sent]) && |trace + [sent]| <= Bound(c, members)
    ensures end.Some? ==> !(AllBroken(net) && c.seeds != []) && !CanMask(c, mutating, net)
    ensures end.None? ==> Between(c, mutating, msg, net, members, n', unanswered || (mutating && sent.reply.Silent?),
                                  reconnects', deliveries', trace + [sent])
  {
    hide Truthful, Bound, Story, Standing, LeftOf, AllBroken, CanMask, EndsWith, Retryable, Learned, GivesUp, IsProgress;
    StandsInRange(c, mutating, msg, net, members, n, unanswered, trace);
    Spends(c, members, n, sent.endpoint, reconnects);
    StoryGoesOn(c, mutating, net, n, unanswered, deliveries, trace, sent, end.Some?, n', deliveries');
    if end.Some? {
      EndsByReply(c, mutating, msg, net, members, n, unanswered, trace, sent, end.value);
    } else {
      StandingGrows(c, mutating, msg, net, members, n, unanswered, trace, sent, n');
    }
  }

  lemma StandsInRange(c: Config, mutating: bool, msg: Msg, net: Network, members: set<Endpoint>, n: Counters,
                      unanswered: bool, trace: seq<Sent>)
    requires Standing(c, mutating, msg, net, members, n, unanswered, trace)
    ensures InRange(c, n)
  {
  }

  /** A hop that does not end the call leaves less retrying, and remembers what it learned and whom it gave up. */
  ghost predicate Reacted(c: Config, mutating: bool, members: set<Endpoint>, sent: Sent, n: Counters, reconnects: nat,
                          n': Counters, reconnects': nat) {
    && Retryable(mutating, sent.reply) && InRange(c, n') && reconnects' <= MAX_RECONNECTS
    && LeftOf(c, members, n', reconnects') < LeftOf(c, members, n, reconnects)
    && n'.redirects <= n.redirects + 1 && (n'.follow.Some? ==> n'.follow.value in members)
    && (n'.tried == n.tried + {sent.endpoint} || (n'.tried == n.tried && !GivesUp(sent.reply)))
    && n'.known == Learned(n.known, sent.reply)
    && (sent.reply.Answered? && IsProgress(n, sent.reply.status) ==> n'.follow == Some(sent.reply.status.target))
    && (sent.reply.Answered? && sent.reply.status.Redirected? && n == Unspent ==>
          n'.follow == Some(sent.reply.status.target) && n'.tried == {})
  }

  /** How a call goes when every connection breaks, or when one silence is followed by bounces alone. */
  ghost predicate Story(c: Config, mutating: bool, net: Network, n: Counters, unanswered: bool, deliveries: nat,
                        trace: seq<Sent>) {
    && (AllBroken(net) && c.seeds != [] ==> !unanswered && n.follow.None? && n.redirects == 0)
    && (CanMask(c, mutating, net) ==> n.follow.None? && Muted(n, trace) && (trace == [] ==> deliveries == 0))
  }

  /** After the silent hop only its endpoint is given up, and every other hop spent a redirect. */
  predicate Muted(n: Counters, trace: seq<Sent>) {
    if trace == [] then n.redirects == 0 && n.tried == {}
    else n.redirects == |trace| - 1 && n.tried == {trace[0].endpoint}
  }

  lemma StoryGoesOn(c: Config, mutating: bool, net: Network, n: Counters, unanswered: bool, deliveries: nat, trace: seq<Sent>,
                    sent: Sent, ends: bool, n': Counters, deliveries': nat)
    requires Story(c, mutating, net, n, unanswered, deliveries, trace) && sent.reply == net(|trace|).reply
    requires sent.reply == Broken(true) ==> !ends && n'.redirects == n.redirects && n'.follow.None?
    requires sent.reply == Answered(Bare) ==> !ends && n'.redirects == n.redirects + 1 && n'.follow.None? && n'.tried == n.tried
    requires sent.reply == Silent(true) && mutating && deliveries < c.deliveryRetries ==>
      !ends && n'.redirects == n.redirects && n'.follow.None? && n'.tried == n.tried + {sent.endpoint}
    ensures Story(c, mutating, net, n', unanswered || (mutating && sent.reply.Silent?), deliveries', trace + [sent])
    ensures ends ==> !(AllBroken(net) && c.seeds != []) && !CanMask(c, mutating, net)
  {
    if AllBroken(net) && c.seeds != [] {
      assert net(|trace|) == Hop(None, Broken(true));
    }
    if CanMask(c, mutating, net) {
      assert |trace| > 0 ==> net(|trace|) == Hop(None, Answered(Bare));
    }
  }

  lemma StoryEnds(c: Config, mutating: bool, msg: Msg, net: Network, members: set<Endpoint>, n: Counters, unanswered: bool,
                  deliveries: nat, trace: seq<Sent>)
    requires Story(c, mutating, net, n, unanswered, deliveries, trace)
    requires Standing(c, mutating, msg, net, members, n, unanswered, trace)
    ensures AllBroken(net) && c.seeds != [] ==> !unanswered && n.redirects == 0
    ensures AllBroken(net) && trace != [] ==> AnyBroken(trace)
    ensures CanMask(c, mutating, net) ==> exists e | e in c.seeds :: e !in n.tried
    ensures CanMask(c, mutating, net) && n.redirects > c.maxRedirects ==> AnySilent(trace)
  {
    if trace != [] {
      assert trace[0].reply == net(0).reply;
    }
  }

  lemma NotNegative(c: Config, members: set<Endpoint>, n: Counters, reconnects: nat)
    requires InRange(c, n) && reconnects <= MAX_RECONNECTS
    ensures LeftOf(c, members, n, reconnects) >= 0
  {
  }

  /** Running out of seeds means every one of them was dialed. */
  lemma SeedsDialed(c: Config, tried: set<Endpoint>, trace: seq<Sent>)
    requires Dialed(tried, trace) && forall e | e in c.seeds :: e in tried
    ensures forall e | e in c.seeds :: exists i | 0 <= i < |trace| :: trace[i].endpoint == e
    ensures c.seeds != [] ==> trace != []
  {
    if c.seeds != [] {
      assert c.seeds[0] in c.seeds;
    }
  }
}
