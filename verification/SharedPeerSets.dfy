/** node/sharedpeerset.go: the sticky map from peers to owning instances. */
module SharedPeerSets {
  import opened Types

  datatype PeerSetData = PeerSetData(assignments: map<PeerId, Name>, instances: seq<Name>, nextIdx: uint64)

  /** NewSharedPeerSet panics on an empty instance list, so every live set has at least one instance. */
  type PeerSet = d: PeerSetData | d.instances != [] witness PeerSetData(map[], [0], 0)

  predicate Owns(s: PeerSet, instance: Name, id: PeerId) {
    id in s.assignments && s.assignments[id] == instance
  }

  function New(instances: seq<Name>): PeerSet
    requires instances != []
  {
    PeerSetData(map[], instances, 0)
  }

  function AfterAssign(s: PeerSet, id: PeerId): PeerSet {
    if id in s.assignments then s
    else
      var owner := s.instances[s.nextIdx % |s.instances|];
      PeerSetData(s.assignments[id := owner], s.instances, (s.nextIdx + 1) % UINT64)
  }

  function AfterClaim(s: PeerSet, id: PeerId, instance: Name): PeerSet {
    if id in s.assignments then s
    else PeerSetData(s.assignments[id := instance], s.instances, s.nextIdx)
  }

  /** Nothing that `s` decided is undone in `t`. */
  ghost predicate Extends(s: PeerSet, t: PeerSet) {
    && t.instances == s.instances
    && forall id <- s.assignments :: Owns(t, s.assignments[id], id)
  }

  /** The mutable object; each method is one critical section under `mu`. */
  class SharedPeerSet {
    var assignments: map<PeerId, Name>
    const instances: seq<Name>
    var nextIdx: uint64

    ghost predicate Valid() {
      instances != []
    }

    ghost function Model(): PeerSet
      requires Valid()
      reads this
    {
      PeerSetData(assignments, instances, nextIdx)
    }

    constructor (instanceNames: seq<Name>)
      requires instanceNames != []
      ensures Valid() && Model() == New(instanceNames)
    {
      assignments, instances, nextIdx := map[], instanceNames, 0;
    }

    method AssignOrGet(id: PeerId) returns (owner: Name)
      requires Valid()
      modifies this
      ensures Model() == AfterAssign(old(Model()), id)
      ensures Owns(Model(), owner, id) && Extends(old(Model()), Model())
    {
      if id in assignments {
        return assignments[id];
      }
      var idx := nextIdx;
      nextIdx := (nextIdx + 1) % UINT64;
      owner := instances[idx % |instances|];
      assignments := assignments[id := owner];
    }

    /** The Go code answers a missing key with the empty string, which no configured instance may use as its name. */
    method Owner(id: PeerId) returns (owner: Option<Name>)
      requires Valid()
      ensures match owner { case Some(name) => Owns(Model(), name, id) case None => id !in assignments }
    {
      owner := if id in assignments then Some(assignments[id]) else None;
    }

    method Claim(id: PeerId, instance: Name) returns (owner: Name, claimedByMe: bool)
      requires Valid()
      modifies this
      ensures Model() == AfterClaim(old(Model()), id, instance)
      ensures Owns(Model(), owner, id) && Extends(old(Model()), Model())
      ensures claimedByMe <==> owner == instance
      ensures !claimedByMe ==> Model() == old(Model())
    {
      if id in assignments {
        return assignments[id], assignments[id] == instance;
      }
      assignments := assignments[id := instance];
      return instance, true;
    }
  }

  // ---------- Runs: AssignOrGet and Claim interleaved in any order ----------

  datatype Op = Assign(id: PeerId) | ClaimFor(id: PeerId, instance: Name)

  /** A set together with how it came about: the peers AssignOrGet placed, in order, and those first claimed. */
  datatype History = History(peers: PeerSet, placed: seq<PeerId>, claimed: set<PeerId>)

  function Observe(h: History, op: Op): History {
    match op
    case Assign(id) =>
      History(AfterAssign(h.peers, id),
              if id in h.peers.assignments then h.placed else h.placed + [id], h.claimed)
    case ClaimFor(id, instance) =>
      History(AfterClaim(h.peers, id, instance), h.placed,
              if id in h.peers.assignments then h.claimed else h.claimed + {id})
  }

  function Exec(names: seq<Name>, ops: seq<Op>): History
    requires names != []
  {
    if ops == [] then History(New(names), [], {})
    else Observe(Exec(names, ops[..|ops| - 1]), ops[|ops| - 1])
  }

  /** The instance whose turn it is at the j-th placement; the counter wraps at 2^64. */
  function Turn(names: seq<Name>, j: nat): Name
    requires names != []
  {
    names[j % UINT64 % |names|]
  }

  /** Who owns each peer, what the counter counts, and where every assignment came from. */
  ghost predicate RoundRobin(names: seq<Name>, h: History)
    requires names != []
  {
    && h.peers.instances == names
    && h.peers.nextIdx == |h.placed| % UINT64
    && Distinct(h.placed)
    && (forall j :: 0 <= j < |h.placed| ==> Owns(h.peers, Turn(names, j), h.placed[j]))
    && (forall p <- h.claimed :: p !in h.placed)
    && (forall p :: p in h.peers.assignments <==> p in h.placed || p in h.claimed)
    && |h.peers.assignments| == |h.placed| + |h.claimed|
  }

  lemma RoundRobinStep(names: seq<Name>, h: History, op: Op)
    requires names != [] && RoundRobin(names, h)
    ensures RoundRobin(names, Observe(h, op))
  {
    var s, t := h.peers.assignments, Observe(h, op).peers.assignments;
    if op.id !in s {
      assert t.Keys == s.Keys + {op.id};
      assert |t| == |s| + 1 by { assert |t| == |t.Keys| && |s| == |s.Keys|; }
      if op.Assign? {
        WrapStep(|h.placed|);
      }
    }
  }

  lemma WrapStep(m: nat)
    ensures (m % UINT64 + 1) % UINT64 == (m + 1) % UINT64
  {}

  lemma {:induction false} EveryRunIsRoundRobin(names: seq<Name>, ops: seq<Op>)
    requires names != []
    ensures RoundRobin(names, Exec(names, ops))
  {
    if ops != [] {
      EveryRunIsRoundRobin(names, ops[..|ops| - 1]);
      RoundRobinStep(names, Exec(names, ops[..|ops| - 1]), ops[|ops| - 1]);
    }
  }

  /** An owner, once given, is never taken back by any continuation of the run. */
  lemma {:induction false} OwnersNeverChange(names: seq<Name>, ops: seq<Op>, more: seq<Op>)
    requires names != []
    ensures Extends(Exec(names, ops).peers, Exec(names, ops + more).peers)
  {
    if more == [] {
      assert ops + more == ops;
    } else {
      var rest := more[..|more| - 1];
      OwnersNeverChange(names, ops, rest);
      assert (ops + more)[..|ops + more| - 1] == ops + rest;
    }
  }

  // ---------- Fairness ----------

  lemma DivUnique(x: nat, n: nat, q: int, r: nat)
    requires r < n && x == q * n + r
    ensures x / n == q && x % n == r
  {
    var d := x / n - q;
    assert d * n == r - x % n by { assert d * n == (x / n) * n - q * n; }
    assert d != 0 ==> d >= 1 || -d >= 1;
  }

  /** Counting the placements j < m whose turn is k gives floor((m + n-1-k) / n): the step from m to m + 1. */
  lemma TurnStep(m: nat, n: nat, k: nat)
    requires k < n
    ensures (m + n - k) / n == (m + n - 1 - k) / n + (if m % n == k then 1 else 0)
  {
    var q, r := m / n, m % n;
    assert (q + 1) * n == q * n + n;
    if r <= k {
      DivUnique(m + n - 1 - k, n, q, r + n - 1 - k);
    } else {
      DivUnique(m + n - 1 - k, n, q + 1, r - 1 - k);
    }
    if r < k {
      DivUnique(m + n - k, n, q, r + n - k);
    } else {
      DivUnique(m + n - k, n, q + 1, r - k);
    }
  }

  /** The peers among the first m placed that `owner` holds. */
  ghost function Share(h: History, owner: Name, m: nat): set<PeerId>
    requires m <= |h.placed|
  {
    set j | 0 <= j < m && Owns(h.peers, owner, h.placed[j]) :: h.placed[j]
  }

  lemma ShareStep(names: seq<Name>, h: History, k: nat, m: nat)
    requires k < |names| && Distinct(names) && Distinct(h.placed) && m < |h.placed| <= UINT64
    requires Owns(h.peers, Turn(names, m), h.placed[m])
    ensures |Share(h, names[k], m + 1)| == |Share(h, names[k], m)| + (if m % |names| == k then 1 else 0)
  {
    var before, here := Share(h, names[k], m), m % |names|;
    assert here < |names| && Turn(names, m) == names[here];
    assert h.placed[m] !in before;
    assert Share(h, names[k], m + 1) == if here == k then before + {h.placed[m]} else before;
  }

  lemma {:induction false} ShareOfPrefix(names: seq<Name>, h: History, k: nat, m: nat)
    requires k < |names| && Distinct(names) && m <= |h.placed| <= UINT64 && RoundRobin(names, h)
    ensures |Share(h, names[k], m)| == (m + |names| - 1 - k) / |names|
  {
    if m == 0 {
      DivUnique(|names| - 1 - k, |names|, 0, |names| - 1 - k);
    } else {
      ShareOfPrefix(names, h, k, m - 1);
      ShareStep(names, h, k, m - 1);
      TurnStep(m - 1, |names|, k);
    }
  }

  /** Every instance's share is its quota, the counter is the number of placements, and nothing else is owned. */
  ghost predicate Fair(names: seq<Name>, h: History) {
    && h.peers.nextIdx == |h.placed|
    && (forall k :: 0 <= k < |names| ==> |Share(h, names[k], |h.placed|)| == (|h.placed| + |names| - 1 - k) / |names|)
    && |h.peers.assignments| == |h.placed| + |h.claimed|
  }

  lemma ModSmall(m: nat)
    requires m < UINT64
    ensures m % UINT64 == m
  {}

  lemma CounterIsPlacements(names: seq<Name>, h: History)
    requires names != [] && RoundRobin(names, h) && |h.placed| < UINT64
    ensures h.peers.nextIdx == |h.placed| && |h.peers.assignments| == |h.placed| + |h.claimed|
  {
    ModSmall(|h.placed|);
  }

  lemma FairHistory(names: seq<Name>, h: History)
    requires names != [] && Distinct(names) && RoundRobin(names, h) && |h.placed| < UINT64
    ensures Fair(names, h)
  {
    CounterIsPlacements(names, h);
    forall k | 0 <= k < |names|
      ensures |Share(h, names[k], |h.placed|)| == (|h.placed| + |names| - 1 - k) / |names|
    {
      ShareOfPrefix(names, h, k, |h.placed|);
    }
  }

  /** Until the counter wraps, instance k of n holds exactly floor((nextIdx + n-1-k) / n) of the placed peers. */
  lemma Fairness(names: seq<Name>, ops: seq<Op>)
    requires names != [] && Distinct(names) && |Exec(names, ops).placed| < UINT64
    ensures Fair(names, Exec(names, ops))
  {
    EveryRunIsRoundRobin(names, ops);
    FairHistory(names, Exec(names, ops));
  }

  lemma SharesDifferByOne(m: nat, n: nat, k: nat, l: nat)
    requires k <= l < n
    ensures 0 <= (m + n - 1 - k) / n - (m + n - 1 - l) / n <= 1
  {
    var q, r := (m + n - 1 - l) / n, (m + n - 1 - l) % n;
    assert (q + 1) * n == q * n + n;
    if r + (l - k) < n {
      DivUnique(m + n - 1 - k, n, q, r + (l - k));
    } else {
      DivUnique(m + n - 1 - k, n, q + 1, r + (l - k) - n);
    }
  }

  /** Any two instances' shares differ by at most one, the earlier one never having less. */
  lemma Balanced(names: seq<Name>, ops: seq<Op>, k: nat, l: nat)
    requires k <= l < |names| && Distinct(names) && |Exec(names, ops).placed| < UINT64
    ensures var h := Exec(names, ops);
            0 <= |Share(h, names[k], |h.placed|)| - |Share(h, names[l], |h.placed|)| <= 1
  {
    var h := Exec(names, ops);
    Fairness(names, ops);
    BalancedHistory(names, h, |h.placed|, k, l);
  }

  lemma BalancedHistory(names: seq<Name>, h: History, m: nat, k: nat, l: nat)
    requires k <= l < |names| && m == |h.placed| && Fair(names, h)
    ensures 0 <= |Share(h, names[k], m)| - |Share(h, names[l], m)| <= 1
  {
    SharesDifferByOne(m, |names|, k, l);
  }

  // ---------- Fairness needs distinct names ----------

  /** Peers 0 to m-1 assigned one after the other. */
  function Newcomers(m: nat): (ops: seq<Op>)
    ensures |ops| == m
  {
    if m == 0 then [] else Newcomers(m - 1) + [Assign(m - 1)]
  }

  lemma {:induction false} NewcomersPlaced(names: seq<Name>, m: nat)
    requires names != []
    ensures var h := Exec(names, Newcomers(m));
            |h.placed| == m && forall p <- h.peers.assignments :: p < m
  {
    if m > 0 {
      NewcomersPlaced(names, m - 1);
      assert Newcomers(m)[..m - 1] == Newcomers(m - 1);
    }
  }

  lemma QuotaZero(n: nat, k: nat, l: nat)
    requires k < l < n
    ensures (k + 1 + n - 1 - l) / n == 0
  {
    DivUnique(k + n - l, n, 0, k + n - l);
  }

  /** If places k and l carry one name, its share after k + 1 placements is above the quota of place l. */
  lemma DuplicateUnfair(names: seq<Name>, h: History, k: nat, l: nat)
    requires k < l < |names| < UINT64 && names[k] == names[l]
    requires |h.placed| == k + 1 && RoundRobin(names, h)
    ensures !Fair(names, h)
  {
    if Fair(names, h) {
      FairShare(names, h, k + 1, l);
      QuotaZero(|names|, k, l);
      HoldsOwnTurn(names, h, k);
    }
  }

  lemma FairShare(names: seq<Name>, h: History, m: nat, l: nat)
    requires l < |names| && m == |h.placed| && Fair(names, h)
    ensures |Share(h, names[l], m)| == (m + |names| - 1 - l) / |names|
  {}

  lemma HoldsOwnTurn(names: seq<Name>, h: History, k: nat)
    requires k < |names| < UINT64 && |h.placed| == k + 1 && RoundRobin(names, h)
    ensures |Share(h, names[k], k + 1)| > 0
  {
    DivUnique(k, |names|, 0, k);
    ModSmall(k);
    assert h.placed[k] in Share(h, names[k], k + 1);
  }

  /** Every run short of the counter's wrap is fair if and only if no two instances share a name. */
  lemma FairExactly(names: seq<Name>)
    requires 0 < |names| < UINT64
    ensures (forall ops :: |Exec(names, ops).placed| < UINT64 ==> Fair(names, Exec(names, ops))) <==> Distinct(names)
  {
    if Distinct(names) {
      forall ops | |Exec(names, ops).placed| < UINT64 ensures Fair(names, Exec(names, ops)) {
        Fairness(names, ops);
      }
    } else {
      var k, l :| 0 <= k < l < |names| && names[k] == names[l];
      NewcomersPlaced(names, k + 1);
      EveryRunIsRoundRobin(names, Newcomers(k + 1));
      DuplicateUnfair(names, Exec(names, Newcomers(k + 1)), k, l);
    }
  }
}
