/** node/peerfinder.go: one bucket of dialable peers per instance. */
module PeerFinders {
  import opened Types
  import opened SharedPeerSets

  type Bucket = map<PeerId, AddrInfo>
  type Buckets = map<Name, Bucket>

  /** The second critical section of AddPeer; a peer whose owner has no bucket is dropped. */
  function Store(buckets: Buckets, owner: Name, ai: AddrInfo): Buckets {
    if owner in buckets then buckets[owner := buckets[owner][ai.id := ai]] else buckets
  }

  /** A nil filter skips nobody. */
  ghost function Eligible(bucket: Bucket, skip: Option<PeerId -> bool>): set<PeerId> {
    set id | id in bucket && (skip.Some? ==> !skip.value(id))
  }

  /** What a pull from one bucket may return: as many different eligible peers as asked for and available, with
      their stored addresses. */
  ghost predicate IsSample(bucket: Bucket, skip: Option<PeerId -> bool>, count: int, result: seq<AddrInfo>) {
    && |result| == Min(count, |Eligible(bucket, skip)|)
    && (forall i :: 0 <= i < |result| ==>
          && result[i].id in bucket && bucket[result[i].id] == result[i]
          && (skip.Some? ==> !skip.value(result[i].id)))
    && (forall i, j :: 0 <= i < j < |result| ==> result[i].id != result[j].id)
  }

  lemma {:induction false} DistinctSize(s: seq<PeerId>)
    requires Distinct(s)
    ensures |set x | x in s| == |s|
  {
    if s != [] {
      var m := |s| - 1;
      DistinctSize(s[..m]);
      assert s == s[..m] + [s[m]];
      assert (set x | x in s) == (set x | x in s[..m]) + {s[m]};
    }
  }

  // ---------- rand.Shuffle ----------

  /** The draw for place i: any of the places up to it. */
  function Pick(draw: nat -> nat, i: nat): (j: nat)
    ensures j <= i
  {
    draw(i) % (i + 1)
  }

  function Swapped(s: seq<PeerId>, i: nat, j: nat): seq<PeerId>
    requires i <= j < |s|
  {
    s[i := s[j]][j := s[i]]
  }

  /** Fisher-Yates from place n - 1 down. */
  function ShuffledTo(s: seq<PeerId>, n: nat, draw: nat -> nat): (r: seq<PeerId>)
    requires n <= |s|
    ensures |r| == |s|
    decreases n
  {
    if n <= 1 then s else ShuffledTo(Swapped(s, Pick(draw, n - 1), n - 1), n - 1, draw)
  }

  /** An order of a set: each element once. */
  ghost predicate Orders(s: seq<PeerId>, elements: set<PeerId>) {
    Distinct(s) && forall x :: x in s <==> x in elements
  }

  lemma SwapKeeps(s: seq<PeerId>, i: nat, j: nat, elements: set<PeerId>)
    requires i <= j < |s| && Orders(s, elements)
    ensures Orders(Swapped(s, i, j), elements)
  {
    var r := Swapped(s, i, j);
    forall x | x in elements ensures x in r {
      var k :| 0 <= k < |s| && s[k] == x;
      assert r[if k == i then j else if k == j then i else k] == x;
    }
  }

  lemma {:induction false} ShuffleKeeps(s: seq<PeerId>, n: nat, draw: nat -> nat, elements: set<PeerId>)
    requires n <= |s| && Orders(s, elements)
    ensures Orders(ShuffledTo(s, n, draw), elements)
    ensures forall k :: n <= k < |s| ==> ShuffledTo(s, n, draw)[k] == s[k]
    decreases n
  {
    if n > 1 {
      SwapKeeps(s, Pick(draw, n - 1), n - 1, elements);
      ShuffleKeeps(Swapped(s, Pick(draw, n - 1), n - 1), n - 1, draw, elements);
    }
  }

  lemma {:induction false} DrawsBelow(s: seq<PeerId>, n: nat, d: nat -> nat, e: nat -> nat)
    requires n <= |s| && forall k: nat :: k < n ==> d(k) == e(k)
    ensures ShuffledTo(s, n, d) == ShuffledTo(s, n, e)
    decreases n
  {
    if n > 1 {
      DrawsBelow(Swapped(s, Pick(d, n - 1), n - 1), n - 1, d, e);
    }
  }

  /** The place from which the target's element n - 1 has to be taken. */
  lemma PlaceOf(s: seq<PeerId>, t: seq<PeerId>, n: nat, elements: set<PeerId>) returns (j: nat)
    requires 0 < n <= |s| == |t| && Orders(s, elements) && Orders(t, elements)
    requires forall k :: n <= k < |s| ==> s[k] == t[k]
    ensures j < n && s[j] == t[n - 1]
  {
    assert t[n - 1] in t;
    j :| 0 <= j < |s| && s[j] == t[n - 1];
  }

  /** Every order can come out of the shuffle ... */
  lemma {:induction false} EveryOrderIsDrawn(s: seq<PeerId>, t: seq<PeerId>, n: nat, elements: set<PeerId>)
    returns (draw: nat -> nat)
    requires n <= |s| == |t| && Orders(s, elements) && Orders(t, elements)
    requires forall k :: n <= k < |s| ==> s[k] == t[k]
    ensures ShuffledTo(s, n, draw) == t
    decreases n
  {
    if n == 0 {
      draw := (k: nat) => 0;
    } else {
      var j := PlaceOf(s, t, n, elements);
      var r := Swapped(s, j, n - 1);
      SwapKeeps(s, j, n - 1, elements);
      var d := EveryOrderIsDrawn(r, t, n - 1, elements);
      draw := (k: nat) => if k == n - 1 then j else d(k);
      assert Pick(draw, n - 1) == j by { SmallMod(j, n); }
      DrawsBelow(r, n - 1, d, draw);
    }
  }

  lemma SmallMod(j: nat, n: nat)
    requires j < n
    ensures j % n == j
  {}

  /** The first draw decides who comes last. */
  lemma LastIsDrawn(s: seq<PeerId>, n: nat, draw: nat -> nat, elements: set<PeerId>)
    requires 1 < n <= |s| && Orders(s, elements)
    ensures ShuffledTo(s, n, draw)[n - 1] == s[Pick(draw, n - 1)]
  {
    var r := Swapped(s, Pick(draw, n - 1), n - 1);
    SwapKeeps(s, Pick(draw, n - 1), n - 1, elements);
    ShuffleKeeps(r, n - 1, draw, elements);
    assert ShuffledTo(r, n - 1, draw)[n - 1] == r[n - 1];
  }

  /** ... and from one combination of draws only: with uniform draws every order is equally likely. */
  lemma {:induction false} DrawsAreUnique(s: seq<PeerId>, n: nat, d: nat -> nat, e: nat -> nat, elements: set<PeerId>)
    requires n <= |s| && Orders(s, elements) && ShuffledTo(s, n, d) == ShuffledTo(s, n, e)
    ensures forall k: nat :: 0 < k < n ==> Pick(d, k) == Pick(e, k)
    decreases n
  {
    if n > 1 {
      var i := Pick(d, n - 1);
      LastIsDrawn(s, n, d, elements);
      LastIsDrawn(s, n, e, elements);
      assert i == Pick(e, n - 1);
      SwapKeeps(s, i, n - 1, elements);
      DrawsAreUnique(Swapped(s, i, n - 1), n - 1, d, e, elements);
    }
  }

  method Shuffle(a: array<PeerId>, draw: nat -> nat)
    modifies a
    ensures a[..] == ShuffledTo(old(a[..]), a.Length, draw)
  {
    var i := a.Length;
    while i > 1
      invariant 0 <= i <= a.Length
      invariant ShuffledTo(a[..], i, draw) == ShuffledTo(old(a[..]), a.Length, draw)
    {
      i := i - 1;
      var j := Pick(draw, i);
      ghost var before := a[..];
      a[i], a[j] := a[j], a[i];
      assert a[..] == Swapped(before, j, i);
    }
  }

  // ---------- The sample ----------

  /** Those of s that are not in `first`. */
  function Without(s: seq<PeerId>, first: seq<PeerId>): seq<PeerId> {
    if s == [] then [] else
      var n := |s| - 1;
      Without(s[..n], first) + if s[n] in first then [] else [s[n]]
  }

  lemma {:induction false} WithoutMeaning(s: seq<PeerId>, first: seq<PeerId>)
    requires Distinct(s)
    ensures Distinct(Without(s, first))
    ensures forall x :: x in Without(s, first) <==> x in s && x !in first
  {
    if s != [] {
      var n := |s| - 1;
      WithoutMeaning(s[..n], first);
      assert s == s[..n] + [s[n]];
    }
  }

  lemma DistinctConcat(a: seq<PeerId>, b: seq<PeerId>)
    requires Distinct(a) && Distinct(b) && forall x <- b :: x !in a
    ensures Distinct(a + b)
  {
    assert forall k :: 0 <= k < |b| ==> b[k] in b;
  }

  lemma OrderSize(s: seq<PeerId>, elements: set<PeerId>)
    requires Orders(s, elements)
    ensures |s| == |elements|
  {
    DistinctSize(s);
    var here := set x | x in s;
    assert forall x :: x in here <==> x in elements;
    assert here == elements;
  }

  /** Every sample of the right size can come out, whatever order the bucket was listed in. */
  lemma EverySampleIsDrawn(bucket: Bucket, skip: Option<PeerId -> bool>, count: nat, order: seq<PeerId>,
                           result: seq<AddrInfo>) returns (draw: nat -> nat)
    requires Orders(order, Eligible(bucket, skip)) && IsSample(bucket, skip, count, result)
    ensures Draws(bucket, ShuffledTo(order, |order|, draw), result)
  {
    var first := seq(|result|, k requires 0 <= k < |result| => result[k].id);
    var target := first + Without(order, first);
    WithoutMeaning(order, first);
    assert forall i, j :: 0 <= i < j < |first| ==> result[i].id != result[j].id;
    DistinctConcat(first, Without(order, first));
    forall x ensures x in target <==> x in Eligible(bucket, skip) {
      assert x in target <==> x in first || x in Without(order, first);
      assert x in first ==> exists k :: 0 <= k < |result| && result[k].id == x;
    }
    OrderSize(order, Eligible(bucket, skip));
    OrderSize(target, Eligible(bucket, skip));
    draw := EveryOrderIsDrawn(order, target, |order|, Eligible(bucket, skip));
    assert forall k :: 0 <= k < |result| ==> target[k] == first[k] == result[k].id;
  }

  /** The result is what the draws make of some order of the eligible peers. */
  ghost predicate IsDrawn(bucket: Bucket, skip: Option<PeerId -> bool>, draw: nat -> nat, result: seq<AddrInfo>) {
    exists order :: Orders(order, Eligible(bucket, skip)) && Draws(bucket, ShuffledTo(order, |order|, draw), result)
  }

  ghost predicate Draws(bucket: Bucket, order: seq<PeerId>, result: seq<AddrInfo>) {
    |result| <= |order| && forall k :: 0 <= k < |result| ==> order[k] in bucket && result[k] == bucket[order[k]]
  }

  lemma DrawnIsSample(bucket: Bucket, skip: Option<PeerId -> bool>, count: nat, order: seq<PeerId>,
                      result: seq<AddrInfo>)
    requires Orders(order, Eligible(bucket, skip)) && Draws(bucket, order, result) && |result| == Min(count, |order|)
    requires forall id <- bucket :: bucket[id].id == id
    ensures IsSample(bucket, skip, count, result)
  {
    OrderSize(order, Eligible(bucket, skip));
    forall k | 0 <= k < |result| ensures result[k].id == order[k] && order[k] in Eligible(bucket, skip) {
      assert order[k] in order;
    }
  }

  class PeerFinder {
    const peerSet: SharedPeerSet
    var peers: Buckets

    /** AddPeer files every peer under its own ID. */
    ghost predicate Valid()
      reads this
    {
      && peerSet.Valid()
      && forall name <- peers :: forall id <- peers[name] :: peers[name][id].id == id
    }

    constructor (peerSet: SharedPeerSet, hosts: set<Name>)
      requires peerSet.Valid()
      ensures Valid() && this.peerSet == peerSet
      ensures peers == map name | name in hosts :: map[]
    {
      this.peerSet := peerSet;
      peers := map name | name in hosts :: map[];
    }

    /** Uncontended AddPeer: its two critical sections one after the other. Ownership interleaves them. */
    method AddPeer(ai: AddrInfo)
      requires Valid()
      modifies this, peerSet
      ensures Valid()
      ensures peerSet.Model() == AfterAssign(old(peerSet.Model()), ai.id)
      ensures peers == Store(old(peers), peerSet.Model().assignments[ai.id], ai)
      ensures forall name :: name in peers <==> name in old(peers)
      ensures forall name <- peers, id :: id in peers[name] <==>
                id in old(peers)[name] || (id == ai.id && Owns(peerSet.Model(), name, id))
      ensures forall name <- peers, id <- peers[name] ::
                peers[name][id] == if id == ai.id && Owns(peerSet.Model(), name, id) then ai else old(peers)[name][id]
    {
      var owner := peerSet.AssignOrGet(ai.id);
      if owner in peers {
        peers := peers[owner := peers[owner][ai.id := ai]];
      }
    }

    /** A negative count makes the Go code panic as soon as somebody is eligible. */
    method GetPeers(instance: Name, count: int, skip: Option<PeerId -> bool>, draw: nat -> nat)
      returns (result: seq<AddrInfo>)
      requires Valid()
      requires instance in peers && Eligible(peers[instance], skip) != {} ==> count >= 0
      ensures instance !in peers || count < 0 ==> result == []
      ensures instance in peers && count >= 0 ==> IsSample(peers[instance], skip, count, result)
      ensures instance in peers && count >= 0 ==> IsDrawn(peers[instance], skip, draw, result)
    {
      if instance !in peers {
        return [];
      }
      var m := peers[instance];
      var eligible := Filter(m, skip);
      OrderSize(eligible, Eligible(m, skip));
      if |eligible| == 0 {
        assert Draws(m, ShuffledTo(eligible, |eligible|, draw), []);
        return [];
      }
      result := Sample(m, eligible, count, draw, Eligible(m, skip));
      ShuffleKeeps(eligible, |eligible|, draw, Eligible(m, skip));
      DrawnIsSample(m, skip, count, ShuffledTo(eligible, |eligible|, draw), result);
    }

    /** Shuffle the eligible peers and take the first ones. */
    static method Sample(m: Bucket, eligible: seq<PeerId>, count: nat, draw: nat -> nat, ghost elements: set<PeerId>)
      returns (result: seq<AddrInfo>)
      requires Orders(eligible, elements) && forall id <- elements :: id in m
      ensures |result| == Min(count, |eligible|) && Draws(m, ShuffledTo(eligible, |eligible|, draw), result)
    {
      var a := new PeerId[|eligible|](i requires 0 <= i < |eligible| => eligible[i]);
      assert a[..] == eligible;
      Shuffle(a, draw);
      ShuffleKeeps(eligible, |eligible|, draw, elements);
      result := Take(m, a[..], if count > |eligible| then |eligible| else count);
    }

    static method Take(m: Bucket, order: seq<PeerId>, n: nat) returns (result: seq<AddrInfo>)
      requires n <= |order| && forall k :: 0 <= k < |order| ==> order[k] in m
      ensures |result| == n && Draws(m, order, result)
    {
      result := [];
      for i := 0 to n
        invariant |result| == i && Draws(m, order, result)
      {
        result := result + [m[order[i]]];
      }
    }

    /** The range loop over the bucket, in whatever order Go's map iteration takes. */
    static method Filter(m: Bucket, skip: Option<PeerId -> bool>) returns (eligible: seq<PeerId>)
      ensures Orders(eligible, Eligible(m, skip))
    {
      eligible := [];
      var todo := m.Keys;
      while todo != {}
        invariant todo <= m.Keys && Distinct(eligible)
        invariant forall id :: id in eligible <==> id in m && id !in todo && (skip.Some? ==> !skip.value(id))
        decreases |todo|
      {
        Inhabited(todo);
        var id :| id in todo;
        todo := todo - {id};
        if skip.Some? && skip.value(id) {
          continue;
        }
        eligible := eligible + [id];
      }
    }
  }
}
