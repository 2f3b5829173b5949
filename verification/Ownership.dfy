/**
 * The multi-instance ownership protocol as a labelled transition system.
 *
 * Discovery, dial managers, gaters and inbound handlers of all instances run concurrently on one
 * SharedPeerSet and one PeerFinder. Every action is one mutex-protected section or one host event, so a
 * sequence of actions is an interleaving; an action that is not enabled leaves the world unchanged.
 */
module Ownership {
  import opened Types
  import opened SharedPeerSets
  import opened PeerFinders
  import opened Gaters

  /** The configured instances (main.go:171-223): their names and their hosts' own peer IDs. */
  datatype Setup = Setup(names: seq<Name>, hostIds: map<Name, PeerId>)

  ghost predicate WellFormed(c: Setup) {
    c.names != [] && forall i <- c.names :: i in c.hostIds
  }

  ghost function Siblings(c: Setup, i: Name): set<PeerId>
    requires WellFormed(c)
  {
    set j | j in c.names && j != i :: c.hostIds[j]
  }

  datatype Link = Link(host: Name, peer: PeerId)

  /** An AddPeer call between its two critical sections. */
  datatype Adding = Adding(ai: AddrInfo, owner: Name)

  datatype World = World(
    peerSet: PeerSet,
    buckets: Buckets,
    adding: map<nat, Adding>,         // AddPeer calls that have assigned but not yet stored
    added: set<PeerId>,               // peers for which some AddPeer call has returned
    dialing: set<Link>,               // pulled by a PeerManager, not yet connected
    secured: set<Link>,               // inbound, past InterceptSecured, not yet established
    conns: set<Link>,                 // established connections
    queues: map<Name, seq<Event>>,    // undelivered connectedness events of each host
    closing: map<Name, PeerId>        // inbound handlers between Claim and ClosePeer
  )

  datatype Action =
    | AddAssign(call: nat, ai: AddrInfo)      // AddPeer, first section
    | AddStore(call: nat)                     // AddPeer, second section
    | Pull(link: Link)                        // GetPeers hands a bucketed peer to the dial loop
    | DialOk(link: Link)
    | DialFail(link: Link)
    | Secure(link: Link)                      // InterceptSecured on an inbound connection
    | Establish(link: Link)
    | Abort(link: Link)
    | HostDial(link: Link)                    // an outbound connection the ownership map never saw
    | Drop(link: Link)                        // either side disconnects
    | HandleEvent(host: Name)                 // HandleInboundPeers takes one event and claims
    | ClosePeer(host: Name)                   // ... and closes a peer it does not own

  function Queue(w: World, i: Name): seq<Event> {
    if i in w.queues then w.queues[i] else []
  }

  function Enqueue(w: World, i: Name, e: Event): World {
    w.(queues := w.queues[i := Queue(w, i) + [e]])
  }

  /** A connect event is emitted exactly when a (host, peer) pair goes from not connected to connected. */
  function Connect(w: World, l: Link): World {
    if l in w.conns then w else Enqueue(w.(conns := w.conns + {l}), l.host, Connected(l.peer))
  }

  function Disconnect(w: World, l: Link): World {
    if l in w.conns then Enqueue(w.(conns := w.conns - {l}), l.host, NotConnected(l.peer)) else w
  }

  function Init(c: Setup): World
    requires c.names != []
  {
    World(New(c.names), map i | i in c.names :: map[], map[], {}, {}, {}, {}, map[], map[])
  }

  ghost function Step(c: Setup, w: World, act: Action): World
    requires WellFormed(c)
  {
    match act
    case AddAssign(t, ai) =>
      if t in w.adding then w else
        var s := AfterAssign(w.peerSet, ai.id);
        w.(peerSet := s, adding := w.adding[t := Adding(ai, s.assignments[ai.id])])
    case AddStore(t) =>
      if t !in w.adding then w else
        var a := w.adding[t];
        w.(buckets := Store(w.buckets, a.owner, a.ai), adding := w.adding - {t}, added := w.added + {a.ai.id})
    case Pull(l) =>
      if l.host in w.buckets && l.peer in w.buckets[l.host] then w.(dialing := w.dialing + {l}) else w
    case DialOk(l) =>
      if l in w.dialing && Allowed(w.peerSet, l.host, Siblings(c, l.host), Outbound, l.peer)
      then Connect(w.(dialing := w.dialing - {l}), l) else w
    case DialFail(l) =>
      w.(dialing := w.dialing - {l})
    case Secure(l) =>
      if l.host !in c.names then w else
        var siblings := Siblings(c, l.host);
        w.(peerSet := Secured(w.peerSet, l.host, siblings, Inbound, l.peer),
           secured := if Allowed(w.peerSet, l.host, siblings, Inbound, l.peer) then w.secured + {l} else w.secured)
    case Establish(l) =>
      if l in w.secured then Connect(w.(secured := w.secured - {l}), l) else w
    case Abort(l) =>
      w.(secured := w.secured - {l})
    case HostDial(l) =>
      if l.host in c.names && Allowed(w.peerSet, l.host, Siblings(c, l.host), Outbound, l.peer)
      then Connect(w, l) else w
    case Drop(l) =>
      Disconnect(w, l)
    case HandleEvent(i) =>
      if i !in c.names || i in w.closing || Queue(w, i) == [] then w else
        var e := w.queues[i][0];
        var s := Handled(w.peerSet, i, e);
        w.(peerSet := s, queues := w.queues[i := w.queues[i][1..]],
           closing := if e.Connected? && !Owns(s, i, e.peer) then w.closing[i := e.peer] else w.closing)
    case ClosePeer(i) =>
      if i in w.closing then Disconnect(w.(closing := w.closing - {i}), Link(i, w.closing[i])) else w
  }

  ghost function Run(c: Setup, w: World, acts: seq<Action>): World
    requires WellFormed(c)
  {
    if acts == [] then w else Step(c, Run(c, w, acts[..|acts| - 1]), acts[|acts| - 1])
  }

  // ---------- Buckets and owners: every interleaving, open or closed ----------

  ghost predicate BucketsOwned(c: Setup, w: World) {
    && w.peerSet.instances == c.names
    && (forall p <- w.peerSet.assignments :: w.peerSet.assignments[p] in c.names)
    && (forall t <- w.adding :: Owns(w.peerSet, w.adding[t].owner, w.adding[t].ai.id))
    && (forall i :: i in w.buckets <==> i in c.names)
    && (forall i <- w.buckets :: forall p <- w.buckets[i] :: Owns(w.peerSet, i, p) && w.buckets[i][p].id == p)
    && (forall p <- w.added :: p in w.peerSet.assignments && p in w.buckets[w.peerSet.assignments[p]])
  }

  /** What no step takes back: owners, bucketed peers, and returned AddPeer calls. */
  ghost predicate Grows(w: World, v: World) {
    && Extends(w.peerSet, v.peerSet)
    && (forall i <- w.buckets :: i in v.buckets && forall p <- w.buckets[i] :: p in v.buckets[i])
    && w.added <= v.added
  }

  /** Every step but AddPeer's two either leaves the peer set alone or claims one peer for a configured name. */
  ghost predicate ClaimsOnly(c: Setup, w: World, v: World) {
    && v.buckets == w.buckets && v.adding == w.adding && v.added == w.added
    && (v.peerSet == w.peerSet || exists p, i <- c.names :: v.peerSet == AfterClaim(w.peerSet, p, i))
  }

  lemma ClaimsKeepBuckets(c: Setup, w: World, v: World)
    requires BucketsOwned(c, w) && ClaimsOnly(c, w, v)
    ensures BucketsOwned(c, v) && Grows(w, v)
  {}

  lemma AssignKeepsBuckets(c: Setup, w: World, t: nat, ai: AddrInfo)
    requires WellFormed(c) && BucketsOwned(c, w)
    ensures BucketsOwned(c, Step(c, w, AddAssign(t, ai))) && Grows(w, Step(c, w, AddAssign(t, ai)))
  {
    assert w.peerSet.instances[w.peerSet.nextIdx % |c.names|] in c.names;
  }

  lemma StoreKeepsBuckets(c: Setup, w: World, t: nat)
    requires WellFormed(c) && BucketsOwned(c, w)
    ensures BucketsOwned(c, Step(c, w, AddStore(t))) && Grows(w, Step(c, w, AddStore(t)))
  {}

  lemma ClaimersClaimOnly(c: Setup, w: World, act: Action)
    requires WellFormed(c) && (act.Secure? || act.HandleEvent?)
    ensures ClaimsOnly(c, w, Step(c, w, act))
  {}

  lemma ConnectingClaimsNothing(c: Setup, w: World, act: Action)
    requires WellFormed(c) && (act.DialOk? || act.Establish? || act.HostDial?)
    ensures ClaimsOnly(c, w, Step(c, w, act))
  {}

  lemma DisconnectingClaimsNothing(c: Setup, w: World, act: Action)
    requires WellFormed(c) && (act.Drop? || act.ClosePeer?)
    ensures ClaimsOnly(c, w, Step(c, w, act))
  {}

  lemma OthersClaimNothing(c: Setup, w: World, act: Action)
    requires WellFormed(c) && (act.Pull? || act.DialFail? || act.Abort?)
    ensures ClaimsOnly(c, w, Step(c, w, act))
  {}

  lemma OthersClaimOnly(c: Setup, w: World, act: Action, v: World)
    requires WellFormed(c) && !act.AddAssign? && !act.AddStore? && v == Step(c, w, act)
    ensures ClaimsOnly(c, w, v)
  {
    if act.Secure? || act.HandleEvent? {
      ClaimersClaimOnly(c, w, act);
    } else if act.DialOk? || act.Establish? || act.HostDial? {
      ConnectingClaimsNothing(c, w, act);
    } else if act.Drop? || act.ClosePeer? {
      DisconnectingClaimsNothing(c, w, act);
    } else {
      OthersClaimNothing(c, w, act);
    }
  }

  lemma BucketsStep(c: Setup, w: World, act: Action)
    requires WellFormed(c) && BucketsOwned(c, w)
    ensures BucketsOwned(c, Step(c, w, act)) && Grows(w, Step(c, w, act))
  {
    match act
    case AddAssign(t, ai) => AssignKeepsBuckets(c, w, t, ai);
    case AddStore(t) => StoreKeepsBuckets(c, w, t);
    case _ =>
      OthersClaimOnly(c, w, act, Step(c, w, act));
      ClaimsKeepBuckets(c, w, Step(c, w, act));
  }

  lemma {:induction false} BucketsRun(c: Setup, w: World, acts: seq<Action>)
    requires WellFormed(c) && BucketsOwned(c, w)
    ensures BucketsOwned(c, Run(c, w, acts)) && Grows(w, Run(c, w, acts))
  {
    if acts != [] {
      BucketsRun(c, w, acts[..|acts| - 1]);
      BucketsStep(c, Run(c, w, acts[..|acts| - 1]), acts[|acts| - 1]);
    }
  }

  /** No peer is ever dropped or duplicated by the router, whatever happens between assigning and storing. */
  lemma NeverDropped(c: Setup, acts: seq<Action>, more: seq<Action>, p: PeerId)
    requires WellFormed(c) && p in Run(c, Init(c), acts).added
    ensures var v := Run(c, Run(c, Init(c), acts), more);
            exists i :: && i in c.names && i in v.buckets && p in v.buckets[i]
                        && Owns(Run(c, Init(c), acts).peerSet, i, p) && Owns(v.peerSet, i, p)
                        && forall j <- v.buckets :: p in v.buckets[j] ==> j == i
  {
    BucketsRun(c, Init(c), acts);
    var w := Run(c, Init(c), acts);
    BucketsRun(c, w, more);
    var i := w.peerSet.assignments[p];
    assert i in Run(c, w, more).buckets;
  }

  // ---------- What is filed ----------

  /** The argument of AddPeer call t while it is between its sections, read off the actions alone. */
  ghost function Argument(acts: seq<Action>, t: nat): Option<AddrInfo> {
    if acts == [] then None else
      var before := Argument(acts[..|acts| - 1], t);
      match acts[|acts| - 1]
      case AddAssign(u, ai) => if u == t && before.None? then Some(ai) else before
      case AddStore(u) => if u == t then None else before
      case _ => before
  }

  /** The argument of the AddPeer call of a peer that was the last to return. */
  ghost function LastFiled(acts: seq<Action>, p: PeerId): Option<AddrInfo> {
    if acts == [] then None else
      var rest, a := acts[..|acts| - 1], acts[|acts| - 1];
      var arg := if a.AddStore? then Argument(rest, a.call) else None;
      if arg.Some? && arg.value.id == p then arg else LastFiled(rest, p)
  }

  ghost predicate Filing(w: World, acts: seq<Action>) {
    && (forall t: nat :: t in w.adding <==> Argument(acts, t).Some?)
    && (forall t <- w.adding :: Some(w.adding[t].ai) == Argument(acts, t))
    && (forall p :: p in w.added <==> LastFiled(acts, p).Some?)
    && (forall i <- w.buckets :: forall p <- w.buckets[i] ::
          p in w.added && Some(w.buckets[i][p]) == LastFiled(acts, p))
  }

  lemma AssignFiles(c: Setup, w: World, v: World, rest: seq<Action>, acts: seq<Action>, t: nat, ai: AddrInfo)
    requires WellFormed(c) && Filing(w, rest) && v == Step(c, w, AddAssign(t, ai)) && acts == rest + [AddAssign(t, ai)]
    ensures Filing(v, acts)
  {
    assert acts[..|acts| - 1] == rest;
  }

  lemma StoreFiles(c: Setup, w: World, v: World, rest: seq<Action>, acts: seq<Action>, t: nat)
    requires WellFormed(c) && Filing(w, rest) && BucketsOwned(c, w)
    requires v == Step(c, w, AddStore(t)) && acts == rest + [AddStore(t)]
    ensures Filing(v, acts)
  {
    assert acts[..|acts| - 1] == rest;
    if t in w.adding {
      var ai, owner := w.adding[t].ai, w.adding[t].owner;
      assert v.buckets == w.buckets[owner := w.buckets[owner][ai.id := ai]];
    }
  }

  lemma OtherFiles(w: World, v: World, rest: seq<Action>, acts: seq<Action>, a: Action)
    requires Filing(w, rest) && !a.AddAssign? && !a.AddStore? && acts == rest + [a]
    requires v.buckets == w.buckets && v.adding == w.adding && v.added == w.added
    ensures Filing(v, acts)
  {
    assert acts[..|acts| - 1] == rest;
  }

  lemma {:induction false} FilesRun(c: Setup, acts: seq<Action>, w: World)
    requires WellFormed(c) && w == Run(c, Init(c), acts)
    ensures Filing(w, acts)
  {
    if acts != [] {
      var rest, a := acts[..|acts| - 1], acts[|acts| - 1];
      var u := Run(c, Init(c), rest);
      assert acts == rest + [a];
      FilesRun(c, rest, u);
      BucketsRun(c, Init(c), rest);
      match a
      case AddAssign(t, ai) => AssignFiles(c, u, w, rest, acts, t, ai);
      case AddStore(t) => StoreFiles(c, u, w, rest, acts, t);
      case _ =>
        OthersClaimOnly(c, u, a, w);
        OtherFiles(u, w, rest, acts, a);
    }
  }

  /** A bucket holds exactly the peers its instance owns for which AddPeer has returned, as they were last added. */
  lemma BucketsExactly(c: Setup, acts: seq<Action>, i: Name, p: PeerId)
    requires WellFormed(c)
    ensures var w := Run(c, Init(c), acts);
            && (i in w.buckets && p in w.buckets[i] <==> Owns(w.peerSet, i, p) && LastFiled(acts, p).Some?)
            && (i in w.buckets && p in w.buckets[i] ==> Some(w.buckets[i][p]) == LastFiled(acts, p))
  {
    var w := Run(c, Init(c), acts);
    BucketsRun(c, Init(c), acts);
    FilesRun(c, acts, w);
  }

  // ---------- Who gets connected ----------

  ghost predicate ToSibling(c: Setup, l: Link)
    requires WellFormed(c)
  {
    exists j <- c.names :: j != l.host && c.hostIds[j] == l.peer
  }

  lemma SiblingsMeaning(c: Setup, l: Link)
    requires WellFormed(c)
    ensures l.peer in Siblings(c, l.host) <==> ToSibling(c, l)
  {}

  /** An inbound peer gets past the gater exactly if it is no sibling and its owner was this instance or nobody. */
  lemma SecuredExactly(c: Setup, w: World, l: Link)
    requires WellFormed(c) && l.host in c.names
    ensures var v := Step(c, w, Secure(l));
            && (l in v.secured <==>
                  || l in w.secured
                  || (!ToSibling(c, l) &&
                      (l.peer !in w.peerSet.assignments || w.peerSet.assignments[l.peer] == l.host)))
            && (l in v.secured && l !in w.secured ==> Owns(v.peerSet, l.host, l.peer))
            && (ToSibling(c, l) ==> v.peerSet == w.peerSet)
  {
    SiblingsMeaning(c, l);
  }

  /** Which connections a step leaves: what opens one, under which condition, and what closes one. */
  ghost predicate Leaves(c: Setup, w: World, act: Action, m: Link)
    requires WellFormed(c)
  {
    match act
    case DialOk(l) => m in w.conns || (m == l && l in w.dialing && !ToSibling(c, l))
    case Establish(l) => m in w.conns || (m == l && l in w.secured)
    case HostDial(l) => m in w.conns || (m == l && l.host in c.names && !ToSibling(c, l))
    case Drop(l) => m in w.conns && m != l
    case ClosePeer(i) => m in w.conns && !(i in w.closing && m == Link(i, w.closing[i]))
    case _ => m in w.conns
  }

  lemma OpeningExactly(c: Setup, w: World, act: Action, m: Link)
    requires WellFormed(c) && (act.DialOk? || act.Establish? || act.HostDial?)
    ensures m in Step(c, w, act).conns <==> Leaves(c, w, act, m)
  {
    SiblingsMeaning(c, act.link);
  }

  lemma ClosingExactly(c: Setup, w: World, act: Action, m: Link)
    requires WellFormed(c) && (act.Drop? || act.ClosePeer?)
    ensures m in Step(c, w, act).conns <==> Leaves(c, w, act, m)
  {}

  lemma ConnectionsExactly(c: Setup, w: World, act: Action, m: Link)
    requires WellFormed(c)
    ensures m in Step(c, w, act).conns <==> Leaves(c, w, act, m)
  {
    if act.DialOk? || act.Establish? || act.HostDial? {
      OpeningExactly(c, w, act, m);
    } else if act.Drop? || act.ClosePeer? {
      ClosingExactly(c, w, act, m);
    }
  }

  /** An event joins a host's queue exactly when one of its connections comes or goes, and says which. */
  ghost predicate EventsFollow(w: World, v: World, i: Name, p: PeerId) {
    && (Link(i, p) in v.conns && Link(i, p) !in w.conns ==> Queue(v, i) == Queue(w, i) + [Connected(p)])
    && (Link(i, p) !in v.conns && Link(i, p) in w.conns ==> Queue(v, i) == Queue(w, i) + [NotConnected(p)])
    && (v.conns == w.conns ==> Queue(v, i) == Queue(w, i))
  }

  lemma ConnectFollows(w: World, l: Link, v: World, i: Name, p: PeerId)
    requires v == Connect(w, l)
    ensures EventsFollow(w, v, i, p)
  {}

  lemma DisconnectFollows(w: World, l: Link, v: World, i: Name, p: PeerId)
    requires v == Disconnect(w, l)
    ensures EventsFollow(w, v, i, p)
  {}

  lemma EventsExactly(c: Setup, w: World, act: Action, v: World, i: Name, p: PeerId)
    requires WellFormed(c) && !act.HandleEvent? && v == Step(c, w, act)
    ensures EventsFollow(w, v, i, p)
  {
    match act
    case DialOk(l) =>
      var u := w.(dialing := w.dialing - {l});
      ConnectFollows(u, l, Connect(u, l), i, p);
    case Establish(l) =>
      var u := w.(secured := w.secured - {l});
      ConnectFollows(u, l, Connect(u, l), i, p);
    case HostDial(l) => ConnectFollows(w, l, Connect(w, l), i, p);
    case Drop(l) => DisconnectFollows(w, l, v, i, p);
    case ClosePeer(j) => if j in w.closing {
      DisconnectFollows(w.(closing := w.closing - {j}), Link(j, w.closing[j]), v, i, p);
    }
    case _ =>
  }

  ghost predicate Files(w: World, i: Name, ai: AddrInfo) {
    i in w.buckets && ai.id in w.buckets[i] && w.buckets[i][ai.id] == ai
  }

  lemma DiscoveredIsFiled(c: Setup, w: World, t: nat, ai: AddrInfo) returns (i: Name, v: World)
    requires WellFormed(c) && BucketsOwned(c, w) && t !in w.adding
    ensures v == Step(c, Step(c, w, AddAssign(t, ai)), AddStore(t)) && v.conns == w.conns
    ensures i in c.names && Owns(v.peerSet, i, ai.id) && ai.id in v.added && Files(v, i, ai)
  {
    var u := Step(c, w, AddAssign(t, ai));
    BucketsStep(c, w, AddAssign(t, ai));
    i, v := u.adding[t].owner, Step(c, u, AddStore(t));
  }

  lemma FiledIsDialled(c: Setup, w: World, l: Link, ai: AddrInfo) returns (v: World)
    requires WellFormed(c) && Files(w, l.host, ai) && l.peer == ai.id
    ensures v == Step(c, Step(c, w, Pull(l)), DialOk(l))
    ensures v.peerSet == w.peerSet && v.buckets == w.buckets && v.added == w.added
    ensures l in v.conns <==> l in w.conns || !ToSibling(c, l)
  {
    var u := Step(c, w, Pull(l));
    assert l in u.dialing;
    ConnectionsExactly(c, u, DialOk(l), l);
    v := Step(c, u, DialOk(l));
  }

  /**
   * From every state of a run a discovered peer can be filed, pulled and dialled by the one instance that owns it,
   * and is connected in the end unless it is a sibling.
   */
  lemma DiscoveredIsDialled(c: Setup, w: World, t: nat, ai: AddrInfo) returns (i: Name, v: World)
    requires WellFormed(c) && BucketsOwned(c, w) && t !in w.adding
    ensures v == Run(c, w, [AddAssign(t, ai), AddStore(t), Pull(Link(i, ai.id)), DialOk(Link(i, ai.id))])
    ensures i in c.names && Owns(v.peerSet, i, ai.id) && ai.id in v.added && Files(v, i, ai)
    ensures Link(i, ai.id) in v.conns <==> Link(i, ai.id) in w.conns || !ToSibling(c, Link(i, ai.id))
  {
    i, v := DiscoveredIsFiled(c, w, t, ai);
    var l := Link(i, ai.id);
    v := FiledIsDialled(c, v, l, ai);
    RunFour(c, w, AddAssign(t, ai), AddStore(t), Pull(l), DialOk(l));
  }

  lemma RunFour(c: Setup, w: World, a: Action, b: Action, d: Action, e: Action)
    requires WellFormed(c)
    ensures Run(c, w, [a, b, d, e]) == Step(c, Step(c, Step(c, Step(c, w, a), b), d), e)
  {
    assert [] + [a] == [a] && [a] + [b] == [a, b] && [a, b] + [d] == [a, b, d] && [a, b, d] + [e] == [a, b, d, e];
    RunSnoc(c, w, [], a);
    RunSnoc(c, w, [a], b);
    RunSnoc(c, w, [a, b], d);
    RunSnoc(c, w, [a, b, d], e);
  }

  // ---------- Open system: the host may dial anybody but a sibling ----------

  /** A connection is accounted for: owned, or waiting for the handler, or about to be closed by it. */
  ghost predicate Accounted(w: World, l: Link) {
    || Owns(w.peerSet, l.host, l.peer)
    || Connected(l.peer) in Queue(w, l.host)
    || (l.host in w.closing && w.closing[l.host] == l.peer)
  }

  ghost predicate Foreign(c: Setup, l: Link)
    requires WellFormed(c)
  {
    l.host in c.names && l.peer !in Siblings(c, l.host)
  }

  ghost predicate OpenInv(c: Setup, w: World)
    requires WellFormed(c)
  {
    && BucketsOwned(c, w)
    && (forall l <- w.conns :: Foreign(c, l) && Accounted(w, l))
    && (forall l <- w.secured :: Foreign(c, l))
    && (forall l <- w.dialing :: l.host in c.names)
    && (forall i <- w.closing :: w.closing[i] in w.peerSet.assignments && !Owns(w.peerSet, i, w.closing[i]))
  }

  /** The part of OpenInv that speaks of connections, for two worlds that differ by one connect or disconnect. */
  lemma ConnectKeeps(w: World, l: Link, m: Link)
    requires m in Connect(w, l).conns && (m in w.conns ==> Accounted(w, m))
    ensures Accounted(Connect(w, l), m)
  {}

  lemma DisconnectKeeps(w: World, l: Link, m: Link)
    requires Accounted(w, m)
    ensures Accounted(Disconnect(w, l), m)
  {}

  lemma HandleKeeps(c: Setup, w: World, i: Name)
    requires WellFormed(c) && OpenInv(c, w)
    ensures OpenInv(c, Step(c, w, HandleEvent(i)))
  {
    BucketsStep(c, w, HandleEvent(i));
    var v := Step(c, w, HandleEvent(i));
    if v != w {
      forall m | m in w.conns ensures Accounted(v, m) {
        var q := w.queues[i];
        assert m.host == i && Connected(m.peer) in q ==> q[0] == Connected(m.peer) || Connected(m.peer) in q[1..];
      }
    }
  }

  lemma CloseKeeps(c: Setup, w: World, i: Name)
    requires WellFormed(c) && OpenInv(c, w)
    ensures OpenInv(c, Step(c, w, ClosePeer(i)))
  {
    BucketsStep(c, w, ClosePeer(i));
    var v := Step(c, w, ClosePeer(i));
    if i in w.closing {
      var u := w.(closing := w.closing - {i});
      forall m | m in v.conns ensures Foreign(c, m) && Accounted(v, m) {
        assert m in w.conns && m != Link(i, w.closing[i]);
        DisconnectKeeps(u, Link(i, w.closing[i]), m);
      }
    }
  }

  lemma ConnectingKeeps(c: Setup, w: World, l: Link, u: World)
    requires WellFormed(c) && OpenInv(c, w) && BucketsOwned(c, Connect(u, l)) && Foreign(c, l)
    requires u == w.(dialing := u.dialing, secured := u.secured) && u.dialing <= w.dialing && u.secured <= w.secured
    ensures OpenInv(c, Connect(u, l))
  {
    forall m | m in Connect(u, l).conns ensures Foreign(c, m) && Accounted(Connect(u, l), m) {
      assert m in w.conns ==> Accounted(w, m);
      ConnectKeeps(u, l, m);
    }
  }

  lemma DialKeeps(c: Setup, w: World, l: Link)
    requires WellFormed(c) && OpenInv(c, w)
    ensures OpenInv(c, Step(c, w, DialOk(l)))
  {
    BucketsStep(c, w, DialOk(l));
    if Step(c, w, DialOk(l)) != w {
      ConnectingKeeps(c, w, l, w.(dialing := w.dialing - {l}));
    }
  }

  lemma EstablishKeeps(c: Setup, w: World, l: Link)
    requires WellFormed(c) && OpenInv(c, w)
    ensures OpenInv(c, Step(c, w, Establish(l)))
  {
    BucketsStep(c, w, Establish(l));
    if l in w.secured {
      ConnectingKeeps(c, w, l, w.(secured := w.secured - {l}));
    }
  }

  lemma HostDialKeeps(c: Setup, w: World, l: Link)
    requires WellFormed(c) && OpenInv(c, w)
    ensures OpenInv(c, Step(c, w, HostDial(l)))
  {}

  lemma DropKeeps(c: Setup, w: World, l: Link)
    requires WellFormed(c) && OpenInv(c, w)
    ensures OpenInv(c, Step(c, w, Drop(l)))
  {}

  /** Steps that leave connections, queues and handlers alone can only make more of them owned. */
  lemma GrowingKeeps(c: Setup, w: World, v: World)
    requires WellFormed(c) && OpenInv(c, w) && BucketsOwned(c, v) && Grows(w, v)
    requires v.conns == w.conns && v.queues == w.queues && v.closing == w.closing
    requires forall l <- v.secured :: Foreign(c, l)
    requires forall l <- v.dialing :: l.host in c.names
    ensures OpenInv(c, v)
  {}

  ghost predicate Routes(act: Action) {
    act.AddAssign? || act.AddStore? || act.Pull? || act.DialFail? || act.Secure? || act.Abort?
  }

  lemma RoutingLeaves(c: Setup, w: World, act: Action, v: World)
    requires WellFormed(c) && Routes(act) && v == Step(c, w, act)
    ensures v.conns == w.conns && v.queues == w.queues && v.closing == w.closing
    ensures forall l <- v.secured :: l in w.secured || Foreign(c, l)
    ensures forall l <- v.dialing :: l in w.dialing || l.host in w.buckets
  {}

  lemma RoutingKeeps(c: Setup, w: World, act: Action, v: World)
    requires WellFormed(c) && OpenInv(c, w) && Routes(act) && v == Step(c, w, act)
    ensures OpenInv(c, v)
  {
    BucketsStep(c, w, act);
    RoutingLeaves(c, w, act, v);
    GrowingKeeps(c, w, v);
  }

  lemma OpenStep(c: Setup, w: World, act: Action)
    requires WellFormed(c) && OpenInv(c, w)
    ensures OpenInv(c, Step(c, w, act))
  {
    match act
    case HandleEvent(i) => HandleKeeps(c, w, i);
    case ClosePeer(i) => CloseKeeps(c, w, i);
    case DialOk(l) => DialKeeps(c, w, l);
    case Establish(l) => EstablishKeeps(c, w, l);
    case HostDial(l) => HostDialKeeps(c, w, l);
    case Drop(l) => DropKeeps(c, w, l);
    case _ => RoutingKeeps(c, w, act, Step(c, w, act));
  }

  lemma {:induction false} OpenRun(c: Setup, w: World, acts: seq<Action>)
    requires WellFormed(c) && OpenInv(c, w)
    ensures OpenInv(c, Run(c, w, acts))
  {
    if acts != [] {
      OpenRun(c, w, acts[..|acts| - 1]);
      OpenStep(c, Run(c, w, acts[..|acts| - 1]), acts[|acts| - 1]);
    }
  }

  /** The connected peers of one instance. */
  ghost function PeersOf(w: World, i: Name): set<PeerId> {
    set l | l in w.conns && l.host == i :: l.peer
  }

  ghost predicate Quiet(w: World) {
    w.closing == map[] && forall i <- w.queues :: w.queues[i] == []
  }

  /** In every reachable state of the open system every connection is accounted for and none is to a sibling. */
  lemma OpenSystem(c: Setup, acts: seq<Action>, l: Link)
    requires WellFormed(c) && l in Run(c, Init(c), acts).conns
    ensures var w := Run(c, Init(c), acts);
            && Accounted(w, l)
            && forall j <- c.names :: j != l.host ==> c.hostIds[j] != l.peer
  {
    OpenRun(c, Init(c), acts);
    assert Foreign(c, l);
    assert forall j <- c.names :: j != l.host ==> c.hostIds[j] in Siblings(c, l.host);
  }

  /** Once the handlers have caught up, the instances' connected peer sets are pairwise disjoint. */
  lemma QuietMeansDisjoint(c: Setup, acts: seq<Action>, i: Name, j: Name)
    requires WellFormed(c) && i != j && Quiet(Run(c, Init(c), acts))
    ensures PeersOf(Run(c, Init(c), acts), i) !! PeersOf(Run(c, Init(c), acts), j)
  {
    var w := Run(c, Init(c), acts);
    forall p | p in PeersOf(w, i) && p in PeersOf(w, j) ensures false {
      OpenSystem(c, acts, Link(i, p));
      OpenSystem(c, acts, Link(j, p));
    }
  }

  /** The handlers' own steps; running only these adds no connection. */
  ghost predicate HandlerOnly(acts: seq<Action>) {
    forall k :: 0 <= k < |acts| ==> acts[k].HandleEvent? || acts[k].ClosePeer?
  }

  /** What running handlers may do: keep every owned connection, open none, and touch only queues they serve. */
  ghost predicate Settles(w: World, v: World) {
    && Extends(w.peerSet, v.peerSet)
    && v.conns <= w.conns
    && (forall l <- w.conns - v.conns :: l.peer in v.peerSet.assignments && !Owns(v.peerSet, l.host, l.peer))
  }

  lemma SettlesTrans(u: World, v: World, w: World)
    requires Settles(u, v) && Settles(v, w)
    ensures Settles(u, w)
  {}

  ghost predicate Served(w: World, i: Name) {
    i !in w.closing && Queue(w, i) == []
  }

  /** Work left for one handler: a connect event may turn into a close, and a close into a disconnect event. */
  ghost function Work(events: seq<Event>): nat {
    if events == [] then 0 else (if events[0].Connected? then 3 else 1) + Work(events[1..])
  }

  ghost function WorkAt(w: World, i: Name): nat {
    Work(Queue(w, i)) + if i in w.closing then 2 else 0
  }

  lemma {:induction false} WorkAppend(events: seq<Event>, e: Event)
    ensures Work(events + [e]) == Work(events) + if e.Connected? then 3 else 1
  {
    if events != [] {
      WorkAppend(events[1..], e);
      assert (events + [e])[1..] == events[1..] + [e];
    }
  }

  /** One step of handler i: progress on its own work, nothing undone, nobody else's queue touched. */
  ghost predicate Serves(w: World, v: World, i: Name) {
    && Settles(w, v) && WorkAt(v, i) < WorkAt(w, i)
    && forall j :: j != i ==> Queue(v, j) == Queue(w, j) && (j in v.closing <==> j in w.closing)
  }

  lemma CloseSettles(c: Setup, w: World, i: Name)
    requires WellFormed(c) && OpenInv(c, w) && i in w.closing
    ensures Serves(w, Step(c, w, ClosePeer(i)), i)
  {
    WorkAppend(Queue(w, i), NotConnected(w.closing[i]));
  }

  lemma HandleSettles(c: Setup, w: World, i: Name)
    requires WellFormed(c) && OpenInv(c, w) && i in c.names && i !in w.closing && Queue(w, i) != []
    ensures Serves(w, Step(c, w, HandleEvent(i)), i)
  {}

  /** One handler step at a busy instance: it does some of its work and leaves the other instances' alone. */
  lemma HandlerStep(c: Setup, w: World, i: Name) returns (a: Action)
    requires WellFormed(c) && OpenInv(c, w) && i in c.names && !Served(w, i)
    ensures a.HandleEvent? || a.ClosePeer?
    ensures OpenInv(c, Step(c, w, a)) && Serves(w, Step(c, w, a), i)
  {
    if i in w.closing {
      a := ClosePeer(i);
      CloseSettles(c, w, i);
    } else {
      a := HandleEvent(i);
      HandleSettles(c, w, i);
    }
    OpenStep(c, w, a);
  }

  lemma RunSnoc(c: Setup, w: World, xs: seq<Action>, a: Action)
    requires WellFormed(c)
    ensures Run(c, w, xs + [a]) == Step(c, Run(c, w, xs), a)
  {}

  lemma {:induction false} RunConcat(c: Setup, w: World, xs: seq<Action>, ys: seq<Action>)
    requires WellFormed(c)
    ensures Run(c, w, xs + ys) == Run(c, Run(c, w, xs), ys)
  {
    if ys == [] {
      assert xs + ys == xs;
    } else {
      var rest, a := ys[..|ys| - 1], ys[|ys| - 1];
      assert ys == rest + [a] && xs + ys == (xs + rest) + [a];
      RunConcat(c, w, xs, rest);
      RunSnoc(c, w, xs + rest, a);
      RunSnoc(c, Run(c, w, xs), rest, a);
    }
  }

  lemma {:induction false} ServeOne(c: Setup, w: World, i: Name) returns (acts: seq<Action>, v: World)
    requires WellFormed(c) && OpenInv(c, w) && i in c.names
    ensures HandlerOnly(acts) && v == Run(c, w, acts)
    ensures OpenInv(c, v) && Settles(w, v) && Served(v, i)
    ensures forall j :: Served(w, j) ==> Served(v, j)
    decreases WorkAt(w, i)
  {
    if Served(w, i) {
      return [], w;
    }
    var a := HandlerStep(c, w, i);
    var u, rest := Step(c, w, a), [];
    rest, v := ServeOne(c, u, i);
    acts := [a] + rest;
    assert v == Run(c, w, acts) by {
      assert [] + [a] == [a];
      RunSnoc(c, w, [], a);
      RunConcat(c, w, [a], rest);
    }
    SettlesTrans(w, u, v);
  }

  lemma {:induction false} ServeAll(c: Setup, w: World, todo: set<Name>) returns (acts: seq<Action>, v: World)
    requires WellFormed(c) && OpenInv(c, w)
    requires forall i <- c.names :: i in todo || Served(w, i)
    ensures HandlerOnly(acts) && v == Run(c, w, acts)
    ensures OpenInv(c, v) && Settles(w, v)
    ensures forall i <- c.names :: Served(v, i)
    decreases todo
  {
    if todo == {} {
      return [], w;
    }
    Inhabited(todo);
    var i :| i in todo;
    var first, u, rest := [], w, [];
    if i in c.names {
      first, u := ServeOne(c, w, i);
    }
    rest, v := ServeAll(c, u, todo - {i});
    acts := first + rest;
    assert v == Run(c, w, acts) by { RunConcat(c, w, first, rest); }
    SettlesTrans(w, u, v);
  }

  /** A handler action either has nothing to do or does some of its own instance's work. */
  lemma HandlerActs(c: Setup, w: World, a: Action)
    requires WellFormed(c) && OpenInv(c, w) && (a.HandleEvent? || a.ClosePeer?)
    ensures OpenInv(c, Step(c, w, a))
    ensures Step(c, w, a) == w || Serves(w, Step(c, w, a), a.host)
  {
    OpenStep(c, w, a);
    if Step(c, w, a) != w {
      if a.ClosePeer? {
        CloseSettles(c, w, a.host);
      } else {
        HandleSettles(c, w, a.host);
      }
    }
  }

  /** The steps of one instance's handler that found something to do. */
  ghost function Effective(c: Setup, w: World, acts: seq<Action>, i: Name): nat
    requires WellFormed(c)
  {
    if acts == [] then 0 else
      var u, a := Run(c, w, acts[..|acts| - 1]), acts[|acts| - 1];
      Effective(c, w, acts[..|acts| - 1], i) +
      if (a == HandleEvent(i) || a == ClosePeer(i)) && Step(c, u, a) != u then 1 else 0
  }

  lemma {:induction false} HandlerRun(c: Setup, w: World, acts: seq<Action>)
    requires WellFormed(c) && OpenInv(c, w) && HandlerOnly(acts)
    ensures OpenInv(c, Run(c, w, acts)) && Settles(w, Run(c, w, acts))
    ensures forall i :: Effective(c, w, acts, i) + WorkAt(Run(c, w, acts), i) <= WorkAt(w, i)
  {
    if acts != [] {
      var rest, a := acts[..|acts| - 1], acts[|acts| - 1];
      HandlerRun(c, w, rest);
      var u := Run(c, w, rest);
      HandlerActs(c, u, a);
      var v := Step(c, u, a);
      if v != u {
        SettlesTrans(w, u, v);
        forall i ensures Effective(c, w, acts, i) + WorkAt(v, i) <= WorkAt(w, i) {
          assert i != a.host ==> WorkAt(v, i) == WorkAt(u, i);
        }
      }
    }
  }

  /** Served everywhere: only owned connections are left, and no owned one was closed. */
  lemma ServedMeansOwned(c: Setup, w: World, v: World)
    requires WellFormed(c) && OpenInv(c, v) && Settles(w, v) && forall i <- c.names :: Served(v, i)
    ensures v.conns == set l | l in w.conns && Owns(v.peerSet, l.host, l.peer)
  {
    forall l | l in v.conns ensures Owns(v.peerSet, l.host, l.peer) {
      assert Foreign(c, l) && Accounted(v, l) && Served(v, l.host);
    }
  }

  /**
   * Convergence, part one: from every reachable state, every schedule of the handlers takes at most the work of an
   * instance in effective steps of its handler; and wherever it leaves nothing to do, the connections that remain
   * are exactly those whose peer belongs to the host that holds them.
   */
  lemma EveryScheduleConverges(c: Setup, acts: seq<Action>, more: seq<Action>)
    requires WellFormed(c) && HandlerOnly(more)
    ensures var w := Run(c, Init(c), acts);
            var v := Run(c, w, more);
            && Extends(w.peerSet, v.peerSet)
            && (forall i :: Effective(c, w, more, i) <= WorkAt(w, i))
            && ((forall i <- c.names :: Served(v, i)) ==>
                  v.conns == set l | l in w.conns && Owns(v.peerSet, l.host, l.peer))
  {
    OpenRun(c, Init(c), acts);
    var w := Run(c, Init(c), acts);
    HandlerRun(c, w, more);
    if forall i <- c.names :: Served(Run(c, w, more), i) {
      ServedMeansOwned(c, w, Run(c, w, more));
    }
  }

  /** Part two: an instance that is not served has an effective step, so some schedule does leave nothing to do. */
  lemma HandlersConverge(c: Setup, acts: seq<Action>) returns (more: seq<Action>)
    requires WellFormed(c)
    ensures HandlerOnly(more)
    ensures var w, v := Run(c, Init(c), acts), Run(c, Init(c), acts + more);
            && (forall i <- c.names :: Served(v, i))
            && Extends(w.peerSet, v.peerSet)
            && v.conns == set l | l in w.conns && Owns(v.peerSet, l.host, l.peer)
  {
    OpenRun(c, Init(c), acts);
    var w := Run(c, Init(c), acts);
    var v := w;
    more, v := ServeAll(c, w, set i | i in c.names);
    RunConcat(c, Init(c), acts, more);
    ServedMeansOwned(c, w, v);
  }

  // ---------- Owned at every step: exactly when ----------

  ghost predicate AllOwned(w: World) {
    forall l <- w.conns :: Owns(w.peerSet, l.host, l.peer)
  }

  /** The host opens a connection to a peer that the owner map does not give it. One Owner lookup tells beforehand. */
  ghost predicate Strays(c: Setup, w: World, a: Action)
    requires WellFormed(c)
  {
    a.HostDial? && Foreign(c, a.link) && a.link !in w.conns && !Owns(w.peerSet, a.link.host, a.link.peer)
  }

  ghost predicate NeverStrays(c: Setup, acts: seq<Action>)
    requires WellFormed(c)
  {
    forall k :: 0 <= k < |acts| ==> !Strays(c, Run(c, Init(c), acts[..k]), acts[k])
  }

  ghost predicate ClosedInv(c: Setup, w: World)
    requires WellFormed(c)
  {
    && BucketsOwned(c, w)
    && (forall l <- w.dialing :: Owns(w.peerSet, l.host, l.peer))
    && (forall l <- w.secured :: Owns(w.peerSet, l.host, l.peer))
    && AllOwned(w)
    && (forall i <- w.queues :: forall e <- w.queues[i] :: e.Connected? ==> Owns(w.peerSet, i, e.peer))
    && w.closing == map[]
  }

  lemma ClosedConnect(c: Setup, w: World, l: Link)
    requires WellFormed(c) && ClosedInv(c, w) && Owns(w.peerSet, l.host, l.peer)
    ensures ClosedInv(c, Connect(w, l))
  {}

  lemma ClosedDrop(c: Setup, w: World, l: Link)
    requires WellFormed(c) && ClosedInv(c, w)
    ensures ClosedInv(c, Disconnect(w, l))
  {}

  lemma ClosedHandle(c: Setup, w: World, i: Name)
    requires WellFormed(c) && ClosedInv(c, w)
    ensures ClosedInv(c, Step(c, w, HandleEvent(i))) && Step(c, w, HandleEvent(i)).peerSet == w.peerSet
  {}

  lemma ClosedAssign(c: Setup, w: World, t: nat, ai: AddrInfo)
    requires WellFormed(c) && ClosedInv(c, w)
    ensures ClosedInv(c, Step(c, w, AddAssign(t, ai)))
  {
    BucketsStep(c, w, AddAssign(t, ai));
  }

  lemma ClosedSecure(c: Setup, w: World, l: Link)
    requires WellFormed(c) && ClosedInv(c, w)
    ensures ClosedInv(c, Step(c, w, Secure(l)))
  {
    BucketsStep(c, w, Secure(l));
  }

  lemma ClosedPull(c: Setup, w: World, l: Link)
    requires WellFormed(c) && ClosedInv(c, w)
    ensures ClosedInv(c, Step(c, w, Pull(l)))
  {}

  lemma ClosedRest(c: Setup, w: World, act: Action)
    requires WellFormed(c) && ClosedInv(c, w)
    requires act.AddStore? || act.DialFail? || act.Abort? || act.ClosePeer?
    ensures ClosedInv(c, Step(c, w, act))
  {
    BucketsStep(c, w, act);
  }

  lemma ClosedHostDial(c: Setup, w: World, l: Link)
    requires WellFormed(c) && ClosedInv(c, w) && !Strays(c, w, HostDial(l))
    ensures ClosedInv(c, Step(c, w, HostDial(l)))
  {
    if Foreign(c, l) && l !in w.conns {
      ClosedConnect(c, w, l);
    }
  }

  lemma ClosedStep(c: Setup, w: World, act: Action)
    requires WellFormed(c) && ClosedInv(c, w) && !Strays(c, w, act)
    ensures ClosedInv(c, Step(c, w, act))
  {
    match act
    case AddAssign(t, ai) => ClosedAssign(c, w, t, ai);
    case Pull(l) => ClosedPull(c, w, l);
    case DialOk(l) => if l in w.dialing { ClosedConnect(c, w.(dialing := w.dialing - {l}), l); }
    case Secure(l) => ClosedSecure(c, w, l);
    case Establish(l) => if l in w.secured { ClosedConnect(c, w.(secured := w.secured - {l}), l); }
    case HostDial(l) => ClosedHostDial(c, w, l);
    case Drop(l) => ClosedDrop(c, w, l);
    case HandleEvent(i) => ClosedHandle(c, w, i);
    case _ => ClosedRest(c, w, act);
  }

  lemma {:induction false} ClosedRun(c: Setup, acts: seq<Action>, k: nat)
    requires WellFormed(c) && NeverStrays(c, acts) && k <= |acts|
    ensures ClosedInv(c, Run(c, Init(c), acts[..k]))
  {
    if k > 0 {
      ClosedRun(c, acts, k - 1);
      assert acts[..k][..k - 1] == acts[..k - 1];
      ClosedStep(c, Run(c, Init(c), acts[..k - 1]), acts[k - 1]);
    }
  }

  lemma StrayIsUnowned(c: Setup, w: World, a: Action)
    requires WellFormed(c) && Strays(c, w, a)
    ensures !AllOwned(Step(c, w, a))
  {
    assert a.link in Step(c, w, a).conns;
  }

  lemma StrayShows(c: Setup, acts: seq<Action>, k: nat)
    requires WellFormed(c) && k < |acts| && Strays(c, Run(c, Init(c), acts[..k]), acts[k])
    ensures !AllOwned(Run(c, Init(c), acts[..k + 1]))
  {
    assert acts[..k + 1][..k] == acts[..k];
    StrayIsUnowned(c, Run(c, Init(c), acts[..k]), acts[k]);
  }

  /** Every connection is owned after every step of a run if and only if the host never strays. */
  lemma OwnedExactly(c: Setup, acts: seq<Action>)
    requires WellFormed(c)
    ensures (forall k :: 0 <= k <= |acts| ==> AllOwned(Run(c, Init(c), acts[..k]))) <==> NeverStrays(c, acts)
  {
    if NeverStrays(c, acts) {
      forall k | 0 <= k <= |acts| ensures AllOwned(Run(c, Init(c), acts[..k])) {
        ClosedRun(c, acts, k);
      }
    } else {
      var k :| 0 <= k < |acts| && Strays(c, Run(c, Init(c), acts[..k]), acts[k]);
      StrayShows(c, acts, k);
    }
  }

  /** Closed system: if only the PeerManagers dial out, ClosePeer is dead code and the sets are disjoint. */
  lemma ClosedSystem(c: Setup, acts: seq<Action>)
    requires WellFormed(c) && forall a <- acts :: !a.HostDial?
    ensures var w := Run(c, Init(c), acts);
            && AllOwned(w) && w.closing == map[]
            && (forall i, j :: i != j ==> PeersOf(w, i) !! PeersOf(w, j))
  {
    assert acts[..|acts|] == acts;
    ClosedRun(c, acts, |acts|);
  }

  /** An outbound dial that strays can leave two instances on the same peer for a while. */
  lemma OpenOverlap(c: Setup, i: Name, j: Name, p: PeerId)
    requires WellFormed(c) && i in c.names && j in c.names && i != j
    requires forall k <- c.names :: c.hostIds[k] != p
    ensures var w := Run(c, Init(c), [Secure(Link(i, p)), Establish(Link(i, p)), HostDial(Link(j, p))]);
            p in PeersOf(w, i) && p in PeersOf(w, j)
  {
    var a, b, d := Secure(Link(i, p)), Establish(Link(i, p)), HostDial(Link(j, p));
    assert [] + [a] == [a] && [a] + [b] == [a, b] && [a, b] + [d] == [a, b, d];
    RunSnoc(c, Init(c), [], a);
    RunSnoc(c, Init(c), [a], b);
    RunSnoc(c, Init(c), [a, b], d);
    assert Link(i, p) in Run(c, Init(c), [a, b]).conns;
    assert {Link(i, p), Link(j, p)} <= Run(c, Init(c), [a, b, d]).conns;
  }
}
