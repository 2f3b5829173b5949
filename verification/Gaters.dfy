/** node/gater.go and node/inbound.go: who may connect, and what happens once they have. */
module Gaters {
  import opened Types
  import opened SharedPeerSets

  datatype Direction = Inbound | Outbound

  /** The claim made when a connection is secured; sibling and outbound connections claim nothing. */
  function Secured(s: PeerSet, me: Name, siblings: set<PeerId>, dir: Direction, p: PeerId): PeerSet {
    if p in siblings || dir == Outbound then s else AfterClaim(s, p, me)
  }

  predicate Allowed(s: PeerSet, me: Name, siblings: set<PeerId>, dir: Direction, p: PeerId) {
    p !in siblings && (dir == Inbound ==> Owns(AfterClaim(s, p, me), me, p))
  }

  class SiblingGater {
    var siblingIds: set<PeerId>
    const peerSet: SharedPeerSet
    const myName: Name

    constructor (myName: Name, siblings: seq<PeerId>, peerSet: SharedPeerSet)
      requires peerSet.Valid()
      ensures siblingIds == set p | p in siblings
      ensures this.peerSet == peerSet && this.myName == myName
    {
      this.myName, this.peerSet, this.siblingIds := myName, peerSet, {};
      new;
      for i := 0 to |siblings|
        invariant siblingIds == set p | p in siblings[..i]
        invariant this.peerSet == peerSet && this.myName == myName
      {
        siblingIds := siblingIds + {siblings[i]};
        assert siblings[..i + 1] == siblings[..i] + [siblings[i]];
      }
      assert siblings[..|siblings|] == siblings;
    }

    method InterceptPeerDial(p: PeerId) returns (allow: bool)
      ensures allow <==> p !in siblingIds
    {
      allow := p !in siblingIds;
    }

    method InterceptSecured(dir: Direction, p: PeerId) returns (allow: bool)
      requires peerSet.Valid()
      modifies peerSet
      ensures peerSet.Model() == Secured(old(peerSet.Model()), myName, siblingIds, dir, p)
      ensures allow <==> Allowed(old(peerSet.Model()), myName, siblingIds, dir, p)
      ensures p in siblingIds || dir == Outbound ==> (allow <==> p !in siblingIds)
                                                     && peerSet.Model() == old(peerSet.Model())
      ensures p !in siblingIds && dir == Inbound ==>
                && (allow <==> old(p !in peerSet.assignments || peerSet.assignments[p] == myName))
                && (allow <==> Owns(peerSet.Model(), myName, p))
    {
      if p in siblingIds {
        return false;
      }
      if dir == Outbound {
        return true;
      }
      var owner, _ := peerSet.Claim(p, myName);
      return owner == myName;
    }
  }

  datatype Event = Connected(peer: PeerId) | NotConnected(peer: PeerId)

  /** The claim made on a connectedness event; the peer is closed if it then belongs to somebody else. */
  function Handled(s: PeerSet, me: Name, e: Event): PeerSet {
    if e.NotConnected? then s else AfterClaim(s, e.peer, me)
  }

  /** How often a peer has connected. */
  function Connects(events: seq<Event>, p: PeerId): nat {
    multiset(events)[Connected(p)]
  }

  /**
   * What a stretch of events comes to for one peer. It is closed once for each of its connects if somebody else
   * owned it all along, and never otherwise; the instance gains it if it connected and had no owner.
   */
  ghost predicate EnforcedFor(was: PeerSet, now: PeerSet, me: Name, p: PeerId, connects: nat, closings: nat) {
    && closings == (if p in was.assignments && was.assignments[p] != me then connects else 0)
    && (p in now.assignments <==> p in was.assignments || connects > 0)
    && (p in now.assignments ==> now.assignments[p] == if p in was.assignments then was.assignments[p] else me)
  }

  ghost predicate Enforced(was: PeerSet, now: PeerSet, me: Name, events: seq<Event>, closed: seq<PeerId>) {
    && now.instances == was.instances && now.nextIdx == was.nextIdx
    && forall p: PeerId :: EnforcedFor(was, now, me, p, Connects(events, p), multiset(closed)[p])
  }

  function HandledAll(s: PeerSet, me: Name, events: seq<Event>): PeerSet {
    if events == [] then s else Handled(HandledAll(s, me, events[..|events| - 1]), me, events[|events| - 1])
  }

  /** The peers closed along the way, in order. */
  function ClosedBy(s: PeerSet, me: Name, events: seq<Event>): seq<PeerId> {
    if events == [] then [] else
      var e, before := events[|events| - 1], events[..|events| - 1];
      ClosedBy(s, me, before) +
      if e.Connected? && !Owns(HandledAll(s, me, events), me, e.peer) then [e.peer] else []
  }

  lemma ConnectsSnoc(events: seq<Event>, e: Event, p: PeerId)
    ensures Connects(events + [e], p) == Connects(events, p) + if e == Connected(p) then 1 else 0
  {}

  lemma EnforcedStep(was: PeerSet, now: PeerSet, me: Name, events: seq<Event>, closed: seq<PeerId>, e: Event)
    requires Enforced(was, now, me, events, closed)
    ensures var next := Handled(now, me, e);
            Enforced(was, next, me, events + [e],
                     closed + if e.Connected? && !Owns(next, me, e.peer) then [e.peer] else [])
  {
    var next := Handled(now, me, e);
    var more := if e.Connected? && !Owns(next, me, e.peer) then [e.peer] else [];
    forall p: PeerId
      ensures EnforcedFor(was, next, me, p, Connects(events + [e], p), multiset(closed + more)[p])
    {
      assert EnforcedFor(was, now, me, p, Connects(events, p), multiset(closed)[p]);
      ConnectsSnoc(events, e, p);
      assert multiset(closed + more)[p] == multiset(closed)[p] + if more == [p] then 1 else 0;
    }
  }

  lemma {:induction false} HandledMeaning(s: PeerSet, me: Name, events: seq<Event>)
    ensures Enforced(s, HandledAll(s, me, events), me, events, ClosedBy(s, me, events))
  {
    if events != [] {
      var rest, e := events[..|events| - 1], events[|events| - 1];
      HandledMeaning(s, me, rest);
      EnforcedStep(s, HandledAll(s, me, rest), me, rest, ClosedBy(s, me, rest), e);
      assert events == rest + [e];
    }
  }

  /** The event loop on a stretch of events with nobody else touching the set. */
  method HandleInboundPeers(events: seq<Event>, me: Name, peerSet: SharedPeerSet) returns (closed: seq<PeerId>)
    requires peerSet.Valid()
    modifies peerSet
    ensures peerSet.Model() == HandledAll(old(peerSet.Model()), me, events)
    ensures closed == ClosedBy(old(peerSet.Model()), me, events)
    ensures Enforced(old(peerSet.Model()), peerSet.Model(), me, events, closed)
  {
    closed := [];
    for i := 0 to |events|
      invariant peerSet.Model() == HandledAll(old(peerSet.Model()), me, events[..i])
      invariant closed == ClosedBy(old(peerSet.Model()), me, events[..i])
    {
      assert events[..i + 1][..i] == events[..i];
      var e := events[i];
      if e.NotConnected? {
        continue;
      }
      var owner, _ := peerSet.Claim(e.peer, me);
      if owner != me {
        closed := closed + [e.peer];
      }
    }
    assert events[..|events|] == events;
    HandledMeaning(old(peerSet.Model()), me, events);
  }
}
