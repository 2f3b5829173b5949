/** node/attestation.go, flushSlots: attestations wait per slot until their slot has completed. */
module AttestationBuffers {
  import opened Types
  import opened SlotClock

  datatype Attestation = Attestation(receiveTime: int, subnet: uint64, slot: uint64, attester: uint64)

  type Pending = map<uint64, seq<Attestation>>

  datatype Batch = Batch(slot: uint64, entries: seq<Attestation>)

  function Entries(p: Pending, s: uint64): seq<Attestation> {
    if s in p then p[s] else []
  }

  function Received(p: Pending, e: Attestation): Pending {
    p[e.slot := Entries(p, e.slot) + [e]]
  }

  function Due(p: Pending, current: uint64): set<uint64> {
    set s | s in p && s <= Completed(current)
  }

  /** What a tick may hand to the logger: one whole batch per due slot, in any order. */
  ghost predicate IsFlush(p: Pending, current: uint64, batches: seq<Batch>) {
    && (forall i, j :: 0 <= i < j < |batches| ==> batches[i].slot != batches[j].slot)
    && (forall b <- batches :: b.slot in Due(p, current) && b.entries == p[b.slot])
    && (forall s <- Due(p, current) :: Batch(s, p[s]) in batches)
  }

  class SlotBuffer {
    var pending: Pending

    constructor ()
      ensures pending == map[]
    {
      pending := map[];
    }

    method Receive(e: Attestation)
      modifies this
      ensures pending == Received(old(pending), e)
    {
      pending := pending[e.slot := (if e.slot in pending then pending[e.slot] else []) + [e]];
    }

    /** The timer branch; Go iterates over the map in an arbitrary order and deletes as it goes. */
    method OnTimer(current: uint64) returns (batches: seq<Batch>)
      modifies this
      ensures IsFlush(old(pending), current, batches)
      ensures pending == old(pending) - Due(old(pending), current)
    {
      var completedSlot := Sub64(current, 1);
      ghost var start, due := pending, Due(pending, current);
      batches := [];
      var todo := pending.Keys;
      while todo != {}
        invariant todo <= start.Keys
        invariant forall s :: s in pending <==> s in start && (s in todo || s !in due)
        invariant forall s <- pending :: pending[s] == start[s]
        invariant forall i, j :: 0 <= i < j < |batches| ==> batches[i].slot != batches[j].slot
        invariant forall b <- batches :: b.slot in due && b.slot !in todo && b.entries == start[b.slot]
        invariant forall s <- due :: s in todo || Batch(s, start[s]) in batches
        decreases |todo|
      {
        var s :| s in todo;
        todo := todo - {s};
        if s <= completedSlot {
          batches := batches + [Batch(s, pending[s])];
          pending := pending - {s};
        }
      }
    }
  }

  // ---------- Runs ----------

  datatype Event = Recv(entry: Attestation) | Timer(current: uint64, batches: seq<Batch>)

  function PendingAfter(events: seq<Event>): Pending {
    if events == [] then map[] else
      var p, ev := PendingAfter(events[..|events| - 1]), events[|events| - 1];
      match ev
      case Recv(e) => Received(p, e)
      case Timer(current, _) => p - Due(p, current)
  }

  /** Every tick of the run handed over what OnTimer may hand over. */
  ghost predicate Faithful(events: seq<Event>) {
    forall k :: 0 <= k < |events| && events[k].Timer? ==>
                  IsFlush(PendingAfter(events[..k]), events[k].current, events[k].batches)
  }

  /** The entries of one slot in a list of batches, or of entries, in order. */
  function OfSlot(batches: seq<Batch>, s: uint64): seq<Attestation> {
    if batches == [] then [] else
      OfSlot(batches[..|batches| - 1], s) +
      if batches[|batches| - 1].slot == s then batches[|batches| - 1].entries else []
  }

  function ReceivedOf(events: seq<Event>, s: uint64): seq<Attestation> {
    if events == [] then [] else
      var ev := events[|events| - 1];
      ReceivedOf(events[..|events| - 1], s) + if ev.Recv? && ev.entry.slot == s then [ev.entry] else []
  }

  function HandedOf(events: seq<Event>, s: uint64): seq<Attestation> {
    if events == [] then [] else
      var ev := events[|events| - 1];
      HandedOf(events[..|events| - 1], s) + if ev.Timer? then OfSlot(ev.batches, s) else []
  }

  lemma {:induction false} OfSlotAbsent(batches: seq<Batch>, s: uint64)
    requires forall b <- batches :: b.slot != s
    ensures OfSlot(batches, s) == []
  {
    if batches != [] {
      OfSlotAbsent(batches[..|batches| - 1], s);
    }
  }

  lemma {:induction false} OfSlotPresent(batches: seq<Batch>, b: Batch)
    requires forall i, j :: 0 <= i < j < |batches| ==> batches[i].slot != batches[j].slot
    requires b in batches
    ensures OfSlot(batches, b.slot) == b.entries
  {
    var n := |batches| - 1;
    if batches[n] == b {
      OfSlotAbsent(batches[..n], b.slot);
    } else {
      OfSlotPresent(batches[..n], b);
    }
  }

  lemma FlushOfSlot(p: Pending, current: uint64, batches: seq<Batch>, s: uint64)
    requires IsFlush(p, current, batches)
    ensures OfSlot(batches, s) == if s in Due(p, current) then p[s] else []
  {
    if s in Due(p, current) {
      OfSlotPresent(batches, Batch(s, p[s]));
    } else {
      OfSlotAbsent(batches, s);
    }
  }

  lemma FaithfulPrefix(events: seq<Event>)
    requires events != [] && Faithful(events)
    ensures Faithful(events[..|events| - 1])
    ensures var n := |events| - 1;
            events[n].Timer? ==> IsFlush(PendingAfter(events[..n]), events[n].current, events[n].batches)
  {
    var rest := events[..|events| - 1];
    forall k | 0 <= k < |rest| && rest[k].Timer?
      ensures IsFlush(PendingAfter(rest[..k]), rest[k].current, rest[k].batches)
    {
      assert rest[..k] == events[..k];
    }
  }

  lemma FlushKeepsOrder(p: Pending, current: uint64, batches: seq<Batch>, s: uint64)
    requires IsFlush(p, current, batches)
    ensures Entries(p, s) == OfSlot(batches, s) + Entries(p - Due(p, current), s)
  {
    FlushOfSlot(p, current, batches, s);
  }

  lemma ReceiveKeepsOrder(p: Pending, e: Attestation, s: uint64)
    ensures Entries(Received(p, e), s) == Entries(p, s) + if e.slot == s then [e] else []
  {}

  lemma Regroup(a: seq<Attestation>, b: seq<Attestation>, c: seq<Attestation>)
    ensures a + (b + c) == a + b + c
  {}

  ghost predicate InOrder(events: seq<Event>, s: uint64) {
    ReceivedOf(events, s) == HandedOf(events, s) + Entries(PendingAfter(events), s)
  }

  lemma ReceiveInOrder(events: seq<Event>, rest: seq<Event>, e: Attestation, s: uint64)
    requires events != [] && rest == events[..|events| - 1] && events[|events| - 1] == Recv(e) && InOrder(rest, s)
    ensures InOrder(events, s)
  {
    var more := if e.slot == s then [e] else [];
    ReceiveKeepsOrder(PendingAfter(rest), e, s);
    Regroup(HandedOf(rest, s), Entries(PendingAfter(rest), s), more);
    assert HandedOf(events, s) == HandedOf(rest, s);
  }

  lemma FlushInOrder(events: seq<Event>, rest: seq<Event>, current: uint64, batches: seq<Batch>, s: uint64)
    requires events != [] && rest == events[..|events| - 1] && events[|events| - 1] == Timer(current, batches)
    requires InOrder(rest, s) && IsFlush(PendingAfter(rest), current, batches)
    ensures InOrder(events, s)
  {
    var p := PendingAfter(rest);
    FlushKeepsOrder(p, current, batches, s);
    Regroup(HandedOf(rest, s), OfSlot(batches, s), Entries(p - Due(p, current), s));
    assert ReceivedOf(events, s) == ReceivedOf(rest, s);
  }

  /** Nothing of a slot is lost, repeated or reordered: its batches and then what still waits are what came in. */
  lemma {:induction false} OrderKept(events: seq<Event>, s: uint64)
    requires Faithful(events)
    ensures ReceivedOf(events, s) == HandedOf(events, s) + Entries(PendingAfter(events), s)
  {
    if events != [] {
      var rest, ev := events[..|events| - 1], events[|events| - 1];
      FaithfulPrefix(events);
      OrderKept(rest, s);
      match ev
      case Recv(e) => ReceiveInOrder(events, rest, e, s);
      case Timer(current, batches) => FlushInOrder(events, rest, current, batches, s);
    }
  }

  // ---------- Conservation over all slots ----------

  function Flatten(batches: seq<Batch>): seq<Attestation> {
    if batches == [] then [] else Flatten(batches[..|batches| - 1]) + batches[|batches| - 1].entries
  }

  function AllReceived(events: seq<Event>): multiset<Attestation> {
    if events == [] then multiset{} else
      var ev := events[|events| - 1];
      AllReceived(events[..|events| - 1]) + if ev.Recv? then multiset{ev.entry} else multiset{}
  }

  function AllHanded(events: seq<Event>): multiset<Attestation> {
    if events == [] then multiset{} else
      var ev := events[|events| - 1];
      AllHanded(events[..|events| - 1]) + if ev.Timer? then multiset(Flatten(ev.batches)) else multiset{}
  }

  ghost predicate FiledBySlot(p: Pending) {
    forall s <- p :: forall e <- p[s] :: e.slot == s
  }

  lemma {:induction false} AlwaysFiledBySlot(events: seq<Event>)
    ensures FiledBySlot(PendingAfter(events))
  {
    if events != [] {
      AlwaysFiledBySlot(events[..|events| - 1]);
    }
  }

  lemma {:induction false} FlattenCount(batches: seq<Batch>, e: Attestation)
    requires forall b <- batches :: forall x <- b.entries :: x.slot == b.slot
    ensures multiset(Flatten(batches))[e] == multiset(OfSlot(batches, e.slot))[e]
  {
    if batches != [] {
      FlattenCount(batches[..|batches| - 1], e);
    }
  }

  /** Every attestation received is either handed to the logger or still pending, with multiplicity. */
  lemma {:induction false} Conservation(events: seq<Event>, e: Attestation)
    requires Faithful(events)
    ensures AllReceived(events)[e] == AllHanded(events)[e] + multiset(Entries(PendingAfter(events), e.slot))[e]
  {
    if events != [] {
      var rest, ev := events[..|events| - 1], events[|events| - 1];
      FaithfulPrefix(events);
      Conservation(rest, e);
      if ev.Timer? {
        AlwaysFiledBySlot(rest);
        FlushOfSlot(PendingAfter(rest), ev.current, ev.batches, e.slot);
        FlattenCount(ev.batches, e);
      }
    }
  }

  // ---------- Never early, never stuck ----------

  /** What the comparison with CurrentSlot - 1 comes to: only slots before the current one, unless it is slot 0. */
  lemma EarlyExactly(p: Pending, current: uint64, batches: seq<Batch>)
    requires IsFlush(p, current, batches)
    ensures (forall b <- batches :: b.slot < current) <==> current > 0 || p == map[]
    ensures forall s <- p - Due(p, current) :: s >= current
  {}

  ghost function TimerCount(events: seq<Event>): nat {
    if events == [] then 0 else TimerCount(events[..|events| - 1]) + if events[|events| - 1].Timer? then 1 else 0
  }

  /** The run's ticks are those of a slot timer on a monotone clock. */
  ghost predicate Clocked(genesis: int, events: seq<Event>, ticks: seq<Tick>) {
    && TimerRun(genesis, ticks)
    && forall k :: 0 <= k < |events| && events[k].Timer? ==>
                     && TimerCount(events[..k]) < |ticks|
                     && events[k].current == CurrentSlot(genesis, ticks[TimerCount(events[..k])].handled)
  }

  /** On the timer, a tick hands over exactly those waiting slots that have ended by the time it is handled. */
  lemma HandedWhenEnded(genesis: int, events: seq<Event>, ticks: seq<Tick>, k: nat, s: uint64)
    requires Faithful(events) && Clocked(genesis, events, ticks)
    requires k < |events| && events[k].Timer? && s in PendingAfter(events[..k])
    ensures var now := ticks[TimerCount(events[..k])].handled;
            && ((exists b <- events[k].batches :: b.slot == s) <==> SlotEnd(genesis, s) <= now)
            && (s in PendingAfter(events[..k + 1]) <==> now < SlotEnd(genesis, s))
  {
    var p, ev, t := PendingAfter(events[..k]), events[k], ticks[TimerCount(events[..k])];
    assert IsFlush(p, ev.current, ev.batches);
    CompletedSlotsIncrease(genesis, ticks, TimerCount(events[..k]), TimerCount(events[..k]));
    SlotReached(genesis, t.handled, s + 1);
    assert s in Due(p, ev.current) <==> SlotEnd(genesis, s) <= t.handled;
    assert s in Due(p, ev.current) ==> Batch(s, p[s]) in ev.batches;
    assert events[..k + 1][..k] == events[..k];
  }

  /** On the timer the wrap of CurrentSlot - 1 is out of reach: no tick of any run hands over an unfinished slot. */
  lemma NeverEarly(genesis: int, events: seq<Event>, ticks: seq<Tick>, k: nat, b: Batch)
    requires Faithful(events) && Clocked(genesis, events, ticks)
    requires k < |events| && events[k].Timer? && b in events[k].batches
    ensures SlotEnd(genesis, b.slot) <= ticks[TimerCount(events[..k])].handled
  {
    var p, ev, n := PendingAfter(events[..k]), events[k], TimerCount(events[..k]);
    assert IsFlush(p, ev.current, ev.batches);
    CompletedSlotsIncrease(genesis, ticks, n, n);
    EarlyExactly(p, ev.current, ev.batches);
    SlotReached(genesis, ticks[n].handled, b.slot + 1);
  }
}
