/** node/block.go and the join in node/attestation.go: first block arrivals, kept for a while, looked up per slot. */
module BlockTrackers {
  import opened Types
  import opened SlotClock
  import opened AttestationBuffers

  const RETENTION: uint64 := 64

  type Arrivals = map<uint64, int>

  function Recorded(m: Arrivals, slot: uint64, t: int): Arrivals {
    if slot in m then m else m[slot := t]
  }

  function CleanedUp(m: Arrivals, minSlot: uint64): Arrivals {
    map s | s in m && s >= minSlot :: m[s]
  }

  function Lookup(m: Arrivals, slot: uint64): Option<int> {
    if slot in m then Some(m[slot]) else None
  }

  class BlockTracker {
    var blocks: Arrivals

    constructor ()
      ensures blocks == map[]
    {
      blocks := map[];
    }

    method Record(slot: uint64, t: int)
      modifies this
      ensures blocks == Recorded(old(blocks), slot, t)
    {
      if slot !in blocks {
        blocks := blocks[slot := t];
      }
    }

    method GetBlockArrival(slot: uint64) returns (t: Option<int>)
      ensures t == Lookup(blocks, slot)
    {
      t := if slot in blocks then Some(blocks[slot]) else None;
    }

    method Cleanup(minSlot: uint64)
      modifies this
      ensures blocks == CleanedUp(old(blocks), minSlot)
    {
      ghost var start := blocks;
      var todo := blocks.Keys;
      while todo != {}
        invariant todo <= start.Keys
        invariant forall s :: s in blocks <==> s in start && (s in todo || s >= minSlot)
        invariant forall s <- blocks :: blocks[s] == start[s]
        decreases |todo|
      {
        var s :| s in todo;
        todo := todo - {s};
        if s < minSlot {
          blocks := blocks - {s};
        }
      }
    }
  }

  // ---------- The block listener ----------

  datatype Listener = Listener(blocks: Arrivals, lastCleanup: uint64)

  const START := Listener(map[], 0)

  /** Both subtractions are uint64 and may wrap. */
  predicate Cleans(l: Listener, slot: uint64) {
    Sub64(slot, l.lastCleanup) > RETENTION
  }

  function OnBlock(l: Listener, slot: uint64, t: int): Listener {
    var m := Recorded(l.blocks, slot, t);
    if Cleans(l, slot) then Listener(CleanedUp(m, Sub64(slot, RETENTION)), slot) else Listener(m, l.lastCleanup)
  }

  /**
   * One pass per decoded message; a slot without a start time is skipped. The tracker starts out empty and has
   * no other writer (main.go:197, main.go:285-294).
   */
  method ListenForBlocks(messages: seq<(uint64, int)>, genesis: int, tracker: BlockTracker)
    requires tracker.blocks == map[]
    modifies tracker
    ensures tracker.blocks == Exec(Timed(messages)).blocks
  {
    var lastCleanup: uint64 := 0;
    for i := 0 to |messages|
      invariant Listener(tracker.blocks, lastCleanup) == Exec(Timed(messages[..i]))
    {
      var (slot, receiveTime) := messages[i];
      OneMore(messages, i);
      if StartTime(genesis, slot).None? {
        continue;
      }
      tracker.Record(slot, receiveTime);
      if Sub64(slot, lastCleanup) > RETENTION {
        lastCleanup := slot;
        tracker.Cleanup(Sub64(slot, RETENTION));
      }
    }
    assert messages[..|messages|] == messages;
  }

  // ---------- Runs of messages whose slots have a start time ----------

  type BlockSlot = s: uint64 | HasStart(s)

  datatype Block = Block(slot: BlockSlot, time: int)

  function Timed(messages: seq<(uint64, int)>): seq<Block> {
    if messages == [] then [] else
      var (slot, t) := messages[|messages| - 1];
      Timed(messages[..|messages| - 1]) + if HasStart(slot) then [Block(slot, t)] else []
  }

  lemma OneMore(messages: seq<(uint64, int)>, i: nat)
    requires i < |messages|
    ensures var (slot, t) := messages[i];
            var l := Exec(Timed(messages[..i]));
            Exec(Timed(messages[..i + 1])) == if HasStart(slot) then OnBlock(l, slot, t) else l
  {
    var seen := Timed(messages[..i]);
    assert messages[..i + 1][..i] == messages[..i];
    if HasStart(messages[i].0) {
      var b := Block(messages[i].0, messages[i].1);
      assert (seen + [b])[..|seen|] == seen;
      assert Timed(messages[..i + 1]) == seen + [b];
    } else {
      assert Timed(messages[..i + 1]) == seen;
    }
  }

  function Exec(blocks: seq<Block>): Listener {
    if blocks == [] then START else
      OnBlock(Exec(blocks[..|blocks| - 1]), blocks[|blocks| - 1].slot, blocks[|blocks| - 1].time)
  }

  /** The arrival of the first block of a slot, independent of any clean-up. */
  function FirstArrival(blocks: seq<Block>, s: uint64): Option<int> {
    if blocks == [] then None else
      var before, b := FirstArrival(blocks[..|blocks| - 1], s), blocks[|blocks| - 1];
      if before.None? && b.slot == s then Some(b.time) else before
  }

  /** The i-th message is the first one for slot s. */
  ghost predicate IsFirst(blocks: seq<Block>, s: uint64, i: int) {
    0 <= i < |blocks| && blocks[i].slot == s && forall j :: 0 <= j < i ==> blocks[j].slot != s
  }

  lemma {:induction false} FirstArrivalMeaning(blocks: seq<Block>, s: uint64)
    ensures FirstArrival(blocks, s).None? <==> forall b <- blocks :: b.slot != s
    ensures FirstArrival(blocks, s).Some? ==>
              exists i :: IsFirst(blocks, s, i) && blocks[i].time == FirstArrival(blocks, s).value
  {
    if blocks != [] {
      var n := |blocks| - 1;
      FirstArrivalMeaning(blocks[..n], s);
      assert blocks == blocks[..n] + [blocks[n]];
      if FirstArrival(blocks[..n], s).Some? {
        var i :| IsFirst(blocks[..n], s, i) && blocks[..n][i].time == FirstArrival(blocks[..n], s).value;
        assert IsFirst(blocks, s, i);
      } else if blocks[n].slot == s {
        assert forall j :: 0 <= j < n ==> blocks[j] in blocks[..n];
        assert IsFirst(blocks, s, n);
      }
    }
  }

  /** The i-th message is the first one for slot s, as it came in. */
  ghost predicate IsFirstMessage(messages: seq<(uint64, int)>, s: uint64, i: int) {
    0 <= i < |messages| && messages[i].0 == s && forall j :: 0 <= j < i ==> messages[j].0 != s
  }

  /** The filter loses nothing: a slot's first block is its first message, if the slot has a start time at all. */
  lemma {:induction false} TimedFirst(messages: seq<(uint64, int)>, s: uint64)
    ensures FirstArrival(Timed(messages), s).None? <==> !HasStart(s) || forall m <- messages :: m.0 != s
    ensures FirstArrival(Timed(messages), s).Some? ==>
              exists i :: IsFirstMessage(messages, s, i) && messages[i].1 == FirstArrival(Timed(messages), s).value
  {
    if messages != [] {
      var n := |messages| - 1;
      var rest, seen := messages[..n], Timed(messages[..n]);
      TimedFirst(rest, s);
      assert messages == rest + [messages[n]];
      FirstOfTimed(messages, s);
      if FirstArrival(seen, s).Some? {
        var i :| IsFirstMessage(rest, s, i) && rest[i].1 == FirstArrival(seen, s).value;
        assert IsFirstMessage(messages, s, i);
      } else if messages[n].0 == s && HasStart(s) {
        assert forall j :: 0 <= j < n ==> messages[j] in rest;
        assert IsFirstMessage(messages, s, n);
      }
    }
  }

  lemma FirstOfTimed(messages: seq<(uint64, int)>, s: uint64)
    requires messages != []
    ensures var n := |messages| - 1;
            FirstArrival(Timed(messages), s) ==
            var before := FirstArrival(Timed(messages[..n]), s);
            if before.None? && messages[n].0 == s && HasStart(s) then Some(messages[n].1) else before
  {
    var n := |messages| - 1;
    var seen := Timed(messages[..n]);
    if HasStart(messages[n].0) {
      var all := seen + [Block(messages[n].0, messages[n].1)];
      assert Timed(messages) == all && all[..|all| - 1] == seen;
    } else {
      assert Timed(messages) == seen;
    }
  }

  /** No block seen so far is more than the retention ahead of s. */
  ghost predicate WithinReach(blocks: seq<Block>, s: uint64) {
    forall b <- blocks :: b.slot <= s + RETENTION
  }

  /** For every slot within reach the tracker answers with the first block's arrival, or that there was none. */
  ghost predicate JoinCorrect(blocks: seq<Block>) {
    forall s: uint64 :: WithinReach(blocks, s) ==> Lookup(Exec(blocks).blocks, s) == FirstArrival(blocks, s)
  }

  /** A block so old that the clean-up it triggers computes slot - 64 below zero. */
  predicate Wraps(l: Listener, slot: uint64) {
    slot < RETENTION && slot < l.lastCleanup
  }

  ghost predicate NeverWraps(blocks: seq<Block>) {
    forall k :: 0 <= k < |blocks| ==> !Wraps(Exec(blocks[..k]), blocks[k].slot)
  }

  lemma {:induction false} LastCleanupHasStart(blocks: seq<Block>)
    ensures HasStart(Exec(blocks).lastCleanup)
  {
    if blocks != [] {
      LastCleanupHasStart(blocks[..|blocks| - 1]);
    }
  }

  /** Wraps is the guard under which a clean-up fires with a wrapped bound. */
  lemma WrapsMeaning(l: Listener, slot: BlockSlot)
    requires HasStart(l.lastCleanup)
    ensures Wraps(l, slot) <==> Cleans(l, slot) && Sub64(slot, RETENTION) > slot
    ensures Wraps(l, slot) ==> forall s: uint64 :: HasStart(s) ==> s < Sub64(slot, RETENTION)
  {}

  lemma JoinStep(blocks: seq<Block>, s: uint64)
    requires blocks != [] && WithinReach(blocks, s)
    requires var n := |blocks| - 1;
             && Lookup(Exec(blocks[..n]).blocks, s) == FirstArrival(blocks[..n], s)
             && !Wraps(Exec(blocks[..n]), blocks[n].slot)
    ensures Lookup(Exec(blocks).blocks, s) == FirstArrival(blocks, s)
  {
    var n := |blocks| - 1;
    var l, b := Exec(blocks[..n]), blocks[n];
    assert b in blocks;
    LastCleanupHasStart(blocks[..n]);
    WrapsMeaning(l, b.slot);
    assert Cleans(l, b.slot) ==> Sub64(b.slot, RETENTION) <= s;
  }

  lemma NeverWrapsPrefix(blocks: seq<Block>, k: nat)
    requires NeverWraps(blocks) && k <= |blocks|
    ensures NeverWraps(blocks[..k])
  {
    forall j | 0 <= j < k ensures !Wraps(Exec(blocks[..k][..j]), blocks[..k][j].slot) {
      assert blocks[..k][..j] == blocks[..j];
    }
  }

  lemma {:induction false} JoinHolds(blocks: seq<Block>, s: uint64)
    requires NeverWraps(blocks) && WithinReach(blocks, s)
    ensures Lookup(Exec(blocks).blocks, s) == FirstArrival(blocks, s)
  {
    if blocks != [] {
      var rest := blocks[..|blocks| - 1];
      NeverWrapsPrefix(blocks, |blocks| - 1);
      assert forall b <- rest :: b in blocks;
      JoinHolds(rest, s);
      JoinStep(blocks, s);
    }
  }

  lemma {:induction false} Highest(blocks: seq<Block>) returns (i: nat)
    requires blocks != []
    ensures i < |blocks| && forall b <- blocks :: b.slot <= blocks[i].slot
  {
    var n := |blocks| - 1;
    i := n;
    if n > 0 {
      var j := Highest(blocks[..n]);
      assert blocks == blocks[..n] + [blocks[n]];
      i := if blocks[j].slot > blocks[n].slot then j else n;
    }
  }

  /** A wrapped clean-up throws away even the newest block, so the join is wrong right after it. */
  lemma WrapBreaksJoin(blocks: seq<Block>)
    requires blocks != [] && Wraps(Exec(blocks[..|blocks| - 1]), blocks[|blocks| - 1].slot)
    ensures !JoinCorrect(blocks)
  {
    var n := |blocks| - 1;
    LastCleanupHasStart(blocks[..n]);
    WrapsMeaning(Exec(blocks[..n]), blocks[n].slot);
    var i := Highest(blocks);
    var s: uint64 := blocks[i].slot;
    FirstArrivalMeaning(blocks, s);
    assert WithinReach(blocks, s);
    assert blocks[i] in blocks && FirstArrival(blocks, s).Some?;
    assert s !in Exec(blocks).blocks;
  }

  lemma JoinByWraps(blocks: seq<Block>)
    ensures (forall k :: 0 <= k <= |blocks| ==> JoinCorrect(blocks[..k])) <==> NeverWraps(blocks)
  {
    if NeverWraps(blocks) {
      forall k, s: uint64 | 0 <= k <= |blocks| && WithinReach(blocks[..k], s)
        ensures Lookup(Exec(blocks[..k]).blocks, s) == FirstArrival(blocks[..k], s)
      {
        NeverWrapsPrefix(blocks, k);
        JoinHolds(blocks[..k], s);
      }
    } else {
      var k :| 0 <= k < |blocks| && Wraps(Exec(blocks[..k]), blocks[k].slot);
      assert blocks[..k + 1][..k] == blocks[..k];
      WrapBreaksJoin(blocks[..k + 1]);
    }
  }

  /** No block from before slot 64 arrives after one from beyond slot 64. */
  ghost predicate NoStaleBlock(blocks: seq<Block>) {
    forall i, j :: 0 <= i < j < |blocks| && blocks[i].slot > RETENTION ==> blocks[j].slot >= RETENTION
  }

  ghost predicate Advanced(blocks: seq<Block>) {
    exists b <- blocks :: b.slot > RETENTION
  }

  lemma NoStaleSnoc(blocks: seq<Block>, b: Block)
    ensures NoStaleBlock(blocks + [b]) <==> NoStaleBlock(blocks) && (Advanced(blocks) ==> b.slot >= RETENTION)
    ensures Advanced(blocks + [b]) <==> Advanced(blocks) || b.slot > RETENTION
  {
    var all, n := blocks + [b], |blocks|;
    assert all[n] == b && forall i :: 0 <= i < n ==> all[i] == blocks[i];
    if NoStaleBlock(blocks) && (Advanced(blocks) ==> b.slot >= RETENTION) {
      forall i, j | 0 <= i < j < |all| && all[i].slot > RETENTION ensures all[j].slot >= RETENTION {
        assert all[i] in blocks;
      }
    }
  }

  /** Until a slot beyond 64 has been seen there is no clean-up; afterwards the last one was at slot 64 or later. */
  ghost predicate CleanupFollows(l: Listener, advanced: bool) {
    if advanced then l.lastCleanup >= RETENTION else l.lastCleanup == 0
  }

  lemma CleanupStep(l: Listener, advanced: bool, b: Block)
    requires CleanupFollows(l, advanced) && (advanced ==> b.slot >= RETENTION)
    ensures CleanupFollows(OnBlock(l, b.slot, b.time), advanced || b.slot > RETENTION)
  {}

  /** Once the clean-ups follow the blocks, a block makes the bound wrap exactly if it is stale. */
  lemma WrapsIfStale(l: Listener, advanced: bool, slot: uint64)
    requires CleanupFollows(l, advanced)
    ensures Wraps(l, slot) <==> advanced && slot < RETENTION
  {}

  lemma {:induction false} CleanupFollowsBlocks(blocks: seq<Block>)
    requires NoStaleBlock(blocks)
    ensures CleanupFollows(Exec(blocks), Advanced(blocks))
  {
    if blocks != [] {
      var n := |blocks| - 1;
      var rest, b := blocks[..n], blocks[n];
      assert blocks == rest + [b];
      NoStaleSnoc(rest, b);
      CleanupFollowsBlocks(rest);
      CleanupStep(Exec(rest), Advanced(rest), b);
    }
  }

  lemma NeverWrapsSnoc(blocks: seq<Block>, b: Block)
    ensures NeverWraps(blocks + [b]) <==> NeverWraps(blocks) && !Wraps(Exec(blocks), b.slot)
  {
    var all, n := blocks + [b], |blocks|;
    assert all[..n] == blocks && all[n] == b;
    if NeverWraps(all) {
      NeverWrapsPrefix(all, n);
    } else {
      var k :| 0 <= k < |all| && Wraps(Exec(all[..k]), all[k].slot);
      if k < n {
        assert all[..k] == blocks[..k] && all[k] == blocks[k];
      }
    }
  }

  lemma {:induction false} StaleExactly(blocks: seq<Block>)
    ensures NeverWraps(blocks) <==> NoStaleBlock(blocks)
  {
    if blocks != [] {
      var n := |blocks| - 1;
      var rest, b := blocks[..n], blocks[n];
      assert blocks == rest + [b];
      StaleExactly(rest);
      NeverWrapsSnoc(rest, b);
      NoStaleSnoc(rest, b);
      if NoStaleBlock(rest) {
        CleanupFollowsBlocks(rest);
        WrapsIfStale(Exec(rest), Advanced(rest), b.slot);
      }
    }
  }

  /**
   * The join is right after every message of a run if and only if no block from before slot 64 arrives after one
   * from beyond it: slot - 64 then wraps, and the clean-up deletes everything.
   */
  lemma JoinExactly(blocks: seq<Block>)
    ensures (forall k :: 0 <= k <= |blocks| ==> JoinCorrect(blocks[..k])) <==> NoStaleBlock(blocks)
  {
    JoinByWraps(blocks);
    StaleExactly(blocks);
  }

  /** Without such a block no status goes back from proposed to missed. */
  lemma ProposedStays(blocks: seq<Block>, more: seq<Block>, s: uint64)
    requires NoStaleBlock(blocks + more) && WithinReach(blocks + more, s) && s in Exec(blocks).blocks
    ensures Lookup(Exec(blocks + more).blocks, s) == Lookup(Exec(blocks).blocks, s)
  {
    assert (blocks + more)[..|blocks|] == blocks;
    StaleExactly(blocks + more);
    NeverWrapsPrefix(blocks + more, |blocks|);
    JoinHolds(blocks, s);
    JoinHolds(blocks + more, s);
    FirstIsFirst(blocks, more, s);
  }

  /** A lookup between Record and clean-up, which are two critical sections, is answered no differently. */
  lemma JoinMidway(blocks: seq<Block>, b: Block, s: uint64)
    requires NoStaleBlock(blocks) && WithinReach(blocks + [b], s)
    ensures Lookup(Recorded(Exec(blocks).blocks, b.slot, b.time), s) == FirstArrival(blocks + [b], s)
  {
    assert forall x <- blocks :: x in blocks + [b];
    assert (blocks + [b])[..|blocks|] == blocks;
    StaleExactly(blocks);
    JoinHolds(blocks, s);
  }

  lemma {:induction false} FirstIsFirst(blocks: seq<Block>, more: seq<Block>, s: uint64)
    requires FirstArrival(blocks, s).Some?
    ensures FirstArrival(blocks + more, s) == FirstArrival(blocks, s)
  {
    if more == [] {
      assert blocks + more == blocks;
    } else {
      FirstIsFirst(blocks, more[..|more| - 1], s);
      assert (blocks + more)[..|blocks + more| - 1] == blocks + more[..|more| - 1];
    }
  }

  /** The hypothesis is needed: one stale block erases the newest arrival. */
  lemma StaleBlockErases()
    ensures var blocks := [Block(100, 7), Block(3, 8)];
            && WithinReach(blocks, 100) && FirstArrival(blocks, 100) == Some(7)
            && Lookup(Exec(blocks).blocks, 100) == None
  {}

  // ---------- Space ----------

  ghost predicate Nondecreasing(blocks: seq<Block>) {
    forall i, j :: 0 <= i <= j < |blocks| ==> blocks[i].slot <= blocks[j].slot
  }

  /** Everything stored is within the retention of the last clean-up, and nothing is above `top`. */
  ghost predicate InOrder(l: Listener, top: uint64) {
    && l.lastCleanup <= top
    && forall s <- l.blocks :: l.lastCleanup - RETENTION <= s <= l.lastCleanup + RETENTION && s <= top
  }

  ghost predicate NoSubtractionWraps(l: Listener, slot: uint64) {
    && Sub64(slot, l.lastCleanup) == slot - l.lastCleanup
    && (Cleans(l, slot) ==> Sub64(slot, RETENTION) == slot - RETENTION)
  }

  lemma InOrderStep(l: Listener, top: uint64, b: Block)
    requires InOrder(l, top) && top <= b.slot
    ensures NoSubtractionWraps(l, b.slot) && InOrder(OnBlock(l, b.slot, b.time), b.slot)
  {}

  lemma {:induction false} StaysInOrder(blocks: seq<Block>)
    requires Nondecreasing(blocks)
    ensures InOrder(Exec(blocks), if blocks == [] then 0 else blocks[|blocks| - 1].slot)
  {
    if blocks != [] {
      var n := |blocks| - 1;
      StaysInOrder(blocks[..n]);
      InOrderStep(Exec(blocks[..n]), if n == 0 then 0 else blocks[n - 1].slot, blocks[n]);
    }
  }

  /** In slot order no subtraction wraps, stored slots are within 64 of the last clean-up, and 129 entries suffice. */
  lemma SpaceBound(blocks: seq<Block>, k: nat)
    requires Nondecreasing(blocks) && k <= |blocks|
    ensures var l := Exec(blocks[..k]);
            && (forall s <- l.blocks :: l.lastCleanup - RETENTION <= s <= l.lastCleanup + RETENTION)
            && |l.blocks| <= 2 * RETENTION + 1
            && (k < |blocks| ==> NoSubtractionWraps(l, blocks[k].slot))
  {
    StaysInOrder(blocks[..k]);
    var l := Exec(blocks[..k]);
    SubsetSize(l.blocks.Keys, Interval(l.lastCleanup - RETENTION, 2 * RETENTION + 1));
    if k < |blocks| {
      InOrderStep(l, if k == 0 then 0 else blocks[k - 1].slot, blocks[k]);
    }
  }

  // ---------- Logging a slot's attestations ----------

  const MILLISECOND := 1_000_000

  /** Duration.Milliseconds truncates toward zero. */
  function Millis(d: int): int {
    if d >= 0 then d / MILLISECOND else -(-d / MILLISECOND)
  }

  /** The attributes of a log line: every duration in whole milliseconds, the block's own only if there was one. */
  datatype Line = Line(subnet: uint64, slot: uint64, attester: uint64, timeInSlotMs: int, arrivalDelayMs: int,
                       proposed: bool, blockTimeInSlotMs: Option<int>)

  /** What the three latency histograms are given; durations in nanoseconds. */
  datatype Observation = Observation(subnet: uint64, latency: int, fromFourSeconds: int, inSlot: int)

  /** What a line still tells after rounding: sign and size to within a millisecond. */
  lemma MillisRounds(d: int)
    ensures (d >= 0 ==> Millis(d) * MILLISECOND <= d < (Millis(d) + 1) * MILLISECOND)
    ensures (d <= 0 ==> (Millis(d) - 1) * MILLISECOND < d <= Millis(d) * MILLISECOND)
  {}

  const ATTESTATION_DUE := 4 * SECOND
  const LATE_AFTER := 8 * SECOND

  /** What is logged for one attestation, given its slot's start and the block arrival that was looked up. */
  function Report(slot: uint64, slotStart: int, arrival: Option<int>, e: Attestation): Line {
    var blockTime := match arrival { case Some(t) => t case None => slotStart + ATTESTATION_DUE };
    var blockTimeInSlot := match arrival { case Some(t) => Some(Millis(t - slotStart)) case None => None };
    Line(e.subnet, slot, e.attester, Millis(e.receiveTime - slotStart), Millis(e.receiveTime - blockTime),
         arrival.Some?, blockTimeInSlot)
  }

  function Observe(slotStart: int, arrival: Option<int>, e: Attestation): Observation {
    var blockTime := match arrival { case Some(t) => t case None => slotStart + ATTESTATION_DUE };
    Observation(e.subnet, e.receiveTime - blockTime, e.receiveTime - slotStart - ATTESTATION_DUE,
                e.receiveTime - slotStart)
  }

  /** A counter vector: one counter per subnet label, absent meaning zero. */
  type Counters = map<uint64, nat>

  function Count(m: Counters, subnet: uint64): nat {
    if subnet in m then m[subnet] else 0
  }

  function Incremented(m: Counters, subnet: uint64): Counters {
    m[subnet := Count(m, subnet) + 1]
  }

  /** The positions of one subnet's attestations, all of them or only those more than 8s into the slot. */
  ghost function Positions(entries: seq<Attestation>, slotStart: int, subnet: uint64, lateOnly: bool): set<int> {
    set i | 0 <= i < |entries| && Counts(entries[i], slotStart, subnet, lateOnly)
  }

  predicate Counts(e: Attestation, slotStart: int, subnet: uint64, lateOnly: bool) {
    e.subnet == subnet && (lateOnly ==> e.receiveTime > slotStart + 8 * SECOND)
  }

  lemma PositionsStep(entries: seq<Attestation>, e: Attestation, slotStart: int, subnet: uint64, lateOnly: bool)
    ensures |Positions(entries + [e], slotStart, subnet, lateOnly)| ==
            |Positions(entries, slotStart, subnet, lateOnly)| +
            if Counts(e, slotStart, subnet, lateOnly) then 1 else 0
  {
    var more := if Counts(e, slotStart, subnet, lateOnly) then {|entries|} else {};
    var before := Positions(entries, slotStart, subnet, lateOnly);
    assert Positions(entries + [e], slotStart, subnet, lateOnly) == before + more;
  }

  /** The counters moved by exactly the entries of each subnet. */
  ghost predicate Tallied(before: Counters, after: Counters, entries: seq<Attestation>, slotStart: int,
                          lateOnly: bool) {
    forall subnet: uint64 ::
      Count(after, subnet) == Count(before, subnet) + |Positions(entries, slotStart, subnet, lateOnly)|
  }

  lemma TalliedStep(before: Counters, now: Counters, entries: seq<Attestation>, e: Attestation, slotStart: int,
                    lateOnly: bool)
    requires Tallied(before, now, entries, slotStart, lateOnly)
    ensures var after := if lateOnly && !Counts(e, slotStart, e.subnet, true) then now else Incremented(now, e.subnet);
            Tallied(before, after, entries + [e], slotStart, lateOnly)
  {
    var after := if lateOnly && !Counts(e, slotStart, e.subnet, true) then now else Incremented(now, e.subnet);
    forall subnet: uint64
      ensures Count(after, subnet) == Count(before, subnet) + |Positions(entries + [e], slotStart, subnet, lateOnly)|
    {
      PositionsStep(entries, e, slotStart, subnet, lateOnly);
    }
  }

  datatype Journal = Journal(received: Counters, late: Counters, observed: seq<Observation>, lines: seq<Line>)

  function Entered(j: Journal, slot: uint64, slotStart: int, arrival: Option<int>, e: Attestation): Journal {
    Journal(Incremented(j.received, e.subnet),
            if e.receiveTime - slotStart > LATE_AFTER then Incremented(j.late, e.subnet) else j.late,
            j.observed + [Observe(slotStart, arrival, e)],
            j.lines + [Report(slot, slotStart, arrival, e)])
  }

  function EnteredAll(j: Journal, slot: uint64, slotStart: int, arrival: Option<int>,
                      entries: seq<Attestation>): Journal {
    if entries == [] then j else
      var n := |entries| - 1;
      Entered(EnteredAll(j, slot, slotStart, arrival, entries[..n]), slot, slotStart, arrival, entries[n])
  }

  lemma EnteredOneMore(j: Journal, slot: uint64, slotStart: int, arrival: Option<int>,
                       entries: seq<Attestation>, n: nat)
    requires n < |entries|
    ensures EnteredAll(j, slot, slotStart, arrival, entries[..n + 1]) ==
            Entered(EnteredAll(j, slot, slotStart, arrival, entries[..n]), slot, slotStart, arrival, entries[n])
  {
    assert entries[..n + 1][..n] == entries[..n];
  }

  /** The counter vectors and histograms that the logger updates, and the file it appends to. */
  class AttestationLog {
    var received: Counters
    var late: Counters
    var observed: seq<Observation>
    var lines: seq<Line>

    ghost function Model(): Journal
      reads this
    {
      Journal(received, late, observed, lines)
    }

    constructor ()
      ensures Model() == Journal(map[], map[], [], [])
    {
      received, late, observed, lines := map[], map[], [], [];
    }

    /** A nil tracker answers every lookup with no block; a slot without a start time logs nothing. */
    method LogSlotAttestations(slot: uint64, entries: seq<Attestation>, genesis: int, tracker: BlockTracker?)
      modifies this
      ensures var arrival := if tracker == null then None else Lookup(tracker.blocks, slot);
              match StartTime(genesis, slot)
              case None => Model() == old(Model())
              case Some(start) => Model() == EnteredAll(old(Model()), slot, start, arrival, entries)
    {
      var start := StartTime(genesis, slot);
      if start.None? {
        return;
      }
      var slotStart := start.value;
      var proposed, blockTime, blockTimeInSlot := false, slotStart + ATTESTATION_DUE, 0;
      ghost var arrival: Option<int> := None;
      if tracker != null {
        var bt := tracker.GetBlockArrival(slot);
        arrival := bt;
        if bt.Some? {
          proposed, blockTime, blockTimeInSlot := true, bt.value, bt.value - slotStart;
        }
      }
      for n := 0 to |entries|
        invariant Model() == EnteredAll(old(Model()), slot, slotStart, arrival, entries[..n])
      {
        EnteredOneMore(old(Model()), slot, slotStart, arrival, entries, n);
        LogOne(slot, slotStart, proposed, blockTime, blockTimeInSlot, entries[n], arrival);
      }
      assert entries[..|entries|] == entries;
    }

    /** The body of the loop. */
    method LogOne(slot: uint64, slotStart: int, proposed: bool, blockTime: int, blockTimeInSlot: int, e: Attestation,
                  ghost arrival: Option<int>)
      requires proposed ==> arrival == Some(blockTime) && blockTimeInSlot == blockTime - slotStart
      requires !proposed ==> arrival == None && blockTime == slotStart + ATTESTATION_DUE
      modifies this
      ensures Model() == Entered(old(Model()), slot, slotStart, arrival, e)
    {
      var timeIntoSlot, arrivalDelay := e.receiveTime - slotStart, e.receiveTime - blockTime;
      received := Incremented(received, e.subnet);
      observed := observed + [Observation(e.subnet, arrivalDelay, timeIntoSlot - ATTESTATION_DUE, timeIntoSlot)];
      if timeIntoSlot > LATE_AFTER {
        late := Incremented(late, e.subnet);
      }
      lines := lines + [Line(e.subnet, slot, e.attester, Millis(timeIntoSlot), Millis(arrivalDelay), proposed,
                             if proposed then Some(Millis(blockTimeInSlot)) else None)];
    }
  }

  // ---------- What the log says about the blocks ----------

  /** When the slot's first block was processed, or four seconds into the slot if there was none. */
  ghost predicate IsReference(blocks: seq<Block>, s: uint64, slotStart: int, t: int) {
    && (forall i :: IsFirst(blocks, s, i) ==> t == blocks[i].time)
    && ((forall b <- blocks :: b.slot != s) ==> t == slotStart + 4 * SECOND)
  }

  /** A line is true of the blocks: proposed iff one of the slot was processed before, and delays from the first. */
  ghost predicate Tells(line: Line, blocks: seq<Block>, s: uint64, slotStart: int, e: Attestation) {
    && line.slot == s && line.subnet == e.subnet && line.attester == e.attester
    && line.timeInSlotMs == Millis(e.receiveTime - slotStart)
    && (line.proposed <==> exists b <- blocks :: b.slot == s)
    && (forall i :: IsFirst(blocks, s, i) ==>
                      && line.arrivalDelayMs == Millis(e.receiveTime - blocks[i].time)
                      && line.blockTimeInSlotMs == Some(Millis(blocks[i].time - slotStart)))
    && (!line.proposed ==>
          && line.arrivalDelayMs == Millis(e.receiveTime - (slotStart + 4 * SECOND))
          && line.blockTimeInSlotMs == None)
  }

  ghost predicate Measures(o: Observation, blocks: seq<Block>, s: uint64, slotStart: int, e: Attestation) {
    && o.subnet == e.subnet && o.inSlot == e.receiveTime - slotStart && o.fromFourSeconds == o.inSlot - 4 * SECOND
    && IsReference(blocks, s, slotStart, e.receiveTime - o.latency)
  }

  /**
   * A batch adds one true line and one true observation per entry, in order, and moves each subnet's counters by
   * exactly its entries and its late entries.
   */
  ghost predicate LoggedAs(before: Journal, after: Journal, blocks: seq<Block>, s: uint64, slotStart: int,
                           entries: seq<Attestation>) {
    var m, n := |before.lines|, |before.observed|;
    && before.lines <= after.lines && |after.lines| == m + |entries|
    && before.observed <= after.observed && |after.observed| == n + |entries|
    && (forall k :: 0 <= k < |entries| ==> Tells(after.lines[m + k], blocks, s, slotStart, entries[k]))
    && (forall k :: 0 <= k < |entries| ==> Measures(after.observed[n + k], blocks, s, slotStart, entries[k]))
    && Tallied(before.received, after.received, entries, slotStart, false)
    && Tallied(before.late, after.late, entries, slotStart, true)
  }

  lemma FirstIsReference(blocks: seq<Block>, s: uint64, slotStart: int)
    ensures var a := FirstArrival(blocks, s);
            IsReference(blocks, s, slotStart, if a.Some? then a.value else slotStart + 4 * SECOND)
  {
    FirstArrivalMeaning(blocks, s);
  }

  lemma ReportOfFirst(blocks: seq<Block>, s: uint64, slotStart: int, e: Attestation, i: nat, t: int)
    requires IsFirst(blocks, s, i) && blocks[i].time == t
    ensures Tells(Report(s, slotStart, Some(t), e), blocks, s, slotStart, e)
  {
    assert blocks[i] in blocks;
    assert forall j :: IsFirst(blocks, s, j) ==> j == i;
  }

  lemma ReportOfNone(blocks: seq<Block>, s: uint64, slotStart: int, e: Attestation)
    requires forall b <- blocks :: b.slot != s
    ensures Tells(Report(s, slotStart, None, e), blocks, s, slotStart, e)
  {}

  lemma ReportTells(blocks: seq<Block>, s: uint64, slotStart: int, arrival: Option<int>, e: Attestation)
    requires arrival == FirstArrival(blocks, s)
    ensures Tells(Report(s, slotStart, arrival, e), blocks, s, slotStart, e)
  {
    FirstArrivalMeaning(blocks, s);
    match arrival
    case None => ReportOfNone(blocks, s, slotStart, e);
    case Some(t) =>
      var i :| IsFirst(blocks, s, i) && blocks[i].time == t;
      ReportOfFirst(blocks, s, slotStart, e, i, t);
  }

  lemma ObserveMeasures(blocks: seq<Block>, s: uint64, slotStart: int, arrival: Option<int>, e: Attestation)
    requires arrival == FirstArrival(blocks, s)
    ensures Measures(Observe(slotStart, arrival, e), blocks, s, slotStart, e)
  {
    FirstIsReference(blocks, s, slotStart);
  }

  lemma LoggedStep(before: Journal, now: Journal, blocks: seq<Block>, s: uint64, slotStart: int, arrival: Option<int>,
                   entries: seq<Attestation>, e: Attestation)
    requires LoggedAs(before, now, blocks, s, slotStart, entries) && arrival == FirstArrival(blocks, s)
    ensures LoggedAs(before, Entered(now, s, slotStart, arrival, e), blocks, s, slotStart, entries + [e])
  {
    ReportTells(blocks, s, slotStart, arrival, e);
    ObserveMeasures(blocks, s, slotStart, arrival, e);
    TalliedStep(before.received, now.received, entries, e, slotStart, false);
    TalliedStep(before.late, now.late, entries, e, slotStart, true);
  }

  lemma {:induction false} LoggedByFirst(j: Journal, blocks: seq<Block>, s: uint64, slotStart: int,
                                         arrival: Option<int>, entries: seq<Attestation>)
    requires arrival == FirstArrival(blocks, s)
    ensures LoggedAs(j, EnteredAll(j, s, slotStart, arrival, entries), blocks, s, slotStart, entries)
  {
    if entries != [] {
      var n := |entries| - 1;
      LoggedByFirst(j, blocks, s, slotStart, arrival, entries[..n]);
      LoggedStep(j, EnteredAll(j, s, slotStart, arrival, entries[..n]), blocks, s, slotStart, arrival, entries[..n],
                 entries[n]);
      assert entries == entries[..n] + [entries[n]];
    }
  }

  /** What LogSlotAttestations writes is true of the blocks if its lookup falls between two messages ... */
  lemma LogJoin(j: Journal, blocks: seq<Block>, s: uint64, slotStart: int, entries: seq<Attestation>)
    requires NoStaleBlock(blocks) && WithinReach(blocks, s)
    ensures var arrival := Lookup(Exec(blocks).blocks, s);
            LoggedAs(j, EnteredAll(j, s, slotStart, arrival, entries), blocks, s, slotStart, entries)
  {
    StaleExactly(blocks);
    JoinHolds(blocks, s);
    LoggedByFirst(j, blocks, s, slotStart, FirstArrival(blocks, s), entries);
  }

  /** ... and if it falls between a message's Record and its clean-up. */
  lemma LogJoinMidway(j: Journal, blocks: seq<Block>, b: Block, s: uint64, slotStart: int, entries: seq<Attestation>)
    requires NoStaleBlock(blocks) && WithinReach(blocks + [b], s)
    ensures var arrival := Lookup(Recorded(Exec(blocks).blocks, b.slot, b.time), s);
            LoggedAs(j, EnteredAll(j, s, slotStart, arrival, entries), blocks + [b], s, slotStart, entries)
  {
    JoinMidway(blocks, b, s);
    LoggedByFirst(j, blocks + [b], s, slotStart, FirstArrival(blocks + [b], s), entries);
  }
}
