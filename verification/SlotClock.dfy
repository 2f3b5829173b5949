/** Slot arithmetic and the slot timer of node/attestation.go, on an explicit clock of int64 nanoseconds. */
module SlotClock {
  import opened Types

  const SECONDS_PER_SLOT := 12
  const SLOT := SECONDS_PER_SLOT * SECOND

  /** The slot of an instant: 0 before genesis; the subtraction of two instants saturates, as time.Sub does. */
  function CurrentSlot(genesis: int, now: int): uint64 {
    if now < genesis then 0 else Min(now - genesis, INT64_MAX) / SLOT
  }

  predicate HasStart(slot: uint64) {
    slot * SECONDS_PER_SLOT < UINT64
  }

  /** Start of a slot; computing it fails when the offset in seconds does not fit in 64 bits. */
  function StartTime(genesis: int, slot: uint64): Option<int> {
    if HasStart(slot) then Some(genesis + slot * SLOT) else None
  }

  /** The end of a slot is the start of the next one. */
  function SlotEnd(genesis: int, slot: nat): int {
    genesis + (slot + 1) * SLOT
  }

  /**
   * One life of the timer: nextSlotTimer reads the clock once for the current slot (`armed`) and once more for
   * the duration (`until`); the timer delivers no earlier than that duration later; the tick is then handled
   * with a further clock reading (`handled`).
   */
  datatype Tick = Tick(armed: int, until: int, fired: int, handled: int)

  function NextStart(genesis: int, t: Tick): int {
    genesis + (CurrentSlot(genesis, t.armed) + 1) * SLOT
  }

  /** A monotone clock that stays within the range of time.Duration (292 years) of genesis, and no early firing. */
  ghost predicate ValidTick(genesis: int, t: Tick) {
    && t.armed <= t.until <= t.fired <= t.handled <= genesis + INT64_MAX
    && t.fired - t.until >= NextStart(genesis, t) - t.until
  }

  ghost predicate TimerRun(genesis: int, ticks: seq<Tick>) {
    && (forall i :: 0 <= i < |ticks| ==> ValidTick(genesis, ticks[i]))
    && (forall i :: 0 < i < |ticks| ==> ticks[i - 1].handled <= ticks[i].armed)
  }

  lemma SlotReached(genesis: int, now: int, s: nat)
    requires now <= genesis + INT64_MAX
    ensures s > 0 ==> (s <= CurrentSlot(genesis, now) <==> genesis + s * SLOT <= now)
  {}

  /** StartTime inverts CurrentSlot: its instant is the first of the slot, and the slot ends where the next starts. */
  lemma StartIsFirstInstant(genesis: int, s: uint64)
    requires HasStart(s) && s * SLOT <= INT64_MAX
    ensures var start := StartTime(genesis, s).value;
            && CurrentSlot(genesis, start) == s
            && (s > 0 ==> CurrentSlot(genesis, start - 1) == s - 1)
            && (HasStart(s + 1) ==> SlotEnd(genesis, s) == StartTime(genesis, s + 1).value)
  {
    if s > 0 {
      assert s * SLOT - 1 == (s - 1) * SLOT + (SLOT - 1);
    }
  }

  /** The timer aims at the first slot start after it was armed, and a tick handled within that slot reads that slot. */
  lemma TicksOnTime(genesis: int, t: Tick)
    requires ValidTick(genesis, t)
    ensures t.armed < NextStart(genesis, t) && (t.armed >= genesis ==> NextStart(genesis, t) <= t.armed + SLOT)
    ensures CurrentSlot(genesis, t.handled) == CurrentSlot(genesis, t.armed) + 1 <==>
            t.handled < NextStart(genesis, t) + SLOT
  {}

  /** The slot read at a tick is past the one the timer was armed in, even if that was before genesis. */
  lemma TickAdvances(genesis: int, t: Tick)
    requires ValidTick(genesis, t)
    ensures CurrentSlot(genesis, t.handled) >= CurrentSlot(genesis, t.armed) + 1
  {}

  /** Slots never go back; they start at 0 before genesis and stand still once the duration saturates. */
  lemma SlotsAreMonotone(genesis: int, a: int, b: int)
    requires a <= b
    ensures CurrentSlot(genesis, a) <= CurrentSlot(genesis, b)
    ensures b < genesis ==> CurrentSlot(genesis, b) == 0
    ensures a - genesis >= INT64_MAX ==> CurrentSlot(genesis, a) == CurrentSlot(genesis, b) == INT64_MAX / SLOT
  {}

  /** The slot that flushSlots regards as completed. */
  function Completed(current: uint64): uint64 {
    Sub64(current, 1)
  }

  /** CurrentSlot - 1 never wraps, and completed slots strictly increase although re-arming reads the clock again. */
  lemma {:induction false} CompletedSlotsIncrease(genesis: int, ticks: seq<Tick>, i: nat, j: nat)
    requires TimerRun(genesis, ticks) && i <= j < |ticks|
    ensures var c, d := CurrentSlot(genesis, ticks[i].handled), CurrentSlot(genesis, ticks[j].handled);
            && 1 <= c <= d && Completed(c) == c - 1 && Completed(d) == d - 1
            && (i < j ==> Completed(c) < Completed(d))
  {
    TickAdvances(genesis, ticks[j]);
    if i < j {
      CompletedSlotsIncrease(genesis, ticks, i, j - 1);
      SlotsAreMonotone(genesis, ticks[j - 1].handled, ticks[j].armed);
    }
  }
}
