/** node/peermanager.go, inBackoff, recordFailure and clearBackoff: saturating exponential backoff per peer. */
module Backoffs {
  import opened Types

  const INITIAL_BACKOFF := 30 * SECOND
  const MAX_BACKOFF := 30 * 60 * SECOND
  const MAX_SHIFT := 10

  function Pow2(n: nat): nat {
    if n == 0 then 1 else 2 * Pow2(n - 1)
  }

  function Backoff(failCount: nat): int
    requires failCount >= 1
  {
    Min(INITIAL_BACKOFF * Pow2(Min(failCount - 1, MAX_SHIFT)), MAX_BACKOFF)
  }

  lemma {:induction false} Pow2Grows(m: nat, n: nat)
    requires m <= n
    ensures 1 <= Pow2(m) <= Pow2(n)
  {
    if n > 0 {
      Pow2Grows(if m == n then m - 1 else m, n - 1);
    }
  }

  lemma Pow2Ten()
    ensures Pow2(10) == 1024
  {}

  /** The shift cap of 10 never shows and nothing overflows: the backoff is the unbounded doubling, cut at 30min. */
  lemma BackoffIsCappedDoubling(f: nat)
    requires f >= 1
    ensures Backoff(f) == Min(INITIAL_BACKOFF * Pow2(f - 1), MAX_BACKOFF)
    ensures INITIAL_BACKOFF <= Backoff(f) <= MAX_BACKOFF
    ensures INITIAL_BACKOFF * Pow2(Min(f - 1, MAX_SHIFT)) <= INT64_MAX
  {
    Pow2Ten();
    Pow2Grows(0, Min(f - 1, MAX_SHIFT));
    Pow2Grows(Min(f - 1, MAX_SHIFT), f - 1);
    Pow2Grows(Min(f - 1, MAX_SHIFT), MAX_SHIFT);
  }

  lemma BackoffGrows(f: nat, g: nat)
    requires 1 <= f <= g
    ensures Backoff(f) <= Backoff(g)
  {}

  datatype Entry = Entry(failCount: nat, nextDial: int)

  type Table = map<PeerId, Entry>

  function Failed(t: Table, id: PeerId, now: int): Table {
    var f := (if id in t then t[id].failCount else 0) + 1;
    t[id := Entry(f, now + Backoff(f))]
  }

  predicate Blocked(t: Table, id: PeerId, now: int) {
    id in t && now < t[id].nextDial
  }

  /** The PeerManager's `backoff` field; every method is one critical section under `mu`. */
  class BackoffTable {
    var backoff: Table

    constructor ()
      ensures backoff == map[]
    {
      backoff := map[];
    }

    method InBackoff(id: PeerId, now: int) returns (blocked: bool)
      ensures blocked <==> id in backoff && now < backoff[id].nextDial
      ensures blocked <==> Blocked(backoff, id, now)
    {
      if id !in backoff {
        return false;
      }
      return now < backoff[id].nextDial;
    }

    method RecordFailure(id: PeerId, now: int)
      modifies this
      ensures backoff == Failed(old(backoff), id, now)
    {
      var failCount := if id in backoff then backoff[id].failCount else 0;
      failCount := failCount + 1;
      var wait := Min(INITIAL_BACKOFF * Pow2(Min(failCount - 1, MAX_SHIFT)), MAX_BACKOFF);
      backoff := backoff[id := Entry(failCount, now + wait)];
    }

    method ClearBackoff(id: PeerId)
      modifies this
      ensures backoff == old(backoff) - {id}
    {
      backoff := backoff - {id};
    }
  }

  // ---------- Runs ----------

  datatype Op = Fail(id: PeerId, now: int) | Clear(id: PeerId, now: int) | Check(id: PeerId, now: int)

  function Apply(t: Table, op: Op): Table {
    match op
    case Fail(id, now) => Failed(t, id, now)
    case Clear(id, _) => t - {id}
    case Check(_, _) => t
  }

  function Exec(ops: seq<Op>): Table {
    if ops == [] then map[] else Apply(Exec(ops[..|ops| - 1]), ops[|ops| - 1])
  }

  ghost predicate ClockIsMonotone(ops: seq<Op>) {
    forall i, j :: 0 <= i <= j < |ops| ==> ops[i].now <= ops[j].now
  }

  /** Failures of a peer since it was last cleared. */
  ghost function Fails(ops: seq<Op>, id: PeerId): nat {
    if ops == [] then 0 else
      var op, before := ops[|ops| - 1], Fails(ops[..|ops| - 1], id);
      if op.id != id || op.Check? then before else if op.Fail? then before + 1 else 0
  }

  /** When a peer that has failed since its last clear did so last. */
  ghost function LastFail(ops: seq<Op>, id: PeerId): int
    requires Fails(ops, id) > 0
  {
    var op := ops[|ops| - 1];
    if op.id == id && op.Fail? then op.now else LastFail(ops[..|ops| - 1], id)
  }

  ghost predicate NotCleared(ops: seq<Op>, id: PeerId, from: nat, to: nat)
    requires to <= |ops|
  {
    forall k :: from <= k < to ==> !(ops[k].Clear? && ops[k].id == id)
  }

  /** After any run a peer is in the table iff it failed since its last clear; its entry says when and how often. */
  lemma {:induction false} TableMeaning(ops: seq<Op>, id: PeerId)
    ensures id in Exec(ops) <==> Fails(ops, id) > 0
    ensures id in Exec(ops) ==> Exec(ops)[id] == Entry(Fails(ops, id), LastFail(ops, id) + Backoff(Fails(ops, id)))
  {
    if ops != [] {
      TableMeaning(ops[..|ops| - 1], id);
    }
  }

  lemma {:induction false} FailsAccumulate(ops: seq<Op>, id: PeerId, k: nat, l: nat)
    requires ClockIsMonotone(ops) && k <= l <= |ops| && NotCleared(ops, id, k, l) && Fails(ops[..k], id) > 0
    ensures Fails(ops[..k], id) <= Fails(ops[..l], id) && LastFail(ops[..k], id) <= LastFail(ops[..l], id)
    ensures l > 0 && LastFail(ops[..l], id) <= ops[l - 1].now
  {
    assert l > 0 ==> ops[..l][..l - 1] == ops[..l - 1];
    if k < l {
      FailsAccumulate(ops, id, k, l - 1);
    } else if !(ops[l - 1].id == id && ops[l - 1].Fail?) {
      FailsAccumulate(ops, id, k - 1, l - 1);
    }
  }

  /** Between clears a peer's next dial time never moves back. */
  lemma NextDialNeverDecreases(ops: seq<Op>, id: PeerId, k: nat, l: nat)
    requires ClockIsMonotone(ops) && k <= l <= |ops| && NotCleared(ops, id, k, l) && id in Exec(ops[..k])
    ensures id in Exec(ops[..l]) && Exec(ops[..k])[id].nextDial <= Exec(ops[..l])[id].nextDial
  {
    TableMeaning(ops[..k], id);
    TableMeaning(ops[..l], id);
    FailsAccumulate(ops, id, k, l);
    BackoffGrows(Fails(ops[..k], id), Fails(ops[..l], id));
  }

  /**
   * After any run a check lets a peer through if and only if it has not failed since its last clear, or the capped
   * doubling of its failures has elapsed since the last one.
   */
  lemma PassesExactly(ops: seq<Op>, id: PeerId, now: int)
    ensures !Blocked(Exec(ops), id, now) <==>
            || Fails(ops, id) == 0
            || now >= LastFail(ops, id) + Min(INITIAL_BACKOFF * Pow2(Fails(ops, id) - 1), MAX_BACKOFF)
  {
    TableMeaning(ops, id);
    if Fails(ops, id) > 0 {
      BackoffIsCappedDoubling(Fails(ops, id));
    }
  }

  /** A check that lets a peer through comes a full backoff after every failure since its last clear. */
  lemma BackoffRespected(ops: seq<Op>, i: nat, j: nat)
    requires ClockIsMonotone(ops) && i < j < |ops|
    requires ops[i].Fail? && ops[j].Check? && ops[j].id == ops[i].id && NotCleared(ops, ops[i].id, i, j)
    requires !Blocked(Exec(ops[..j]), ops[j].id, ops[j].now)
    ensures Fails(ops[..i + 1], ops[i].id) >= 1
    ensures ops[j].now >= ops[i].now + Backoff(Fails(ops[..i + 1], ops[i].id))
  {
    var id := ops[i].id;
    assert ops[..i + 1][..i] == ops[..i];
    TableMeaning(ops[..i + 1], id);
    NextDialNeverDecreases(ops, id, i + 1, j);
  }
}
