/** Vocabulary shared by every component of the probe. */
module Types {

  /** Peer identifiers and instance names are only ever compared for equality, so plain numbers stand for them. */
  type PeerId = int
  type Name = int

  datatype AddrInfo = AddrInfo(id: PeerId, addrs: seq<string>)

  datatype Option<+T> = None | Some(value: T)

  const UINT64 := 0x1_0000_0000_0000_0000

  /** Durations and instants are Go's int64 nanoseconds. */
  const SECOND := 1_000_000_000
  const INT64_MAX := 0x7fff_ffff_ffff_ffff

  type uint64 = n: nat | n < UINT64

  /** Go's wrapping subtraction on uint64. */
  function Sub64(a: uint64, b: uint64): uint64 {
    (a - b + UINT64) % UINT64
  }

  ghost predicate Distinct<T>(s: seq<T>) {
    forall i, j :: 0 <= i < j < |s| ==> s[i] != s[j]
  }

  function Min(a: int, b: int): int {
    if a <= b then a else b
  }

  lemma SubsetSize<T>(a: set<T>, b: set<T>)
    requires a <= b
    ensures |a| <= |b|
  {
    assert b == a + (b - a);
  }

  lemma Inhabited(s: set<int>)
    ensures s == {} || exists x :: x in s
  {
    if forall x :: x !in s {
      assert s == {};
    }
  }

  /** The n integers from lo on. */
  ghost function Interval(lo: int, n: nat): (r: set<int>)
    ensures |r| == n && forall i :: i in r <==> lo <= i < lo + n
  {
    if n == 0 then {} else Interval(lo, n - 1) + {lo + n - 1}
  }
}
