/** node/useragent.go: the incremental per-agent peer counts, and the normalisation of agent strings. */
module UserAgents {
  import opened Types

  type Agent = string

  // ---------- normalizeUserAgent ----------

  /** Index of the first occurrence of c at or after `from`, or the length of the string. */
  function IndexFrom(s: string, c: char, from: nat): (i: nat)
    requires from <= |s|
    ensures from <= i <= |s| && (i < |s| ==> s[i] == c)
    ensures forall k :: from <= k < i ==> s[k] != c
    decreases |s| - from
  {
    if from == |s| || s[from] == c then from else IndexFrom(s, c, from + 1)
  }

  datatype Parts = Parts(before: string, after: string, found: bool)

  /** strings.Cut around a one-character separator. */
  function Cut(s: string, c: char): Parts {
    var i := IndexFrom(s, c, 0);
    if i < |s| then Parts(s[..i], s[i + 1..], true) else Parts(s, "", false)
  }

  /** The version up to its first dot; a leading 'v' is taken off for the search and put back. */
  function Major(version: string): string {
    if "v" <= version then "v" + Cut(version[1..], '.').before else Cut(version, '.').before
  }

  function Normalize(raw: string): Agent {
    if raw == "" then "unknown" else
      var parts := Cut(raw, '/');
      if !parts.found then raw else parts.before + "/" + Major(parts.after)
  }

  /** Where a non-empty agent string is cut: just before the first dot after the first slash. */
  ghost function CutPoint(raw: string): (n: nat)
    ensures n <= |raw|
  {
    var slash := IndexFrom(raw, '/', 0);
    if slash == |raw| then |raw| else IndexFrom(raw, '.', slash)
  }

  lemma IndexUnique(s: string, c: char, from: nat, i: nat)
    requires from <= i <= |s| && (i < |s| ==> s[i] == c)
    requires forall k :: from <= k < i ==> s[k] != c
    ensures IndexFrom(s, c, from) == i
  {}

  lemma VShift(version: string)
    requires "v" <= version
    ensures IndexFrom(version, '.', 0) == 1 + IndexFrom(version[1..], '.', 0)
  {
    var rest := version[1..];
    assert version[0] == 'v';
    IndexUnique(version, '.', 0, 1 + IndexFrom(rest, '.', 0));
  }

  lemma CutIsPrefix(s: string, c: char)
    ensures Cut(s, c).before == s[..IndexFrom(s, c, 0)]
  {}

  lemma GlueV(version: string, n: nat)
    requires "v" <= version && n < |version|
    ensures "v" + version[1..][..n] == version[..1 + n]
  {}

  lemma MajorTruncates(version: string)
    ensures Major(version) == version[..IndexFrom(version, '.', 0)]
  {
    if "v" <= version {
      CutIsPrefix(version[1..], '.');
      VShift(version);
      GlueV(version, IndexFrom(version[1..], '.', 0));
    } else {
      CutIsPrefix(version, '.');
    }
  }

  lemma CutPointAfterSlash(raw: string, i: nat)
    requires i == IndexFrom(raw, '/', 0) < |raw|
    ensures CutPoint(raw) == i + 1 + IndexFrom(raw[i + 1..], '.', 0)
  {
    IndexUnique(raw, '.', i, i + 1 + IndexFrom(raw[i + 1..], '.', 0));
  }

  lemma Glue(raw: string, i: nat, n: nat)
    requires i + 1 + n <= |raw| && raw[i] == '/'
    ensures raw[..i] + "/" + raw[i + 1..][..n] == raw[..i + 1 + n]
  {}

  lemma NormalizeAfterSlash(raw: string, i: nat)
    requires i == IndexFrom(raw, '/', 0) < |raw|
    ensures Normalize(raw) == raw[..i] + "/" + Major(raw[i + 1..])
  {}

  /** The code's cutting and gluing amounts to one truncation of the input. */
  lemma NormalizeTruncates(raw: string)
    requires raw != ""
    ensures Normalize(raw) == raw[..CutPoint(raw)] && 0 < CutPoint(raw)
  {
    var i := IndexFrom(raw, '/', 0);
    if i < |raw| {
      NormalizeAfterSlash(raw, i);
      MajorTruncates(raw[i + 1..]);
      CutPointAfterSlash(raw, i);
      Glue(raw, i, IndexFrom(raw[i + 1..], '.', 0));
    }
  }

  /** Over all strings: a second normalisation changes nothing, and the result is never empty: no name
      becomes "unknown". */
  lemma NormalizeIdempotent(raw: string)
    ensures Normalize(Normalize(raw)) == Normalize(raw) != ""
    ensures raw == "" ==> Normalize(raw) == "unknown"
  {
    var r := Normalize(raw);
    if raw == "" {
      IndexUnique("unknown", '/', 0, 7);
    } else {
      NormalizeTruncates(raw);
      NormalizeTruncates(r);
      var i := IndexFrom(raw, '/', 0);
      if i < |raw| {
        IndexUnique(r, '/', 0, i);
        IndexUnique(r, '.', i, |r|);
      } else {
        IndexUnique(r, '/', 0, |r|);
      }
    }
  }

  /** The shape "name/version" that the comment on normalizeUserAgent promises: a slash, and none after it. */
  ghost predicate SingleSlash(s: string) {
    var i := IndexFrom(s, '/', 0);
    i < |s| && IndexFrom(s, '/', i + 1) == |s|
  }

  /** The first slash is there and the next one, if any, not before the first dot after it. */
  ghost predicate DotBeforeNextSlash(raw: string) {
    var i := IndexFrom(raw, '/', 0);
    i < |raw| && IndexFrom(raw, '.', i) <= IndexFrom(raw, '/', i + 1)
  }

  /** It is not kept: a second slash before the first dot survives. */
  lemma SecondSlashStays()
    ensures Normalize("A/b/c") == "A/b/c" && !SingleSlash("A/b/c")
  {
    var raw := "A/b/c";
    NormalizeTruncates(raw);
    IndexUnique(raw, '/', 0, 1);
    IndexUnique(raw, '.', 1, 5);
    IndexUnique(raw, '/', 2, 3);
  }

  lemma IndexInPrefix(s: string, n: nat, c: char, from: nat)
    requires from <= n <= |s|
    ensures IndexFrom(s[..n], c, from) == Min(IndexFrom(s, c, from), n)
  {
    IndexUnique(s[..n], c, from, Min(IndexFrom(s, c, from), n));
  }

  lemma SlashesOfPrefix(raw: string, i: nat, n: nat)
    requires i == IndexFrom(raw, '/', 0) < n <= |raw|
    ensures SingleSlash(raw[..n]) <==> n <= IndexFrom(raw, '/', i + 1)
  {
    IndexInPrefix(raw, n, '/', 0);
    IndexInPrefix(raw, n, '/', i + 1);
  }

  /** The result has that shape if and only if the input has a slash with a dot, or the end, before the next one. */
  lemma SingleSlashExactly(raw: string)
    ensures SingleSlash(Normalize(raw)) <==> DotBeforeNextSlash(raw)
  {
    if raw == "" {
      IndexUnique("unknown", '/', 0, 7);
    } else {
      NormalizeTruncates(raw);
      if IndexFrom(raw, '/', 0) < |raw| {
        SlashesOfPrefix(raw, IndexFrom(raw, '/', 0), CutPoint(raw));
      } else {
        assert Normalize(raw) == raw;
      }
    }
  }

  // ---------- The index ----------

  datatype Index = Index(peers: map<PeerId, Agent>, counts: map<Agent, int>, gauge: map<Agent, int>)

  /** A missing key reads as zero, in Go's maps and in a gauge vector alike. */
  function Get(m: map<Agent, int>, ua: Agent): int {
    if ua in m then m[ua] else 0
  }

  function Decremented(ix: Index, ua: Agent): Index {
    var n := Get(ix.counts, ua) - 1;
    ix.(counts := if n <= 0 then ix.counts - {ua} else ix.counts[ua := n],
        gauge := ix.gauge[ua := Get(ix.gauge, ua) - 1])
  }

  function Identified(ix: Index, p: PeerId, raw: string): Index {
    var base := if p in ix.peers then Decremented(ix, ix.peers[p]) else ix;
    var ua := Normalize(raw);
    Index(base.peers[p := ua], base.counts[ua := Get(base.counts, ua) + 1], base.gauge[ua := Get(base.gauge, ua) + 1])
  }

  function Disconnected(ix: Index, p: PeerId): Index {
    if p in ix.peers then Decremented(ix.(peers := ix.peers - {p}), ix.peers[p]) else ix
  }

  class UserAgentTracker {
    var peers: map<PeerId, Agent>
    var counts: map<Agent, int>
    var gauge: map<Agent, int>

    ghost function Model(): Index
      reads this
    {
      Index(peers, counts, gauge)
    }

    constructor ()
      ensures Model() == Index(map[], map[], map[])
    {
      peers, counts, gauge := map[], map[], map[];
    }

    method Decrement(ua: Agent)
      modifies this`counts, this`gauge
      ensures Model() == Decremented(old(Model()), ua)
    {
      counts := counts[ua := Get(counts, ua) - 1];
      if counts[ua] <= 0 {
        counts := counts - {ua};
      }
      gauge := gauge[ua := Get(gauge, ua) - 1];
    }

    method OnIdentified(p: PeerId, agentVersion: string)
      modifies this
      ensures Model() == Identified(old(Model()), p, agentVersion)
    {
      var ua := Normalize(agentVersion);
      if p in peers {
        Decrement(peers[p]);
      }
      peers := peers[p := ua];
      counts := counts[ua := Get(counts, ua) + 1];
      gauge := gauge[ua := Get(gauge, ua) + 1];
    }

    method OnNotConnected(p: PeerId)
      modifies this
      ensures Model() == Disconnected(old(Model()), p)
    {
      if p !in peers {
        return;
      }
      var ua := peers[p];
      peers := peers - {p};
      Decrement(ua);
    }
  }

  // ---------- Agreement with recomputation ----------

  ghost function Users(peers: map<PeerId, Agent>, ua: Agent): set<PeerId> {
    set p | p in peers && peers[p] == ua
  }

  /** The counts as one would recompute them from the peers; agents without users have no entry. */
  ghost predicate Tallies(peers: map<PeerId, Agent>, counts: map<Agent, int>) {
    forall ua :: (ua in counts <==> Users(peers, ua) != {}) && Get(counts, ua) == |Users(peers, ua)|
  }

  ghost predicate Consistent(ix: Index) {
    Tallies(ix.peers, ix.counts) && forall ua :: Get(ix.gauge, ua) == |Users(ix.peers, ua)|
  }

  lemma UsersRemove(peers: map<PeerId, Agent>, p: PeerId, ua: Agent)
    requires p in peers
    ensures Users(peers - {p}, ua) == Users(peers, ua) - {p}
    ensures |Users(peers - {p}, ua)| == |Users(peers, ua)| - if peers[p] == ua then 1 else 0
  {}

  lemma UsersAdd(peers: map<PeerId, Agent>, p: PeerId, mine: Agent, ua: Agent)
    requires p !in peers
    ensures |Users(peers[p := mine], ua)| == |Users(peers, ua)| + if mine == ua then 1 else 0
  {
    assert Users(peers[p := mine], ua) == if mine == ua then Users(peers, ua) + {p} else Users(peers, ua);
  }

  lemma DisconnectKeeps(ix: Index, p: PeerId)
    requires Consistent(ix)
    ensures Consistent(Disconnected(ix, p))
  {
    if p in ix.peers {
      var out := Disconnected(ix, p);
      forall ua
        ensures (ua in out.counts <==> Users(out.peers, ua) != {}) && Get(out.counts, ua) == |Users(out.peers, ua)|
        ensures Get(out.gauge, ua) == |Users(out.peers, ua)|
      {
        UsersRemove(ix.peers, p, ua);
        assert p in Users(ix.peers, ix.peers[p]);
      }
    }
  }

  lemma FirstIdentifyKeeps(ix: Index, p: PeerId, raw: string)
    requires Consistent(ix) && p !in ix.peers
    ensures Consistent(Identified(ix, p, raw))
  {
    var out := Identified(ix, p, raw);
    forall ua
      ensures (ua in out.counts <==> Users(out.peers, ua) != {}) && Get(out.counts, ua) == |Users(out.peers, ua)|
      ensures Get(out.gauge, ua) == |Users(out.peers, ua)|
    {
      UsersAdd(ix.peers, p, Normalize(raw), ua);
    }
  }

  /** A re-identification is a disconnect followed by a first identification. */
  lemma ReidentifyIsTwoSteps(ix: Index, p: PeerId, raw: string)
    ensures Identified(ix, p, raw) == Identified(Disconnected(ix, p), p, raw)
  {
    if p in ix.peers {
      var gone, ua := Disconnected(ix, p), Normalize(raw);
      assert p !in gone.peers;
      assert ix.peers[p := ua] == gone.peers[p := ua];
    }
  }

  datatype Event = Identify(peer: PeerId, agentVersion: string) | NotConnected(peer: PeerId)

  function Exec(events: seq<Event>): Index {
    if events == [] then Index(map[], map[], map[]) else
      var ix := Exec(events[..|events| - 1]);
      match events[|events| - 1]
      case Identify(p, raw) => Identified(ix, p, raw)
      case NotConnected(p) => Disconnected(ix, p)
  }

  lemma {:induction false} AlwaysConsistent(events: seq<Event>)
    ensures Consistent(Exec(events))
  {
    if events != [] {
      var ix, e := Exec(events[..|events| - 1]), events[|events| - 1];
      AlwaysConsistent(events[..|events| - 1]);
      DisconnectKeeps(ix, e.peer);
      if e.Identify? {
        ReidentifyIsTwoSteps(ix, e.peer, e.agentVersion);
        FirstIdentifyKeeps(Disconnected(ix, e.peer), e.peer, e.agentVersion);
      }
    }
  }

  /** What a peer last announced, unless it has disconnected since. */
  ghost function Announced(events: seq<Event>, p: PeerId): Option<string> {
    if events == [] then None else
      var e := events[|events| - 1];
      if e.peer != p then Announced(events[..|events| - 1], p)
      else if e.Identify? then Some(e.agentVersion) else None
  }

  /** The tracked peers are those connected and identified, each under its latest announcement. */
  lemma {:induction false} TracksAnnouncements(events: seq<Event>, p: PeerId)
    ensures p in Exec(events).peers <==> Announced(events, p).Some?
    ensures p in Exec(events).peers ==> Exec(events).peers[p] == Normalize(Announced(events, p).value)
  {
    if events != [] {
      TracksAnnouncements(events[..|events| - 1], p);
    }
  }

  ghost function Pick(counts: map<Agent, int>): (ua: Agent)
    requires counts != map[]
    ensures ua in counts
  {
    var ua :| ua in counts; ua
  }

  ghost function Sum(counts: map<Agent, int>): int {
    if counts == map[] then 0 else
      var ua := Pick(counts);
      counts[ua] + Sum(counts - {ua})
  }

  lemma TalliesWithout(peers: map<PeerId, Agent>, counts: map<Agent, int>, ua: Agent)
    requires Tallies(peers, counts)
    ensures Tallies(peers - Users(peers, ua), counts - {ua})
    ensures |peers| == |peers - Users(peers, ua)| + |Users(peers, ua)|
  {
    var rest := peers - Users(peers, ua);
    forall other
      ensures other in counts - {ua} <==> Users(rest, other) != {}
      ensures Get(counts - {ua}, other) == |Users(rest, other)|
    {
      UsersWithout(peers, ua, other);
    }
    SizeWithout(peers, ua);
  }

  lemma UsersWithout(peers: map<PeerId, Agent>, ua: Agent, other: Agent)
    ensures Users(peers - Users(peers, ua), other) == if other == ua then {} else Users(peers, other)
  {}

  lemma SizeWithout(peers: map<PeerId, Agent>, ua: Agent)
    ensures |peers| == |peers - Users(peers, ua)| + |Users(peers, ua)|
  {}

  lemma {:induction false} SumIsPeers(peers: map<PeerId, Agent>, counts: map<Agent, int>)
    requires Tallies(peers, counts)
    ensures Sum(counts) == |peers|
    decreases counts
  {
    if counts == map[] {
      assert forall p <- peers :: p in Users(peers, peers[p]);
      assert peers == map[];
    } else {
      var ua := Pick(counts);
      TalliesWithout(peers, counts, ua);
      SumIsPeers(peers - Users(peers, ua), counts - {ua});
    }
  }

  /** After every sequence of events the index equals what recomputing it from scratch would give. */
  lemma IndexAgrees(events: seq<Event>)
    ensures var ix := Exec(events); Consistent(ix) && Sum(ix.counts) == |ix.peers|
  {
    AlwaysConsistent(events);
    SumIsPeers(Exec(events).peers, Exec(events).counts);
  }
}
