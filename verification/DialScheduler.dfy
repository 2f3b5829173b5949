/**
 * node/peermanager.go, Run and handleCandidate: the dial loop and its goroutines as a transition system.
 *
 * `Run` and every handler advance in single steps that interleave freely with each other, with inbound
 * connections and with disconnects. An action that is not enabled leaves the state unchanged.
 */
module DialScheduler {
  import opened Types

  const MAX_CONCURRENT_DIALS := 500
  const PULL_BATCH := 50
  const SLACK := 20

  /** Whether tooManyInFlight's two reads, Peers() and then the counter, are one step or two. */
  datatype Reads = Split | Atomic

  /** Where `Run` is. `Looping` never holds an empty batch. */
  datatype Phase =
    | Top
    | TopRead(seen: nat)                            // Peers() read, counter not yet
    | Pulling
    | Looping(batch: seq<PeerId>)
    | LoopRead(batch: seq<PeerId>, seen: nat)
    | Ready(batch: seq<PeerId>)                     // check passed, token not yet taken
    | Acquired(batch: seq<PeerId>)                  // token taken, counter not yet raised
    | Counted(batch: seq<PeerId>)                   // counter raised, goroutine not yet started
    | Stopped

  datatype State = State(
    run: Phase,
    tokens: nat,                         // occupied slots of the semaphore channel
    inFlight: int,
    spawned: multiset<PeerId>,           // handlers about to look at connectedness
    unconnected: multiset<PeerId>,       // ... about to look at the backoff
    cleared: multiset<PeerId>,           // ... about to look at the peer cap
    dialing: multiset<PeerId>,           // ... inside Connect
    finished: multiset<PeerId>,          // ... done, token still held
    released: nat,                       // ... token given back, counter not yet lowered
    conns: set<PeerId>,
    own: set<PeerId>                     // the connections that this manager's dials opened
  )

  datatype Action =
    | ReadPeers | ReadCounter | Pull(peers: seq<PeerId>) | Acquire | Count | Spawn | Cancel
    | CheckConnected(p: PeerId) | CheckBackoff(p: PeerId, blocked: bool) | CheckCap(p: PeerId)
    | DialOk(p: PeerId) | DialFail(p: PeerId) | Release(p: PeerId) | Decrement
    | Inbound(p: PeerId) | Disconnect(p: PeerId)

  const INIT := State(Top, 0, 0, multiset{}, multiset{}, multiset{}, multiset{}, multiset{}, 0, {}, {})

  function Next(batch: seq<PeerId>): Phase {
    if batch == [] then Top else Looping(batch)
  }

  /** The verdict of tooManyInFlight sends `Run` back to the top or on to its next statement. */
  function Decide(max: nat, s: State, seen: nat): State {
    var tooMany := seen + s.inFlight >= max + SLACK;
    match s.run
    case Top => s.(run := if tooMany then Top else Pulling)
    case TopRead(_) => s.(run := if tooMany then Top else Pulling)
    case Looping(batch) => s.(run := if tooMany then Top else Ready(batch))
    case LoopRead(batch, _) => s.(run := if tooMany then Top else Ready(batch))
    case _ => s
  }

  function RunStep(max: nat, mode: Reads, s: State, a: Action): State {
    match (s.run, a)
    case (Top, ReadPeers) =>
      if max == 0 then s.(run := Pulling)
      else if mode.Atomic? then Decide(max, s, |s.conns|) else s.(run := TopRead(|s.conns|))
    case (Looping(batch), ReadPeers) =>
      if max == 0 then s.(run := Ready(batch))
      else if mode.Atomic? then Decide(max, s, |s.conns|) else s.(run := LoopRead(batch, |s.conns|))
    case (TopRead(seen), ReadCounter) => Decide(max, s, seen)
    case (LoopRead(_, seen), ReadCounter) => Decide(max, s, seen)
    case (Pulling, Pull(peers)) => if |peers| <= PULL_BATCH then s.(run := Next(peers)) else s
    case (Ready(batch), Acquire) =>
      if s.tokens < MAX_CONCURRENT_DIALS then s.(run := Acquired(batch), tokens := s.tokens + 1) else s
    case (Acquired(batch), Count) => s.(run := Counted(batch), inFlight := s.inFlight + 1)
    case (Counted(batch), Spawn) =>
      if batch == [] then s else s.(run := Next(batch[1..]), spawned := s.spawned + multiset{batch[0]})
    case (Top, Cancel) => s.(run := Stopped)
    case (Ready(_), Cancel) => s.(run := Stopped)
    case _ => s
  }

  function HandlerStep(max: nat, s: State, a: Action): State {
    match a
    case CheckConnected(p) =>
      if p !in s.spawned then s else
        var t := s.(spawned := s.spawned - multiset{p});
        if p in s.conns then t.(finished := s.finished + multiset{p})
        else t.(unconnected := s.unconnected + multiset{p})
    case CheckBackoff(p, blocked) =>
      if p !in s.unconnected then s else
        var t := s.(unconnected := s.unconnected - multiset{p});
        if blocked then t.(finished := s.finished + multiset{p}) else t.(cleared := s.cleared + multiset{p})
    case CheckCap(p) =>
      if p !in s.cleared then s else
        var t := s.(cleared := s.cleared - multiset{p});
        if max > 0 && |s.conns| >= max then t.(finished := s.finished + multiset{p})
        else t.(dialing := s.dialing + multiset{p})
    case DialOk(p) =>
      if p !in s.dialing then s else
        s.(dialing := s.dialing - multiset{p}, finished := s.finished + multiset{p},
           conns := s.conns + {p}, own := if p in s.conns then s.own else s.own + {p})
    case DialFail(p) =>
      if p !in s.dialing then s else
        s.(dialing := s.dialing - multiset{p}, finished := s.finished + multiset{p})
    case Release(p) =>
      if p !in s.finished || s.tokens == 0 then s else
        s.(finished := s.finished - multiset{p}, tokens := s.tokens - 1, released := s.released + 1)
    case Decrement =>
      if s.released == 0 then s else s.(released := s.released - 1, inFlight := s.inFlight - 1)
    case Inbound(p) => s.(conns := s.conns + {p})
    case Disconnect(p) => s.(conns := s.conns - {p}, own := s.own - {p})
    case _ => s
  }

  predicate IsHandlerAction(a: Action) {
    !(a.ReadPeers? || a.ReadCounter? || a.Pull? || a.Acquire? || a.Count? || a.Spawn? || a.Cancel?)
  }

  function Step(max: nat, mode: Reads, s: State, a: Action): State {
    if IsHandlerAction(a) then HandlerStep(max, s, a) else RunStep(max, mode, s, a)
  }

  function Run(max: nat, mode: Reads, acts: seq<Action>): State {
    if acts == [] then INIT else Step(max, mode, Run(max, mode, acts[..|acts| - 1]), acts[|acts| - 1])
  }

  // ---------- Accounting ----------

  ghost function One(b: bool): nat {
    if b then 1 else 0
  }

  /** Handlers that may still open a connection. */
  ghost function Hopeful(s: State): nat {
    |s.spawned| + |s.unconnected| + |s.cleared| + |s.dialing|
  }

  /** Handlers that hold a semaphore token. */
  ghost function Running(s: State): nat {
    Hopeful(s) + |s.finished|
  }

  ghost predicate Accounts(s: State) {
    && s.tokens == Running(s) + One(s.run.Acquired? || s.run.Counted?) <= MAX_CONCURRENT_DIALS
    && s.inFlight == Running(s) + s.released + One(s.run.Counted?)
    && (s.run.Looping? || s.run.LoopRead? || s.run.Ready? || s.run.Acquired? || s.run.Counted? ==> s.run.batch != [])
    && s.own <= s.conns
  }

  /**
   * What any step of a handler, or of the outside world, does to the counts: tokens, counter and handlers move
   * together, nothing makes connections plus hopeful handlers more, and a lost connection is the only way down.
   */
  ghost predicate Progress(max: nat, s: State, t: State) {
    && t.run == s.run && t.own <= t.conns
    && t.tokens - Running(t) == s.tokens - Running(s) && t.tokens <= s.tokens
    && t.inFlight - Running(t) - t.released == s.inFlight - Running(s) - s.released && t.inFlight <= s.inFlight
    && |t.own| + Hopeful(t) <= |s.own| + Hopeful(s)
    && (|t.own| >= |s.own| || (|t.own| == |s.own| - 1 && Hopeful(t) == Hopeful(s)))
    && (|t.own| + |t.dialing| <= |s.own| + |s.dialing| || (t.own == s.own && (max == 0 || |s.conns| < max)))
  }

  lemma MoveOne(a: multiset<PeerId>, b: multiset<PeerId>, p: PeerId)
    requires p in a
    ensures |a - multiset{p}| == |a| - 1 && |b + multiset{p}| == |b| + 1
  {}

  lemma CheckConnectedProgress(max: nat, s: State, p: PeerId)
    requires s.own <= s.conns && p in s.spawned
    ensures Progress(max, s, HandlerStep(max, s, CheckConnected(p)))
  {
    MoveOne(s.spawned, s.unconnected, p);
    MoveOne(s.spawned, s.finished, p);
  }

  lemma CheckBackoffProgress(max: nat, s: State, p: PeerId, blocked: bool)
    requires s.own <= s.conns && p in s.unconnected
    ensures Progress(max, s, HandlerStep(max, s, CheckBackoff(p, blocked)))
  {
    MoveOne(s.unconnected, s.cleared, p);
    MoveOne(s.unconnected, s.finished, p);
  }

  lemma CheckCapProgress(max: nat, s: State, p: PeerId)
    requires s.own <= s.conns && p in s.cleared
    ensures Progress(max, s, HandlerStep(max, s, CheckCap(p)))
  {
    MoveOne(s.cleared, s.dialing, p);
    MoveOne(s.cleared, s.finished, p);
  }

  lemma DialOkProgress(max: nat, s: State, p: PeerId)
    requires s.own <= s.conns && p in s.dialing
    ensures Progress(max, s, HandlerStep(max, s, DialOk(p)))
  {
    MoveOne(s.dialing, s.finished, p);
    assert p !in s.conns ==> |s.own + {p}| == |s.own| + 1;
  }

  lemma DialFailProgress(max: nat, s: State, p: PeerId)
    requires s.own <= s.conns && p in s.dialing
    ensures Progress(max, s, HandlerStep(max, s, DialFail(p)))
  {
    MoveOne(s.dialing, s.finished, p);
  }

  lemma ReleaseProgress(max: nat, s: State, p: PeerId)
    requires s.own <= s.conns && p in s.finished
    ensures Progress(max, s, HandlerStep(max, s, Release(p)))
  {
    MoveOne(s.finished, s.dialing, p);
  }

  lemma DisconnectProgress(max: nat, s: State, p: PeerId)
    requires s.own <= s.conns
    ensures Progress(max, s, HandlerStep(max, s, Disconnect(p)))
  {
    assert s.own - {p} == s.own || |s.own - {p}| == |s.own| - 1;
  }

  lemma HandlerProgress(max: nat, s: State, a: Action)
    requires s.own <= s.conns
    ensures Progress(max, s, HandlerStep(max, s, a))
  {
    match a
    case CheckConnected(p) => if p in s.spawned { CheckConnectedProgress(max, s, p); }
    case CheckBackoff(p, blocked) => if p in s.unconnected { CheckBackoffProgress(max, s, p, blocked); }
    case CheckCap(p) => if p in s.cleared { CheckCapProgress(max, s, p); }
    case DialOk(p) => if p in s.dialing { DialOkProgress(max, s, p); }
    case DialFail(p) => if p in s.dialing { DialFailProgress(max, s, p); }
    case Release(p) => if p in s.finished { ReleaseProgress(max, s, p); }
    case Disconnect(p) => DisconnectProgress(max, s, p);
    case _ =>
  }

  lemma RunAccounts(max: nat, mode: Reads, s: State, a: Action)
    requires Accounts(s)
    ensures Accounts(RunStep(max, mode, s, a))
  {}

  lemma StepAccounts(max: nat, mode: Reads, s: State, a: Action)
    requires Accounts(s)
    ensures Accounts(Step(max, mode, s, a))
  {
    if IsHandlerAction(a) {
      HandlerProgress(max, s, a);
    } else {
      RunAccounts(max, mode, s, a);
    }
  }

  lemma {:induction false} Accounting(max: nat, mode: Reads, acts: seq<Action>)
    ensures Accounts(Run(max, mode, acts))
  {
    if acts != [] {
      Accounting(max, mode, acts[..|acts| - 1]);
      StepAccounts(max, mode, Run(max, mode, acts[..|acts| - 1]), acts[|acts| - 1]);
    }
  }

  /** The in-flight counter against the semaphore, at every step of every interleaving. */
  lemma InFlightEquation(max: nat, mode: Reads, acts: seq<Action>)
    ensures var s := Run(max, mode, acts);
            && s.inFlight == s.tokens + s.released - One(s.run.Acquired?)
            && Running(s) <= s.tokens <= MAX_CONCURRENT_DIALS
  {
    Accounting(max, mode, acts);
  }

  // ---------- Caps ----------

  ghost function SplitBound(max: nat): int {
    max - 1 + Min(MAX_CONCURRENT_DIALS, max + SLACK)
  }

  ghost predicate Capped(max: nat, s: State) {
    && s.inFlight + One(s.run.Ready? || s.run.Acquired?) <= max + SLACK
    && |s.own| + |s.dialing| <= SplitBound(max)
  }

  lemma RunCapped(max: nat, mode: Reads, s: State, a: Action)
    requires max > 0 && Capped(max, s)
    ensures Capped(max, RunStep(max, mode, s, a))
  {}

  lemma StepCapped(max: nat, mode: Reads, s: State, a: Action)
    requires max > 0 && Accounts(s) && Capped(max, s)
    ensures Capped(max, Step(max, mode, s, a))
  {
    if IsHandlerAction(a) {
      HandlerProgress(max, s, a);
      StepAccounts(max, mode, s, a);
      SubsetSize(s.own, s.conns);
    } else {
      RunCapped(max, mode, s, a);
    }
  }

  /** Under full interleaving, with the two reads of tooManyInFlight apart. */
  lemma {:induction false} PeerCap(max: nat, mode: Reads, acts: seq<Action>)
    requires max > 0
    ensures var s := Run(max, mode, acts);
            Capped(max, s) && s.inFlight <= max + SLACK && |s.own| <= SplitBound(max)
  {
    if acts != [] {
      PeerCap(max, mode, acts[..|acts| - 1]);
      Accounting(max, mode, acts[..|acts| - 1]);
      StepCapped(max, mode, Run(max, mode, acts[..|acts| - 1]), acts[|acts| - 1]);
    }
  }

  ghost predicate SharplyCapped(max: nat, s: State) {
    && !s.run.TopRead? && !s.run.LoopRead?
    && |s.own| + Hopeful(s) + One(s.run.Ready? || s.run.Acquired? || s.run.Counted?) <= max + SLACK
  }

  lemma RunSharplyCapped(max: nat, s: State, a: Action)
    requires max > 0 && Accounts(s) && SharplyCapped(max, s)
    ensures SharplyCapped(max, RunStep(max, Atomic, s, a))
  {
    SubsetSize(s.own, s.conns);
  }

  lemma StepSharplyCapped(max: nat, s: State, a: Action)
    requires max > 0 && Accounts(s) && SharplyCapped(max, s)
    ensures SharplyCapped(max, Step(max, Atomic, s, a))
  {
    if IsHandlerAction(a) {
      HandlerProgress(max, s, a);
    } else {
      RunSharplyCapped(max, s, a);
    }
  }

  /** If both reads were one step, own dials could never exceed the cap by more than the slack. */
  lemma {:induction false} SharpPeerCap(max: nat, acts: seq<Action>)
    requires max > 0
    ensures var s := Run(max, Atomic, acts);
            SharplyCapped(max, s) && |s.own| <= max + SLACK
  {
    if acts != [] {
      SharpPeerCap(max, acts[..|acts| - 1]);
      Accounting(max, Atomic, acts[..|acts| - 1]);
      StepSharplyCapped(max, Run(max, Atomic, acts[..|acts| - 1]), acts[|acts| - 1]);
    }
  }

  // ---------- The true maximum with the reads apart ----------

  /** 1 + 2 + ... + x: the connections it takes to start x dials too many. */
  function Tri(x: nat): nat {
    if x == 0 then 0 else Tri(x - 1) + x
  }

  /** The largest x whose triangle fits. */
  function TriRoot(room: nat): (x: nat)
    ensures Tri(x) <= room < Tri(x + 1)
  {
    if room == 0 then 0 else
      var y := TriRoot(room - 1);
      if Tri(y + 1) <= room then y + 1 else y
  }

  lemma {:induction false} TriGrows(x: nat, y: nat)
    requires x < y
    ensures Tri(x) + y <= Tri(y)
  {
    if x < y - 1 {
      TriGrows(x, y - 1);
    }
  }

  /** Connections that must exist before as many handlers as the semaphore has tokens can fill the cap and its slack. */
  ghost function Base(max: nat): nat {
    if max + SLACK <= MAX_CONCURRENT_DIALS then 0 else max + SLACK - MAX_CONCURRENT_DIALS
  }

  /** How far over the slack the stale reads can push: 30 at most. */
  function Excess(max: nat): nat
    requires max > 0
  {
    TriRoot(Min(max - 1, MAX_CONCURRENT_DIALS - SLACK - 1))
  }

  function TrueBound(max: nat): nat
    requires max > 0
  {
    max + SLACK + Excess(max)
  }

  /**
   * The connections that a total of `sum` connections and hopeful handlers presupposes. Every unit above the slack
   * was let through by a stale read, and a read that is stale by x takes x dials landing while it is made.
   */
  ghost function Floor(max: nat, sum: int): int {
    if sum < max + SLACK then 0 else Base(max) + Tri(sum - (max + SLACK))
  }

  lemma FloorGrows(max: nat, a: int, b: int)
    requires a <= b
    ensures Floor(max, a) <= Floor(max, b)
    ensures max + SLACK <= a < b ==> Floor(max, a) < Floor(max, b)
  {
    if max + SLACK <= a < b {
      TriGrows(a - (max + SLACK), b - (max + SLACK));
    }
  }

  ghost function Sum(s: State): nat {
    |s.own| + Hopeful(s) + One(s.run.Acquired? || s.run.Counted?)
  }

  ghost predicate Founded(max: nat, s: State)
    requires max > 0
  {
    && |s.own| >= Floor(max, Sum(s))
    && (s.run.TopRead? || s.run.LoopRead? ==> s.run.seen >= Floor(max, Sum(s)))
    && (s.run.Ready? && Sum(s) >= max + SLACK ==> |s.own| >= Floor(max, Sum(s) + 1))
    && |s.own| + |s.dialing| <= TrueBound(max)
  }

  /** Below the cap, the connections that exist can found no more than the true bound. */
  lemma FoundationsLimit(max: nat, own: nat, sum: int)
    requires 0 < max && own < max && own >= Floor(max, sum)
    ensures sum <= TrueBound(max)
  {
    var x := sum - (max + SLACK);
    if x > Excess(max) + 1 {
      TriGrows(Excess(max) + 1, x);
    }
  }

  lemma HandlerFounded(max: nat, s: State, t: State)
    requires max > 0 && Founded(max, s) && s.own <= s.conns && Progress(max, s, t)
    ensures Founded(max, t)
  {
    FloorGrows(max, Sum(t), Sum(s));
    FloorGrows(max, Sum(t) + 1, Sum(s) + 1);
    if |t.own| + |t.dialing| > |s.own| + |s.dialing| {
      SubsetSize(t.own, s.conns);
      FoundationsLimit(max, |t.own|, Sum(t));
    }
  }

  /** A check that passes although the sum is over the slack read Peers() before that many dials landed. */
  lemma PassedCheckFounded(max: nat, s: State, seen: nat)
    requires max > 0 && Accounts(s) && Founded(max, s) && seen >= Floor(max, Sum(s))
    requires !s.run.Acquired? && !s.run.Counted?
    ensures Founded(max, Decide(max, s, seen))
  {
    var i := Sum(s) - (max + SLACK) + 1;
    if i > 0 && seen + s.inFlight < max + SLACK {
      assert Floor(max, Sum(s) + 1) == Floor(max, Sum(s)) + i;
    }
  }

  lemma ReadPeersFounded(max: nat, mode: Reads, s: State)
    requires max > 0 && Accounts(s) && Founded(max, s)
    ensures Founded(max, RunStep(max, mode, s, ReadPeers))
  {
    SubsetSize(s.own, s.conns);
    if s.run.Top? || s.run.Looping? {
      PassedCheckFounded(max, s, |s.conns|);
    }
  }

  lemma ReadCounterFounded(max: nat, mode: Reads, s: State)
    requires max > 0 && Accounts(s) && Founded(max, s)
    ensures Founded(max, RunStep(max, mode, s, ReadCounter))
  {
    if s.run.TopRead? || s.run.LoopRead? {
      PassedCheckFounded(max, s, s.run.seen);
    }
  }

  lemma AcquireFounded(max: nat, mode: Reads, s: State)
    requires max > 0 && Accounts(s) && Founded(max, s)
    ensures Founded(max, RunStep(max, mode, s, Acquire))
  {}

  lemma SpawnFounded(max: nat, mode: Reads, s: State)
    requires max > 0 && Accounts(s) && Founded(max, s)
    ensures Founded(max, RunStep(max, mode, s, Spawn))
  {
    assert Sum(RunStep(max, mode, s, Spawn)) == Sum(s);
  }

  lemma OtherRunFounded(max: nat, mode: Reads, s: State, a: Action)
    requires max > 0 && Founded(max, s) && !a.ReadPeers? && !a.ReadCounter? && !a.Acquire? && !a.Spawn?
    ensures Founded(max, RunStep(max, mode, s, a))
  {
    assert Sum(RunStep(max, mode, s, a)) == Sum(s);
  }

  lemma RunFounded(max: nat, mode: Reads, s: State, a: Action)
    requires max > 0 && Accounts(s) && Founded(max, s)
    ensures Founded(max, RunStep(max, mode, s, a))
  {
    match a
    case ReadPeers => ReadPeersFounded(max, mode, s);
    case ReadCounter => ReadCounterFounded(max, mode, s);
    case Acquire => AcquireFounded(max, mode, s);
    case Spawn => SpawnFounded(max, mode, s);
    case _ => OtherRunFounded(max, mode, s, a);
  }

  /** Under full interleaving own dials never connect more than the true bound. */
  lemma {:induction false} TruePeerCap(max: nat, mode: Reads, acts: seq<Action>)
    requires max > 0
    ensures Founded(max, Run(max, mode, acts)) && |Run(max, mode, acts).own| <= TrueBound(max)
  {
    if acts == [] {
      assert Floor(max, 0) == 0;
    } else {
      var s, a := Run(max, mode, acts[..|acts| - 1]), acts[|acts| - 1];
      TruePeerCap(max, mode, acts[..|acts| - 1]);
      Accounting(max, mode, acts[..|acts| - 1]);
      if IsHandlerAction(a) {
        HandlerProgress(max, s, a);
        HandlerFounded(max, s, HandlerStep(max, s, a));
      } else {
        RunFounded(max, mode, s, a);
      }
    }
  }

  // ---------- What each stretch of code comes to ----------

  ghost function Two(max: nat, mode: Reads, s: State, a: Action, b: Action): State {
    Step(max, mode, Step(max, mode, s, a), b)
  }

  ghost function Three(max: nat, mode: Reads, s: State, a: Action, b: Action, c: Action): State {
    Step(max, mode, Two(max, mode, s, a, b), c)
  }

  lemma ThreeSteps(max: nat, mode: Reads, s: State, a: Action, s1: State, b: Action, s2: State, c: Action, s3: State)
    requires Step(max, mode, s, a) == s1 && Step(max, mode, s1, b) == s2 && Step(max, mode, s2, c) == s3
    ensures Three(max, mode, s, a, b, c) == s3
  {}

  /**
   * tooManyInFlight with nothing in between: no cap means room; otherwise there is room while peers and in-flight
   * handlers together stay below the cap plus 20. Without room `Run` goes back to the top and drops its batch.
   */
  lemma CheckExactly(max: nat, mode: Reads, s: State)
    requires s.run.Top? || s.run.Looping?
    ensures var room := max == 0 || |s.conns| + s.inFlight < max + 20;
            Two(max, mode, s, ReadPeers, ReadCounter) ==
            s.(run := if !room then Top else if s.run.Top? then Pulling else Ready(s.run.batch))
  {
  }

  /** A pulled batch of up to 50 is worked through from its first peer on; an empty one sends `Run` back to the top. */
  lemma PullExactly(max: nat, mode: Reads, s: State, peers: seq<PeerId>)
    requires s.run == Pulling
    ensures Step(max, mode, s, Pull(peers)) ==
            if |peers| > 50 then s else s.(run := if peers == [] then Top else Looping(peers))
  {}

  /** A handler starts, with token and count, exactly if a token is free; `Run` goes on with the rest of the batch. */
  lemma LaunchExactly(max: nat, mode: Reads, s: State, batch: seq<PeerId>)
    requires s.run == Ready(batch) && batch != []
    ensures Three(max, mode, s, Acquire, Count, Spawn) ==
            if s.tokens >= 500 then s else
              s.(run := if |batch| == 1 then Top else Looping(batch[1..]), tokens := s.tokens + 1,
                 inFlight := s.inFlight + 1, spawned := s.spawned + multiset{batch[0]})
  {
    if s.tokens < MAX_CONCURRENT_DIALS {
      var s1 := s.(run := Acquired(batch), tokens := s.tokens + 1);
      var s2 := s1.(run := Counted(batch), inFlight := s.inFlight + 1);
      var s3 := s2.(run := Next(batch[1..]), spawned := s.spawned + multiset{batch[0]});
      ThreeSteps(max, mode, s, Acquire, s1, Count, s2, Spawn, s3);
    }
  }

  lemma AddRemove(m: multiset<PeerId>, p: PeerId)
    ensures m + multiset{p} - multiset{p} == m
  {}

  lemma ChecksFail(max: nat, mode: Reads, s: State, p: PeerId, blocked: bool)
    requires p in s.spawned && p !in s.unconnected && p !in s.cleared && (p in s.conns || blocked)
    ensures Three(max, mode, s, CheckConnected(p), CheckBackoff(p, blocked), CheckCap(p)) ==
            s.(spawned := s.spawned - multiset{p}, finished := s.finished + multiset{p})
  {
    var s0 := s.(spawned := s.spawned - multiset{p});
    var ends := s0.(finished := s.finished + multiset{p});
    var s1 := if p in s.conns then ends else s0.(unconnected := s.unconnected + multiset{p});
    AddRemove(s.unconnected, p);
    ThreeSteps(max, mode, s, CheckConnected(p), s1, CheckBackoff(p, blocked), ends, CheckCap(p), ends);
  }

  lemma ChecksPass(max: nat, mode: Reads, s: State, p: PeerId)
    requires p in s.spawned && p !in s.unconnected && p !in s.cleared && p !in s.conns
    ensures Three(max, mode, s, CheckConnected(p), CheckBackoff(p, false), CheckCap(p)) ==
            var s0 := s.(spawned := s.spawned - multiset{p});
            if max == 0 || |s.conns| < max then s0.(dialing := s.dialing + multiset{p})
            else s0.(finished := s.finished + multiset{p})
  {
    var s1 := Step(max, mode, s, CheckConnected(p));
    assert s1 == s.(spawned := s.spawned - multiset{p}, unconnected := s.unconnected + multiset{p});
    PassesBackoff(max, mode, s1, p, s.unconnected);
    PassesCap(max, mode, Step(max, mode, s1, CheckBackoff(p, false)), p, s.cleared);
  }

  lemma PassesBackoff(max: nat, mode: Reads, s: State, p: PeerId, others: multiset<PeerId>)
    requires s.unconnected == others + multiset{p}
    ensures Step(max, mode, s, CheckBackoff(p, false)) ==
            s.(unconnected := others, cleared := s.cleared + multiset{p})
  {
    AddRemove(others, p);
  }

  lemma PassesCap(max: nat, mode: Reads, s: State, p: PeerId, others: multiset<PeerId>)
    requires s.cleared == others + multiset{p}
    ensures Step(max, mode, s, CheckCap(p)) ==
            if max == 0 || |s.conns| < max then s.(cleared := others, dialing := s.dialing + multiset{p})
            else s.(cleared := others, finished := s.finished + multiset{p})
  {
    AddRemove(others, p);
  }

  /** A handler dials exactly if its peer is not connected, not in backoff, and there is no cap or it is not reached. */
  lemma HandlerExactly(max: nat, mode: Reads, s: State, p: PeerId, blocked: bool)
    requires p in s.spawned && p !in s.unconnected && p !in s.cleared
    ensures var dials := p !in s.conns && !blocked && (max == 0 || |s.conns| < max);
            Three(max, mode, s, CheckConnected(p), CheckBackoff(p, blocked), CheckCap(p)) ==
            s.(spawned := s.spawned - multiset{p},
               dialing := if dials then s.dialing + multiset{p} else s.dialing,
               finished := if dials then s.finished else s.finished + multiset{p})
  {
    if p in s.conns || blocked {
      ChecksFail(max, mode, s, p, blocked);
    } else {
      ChecksPass(max, mode, s, p);
    }
  }

  lemma GivesBack(max: nat, mode: Reads, s: State, p: PeerId, others: multiset<PeerId>)
    requires s.finished == others + multiset{p} && s.tokens > 0
    ensures Two(max, mode, s, Release(p), Decrement) ==
            s.(finished := others, tokens := s.tokens - 1, inFlight := s.inFlight - 1)
  {
    AddRemove(others, p);
    assert Step(max, mode, s, Release(p)) == s.(finished := others, tokens := s.tokens - 1, released := s.released + 1);
  }

  /** A dial that ends gives back token and count, and leaves a connection exactly if it succeeded. */
  lemma DialExactly(max: nat, mode: Reads, s: State, p: PeerId, ok: bool)
    requires p in s.dialing && s.tokens > 0
    ensures Three(max, mode, s, if ok then DialOk(p) else DialFail(p), Release(p), Decrement) ==
            s.(dialing := s.dialing - multiset{p}, tokens := s.tokens - 1, inFlight := s.inFlight - 1,
               conns := if ok then s.conns + {p} else s.conns,
               own := if ok && p !in s.conns then s.own + {p} else s.own)
  {
    GivesBack(max, mode, Step(max, mode, s, if ok then DialOk(p) else DialFail(p)), p, s.finished);
  }

  lemma StoppedStep(max: nat, mode: Reads, s: State, a: Action)
    requires s.run == Stopped && s.own <= s.conns
    ensures Step(max, mode, s, a).run == Stopped && Step(max, mode, s, a).tokens <= s.tokens
  {
    if IsHandlerAction(a) {
      HandlerProgress(max, s, a);
    }
  }

  lemma RunSnoc(max: nat, mode: Reads, acts: seq<Action>, a: Action)
    ensures Run(max, mode, acts + [a]) == Step(max, mode, Run(max, mode, acts), a)
  {
    assert (acts + [a])[..|acts|] == acts;
  }

  /** Cancelled while it waits, `Run` starts no further handler, whatever else happens. */
  lemma {:induction false} StopsForGood(max: nat, mode: Reads, acts: seq<Action>, more: seq<Action>)
    requires Run(max, mode, acts).run.Top? || Run(max, mode, acts).run.Ready?
    ensures var t := Run(max, mode, acts + [Cancel] + more);
            t.run == Stopped && t.tokens <= Run(max, mode, acts).tokens
  {
    var stopped := acts + [Cancel];
    if more == [] {
      assert stopped + more == stopped;
      RunSnoc(max, mode, acts, Cancel);
    } else {
      var rest, a := more[..|more| - 1], more[|more| - 1];
      StopsForGood(max, mode, acts, rest);
      assert stopped + more == stopped + rest + [a];
      RunSnoc(max, mode, stopped + rest, a);
      Accounting(max, mode, stopped + rest);
      StoppedStep(max, mode, Run(max, mode, stopped + rest), a);
    }
  }

  // ---------- ... and a run that reaches it ----------

  ghost predicate Reachable(max: nat, s: State) {
    exists acts :: Run(max, Split, acts) == s
  }

  lemma Reach(max: nat, s: State, a: Action)
    requires Reachable(max, s)
    ensures Reachable(max, Step(max, Split, s, a))
  {
    var acts :| Run(max, Split, acts) == s;
    RunSnoc(max, Split, acts, a);
  }

  lemma ReachThree(max: nat, s: State, a: Action, b: Action, c: Action, t: State)
    requires Reachable(max, s) && t == Three(max, Split, s, a, b, c)
    ensures Reachable(max, t)
  {
    Reach(max, s, a);
    Reach(max, Step(max, Split, s, a), b);
    Reach(max, Two(max, Split, s, a, b), c);
  }

  /** `Run` somewhere, the given peers connected by own dials, the given handlers inside Connect, nothing else. */
  ghost function Snap(run: Phase, connected: set<PeerId>, dialing: set<PeerId>): State {
    State(run, |dialing|, |dialing|, multiset{}, multiset{}, multiset{}, multiset(dialing), multiset{}, 0,
          connected, connected)
  }

  /** A dial succeeds and its handler finishes, wherever `Run` is. */
  lemma Land(max: nat, run: Phase, connected: set<PeerId>, dialing: set<PeerId>, p: PeerId)
    requires Reachable(max, Snap(run, connected, dialing)) && p in dialing && p !in connected
    ensures Reachable(max, Snap(run, connected + {p}, dialing - {p}))
  {
    var s := Snap(run, connected, dialing);
    DialExactly(max, Split, s, p, true);
    assert multiset(dialing) - multiset{p} == multiset(dialing - {p}) && |dialing - {p}| == |dialing| - 1;
    ReachThree(max, s, DialOk(p), Release(p), Decrement, Snap(run, connected + {p}, dialing - {p}));
  }

  /** From a passed check to a handler inside Connect. */
  lemma Launch(max: nat, batch: seq<PeerId>, connected: set<PeerId>, dialing: set<PeerId>)
    requires batch != [] && Reachable(max, Snap(Ready(batch), connected, dialing))
    requires batch[0] !in connected && batch[0] !in dialing
    requires (max == 0 || |connected| < max) && |dialing| < MAX_CONCURRENT_DIALS
    ensures Reachable(max, Snap(Next(batch[1..]), connected, dialing + {batch[0]}))
  {
    var s, run, p := Snap(Ready(batch), connected, dialing), Next(batch[1..]), batch[0];
    LaunchExactly(max, Split, s, batch);
    ReachThree(max, s, Acquire, Count, Spawn, Started(run, connected, dialing, p));
    PassChecks(max, run, connected, dialing, p);
  }

  /** A handler that has just been started gets through its three checks. */
  lemma PassChecks(max: nat, run: Phase, connected: set<PeerId>, dialing: set<PeerId>, p: PeerId)
    requires p !in connected && p !in dialing && (max == 0 || |connected| < max)
    requires Reachable(max, Started(run, connected, dialing, p))
    ensures Reachable(max, Snap(run, connected, dialing + {p}))
  {
    var s := Started(run, connected, dialing, p);
    HandlerExactly(max, Split, s, p, false);
    assert multiset(dialing) + multiset{p} == multiset(dialing + {p});
    ReachThree(max, s, CheckConnected(p), CheckBackoff(p, false), CheckCap(p), Snap(run, connected, dialing + {p}));
  }

  ghost function Started(run: Phase, connected: set<PeerId>, dialing: set<PeerId>, p: PeerId): State {
    Snap(run, connected, dialing).(tokens := |dialing| + 1, inFlight := |dialing| + 1, spawned := multiset{p})
  }

  ghost predicate Room(max: nat, connected: set<PeerId>, dialing: set<PeerId>) {
    max == 0 || |connected| + |dialing| < max + SLACK
  }

  /** Both reads in a row, with room left: `Run` goes on to pull or to dial. */
  lemma FreshCheck(max: nat, s: State, t: State, connected: set<PeerId>, dialing: set<PeerId>)
    requires Room(max, connected, dialing) && Reachable(max, s) && s == Snap(s.run, connected, dialing)
    requires s.run.Top? || s.run.Looping?
    requires t == s.(run := if s.run.Top? then Pulling else Ready(s.run.batch))
    ensures Reachable(max, t)
  {
    CheckExactly(max, Split, s);
    Reach(max, s, ReadPeers);
    Reach(max, Step(max, Split, s, ReadPeers), ReadCounter);
  }

  lemma Begin(max: nat, batch: seq<PeerId>, connected: set<PeerId>, dialing: set<PeerId>)
    requires Room(max, connected, dialing) && 0 < |batch| <= PULL_BATCH
    requires Reachable(max, Snap(Top, connected, dialing))
    ensures Reachable(max, Snap(Ready(batch), connected, dialing))
  {
    var s0, s1 := Snap(Top, connected, dialing), Snap(Pulling, connected, dialing);
    var s2 := Snap(Looping(batch), connected, dialing);
    FreshCheck(max, s0, s1, connected, dialing);
    assert Step(max, Split, s1, Pull(batch)) == s2;
    Reach(max, s1, Pull(batch));
    FreshCheck(max, s2, Snap(Ready(batch), connected, dialing), connected, dialing);
  }

  /** One peer is pulled, checked and dialled. */
  lemma LaunchOne(max: nat, connected: set<PeerId>, dialing: set<PeerId>, p: PeerId)
    requires (max == 0 || |connected| < max) && Room(max, connected, dialing) && |dialing| < MAX_CONCURRENT_DIALS
    requires p !in connected && p !in dialing && Reachable(max, Snap(Top, connected, dialing))
    ensures Reachable(max, Snap(Top, connected, dialing + {p}))
  {
    Begin(max, [p], connected, dialing);
    Launch(max, [p], connected, dialing);
    assert [p][1..] == [];
  }

  /** One peer is dialled and connected before the next is pulled. */
  lemma ConnectOne(max: nat, connected: set<PeerId>, p: PeerId)
    requires (max == 0 || |connected| < max) && p !in connected && Reachable(max, Snap(Top, connected, {}))
    ensures Reachable(max, Snap(Top, connected + {p}, {}))
  {
    LaunchOne(max, connected, {}, p);
    assert {} + {p} == {p} && {p} - {p} == {};
    Land(max, Top, connected, {p}, p);
  }

  /** Dialling one peer at a time connects any number below the cap, and any number at all without one. */
  lemma {:induction false} ConnectOneByOne(max: nat, n: nat)
    requires max == 0 || n < max
    ensures Reachable(max, Snap(Top, Interval(0, n), {}))
  {
    if n == 0 {
      assert Run(max, Split, []) == Snap(Top, {}, {});
    } else {
      var p := n - 1;
      ConnectOneByOne(max, p);
      ConnectOne(max, Interval(0, p), p);
    }
  }

  /** Handlers pile up inside Connect while there is room. */
  lemma {:induction false} LaunchMany(max: nat, lo: nat, k: nat)
    requires (max == 0 || (lo < max && lo + k <= max + SLACK)) && k <= MAX_CONCURRENT_DIALS
    ensures Reachable(max, Snap(Top, Interval(0, lo), Interval(lo, k)))
  {
    if k == 0 {
      ConnectOneByOne(max, lo);
    } else {
      LaunchMany(max, lo, k - 1);
      LaunchOne(max, Interval(0, lo), Interval(lo, k - 1), lo + k - 1);
    }
  }

  /** Disjoint sets of peers numbered below n. */
  ghost predicate Apart(a: set<PeerId>, b: set<PeerId>, n: int) {
    a !! b && (forall p <- a :: p < n) && (forall p <- b :: p < n)
  }

  /** Some of the dials land, wherever `Run` is. */
  lemma {:induction false} LandSome(max: nat, run: Phase, connected: set<PeerId>, dialing: set<PeerId>, i: nat, n: int)
    returns (up: set<PeerId>, left: set<PeerId>)
    requires Reachable(max, Snap(run, connected, dialing)) && Apart(connected, dialing, n) && i <= |dialing|
    ensures Reachable(max, Snap(run, up, left)) && Apart(up, left, n)
    ensures |up| == |connected| + i && |left| == |dialing| - i
    decreases i
  {
    if i == 0 {
      return connected, dialing;
    }
    Inhabited(dialing);
    var p :| p in dialing;
    Land(max, run, connected, dialing, p);
    up, left := LandSome(max, run, connected + {p}, dialing - {p}, i - 1, n);
  }

  /**
   * Peers() is read, i dials land, the counter is read: the sum misses i peers, and although it was i - 1 over the
   * slack already, one more dial starts.
   */
  lemma StaleLaunch(max: nat, batch: seq<PeerId>, connected: set<PeerId>, dialing: set<PeerId>, i: nat)
    returns (up: set<PeerId>, left: set<PeerId>)
    requires batch != [] && Reachable(max, Snap(Looping(batch), connected, dialing))
    requires Apart(connected, dialing, batch[0]) && 0 < i <= |dialing| < MAX_CONCURRENT_DIALS + i
    requires |connected| + i < max && |connected| + |dialing| == max + SLACK + i - 1
    ensures Reachable(max, Snap(Next(batch[1..]), up, left)) && Apart(up, left, batch[0] + 1)
    ensures |up| == |connected| + i && |up| + |left| == max + SLACK + i
  {
    var seen, q := |connected|, batch[0];
    var s0, s1 := Snap(Looping(batch), connected, dialing), Snap(LoopRead(batch, seen), connected, dialing);
    assert Step(max, Split, s0, ReadPeers) == s1;
    Reach(max, s0, ReadPeers);
    up, left := LandSome(max, LoopRead(batch, seen), connected, dialing, i, q);
    var s2 := Snap(LoopRead(batch, seen), up, left);
    assert Step(max, Split, s2, ReadCounter) == Snap(Ready(batch), up, left);
    Reach(max, s2, ReadCounter);
    Launch(max, batch, up, left);
    left := left + {q};
  }

  /** The i-th stale check costs i connections. */
  lemma {:induction false} StaleMany(max: nat, batch: seq<PeerId>, connected: set<PeerId>, dialing: set<PeerId>, i: nat)
    returns (up: set<PeerId>, left: set<PeerId>)
    requires Reachable(max, Snap(Next(batch), connected, dialing)) && i <= |batch|
    requires forall k :: 0 <= k < |batch| ==> batch[k] == max + SLACK + k
    requires Apart(connected, dialing, max + SLACK) && |connected| + |dialing| == max + SLACK
    requires |connected| + Tri(|batch|) < max && |dialing| <= MAX_CONCURRENT_DIALS
    ensures Reachable(max, Snap(Next(batch[i..]), up, left)) && Apart(up, left, max + SLACK + i)
    ensures |up| == |connected| + Tri(i) && |up| + |left| == max + SLACK + i
    decreases i
  {
    if i == 0 {
      assert batch[0..] == batch;
      return connected, dialing;
    }
    up, left := StaleMany(max, batch, connected, dialing, i - 1);
    if i < |batch| {
      TriGrows(i, |batch|);
    }
    var rest := batch[i - 1..];
    assert rest[0] == max + SLACK + i - 1;
    up, left := StaleLaunch(max, rest, up, left, i);
    assert rest[1..] == batch[i..];
  }

  lemma {:induction false} TriClosed(x: nat)
    ensures 2 * Tri(x) == x * (x + 1)
  {
    if x > 0 {
      TriClosed(x - 1);
    }
  }

  lemma ExcessLimit(max: nat)
    requires max > 0
    ensures Excess(max) <= 30 && (max >= 2 ==> Excess(max) >= 1) && (max == 1 ==> Excess(max) == 0)
  {
    TriClosed(31);
    if Excess(max) > 31 {
      TriGrows(31, Excess(max));
    }
    assert Tri(1) == 1;
  }

  /** The start of the worst case: lo peers connected, just as many dials under way as the slack allows. */
  lemma FillUp(max: nat, lo: nat, batch: seq<PeerId>) returns (dialing: set<PeerId>)
    requires lo < max && max + SLACK - lo <= MAX_CONCURRENT_DIALS && |batch| < PULL_BATCH
    ensures Reachable(max, Snap(Next(batch), Interval(0, lo), dialing))
    ensures Apart(Interval(0, lo), dialing, max + SLACK) && |dialing| == max + SLACK - lo
  {
    var k, q := max + SLACK - 1 - lo, max + SLACK - 1;
    LaunchMany(max, lo, k);
    Begin(max, [q] + batch, Interval(0, lo), Interval(lo, k));
    Launch(max, [q] + batch, Interval(0, lo), Interval(lo, k));
    assert ([q] + batch)[1..] == batch;
    dialing := Interval(lo, k) + {q};
  }

  /** For every cap some interleaving connects exactly as many peers by own dials as the true bound says. */
  lemma TrueBoundReached(max: nat) returns (s: State)
    requires max > 0
    ensures Reachable(max, s) && |s.own| == TrueBound(max)
  {
    var x := Excess(max);
    ExcessLimit(max);
    var lo := max - 1 - Tri(x);
    var batch := seq(x, j => max + SLACK + j);
    var dialing := FillUp(max, lo, batch);
    var up, left := StaleMany(max, batch, Interval(0, lo), dialing, x);
    assert batch[x..] == [];
    var all, none := LandSome(max, Top, up, left, |left|, max + SLACK + x);
    s := Snap(Top, all, none);
  }

  /** The exact maximum, over all interleavings, of the peers connected by own dials. */
  lemma TrueMaximum(max: nat)
    requires max > 0
    ensures forall s :: Reachable(max, s) ==> |s.own| <= TrueBound(max)
    ensures exists s :: Reachable(max, s) && |s.own| == TrueBound(max)
  {
    forall s | Reachable(max, s) ensures |s.own| <= TrueBound(max) {
      var acts :| Run(max, Split, acts) == s;
      TruePeerCap(max, Split, acts);
    }
    var s := TrueBoundReached(max);
  }

  /** With the reads apart the bound of cap plus slack holds on every run if and only if the cap is one peer. */
  lemma SharpBoundExactly(max: nat)
    requires max > 0
    ensures (forall s :: Reachable(max, s) ==> |s.own| <= max + SLACK) <==> max == 1
  {
    TrueMaximum(max);
    ExcessLimit(max);
  }

  /** Without a cap any number of peers gets connected, and on top of any such number all 500 handlers can dial. */
  lemma NoCap(n: nat, k: nat) returns (s: State)
    requires k <= MAX_CONCURRENT_DIALS
    ensures Reachable(0, s) && |s.own| == n && |s.dialing| == k
  {
    LaunchMany(0, n, k);
    s := Snap(Top, Interval(0, n), Interval(n, k));
    assert |multiset(Interval(n, k))| == k;
  }
}
