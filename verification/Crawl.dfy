/** discovery/discovery.go: the crawl writer, and the discovery loops and connection callbacks that share it. */
module Crawl {
  import opened Types

  type Enr = string

  /** The file holds only the ENR; the peer is kept here to say whose ENR it is. */
  datatype Line = Line(peer: PeerId, enr: Enr)

  datatype Writer = Writer(seen: set<PeerId>, pending: map<PeerId, Enr>, lines: seq<Line>)

  predicate Knows(w: Writer, id: PeerId) {
    id in w.seen || id in w.pending
  }

  function Registered(w: Writer, id: PeerId, enr: Enr): Writer {
    w.(pending := w.pending[id := enr])
  }

  function Written(w: Writer, id: PeerId): Writer {
    if id !in w.pending then w
    else if id in w.seen then w.(pending := w.pending - {id})
    else Writer(w.seen + {id}, w.pending - {id}, w.lines + [Line(id, w.pending[id])])
  }

  /** Every method is one critical section under `mu`. */
  class CrawlFileWriter {
    var seen: set<PeerId>
    var pending: map<PeerId, Enr>
    var output: seq<Line>

    ghost function Model(): Writer
      reads this
    {
      Writer(seen, pending, output)
    }

    constructor ()
      ensures Model() == Writer({}, map[], [])
    {
      seen, pending, output := {}, map[], [];
    }

    method HasPeer(id: PeerId) returns (known: bool)
      ensures known <==> id in seen || id in pending
    {
      known := id in seen;
      if !known {
        known := id in pending;
      }
    }

    method RegisterENR(id: PeerId, enr: Enr)
      modifies this
      ensures Model() == Registered(old(Model()), id, enr)
      ensures id in pending && pending[id] == enr && pending - {id} == old(pending) - {id}
    {
      pending := pending[id := enr];
    }

    method WriteConnected(id: PeerId)
      modifies this
      ensures Model() == Written(old(Model()), id)
      ensures pending == old(pending) - {id}
      ensures seen == old(seen) + if id in old(pending) then {id} else {}
      ensures output == old(output) +
                        if id in old(pending) && id !in old(seen) then [Line(id, old(pending)[id])] else []
    {
      if id !in pending {
        return;
      }
      var enr := pending[id];
      pending := pending - {id};
      if id in seen {
        return;
      }
      seen := seen + {id};
      output := output + [Line(id, enr)];
    }
  }

  // ---------- All interleavings ----------

  /** Where a discovery loop is with the node it is working on. */
  datatype Loop =
    | Looked(id: PeerId, enr: Enr)      // HasPeer said no
    | Enrolled(id: PeerId)              // RegisterENR done
    | Assigned(id: PeerId)              // first section of Route done

  datatype State = State(
    writer: Writer,
    loops: map<nat, Loop>,              // discovery loops in the middle of a node
    bucketed: set<PeerId>               // peers that a PeerManager can pull
  )

  datatype Action =
    | Look(loop: nat, id: PeerId, enr: Enr)
    | Register(loop: nat)
    | Assign(loop: nat)
    | Store(loop: nat)
    | Callback(id: PeerId)              // ConnectedF on any connection, inbound or dialled

  const INIT := State(Writer({}, map[], []), map[], {})

  function Step(s: State, a: Action): State {
    match a
    case Look(t, id, enr) =>
      if t in s.loops || Knows(s.writer, id) then s else s.(loops := s.loops[t := Looked(id, enr)])
    case Register(t) =>
      if t in s.loops && s.loops[t].Looked? then
        var l := s.loops[t];
        s.(writer := Registered(s.writer, l.id, l.enr), loops := s.loops[t := Enrolled(l.id)])
      else s
    case Assign(t) =>
      if t in s.loops && s.loops[t].Enrolled? then s.(loops := s.loops[t := Assigned(s.loops[t].id)]) else s
    case Store(t) =>
      if t in s.loops && s.loops[t].Assigned?
      then s.(loops := s.loops - {t}, bucketed := s.bucketed + {s.loops[t].id}) else s
    case Callback(id) => s.(writer := Written(s.writer, id))
  }

  function Run(s: State, acts: seq<Action>): State {
    if acts == [] then s else Step(Run(s, acts[..|acts| - 1]), acts[|acts| - 1])
  }

  /** One line per seen peer. */
  ghost predicate OneLineEach(s: State) {
    && (forall i, j :: 0 <= i < j < |s.writer.lines| ==> s.writer.lines[i].peer != s.writer.lines[j].peer)
    && (forall l <- s.writer.lines :: l.peer in s.writer.seen)
    && (forall p <- s.writer.seen :: exists l <- s.writer.lines :: l.peer == p)
  }

  ghost predicate Inv(s: State) {
    && OneLineEach(s)
    && (forall t <- s.loops :: !s.loops[t].Looked? ==> Knows(s.writer, s.loops[t].id))
    && (forall p <- s.bucketed :: Knows(s.writer, p))
  }

  ghost predicate Grows(s: State, t: State) {
    && s.writer.seen <= t.writer.seen
    && s.writer.lines <= t.writer.lines
    && s.bucketed <= t.bucketed
  }

  lemma InvStep(s: State, a: Action)
    requires Inv(s)
    ensures Inv(Step(s, a)) && Grows(s, Step(s, a))
  {}

  lemma {:induction false} InvRun(s: State, acts: seq<Action>)
    requires Inv(s)
    ensures Inv(Run(s, acts)) && Grows(s, Run(s, acts))
  {
    if acts != [] {
      InvRun(s, acts[..|acts| - 1]);
      InvStep(Run(s, acts[..|acts| - 1]), acts[|acts| - 1]);
    }
  }

  lemma {:induction false} LinesAreSeen(lines: seq<Line>, seen: set<PeerId>)
    requires forall i, j :: 0 <= i < j < |lines| ==> lines[i].peer != lines[j].peer
    requires forall p :: p in seen <==> exists l <- lines :: l.peer == p
    ensures |lines| == |seen|
  {
    if lines == [] {
      assert seen == {};
    } else {
      var n := |lines| - 1;
      var p := lines[n].peer;
      assert lines[n] in lines;
      forall q ensures q in seen - {p} <==> exists l <- lines[..n] :: l.peer == q {
        if l :| l in lines[..n] && l.peer == q {
          assert l in lines;
        }
        if q in seen - {p} {
          var l :| l in lines && l.peer == q;
          assert l in lines[..n];
        }
      }
      LinesAreSeen(lines[..n], seen - {p});
    }
  }

  /** Some loop came across this node: it looked the peer up with this ENR. */
  ghost predicate Found(acts: seq<Action>, l: Line) {
    exists k :: 0 <= k < |acts| && acts[k].Look? && acts[k].id == l.peer && acts[k].enr == l.enr
  }

  /** Every ENR on its way to the file, or in it, was found together with its peer. */
  ghost predicate AllFound(s: State, acts: seq<Action>) {
    && (forall l <- s.writer.lines :: Found(acts, l))
    && (forall p <- s.writer.pending :: Found(acts, Line(p, s.writer.pending[p])))
    && (forall t <- s.loops :: s.loops[t].Looked? ==> Found(acts, Line(s.loops[t].id, s.loops[t].enr)))
  }

  lemma FoundSnoc(acts: seq<Action>, a: Action, l: Line)
    ensures Found(acts + [a], l) <==> Found(acts, l) || (a.Look? && l == Line(a.id, a.enr))
  {
    var all := acts + [a];
    assert forall k :: 0 <= k < |acts| ==> all[k] == acts[k];
    assert all[|acts|] == a;
  }

  lemma AllFoundStep(s: State, acts: seq<Action>, a: Action)
    requires AllFound(s, acts)
    ensures AllFound(Step(s, a), acts + [a])
  {
    forall l ensures Found(acts + [a], l) <==> Found(acts, l) || (a.Look? && l == Line(a.id, a.enr)) {
      FoundSnoc(acts, a, l);
    }
  }

  lemma {:induction false} AllFoundRun(acts: seq<Action>)
    ensures AllFound(Run(INIT, acts), acts)
  {
    if acts != [] {
      var n := |acts| - 1;
      AllFoundRun(acts[..n]);
      AllFoundStep(Run(INIT, acts[..n]), acts[..n], acts[n]);
      assert acts == acts[..n] + [acts[n]];
    }
  }

  /** The output of every run: exactly one line per seen peer, each an ENR that a loop found for that peer. */
  lemma CrawlOutput(acts: seq<Action>)
    ensures OneLineEach(Run(INIT, acts)) && |Run(INIT, acts).writer.lines| == |Run(INIT, acts).writer.seen|
    ensures forall l <- Run(INIT, acts).writer.lines :: Found(acts, l)
  {
    InvRun(INIT, acts);
    AllFoundRun(acts);
    LinesAreSeen(Run(INIT, acts).writer.lines, Run(INIT, acts).writer.seen);
  }

  /**
   * From any state an idle loop that comes across a node takes it all the way: if the writer did not know the peer,
   * it can be pulled and its connection adds exactly its line; otherwise nothing changes but the callback's part.
   */
  lemma NodeIsCrawled(s: State, t: nat, id: PeerId, enr: Enr)
    requires t !in s.loops
    ensures var found := Step(Step(Step(Step(s, Look(t, id, enr)), Register(t)), Assign(t)), Store(t));
            var done := Step(found, Callback(id));
            if Knows(s.writer, id) then found == s
            else && found.bucketed == s.bucketed + {id} && found.loops == s.loops
                 && done.writer == Writer(s.writer.seen + {id}, s.writer.pending, s.writer.lines + [Line(id, enr)])
  {
    if !Knows(s.writer, id) {
      var s1 := Step(s, Look(t, id, enr));
      var s2 := Step(s1, Register(t));
      assert s2.loops[t] == Enrolled(id) && s2.writer.pending == s.writer.pending[id := enr];
      var s3 := Step(s2, Assign(t));
      var s4 := Step(s3, Store(t));
      assert s4.loops == s.loops && s4.writer == s2.writer;
      assert s.writer.pending[id := enr] - {id} == s.writer.pending;
    }
  }

  /** A peer that can be dialled is known to the writer, and once its connection callback has run it stays written. */
  lemma ConnectedPeersAreWritten(acts: seq<Action>, id: PeerId, more: seq<Action>)
    requires id in Run(INIT, acts).bucketed
    ensures id in Run(INIT, acts).writer.seen || id in Run(INIT, acts).writer.pending
    ensures id !in Step(Run(INIT, acts), Callback(id)).writer.pending
    ensures id in Run(Step(Run(INIT, acts), Callback(id)), more).writer.seen
  {
    InvRun(INIT, acts);
    InvStep(Run(INIT, acts), Callback(id));
    InvRun(Step(Run(INIT, acts), Callback(id)), more);
  }

  // ---------- When a written peer can be pending again ----------

  /** Every loop action of the run belongs to one of the loops in L. */
  ghost predicate OnlyLoops(acts: seq<Action>, L: set<nat>) {
    forall k :: 0 <= k < |acts| && !acts[k].Callback? ==> acts[k].loop in L
  }

  ghost predicate WrittenAreDone(s: State) {
    forall p <- s.writer.seen :: p !in s.writer.pending
  }

  /** With one loop, nobody can write a peer between its HasPeer and its RegisterENR. */
  ghost predicate SingleInv(s: State, t: nat) {
    && WrittenAreDone(s)
    && (forall u <- s.loops :: u == t)
    && (t in s.loops && s.loops[t].Looked? ==> !Knows(s.writer, s.loops[t].id))
  }

  lemma {:induction false} SingleLoop(acts: seq<Action>, t: nat)
    requires OnlyLoops(acts, {t})
    ensures SingleInv(Run(INIT, acts), t)
  {
    if acts != [] {
      SingleLoop(acts[..|acts| - 1], t);
    }
  }

  lemma NoLoops(acts: seq<Action>, L: set<nat>, t: nat)
    requires OnlyLoops(acts, L) && L <= {t}
    ensures OnlyLoops(acts, {t})
  {}

  /** Two loops can both find a peer unknown; then it re-enters `pending` after it has been written. */
  lemma SeenCanBePendingAgain(t: nat, u: nat, id: PeerId, enr: Enr)
    requires t != u
    ensures var acts := [Look(t, id, enr), Look(u, id, enr), Register(t), Callback(id), Register(u)];
            OnlyLoops(acts, {t, u}) && !WrittenAreDone(Run(INIT, acts))
  {
    var a, b, c, d, e := Look(t, id, enr), Look(u, id, enr), Register(t), Callback(id), Register(u);
    assert [a, b, c, d, e][..4] == [a, b, c, d] && [a, b, c, d][..3] == [a, b, c];
    assert [a, b, c][..2] == [a, b] && [a, b][..1] == [a] && [a][..0] == [];
    assert Run(INIT, [a]) == Step(INIT, a);
    assert Run(INIT, [a, b]).loops == map[t := Looked(id, enr), u := Looked(id, enr)];
    assert Run(INIT, [a, b, c]).writer.pending == map[id := enr];
    assert Run(INIT, [a, b, c, d]).writer.seen == {id};
    assert id in Run(INIT, [a, b, c, d, e]).writer.pending;
  }

  /**
   * No written peer is pending, on any run of a set of discovery loops, if and only if there is at most one loop:
   * that is, unless a discv4 port is configured and the second loop is started.
   */
  lemma WrittenStayDoneExactly(L: set<nat>)
    ensures (forall acts :: OnlyLoops(acts, L) ==> WrittenAreDone(Run(INIT, acts))) <==> |L| <= 1
  {
    if |L| <= 1 {
      var t: nat := 0;
      if L != {} {
        t :| t in L;
        assert |L - {t}| == 0;
      }
      assert L <= {t};
      forall acts | OnlyLoops(acts, L) ensures WrittenAreDone(Run(INIT, acts)) {
        NoLoops(acts, L, t);
        SingleLoop(acts, t);
      }
    } else {
      var t :| t in L;
      assert |L - {t}| == |L| - 1;
      var u :| u in L - {t};
      SeenCanBePendingAgain(t, u, 0, "");
      var acts := [Look(t, 0, ""), Look(u, 0, ""), Register(t), Callback(0), Register(u)];
      assert OnlyLoops(acts, L);
    }
  }
}
