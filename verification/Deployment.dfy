/** main.go: the configured instances become the instances of the shared peer set. */
module Deployment {
  import opened Types
  import opened Configs
  import SharedPeerSets

  /** The first place at or after `from` whose instance has this name, or the number of instances. */
  function FirstPlace(c: Config, name: string, from: nat): (k: nat)
    requires from <= |c.instances|
    ensures from <= k <= |c.instances| && (k < |c.instances| ==> c.instances[k].name == name)
    ensures forall j :: from <= j < k ==> c.instances[j].name != name
    decreases |c.instances| - from
  {
    if from == |c.instances| || c.instances[from].name == name then from else FirstPlace(c, name, from + 1)
  }

  /** The numbers that stand for the names: each name is numbered by the first instance that has it. */
  function InstanceIds(c: Config): (ids: seq<Name>)
    ensures |ids| == |c.instances|
  {
    seq(|c.instances|, i requires 0 <= i < |c.instances| => FirstPlace(c, c.instances[i].name, 0))
  }

  /** Numbers are equal exactly where the names are, so nothing the peer set does can tell the two apart. */
  lemma IdsAreNames(c: Config, i: nat, j: nat)
    requires i < |c.instances| && j < |c.instances|
    ensures InstanceIds(c)[i] == InstanceIds(c)[j] <==> c.instances[i].name == c.instances[j].name
  {
    assert FirstPlace(c, c.instances[i].name, 0) <= i && FirstPlace(c, c.instances[j].name, 0) <= j;
  }

  lemma DistinctIds(c: Config)
    ensures Distinct(InstanceIds(c)) <==>
            forall i, j :: 0 <= i < j < |c.instances| ==> c.instances[i].name != c.instances[j].name
  {
    var ids := InstanceIds(c);
    forall i, j | 0 <= i < j < |c.instances|
      ensures ids[i] == ids[j] <==> c.instances[i].name == c.instances[j].name
    {
      IdsAreNames(c, i, j);
    }
  }

  /** A configuration that Validate accepts gives a peer set that is fair in every run short of the wrap. */
  lemma AcceptedIsFair(c: Config, ops: seq<SharedPeerSets.Op>)
    requires Acceptable(c) && |SharedPeerSets.Exec(InstanceIds(c), ops).placed| < UINT64
    ensures SharedPeerSets.Fair(InstanceIds(c), SharedPeerSets.Exec(InstanceIds(c), ops))
  {
    DistinctIds(c);
    SharedPeerSets.Fairness(InstanceIds(c), ops);
  }

  /** The duplicate check is what fairness takes: without it some run is unfair. */
  lemma FairIffNamesDiffer(c: Config)
    requires 0 < |c.instances| < UINT64
    ensures var ids := InstanceIds(c);
            (forall ops :: |SharedPeerSets.Exec(ids, ops).placed| < UINT64 ==>
                             SharedPeerSets.Fair(ids, SharedPeerSets.Exec(ids, ops)))
            <==> forall i, j :: 0 <= i < j < |c.instances| ==> c.instances[i].name != c.instances[j].name
  {
    DistinctIds(c);
    SharedPeerSets.FairExactly(InstanceIds(c));
  }
}
