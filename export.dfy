/** The sector records the sector export emits for a miner: one per sector
    of each partition whose on-chain info can be found, with a status
    derived from the partition's sector sets. */
module Export {
  import opened Blockstore
  import opened Actors

  datatype SectorStatus = Active | Unproven | Faulty | Recovering | Terminated
  {
    /** The status as the record spells it. */
    function Name(): string {
      match this
      case Active => "active"
      case Unproven => "unproven"
      case Faulty => "faulty"
      case Recovering => "recovering"
      case Terminated => "terminated"
    }
  }

  /** The fields of a sector's on-chain info that identify it. */
  datatype SectorOnChainInfo = SectorOnChainInfo(sectorNumber: nat, sealedCid: Key, activation: int, expiration: int)

  datatype SectorInfo = SectorInfo(sector: SectorOnChainInfo, status: SectorStatus)

  /** A partition: its sectors in bitfield order and its four status sets. */
  datatype Partition = Partition(sectors: seq<nat>, unproven: set<nat>, faults: set<nat>,
                                 recoveries: set<nat>, terminated: set<nat>)

  /** The status of sector `sno`: unproven before faulty before recovering
      before terminated; active when in none of the four sets. */
  function Status(p: Partition, sno: nat): (r: SectorStatus)
    ensures r == Unproven <==> sno in p.unproven
    ensures r == Faulty <==> sno !in p.unproven && sno in p.faults
    ensures r == Recovering <==> sno !in p.unproven && sno !in p.faults && sno in p.recoveries
    ensures r == Terminated <==> sno !in p.unproven && sno !in p.faults && sno !in p.recoveries && sno in p.terminated
    ensures r == Active <==> sno !in p.unproven && sno !in p.faults && sno !in p.recoveries && sno !in p.terminated
  {
    if sno in p.unproven then Unproven
    else if sno in p.faults then Faulty
    else if sno in p.recoveries then Recovering
    else if sno in p.terminated then Terminated
    else Active
  }

  /** The records of the sectors `sectors`, in order; a sector whose info
      is not in `infos` (its lookup fails) is skipped. */
  function Records(p: Partition, sectors: seq<nat>, infos: map<nat, SectorOnChainInfo>): (r: seq<SectorInfo>)
    ensures |r| <= |sectors|
    ensures forall x :: x in r ==>
      exists sno :: sno in sectors && sno in infos && x == SectorInfo(infos[sno], Status(p, sno))
    decreases |sectors|
  {
    if sectors == [] then []
    else
      var rest := Records(p, sectors[1..], infos);
      var sno := sectors[0];
      assert forall s :: s in sectors[1..] ==> s in sectors;
      if sno in infos then [SectorInfo(infos[sno], Status(p, sno))] + rest else rest
  }

  /** The records of one partition. */
  function PartitionRecords(p: Partition, infos: map<nat, SectorOnChainInfo>): seq<SectorInfo> {
    Records(p, p.sectors, infos)
  }

  /** The number of `sectors` whose info lookup succeeds. */
  function Found(sectors: seq<nat>, infos: map<nat, SectorOnChainInfo>): nat
    decreases |sectors|
  {
    if sectors == [] then 0 else (if sectors[0] in infos then 1 else 0) + Found(sectors[1..], infos)
  }

  /** Exactly one record per sector whose info lookup succeeds: failed
      lookups are skipped without stopping the traversal. */
  lemma {:induction false} OneRecordPerFoundSector(p: Partition, sectors: seq<nat>, infos: map<nat, SectorOnChainInfo>)
    ensures |Records(p, sectors, infos)| == Found(sectors, infos)
    ensures (forall j :: 0 <= j < |sectors| ==> sectors[j] in infos) ==> |Records(p, sectors, infos)| == |sectors|
    decreases |sectors|
  {
    if sectors != [] {
      OneRecordPerFoundSector(p, sectors[1..], infos);
      assert forall j :: 1 <= j < |sectors| ==> sectors[1..][j - 1] == sectors[j];
    }
  }

  /** The records an actor contributes, from its deadlines' partitions in
      order: none unless it is a (version 2) storage miner. */
  function ActorRecords(a: Actor, partitions: seq<Partition>, infos: map<nat, SectorOnChainInfo>): (r: seq<SectorInfo>)
    ensures a.code != MinerCodeV2 ==> r == []
    decreases |partitions|
  {
    if a.code != MinerCodeV2 || partitions == [] then []
    else PartitionRecords(partitions[0], infos) + ActorRecords(a, partitions[1..], infos)
  }

  /** A miner's records are its partitions' records, one partition after
      another. */
  lemma {:induction false} MinerRecordsConcatenate(a: Actor, ps: seq<Partition>, qs: seq<Partition>, infos: map<nat, SectorOnChainInfo>)
    requires a.code == MinerCodeV2
    ensures ActorRecords(a, ps + qs, infos) == ActorRecords(a, ps, infos) + ActorRecords(a, qs, infos)
    decreases |ps|
  {
    if ps == [] {
      assert ps + qs == qs;
    } else {
      assert (ps + qs)[0] == ps[0] && (ps + qs)[1..] == ps[1..] + qs;
      MinerRecordsConcatenate(a, ps[1..], qs, infos);
    }
  }
}
