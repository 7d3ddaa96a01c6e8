/** The part of a Filecoin state tree the tools look at: a finite map from
    actor addresses to actors. */
module Actors {
  import opened Blockstore

  /** An actor address: an ID address, or one of the key-based protocols
      (secp256k1, actor, BLS) with its payload. */
  datatype Address = IdAddr(id: nat) | OtherAddr(protocol: nat, payload: Bytes)

  /** An actor: its code (the builtin actor kind and version), the head of
      its state, its nonce and its balance in attoFIL. */
  datatype Actor = Actor(code: string, head: Key, callSeqNum: nat, balance: int)

  /** A state tree: the actor stored at each address. */
  type Tree = map<Address, Actor>

  /** The code of the storage miner actor in actors version 0 and 2. */
  const MinerCodeV0: string := "fil/1/storageminer"
  const MinerCodeV2: string := "fil/2/storageminer"

  /** The singleton builtin actors, at their reserved ID addresses. */
  const SystemActorAddr := IdAddr(0)
  const InitActorAddr := IdAddr(1)
  const RewardActorAddr := IdAddr(2)
  const CronActorAddr := IdAddr(3)
  const StoragePowerActorAddr := IdAddr(4)
  const StorageMarketActorAddr := IdAddr(5)
  const VerifiedRegistryActorAddr := IdAddr(6)
  const BurntFundsActorAddr := IdAddr(99)

  const Singletons: set<Address> := {
    VerifiedRegistryActorAddr, StorageMarketActorAddr, StoragePowerActorAddr, RewardActorAddr,
    SystemActorAddr, CronActorAddr, InitActorAddr, BurntFundsActorAddr
  }

  /** The eight singletons are distinct addresses. */
  lemma SingletonCount()
    ensures |Singletons| == 8
  {
    var s := {SystemActorAddr, InitActorAddr, RewardActorAddr, CronActorAddr};
    assert |s| == 4;
    var t := {StoragePowerActorAddr, StorageMarketActorAddr, VerifiedRegistryActorAddr, BurntFundsActorAddr};
    assert |t| == 4;
    assert Singletons == s + t && s !! t;
  }
}
