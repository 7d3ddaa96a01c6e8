/** The balance information of every storage miner of an actors-version-0
    state tree. */
module Balances {
  import opened Blockstore
  import opened Actors

  /** The fields of a version-0 miner state the tool reads. */
  datatype MinerState = MinerState(lockedFunds: int, initialPledgeRequirement: int, preCommitDeposits: int)

  datatype BalanceInfo = BalanceInfo(balance: int, lockedFunds: int, initialPledge: int, preCommitDeposits: int)

  /** Loading the miner state stored under an actor's head. */
  type StateLoader = Key -> Result<MinerState>

  /** The entry for a miner actor with the given state. */
  function InfoOf(a: Actor, st: MinerState): (r: BalanceInfo)
    ensures r.balance == a.balance && r.lockedFunds == st.lockedFunds
    ensures r.initialPledge == st.initialPledgeRequirement && r.preCommitDeposits == st.preCommitDeposits
  {
    BalanceInfo(a.balance, st.lockedFunds, st.initialPledgeRequirement, st.preCommitDeposits)
  }

  predicate IsMiner(a: Actor) {
    a.code == MinerCodeV0
  }

  /** The entry an address of `tree` rightly gets, if any. */
  ghost predicate Correct(tree: Tree, load: StateLoader, m: map<Address, BalanceInfo>) {
    forall a :: a in m ==>
      a in tree && IsMiner(tree[a]) && load(tree[a].head).Ok? && m[a] == InfoOf(tree[a], load(tree[a].head).value)
  }

  /** Fills the map entry by entry in an order the model leaves open. A tree
      that cannot be loaded gives no map; a miner whose state cannot be
      loaded stops the traversal, and the entries made so far are returned
      with its error. */
  method V0TreeMinerBalances(input: Result<Tree>, load: StateLoader)
    returns (balances: Option<map<Address, BalanceInfo>>, err: Outcome)
    ensures input.Err? ==> balances == None && err == Fail(input.error)
    ensures input.Ok? ==> balances.Some? && Correct(input.value, load, balances.value)
    ensures input.Ok? ==>
      (err.Pass? <==> forall a :: a in input.value && IsMiner(input.value[a]) ==> load(input.value[a].head).Ok?)
    ensures input.Ok? && err.Pass? ==>
      forall a :: a in balances.value <==> a in input.value && IsMiner(input.value[a])
    ensures input.Ok? && err.Fail? ==>
      exists a :: a in input.value && IsMiner(input.value[a]) && load(input.value[a].head) == Err(err.error)
  {
    if input.Err? {
      return None, Fail(input.error);
    }
    var tree := input.value;
    var m: map<Address, BalanceInfo> := map[];
    var todo := tree.Keys;
    while todo != {}
      invariant todo <= tree.Keys
      invariant Correct(tree, load, m)
      invariant forall a :: a in tree && a !in todo && IsMiner(tree[a]) ==> a in m
      invariant forall a :: a in m ==> a !in todo
      decreases |todo|
    {
      var a :| a in todo;
      var actor := tree[a];
      if IsMiner(actor) {
        var st := load(actor.head);
        if st.Err? {
          return Some(m), Fail(st.error);
        }
        m := m[a := InfoOf(actor, st.value)];
      }
      todo := todo - {a};
    }
    balances, err := Some(m), Pass;
  }
}
