/** Filtering a state tree down to the singleton actors and a list of
    extra addresses; the rule is the same for actors version 0 and 2. */
module FilterTree {
  import opened Blockstore
  import opened Actors

  /** The addresses to keep: the optional ones and the eight singletons.
      Repeated optional addresses are harmless. */
  method KeepSet(optional: seq<Address>) returns (keep: set<Address>)
    ensures keep == (set i | 0 <= i < |optional| :: optional[i]) + Singletons
  {
    keep := {};
    for n := 0 to |optional|
      invariant keep == set i | 0 <= i < n :: optional[i]
    {
      keep := keep + {optional[n]};
    }
    keep := keep + {VerifiedRegistryActorAddr};
    keep := keep + {StorageMarketActorAddr};
    keep := keep + {StoragePowerActorAddr};
    keep := keep + {RewardActorAddr};
    keep := keep + {SystemActorAddr};
    keep := keep + {CronActorAddr};
    keep := keep + {InitActorAddr};
    keep := keep + {BurntFundsActorAddr};
  }

  /** The part of `tree` whose addresses lie in `keep`. */
  function Filtered(tree: Tree, keep: set<Address>): (r: Tree)
    ensures forall a :: a in r <==> a in tree && a in keep
    ensures forall a :: a in r ==> r[a] == tree[a]
  {
    map a | a in tree && a in keep :: tree[a]
  }

  /** The failure any SetActor on the output tree reports. */
  const SetActorFailure := External("set actor")

  /** Builds the filtered tree. `input` is the outcome of loading the input
      tree, `setup` that of creating the empty output tree and loading it,
      and `broken` the addresses whose SetActor fails. The input is visited
      in an order the model leaves open; the first failing SetActor aborts
      the filter and nothing is returned but the error. */
  method Filter(input: Result<Tree>, setup: Outcome, optional: seq<Address>, broken: set<Address>)
    returns (r: Result<Tree>)
    ensures input.Err? ==> r == Err(input.error)
    ensures input.Ok? && setup.Fail? ==> r == Err(setup.error)
    ensures input.Ok? && setup.Pass? ==>
      var keep := (set i | 0 <= i < |optional| :: optional[i]) + Singletons;
      && (r.Ok? <==> forall a :: a in input.value && a in keep ==> a !in broken)
      && (r.Ok? ==> r.value == Filtered(input.value, keep))
      && (r.Err? ==> r.error == SetActorFailure)
  {
    var keep := KeepSet(optional);
    if input.Err? {
      return Err(input.error);
    }
    if setup.Fail? {
      return Err(setup.error);
    }
    var tree := input.value;
    var out: Tree := map[];
    var todo := tree.Keys;
    while todo != {}
      invariant todo <= tree.Keys
      invariant out == Filtered(tree, keep - todo)
      invariant forall a :: a in tree && a in keep && a !in todo ==> a !in broken
      decreases |todo|
    {
      var a :| a in todo;
      if a in keep {
        if a in broken {
          return Err(SetActorFailure);
        }
        out := out[a := tree[a]];
      }
      todo := todo - {a};
    }
    assert keep - todo == keep;
    r := Ok(out);
  }

  /** Filtering keeps an actor exactly when the input holds it and its
      address is a singleton or one of the optional addresses, and keeps
      it unchanged. */
  lemma FilterKeepsExactly(tree: Tree, optional: seq<Address>, a: Address)
    ensures var out := Filtered(tree, (set i | 0 <= i < |optional| :: optional[i]) + Singletons);
      && (a in out <==> a in tree && (a in Singletons || exists i :: 0 <= i < |optional| && optional[i] == a))
      && (a in out ==> out[a] == tree[a])
  {
  }

  /** Filtering is idempotent, and the singletons of the input always
      survive. */
  lemma FilterIdempotent(tree: Tree, keep: set<Address>)
    ensures Filtered(Filtered(tree, keep), keep) == Filtered(tree, keep)
    ensures Singletons <= keep ==> forall a :: a in tree && a in Singletons ==> a in Filtered(tree, keep)
  {
  }
}
