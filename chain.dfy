/** Chain access: block headers read through the buffered store, the lazily
    built shared store, and the iterator that walks from a tip towards
    genesis along first-parent links. */
module ChainLib {
  import opened Blockstore
  import opened Buffered

  /** The fields of a block header the walk uses. */
  datatype Header = Header(height: nat, parents: seq<Key>, parentStateRoot: Key)

  /** Header decoding, a partial function from bytes to headers. */
  type Decoder = Bytes -> Option<Header>

  /** One value of the walk: a state root and the height it belongs to. */
  datatype IterVal = IterVal(height: nat, state: Key)

  /** The zero value of IterVal. */
  const ZeroVal := IterVal(0, Undef)

  // ---------------------------------------------------------------------
  // Header reads over the layer stack of a buffered store.

  /** Reads and decodes the header stored under `k`. */
  function Fetch(ls: seq<Layer>, decode: Decoder, k: Key): (r: Result<Header>)
    ensures FirstGet(ls, k).Err? ==> r == Err(FirstGet(ls, k).error)
    ensures FirstGet(ls, k).Ok? && decode(FirstGet(ls, k).value).None? ==> r == Err(DecodeFailure(k))
    ensures r.Ok? ==> FirstGet(ls, k).Ok? && decode(FirstGet(ls, k).value) == Some(r.value)
  {
    match FirstGet(ls, k)
    case Err(e) => Err(e)
    case Ok(raw) =>
      match decode(raw)
      case None => Err(DecodeFailure(k))
      case Some(h) => Ok(h)
  }

  /** The parent of a header: only its first parent link is followed, and a
      header without parents (genesis) has none. */
  function GetParent(ls: seq<Layer>, decode: Decoder, blk: Header): (r: Result<Header>)
    ensures blk.parents == [] ==> r == Err(NoParents)
    ensures blk.parents != [] ==> r == Fetch(ls, decode, blk.parents[0])
  {
    if |blk.parents| == 0 then Err(NoParents) else Fetch(ls, decode, blk.parents[0])
  }

  /** Headers with the same first parent have the same parent, whatever
      their other links and fields. */
  lemma ParentIsFirstLinkOnly(ls: seq<Layer>, decode: Decoder, a: Header, b: Header)
    requires a.parents != [] && b.parents != [] && a.parents[0] == b.parents[0]
    ensures GetParent(ls, decode, a) == GetParent(ls, decode, b)
  {
  }

  /** The parent of a header read through a live store. */
  function GetParentFrom(bs: BufferedBlockstore, decode: Decoder, blk: Header): (r: Result<Header>)
    reads bs
    ensures r == GetParent(bs.Layers(), decode, blk)
  {
    if |blk.parents| == 0 then Err(NoParents)
    else
      match bs.Get(blk.parents[0])
      case Err(e) => Err(e)
      case Ok(raw) =>
        match decode(raw)
        case None => Err(DecodeFailure(blk.parents[0]))
        case Some(h) => Ok(h)
  }

  /** A header's parent, when it resolves, is lower. */
  ghost predicate Descends(ls: seq<Layer>, decode: Decoder, h: Header) {
    GetParent(ls, decode, h).Ok? ==> GetParent(ls, decode, h).value.height < h.height
  }

  /** Every stored header descends: heights strictly decrease along
      first-parent links, as on a well-formed chain. */
  ghost predicate ParentsDescend(ls: seq<Layer>, decode: Decoder) {
    forall k :: StoredDescends(ls, decode, k)
  }

  /** The header stored under `k`, if any, descends. */
  ghost predicate StoredDescends(ls: seq<Layer>, decode: Decoder, k: Key) {
    Fetch(ls, decode, k).Ok? ==> Descends(ls, decode, Fetch(ls, decode, k).value)
  }

  /** A resolved parent is itself a stored header, so it descends too. */
  lemma ParentDescends(ls: seq<Layer>, decode: Decoder, h: Header)
    requires ParentsDescend(ls, decode) && GetParent(ls, decode, h).Ok?
    ensures Descends(ls, decode, GetParent(ls, decode, h).value)
  {
    assert StoredDescends(ls, decode, h.parents[0]);
  }

  // ---------------------------------------------------------------------
  // What a walk observes.

  /** The values and the final outcome of a run of the iterator. */
  datatype Run = Run(vals: seq<IterVal>, end: Outcome)

  /** The values a `while !Done() { Val(); Step() }` loop observes from an
      iterator at (`blk`, `parent`), and how it ends: normally once the
      parent is at height 0, or with the error of the first failed step. */
  function Walk(ls: seq<Layer>, decode: Decoder, blk: Header, parent: Header): (r: Run)
    requires ParentsDescend(ls, decode) && Descends(ls, decode, parent)
    ensures r.vals == [] <==> parent.height == 0
    ensures r.vals != [] ==> r.vals[0] == IterVal(parent.height, blk.parentStateRoot)
    ensures |r.vals| <= parent.height
    decreases parent.height
  {
    if parent.height == 0 then Run([], Pass)
    else
      var v := IterVal(parent.height, blk.parentStateRoot);
      match GetParent(ls, decode, parent)
      case Err(e) => Run([v], Fail(e))
      case Ok(p) =>
        ParentDescends(ls, decode, parent);
        var rest := Walk(ls, decode, parent, p);
        Run([v] + rest.vals, rest.end)
  }

  /** Heights in 1..`top`, strictly decreasing. */
  ghost predicate Descending(vals: seq<IterVal>, top: nat) {
    && (forall i :: 0 <= i < |vals| ==> 0 < vals[i].height <= top)
    && (forall i, j :: 0 <= i < j < |vals| ==> vals[j].height < vals[i].height)
  }

  /** A value at `h` in front of values below `h`. */
  lemma DescendingPrepend(v: IterVal, rest: seq<IterVal>, h: nat)
    requires v.height == h > 0 && Descending(rest, h - 1)
    ensures Descending([v] + rest, h)
  {
    var all := [v] + rest;
    assert forall i :: 1 <= i < |all| ==> all[i] == rest[i - 1];
  }

  /** On a well-formed chain a walk goes from its starting parent down
      towards genesis: every height lies in 1..`parent.height` and the
      heights strictly decrease. */
  lemma {:induction false} WalkDescends(ls: seq<Layer>, decode: Decoder, blk: Header, parent: Header)
    requires ParentsDescend(ls, decode) && Descends(ls, decode, parent)
    ensures Descending(Walk(ls, decode, blk, parent).vals, parent.height)
    decreases parent.height
  {
    if parent.height != 0 {
      var v := IterVal(parent.height, blk.parentStateRoot);
      match GetParent(ls, decode, parent)
      case Err(e) =>
        DescendingPrepend(v, [], parent.height);
      case Ok(p) =>
        ParentDescends(ls, decode, parent);
        WalkDescends(ls, decode, parent, p);
        DescendingPrepend(v, Walk(ls, decode, parent, p).vals, parent.height);
    }
  }

  /** The values the roots command collects: as Walk, but at most `num` of
      them; a step is still taken after the last value collected. */
  function Roots(ls: seq<Layer>, decode: Decoder, blk: Header, parent: Header, num: nat): (r: Run)
    ensures |r.vals| <= num
    decreases num
  {
    if num == 0 || parent.height == 0 then Run([], Pass)
    else
      var v := IterVal(parent.height, blk.parentStateRoot);
      match GetParent(ls, decode, parent)
      case Err(e) => Run([v], Fail(e))
      case Ok(p) =>
        var rest := Roots(ls, decode, parent, p, num - 1);
        Run([v] + rest.vals, rest.end)
  }

  /** Collecting `num` roots is a prefix of the full walk: the first `num`
      values and success when the walk is longer, the whole walk otherwise. */
  lemma {:induction false} RootsArePrefixOfWalk(ls: seq<Layer>, decode: Decoder, blk: Header, parent: Header, num: nat)
    requires ParentsDescend(ls, decode) && Descends(ls, decode, parent)
    ensures var w := Walk(ls, decode, blk, parent);
      Roots(ls, decode, blk, parent, num) == if num < |w.vals| then Run(w.vals[..num], Pass) else w
    decreases num
  {
    if num != 0 && parent.height != 0 {
      match GetParent(ls, decode, parent)
      case Err(e) =>
      case Ok(p) =>
        ParentDescends(ls, decode, parent);
        RootsArePrefixOfWalk(ls, decode, parent, p, num - 1);
        var w := Walk(ls, decode, parent, p);
        var v := IterVal(parent.height, blk.parentStateRoot);
        if num - 1 < |w.vals| {
          assert ([v] + w.vals)[..num] == [v] + w.vals[..num - 1];
        }
    }
  }

  /** On a well-formed chain the roots come out from the tip downwards:
      heights strictly decrease and the genesis state (height 0) is never
      among them. */
  lemma RootsDescend(ls: seq<Layer>, decode: Decoder, blk: Header, parent: Header, num: nat)
    requires ParentsDescend(ls, decode) && Descends(ls, decode, parent)
    ensures Descending(Roots(ls, decode, blk, parent, num).vals, parent.height)
  {
    RootsArePrefixOfWalk(ls, decode, blk, parent, num);
    WalkDescends(ls, decode, blk, parent);
  }

  /** The header under the tip and its parent, from which a walk starts. */
  function Start(ls: seq<Layer>, decode: Decoder, tip: Key): (r: Result<(Header, Header)>)
    ensures Fetch(ls, decode, tip).Err? ==> r == Err(Fetch(ls, decode, tip).error)
    ensures Fetch(ls, decode, tip).Ok? ==>
      var blk := Fetch(ls, decode, tip).value;
      && (GetParent(ls, decode, blk).Err? ==> r == Err(GetParent(ls, decode, blk).error))
      && (GetParent(ls, decode, blk).Ok? ==> r == Ok((blk, GetParent(ls, decode, blk).value)))
  {
    match Fetch(ls, decode, tip)
    case Err(e) => Err(e)
    case Ok(blk) =>
      match GetParent(ls, decode, blk)
      case Err(e) => Err(e)
      case Ok(p) => Ok((blk, p))
  }

  /** A tip without parents (genesis itself) cannot start a walk. */
  lemma GenesisTipFails(ls: seq<Layer>, decode: Decoder, tip: Key)
    requires Fetch(ls, decode, tip).Ok? && Fetch(ls, decode, tip).value.parents == []
    ensures Start(ls, decode, tip) == Err(NoParents)
  {
  }

  /** The parent a walk starts from is a stored header, so it descends. */
  lemma StartDescends(ls: seq<Layer>, decode: Decoder, tip: Key)
    requires ParentsDescend(ls, decode) && Start(ls, decode, tip).Ok?
    ensures Descends(ls, decode, Start(ls, decode, tip).value.1)
  {
    ParentDescends(ls, decode, Start(ls, decode, tip).value.0);
  }

  // ---------------------------------------------------------------------
  // The live objects.

  /** Moves from a tip towards genesis, yielding parent state roots.
      `currParent` is None after a failed step. */
  class ChainStateIterator {
    const bs: BufferedBlockstore
    const decode: Decoder
    var currBlock: Header
    var currParent: Option<Header>

    constructor (bs: BufferedBlockstore, decode: Decoder, currBlock: Header, currParent: Header)
      ensures this.bs == bs && this.decode == decode
      ensures this.currBlock == currBlock && this.currParent == Some(currParent)
    {
      this.bs := bs;
      this.decode := decode;
      this.currBlock := currBlock;
      this.currParent := Some(currParent);
    }

    /** The current parent is the current block's parent in the store. */
    ghost predicate Linked()
      reads this, bs
    {
      currParent.Some? && GetParent(bs.Layers(), decode, currBlock) == Ok(currParent.value)
    }

    /** True exactly when the current parent is at height 0. */
    function Done(): (r: bool)
      reads this
      requires currParent.Some?
      ensures r <==> currParent.value.height == 0
    {
      currParent.value.height == 0
    }

    /** The parent state root of the current block, paired with the height
        of the current parent. */
    function Val(): (r: IterVal)
      reads this
      requires currParent.Some?
      ensures r.height == currParent.value.height && r.state == currBlock.parentStateRoot
    {
      IterVal(currParent.value.height, currBlock.parentStateRoot)
    }

    /** One step towards genesis; nothing happens once Done. A failed step
        returns the error, clears the parent and leaves the block as it was. */
    method Step() returns (r: Outcome)
      requires currParent.Some?
      modifies this
      ensures old(currParent.value.height) == 0 ==>
        r == Pass && currBlock == old(currBlock) && currParent == old(currParent)
      ensures old(currParent.value.height) != 0 ==>
        var g := GetParent(bs.Layers(), decode, old(currParent.value));
        && (g.Ok? ==> r == Pass && currBlock == old(currParent.value) && currParent == Some(g.value))
        && (g.Err? ==> r == Fail(g.error) && currBlock == old(currBlock) && currParent == None)
      ensures r.Pass? && old(currParent.value.height) != 0 ==> Linked()
    {
      if Done() {
        return Pass;
      }
      var parent := currParent.value;
      var g := GetParentFrom(bs, decode, parent);
      if g.Err? {
        currParent := None;
        return Fail(g.error);
      }
      currParent := Some(g.value);
      currBlock := parent;
      r := Pass;
    }
  }

  /** Lazily opens the shared buffered store and keeps it for later use. */
  class Chain {
    var cachedBs: BufferedBlockstore?

    constructor ()
      ensures cachedBs == null
    {
      cachedBs := null;
    }

    /** Returns the cached store if there is one; otherwise builds one from
        `open` (the outcome of opening the on-disk datastores) and caches
        it, or caches nothing when that fails. */
    method LoadBufferedBstore(open: Result<Opened>) returns (r: Result<BufferedBlockstore>)
      modifies this
      ensures old(cachedBs) != null ==> r.Ok? && r.value == old(cachedBs) && cachedBs == old(cachedBs)
      ensures old(cachedBs) == null && open.Err? ==> r == Err(open.error) && cachedBs == null
      ensures old(cachedBs) == null && open.Ok? ==>
        && r.Ok? && cachedBs == r.value && fresh(r.value)
        && r.value.Layers() == [EmptyLayer, open.value.read, open.value.write]
    {
      if cachedBs != null {
        return Ok(cachedBs);
      }
      var built := NewBufferedBlockstore("~/.lotus/datastore/chain", "~/.ent/datastore/chain", open);
      if built.Ok? {
        cachedBs := built.value;
      } else {
        cachedBs := null;
      }
      r := built;
    }

    /** The store behind the IPLD store that state trees are read and
        written through. */
    method LoadCborStore(open: Result<Opened>) returns (r: Result<BufferedBlockstore>)
      modifies this
      ensures old(cachedBs) != null ==> r.Ok? && r.value == old(cachedBs) && cachedBs == old(cachedBs)
      ensures old(cachedBs) == null && open.Err? ==> r == Err(open.error) && cachedBs == null
      ensures old(cachedBs) == null && open.Ok? ==>
        && r.Ok? && cachedBs == r.value && fresh(r.value)
        && r.value.Layers() == [EmptyLayer, open.value.read, open.value.write]
    {
      r := LoadBufferedBstore(open);
    }

    /** Preloads the DAG under `root` into the buffer of the shared store;
        `reachable` is the set of keys the DAG copy visits. */
    method LoadToReadOnlyBuffer(root: Key, reachable: set<Key>, open: Result<Opened>) returns (r: Outcome)
      requires root in reachable
      modifies this, cachedBs
      ensures old(cachedBs) == null && open.Err? ==> r == Fail(open.error) && cachedBs == null
      ensures old(cachedBs) == null && open.Ok? ==>
        && cachedBs != null && fresh(cachedBs)
        && cachedBs.read == open.value.read && cachedBs.write == open.value.write
        && (r.Pass? <==> Copyable(open.value.read, reachable))
        && cachedBs.buffer == if r.Pass? then Preloaded(EmptyLayer, open.value.read, reachable) else EmptyLayer
      ensures old(cachedBs) != null ==>
        && cachedBs == old(cachedBs)
        && cachedBs.read == old(cachedBs.read) && cachedBs.write == old(cachedBs.write)
        && (r.Pass? <==> Copyable(cachedBs.read, reachable))
        && cachedBs.buffer == if r.Pass? then Preloaded(old(cachedBs.buffer), cachedBs.read, reachable) else old(cachedBs.buffer)
    {
      var bs := LoadBufferedBstore(open);
      if bs.Err? {
        return Fail(bs.error);
      }
      r := bs.value.LoadToBuffer(root, reachable);
    }

    /** Flushes the buffer of the shared store into its write layer. On
        success the write layer gains the whole buffer; on failure it keeps
        what the flush wrote before the error: whole batches of buffered keys
        that both layers could handle. The ghost `flushed` and `sizes` are
        FlushFromBuffer's, and so is the error. */
    method FlushBufferedState(root: Key, open: Result<Opened>) returns (r: Outcome, ghost flushed: set<Key>, ghost sizes: seq<nat>)
      modifies this, cachedBs
      ensures old(cachedBs) != null ==> cachedBs == old(cachedBs)
      ensures old(cachedBs) == null && open.Err? ==> r == Fail(open.error) && cachedBs == null
      ensures old(cachedBs) != null ==>
        && cachedBs.buffer == old(cachedBs.buffer) && cachedBs.read == old(cachedBs.read)
        && cachedBs.write.broken == old(cachedBs.write.broken)
        && flushed <= cachedBs.buffer.blocks.Keys
        && cachedBs.write.blocks == old(cachedBs.write.blocks) + Restrict(cachedBs.buffer.blocks, flushed)
        && (r.Pass? ==> flushed == cachedBs.buffer.blocks.Keys && sizes == Batches(|cachedBs.buffer.blocks|))
      ensures old(cachedBs) != null && r.Fail? ==>
        && flushed !! cachedBs.buffer.broken && flushed !! cachedBs.write.broken
        && sizes == FullBatches(|sizes|) && |flushed| == |sizes| * FullBatch
        && (cachedBs.buffer.listBroken || ReadFailed(cachedBs.buffer, r) || WriteFailed(cachedBs.buffer, cachedBs.write.broken, r))
      ensures old(cachedBs) == null && open.Ok? ==>
        && r == Pass && cachedBs != null && fresh(cachedBs)
        && cachedBs.Layers() == [EmptyLayer, open.value.read, open.value.write]
    {
      var bs := LoadBufferedBstore(open);
      if bs.Err? {
        return Fail(bs.error), {}, [];
      }
      r, flushed, sizes := bs.value.FlushFromBuffer(root);
      if old(cachedBs) == null {
        assert Restrict(EmptyLayer.blocks, flushed) == map[];
        assert bs.value.write.blocks == open.value.write.blocks;
      }
    }

    /** Opens an iterator at the header stored under `tip`: fails if the
        store cannot be opened, if the tip is missing or undecodable, or if
        its parent cannot be resolved (the tip is genesis). */
    method NewChainStateIterator(tip: Key, open: Result<Opened>, decode: Decoder) returns (r: Result<ChainStateIterator>)
      modifies this
      ensures old(cachedBs) != null ==> cachedBs == old(cachedBs)
      ensures old(cachedBs) == null && open.Err? ==> r == Err(open.error) && cachedBs == null
      ensures old(cachedBs) == null && open.Ok? ==>
        cachedBs != null && fresh(cachedBs) && cachedBs.Layers() == [EmptyLayer, open.value.read, open.value.write]
      ensures cachedBs != null ==>
        var s := Start(cachedBs.Layers(), decode, tip);
        && (s.Err? ==> r == Err(s.error))
        && (s.Ok? ==> r.Ok? && fresh(r.value) && r.value.bs == cachedBs && r.value.decode == decode
                      && r.value.currBlock == s.value.0 && r.value.currParent == Some(s.value.1)
                      && r.value.Linked())
    {
      var loaded := LoadBufferedBstore(open);
      if loaded.Err? {
        return Err(loaded.error);
      }
      var bs := loaded.value;
      var raw := bs.Get(tip);
      if raw.Err? {
        return Err(raw.error);
      }
      var blk := decode(raw.value);
      if blk.None? {
        return Err(DecodeFailure(tip));
      }
      var parent := GetParentFrom(bs, decode, blk.value);
      if parent.Err? {
        return Err(parent.error);
      }
      var it := new ChainStateIterator(bs, decode, blk.value, parent.value);
      r := Ok(it);
    }
  }
}
