/** A two-layer store: reads consult the read-write layer first and then
    the read-only layer; every write goes to the read-write layer. */
module Redirect {
  import opened Blockstore

  class RedirectBlockstore {
    var readWrite: Layer
    var readStore: Layer

    constructor (readWrite: Layer, readStore: Layer)
      ensures this.readWrite == readWrite && this.readStore == readStore
    {
      this.readWrite := readWrite;
      this.readStore := readStore;
    }

    /** The layers in read precedence order. */
    function Layers(): seq<Layer>
      reads this
    {
      [readWrite, readStore]
    }

    function Has(k: Key): (r: Result<bool>)
      reads this
      ensures r == FirstHas(Layers(), k)
    {
      assert Layers()[1..] == [readStore] && [readStore][1..] == [];
      assert FirstHas([readStore], k) == readStore.Has(k);
      match readWrite.Has(k)
      case Err(e) => Err(e)
      case Ok(true) => Ok(true)
      case Ok(false) =>
        match readStore.Has(k)
        case Err(e) => Err(e)
        case Ok(h) => Ok(h)
    }

    function Get(k: Key): (r: Result<Bytes>)
      reads this
      ensures r == FirstGet(Layers(), k)
    {
      assert Layers()[1..] == [readStore] && [readStore][1..] == [];
      assert FirstGet([readStore], k) == readStore.Get(k);
      var b := readWrite.Get(k);
      if b.Ok? then b
      else if b.error != NotFound then Err(b.error)
      else readStore.Get(k)
    }

    function GetSize(k: Key): (r: Result<nat>)
      reads this
      ensures r == FirstGetSize(Layers(), k)
      ensures r == SizeOf(Get(k))
    {
      assert Layers()[1..] == [readStore] && [readStore][1..] == [];
      assert FirstGetSize([readStore], k) == readStore.GetSize(k);
      FirstGetSizeIsSizeOfGet(Layers(), k);
      var s := readWrite.GetSize(k);
      if s.Ok? then s
      else if s.error != NotFound then Err(s.error)
      else readStore.GetSize(k)
    }

    method Put(b: Block) returns (r: Outcome)
      modifies this
      ensures readStore == old(readStore)
      ensures old(readWrite).PutMany([b]).Ok? ==> r == Pass && readWrite == old(readWrite).PutMany([b]).value
      ensures old(readWrite).PutMany([b]).Err? ==> r == Fail(old(readWrite).PutMany([b]).error) && readWrite == old(readWrite)
      ensures r.Pass? ==> Get(b.key) == Ok(b.data)
    {
      r := PutMany([b]);
    }

    method PutMany(batch: seq<Block>) returns (r: Outcome)
      modifies this
      ensures readStore == old(readStore)
      ensures old(readWrite).PutMany(batch).Ok? ==> r == Pass && readWrite == old(readWrite).PutMany(batch).value
      ensures old(readWrite).PutMany(batch).Err? ==> r == Fail(old(readWrite).PutMany(batch).error) && readWrite == old(readWrite)
      ensures r.Pass? ==> forall i :: 0 <= i < |batch| && (forall j :: i < j < |batch| ==> batch[j].key != batch[i].key)
                                 ==> Get(batch[i].key) == Ok(batch[i].data)
    {
      InsertStores(readWrite.blocks, batch);
      match readWrite.PutMany(batch)
      case Ok(l) =>
        readWrite := l;
        r := Pass;
      case Err(e) =>
        r := Fail(e);
    }

    function DeleteBlock(k: Key): (r: Outcome)
      ensures r.Fail? && r.error.Unsupported?
    {
      Fail(Unsupported("redirect block store can't delete blocks"))
    }

    function AllKeysChan(): (r: Result<set<Key>>)
      ensures r.Err? && r.error.Unsupported?
    {
      Err(Unsupported("redirect block store doesn't support operation"))
    }

    method HashOnRead(enabled: bool)
      modifies this
      ensures readWrite == old(readWrite).(hashOnRead := enabled)
      ensures readStore == old(readStore).(hashOnRead := enabled)
    {
      readWrite := readWrite.(hashOnRead := enabled);
      readStore := readStore.(hashOnRead := enabled);
    }
  }

  /** Whatever the read-only layer holds, a key the read-write layer holds
      is answered from the read-write layer, and a key the read-write layer
      misses is answered exactly as the read-only layer answers it. */
  lemma RedirectPrecedence(readWrite: Layer, readStore: Layer, k: Key)
    ensures readWrite.Get(k).Ok? ==> FirstGet([readWrite, readStore], k) == readWrite.Get(k)
    ensures readWrite.Get(k) == Err(NotFound) ==> FirstGet([readWrite, readStore], k) == readStore.Get(k)
    ensures readWrite.Has(k) == Ok(false) ==> FirstHas([readWrite, readStore], k) == readStore.Has(k)
  {
    var ls := [readWrite, readStore];
    assert ls[1..] == [readStore] && [readStore][1..] == [];
    assert FirstGet([readStore], k) == readStore.Get(k);
    assert FirstHas([readStore], k) == readStore.Has(k);
  }
}
