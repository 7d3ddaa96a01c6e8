/** A store that keeps nothing: writes and deletes succeed and are
    forgotten, reads never find anything. It has no state. */
module Throwaway {
  import opened Blockstore

  datatype ThrowawayBlockstore = ThrowawayBlockstore
  {
    /** Deleting succeeds, unlike on the buffered and redirect stores. */
    function DeleteBlock(k: Key): (r: Outcome)
      ensures r.Pass?
    {
      Pass
    }

    /** Answers as a store holding no block. */
    function Has(k: Key): (r: Result<bool>)
      ensures r == EmptyLayer.Has(k) && r == FirstHas([], k)
    {
      Ok(false)
    }

    function Get(k: Key): (r: Result<Bytes>)
      ensures r == EmptyLayer.Get(k) && r == FirstGet([], k)
    {
      Err(NotFound)
    }

    function GetSize(k: Key): (r: Result<nat>)
      ensures r == SizeOf(Get(k)) && r == EmptyLayer.GetSize(k)
    {
      Err(NotFound)
    }

    /** Writing succeeds and stores nothing. */
    function Put(b: Block): (r: Outcome)
      ensures r.Pass?
    {
      Pass
    }

    function PutMany(batch: seq<Block>): (r: Outcome)
      ensures r.Pass?
    {
      Pass
    }

    function AllKeysChan(): (r: Result<set<Key>>)
      ensures r.Err? && r.error.Unsupported?
    {
      Err(Unsupported("throwaway block store doesn't support operation"))
    }

    /** The flag has nowhere to go: the store is unchanged. */
    function HashOnRead(enabled: bool): (r: ThrowawayBlockstore)
      ensures r == this
    {
      this
    }
  }

  /** Unlike an empty base layer, which then holds the written blocks, the
      throwaway store still reports every key of a successful write as
      absent. */
  lemma WritesAreForgotten(t: ThrowawayBlockstore, batch: seq<Block>, i: nat)
    requires i < |batch|
    ensures t.PutMany(batch).Pass? && t.Has(batch[i].key) == Ok(false) && t.Get(batch[i].key) == Err(NotFound)
    ensures EmptyLayer.PutMany(batch).Ok? && EmptyLayer.PutMany(batch).value.Get(batch[i].key).Ok?
  {
    PutManyStores(EmptyLayer, batch);
  }
}
