/** Values shared by every block store of the model: content keys, blocks,
    the error taxonomy, and one base layer (an ordinary blockstore such as an
    in-memory temporary store or a badger-backed on-disk store). */
module Blockstore {

  /** A content identifier. `Undef` is the zero value `cid.Undef`. */
  datatype Key = Undef | Cid(hash: nat)

  newtype byte = x: int | 0 <= x < 256

  type Bytes = seq<byte>

  /** An immutable block: its bytes and the key it is stored under. */
  datatype Block = Block(key: Key, data: Bytes)

  datatype Error =
    | NotFound                            // the sentinel blockstore.ErrNotFound
    | Unsupported(op: string)             // delete / full enumeration
    | StorageFailure(key: Key)            // a layer's storage engine failed on a key
    | ListFailure                         // a layer could not enumerate its keys
    | DecodeFailure(key: Key)             // bytes did not decode as a block header
    | NoParents                           // a header without parents (genesis)
    | NotEnoughArgs                       // a command was given too few arguments
    | Wrapped(context: string, cause: Error)  // xerrors.Errorf("...: %w", err)
    | Message(text: string)               // xerrors.Errorf without a wrapped cause
    | External(what: string)              // a failure inside an external collaborator

  datatype Option<T> = None | Some(value: T)

  /** Go's `(T, error)` return pair. */
  datatype Result<T> = Ok(value: T) | Err(error: Error)

  /** Go's bare `error` return. */
  datatype Outcome = Pass | Fail(error: Error)

  /** The size reported by GetSize for a Get result. */
  function SizeOf(g: Result<Bytes>): Result<nat> {
    match g
    case Ok(d) => Ok(|d|)
    case Err(e) => Err(e)
  }

  /** The answer Has gives where Get gives `g`. */
  function HasOf(g: Result<Bytes>): Result<bool> {
    match g
    case Ok(_) => Ok(true)
    case Err(e) => if e == NotFound then Ok(false) else Err(e)
  }

  /** The keys of the blocks of a batch. */
  function KeysOf(batch: seq<Block>): set<Key> {
    set i | 0 <= i < |batch| :: batch[i].key
  }

  lemma KeysOfAppend(batch: seq<Block>, b: Block)
    ensures KeysOf(batch + [b]) == KeysOf(batch) + {b.key}
  {
    var next := batch + [b];
    assert forall i :: 0 <= i < |batch| ==> next[i] == batch[i];
    assert next[|batch|] == b;
  }

  /** Stores the blocks of `batch` into `m`, later entries of the batch last. */
  function Insert(m: map<Key, Bytes>, batch: seq<Block>): map<Key, Bytes>
    decreases |batch|
  {
    if batch == [] then m
    else Insert(m, batch[..|batch| - 1])[batch[|batch| - 1].key := batch[|batch| - 1].data]
  }

  /** After Insert, every key of the batch is present with the bytes of its last occurrence. */
  lemma {:induction false} InsertStores(m: map<Key, Bytes>, batch: seq<Block>)
    ensures Insert(m, batch).Keys == m.Keys + KeysOf(batch)
    ensures forall i :: 0 <= i < |batch| && (forall j :: i < j < |batch| ==> batch[j].key != batch[i].key)
                    ==> Insert(m, batch)[batch[i].key] == batch[i].data
    decreases |batch|
  {
    InsertKeys(m, batch);
    if batch != [] {
      var front := batch[..|batch| - 1];
      var last := batch[|batch| - 1];
      InsertStores(m, front);
      forall i | 0 <= i < |batch| && (forall j :: i < j < |batch| ==> batch[j].key != batch[i].key)
        ensures Insert(m, batch)[batch[i].key] == batch[i].data
      {
        if i < |front| {
          assert front[i] == batch[i];
          assert batch[i].key != last.key;
          assert forall j :: i < j < |front| ==> front[j] == batch[j];
        }
      }
    }
  }

  /** The keys Insert adds are those of the batch. */
  lemma {:induction false} InsertKeys(m: map<Key, Bytes>, batch: seq<Block>)
    ensures Insert(m, batch).Keys == m.Keys + KeysOf(batch)
    decreases |batch|
  {
    if batch != [] {
      var front := batch[..|batch| - 1];
      InsertKeys(m, front);
      assert batch == front + [batch[|batch| - 1]];
      KeysOfAppend(front, batch[|batch| - 1]);
    }
  }

  /** The key of the first block of `batch` that lies in `broken`, if any. */
  function FirstBroken(batch: seq<Block>, broken: set<Key>): (r: Option<Key>)
    ensures r.None? <==> KeysOf(batch) !! broken
    ensures r.Some? ==> r.value in KeysOf(batch) && r.value in broken
    decreases |batch|
  {
    if batch == [] then None
    else if batch[0].key in broken then Some(batch[0].key)
    else
      var r := FirstBroken(batch[1..], broken);
      assert forall i :: 1 <= i < |batch| ==> batch[1..][i - 1] == batch[i];
      r
  }

  /** One underlying blockstore. Keys in `broken` make every operation that
      touches them fail (an I/O error of the storage engine); `listBroken`
      makes key enumeration fail. `hashOnRead` records the last value passed
      to HashOnRead. */
  datatype Layer = Layer(blocks: map<Key, Bytes>, broken: set<Key>, listBroken: bool, hashOnRead: bool)
  {
    function Has(k: Key): Result<bool> {
      if k in broken then Err(StorageFailure(k)) else Ok(k in blocks)
    }

    function Get(k: Key): Result<Bytes> {
      if k in broken then Err(StorageFailure(k))
      else if k in blocks then Ok(blocks[k])
      else Err(NotFound)
    }

    function GetSize(k: Key): Result<nat> {
      if k in broken then Err(StorageFailure(k))
      else if k in blocks then Ok(|blocks[k]|)
      else Err(NotFound)
    }

    /** Writes a batch: fails without writing anything when a key of the
        batch is broken. */
    function PutMany(batch: seq<Block>): Result<Layer> {
      match FirstBroken(batch, broken)
      case Some(k) => Err(StorageFailure(k))
      case None => Ok(this.(blocks := Insert(blocks, batch)))
    }

    function AllKeys(): Result<set<Key>> {
      if listBroken then Err(ListFailure) else Ok(blocks.Keys)
    }
  }

  const EmptyLayer := Layer(map[], {}, false, false)

  /** Within one layer, Has, Get and GetSize agree. */
  lemma LayerQueriesAgree(l: Layer, k: Key)
    ensures l.Has(k) == Ok(true) <==> l.Get(k).Ok?
    ensures l.Has(k) == Ok(false) <==> l.Get(k) == Err(NotFound)
    ensures l.GetSize(k) == SizeOf(l.Get(k))
  {
  }

  /** A successful PutMany stores every block of the batch and keeps the rest. */
  lemma PutManyStores(l: Layer, batch: seq<Block>)
    requires l.PutMany(batch).Ok?
    ensures var l' := l.PutMany(batch).value;
      && l'.broken == l.broken && l'.listBroken == l.listBroken && l'.hashOnRead == l.hashOnRead
      && l'.blocks.Keys == l.blocks.Keys + KeysOf(batch)
      && forall i :: 0 <= i < |batch| ==> l'.Get(batch[i].key).Ok?
  {
    InsertStores(l.blocks, batch);
  }

  // ---------------------------------------------------------------------
  // Reference semantics of a stack of layers consulted in order.

  /** The layered answer to Has: the first layer that fails or answers true
      decides; if every layer answers false, so does the stack. */
  function FirstHas(ls: seq<Layer>, k: Key): Result<bool>
    decreases |ls|
  {
    if ls == [] then Ok(false)
    else
      var h := ls[0].Has(k);
      if h == Ok(false) then FirstHas(ls[1..], k) else h
  }

  /** Every layer before index `i` answers Has with false. */
  ghost predicate AbsentBefore(ls: seq<Layer>, k: Key, i: int)
    requires i <= |ls|
  {
    forall j :: 0 <= j < i ==> ls[j].Has(k) == Ok(false)
  }

  /** Has through a stack answers as the first layer that fails or answers
      true, and answers false only when every layer does. */
  lemma {:induction false} FirstHasDecides(ls: seq<Layer>, k: Key)
    ensures FirstHas(ls, k) != Ok(false) ==>
      exists i :: 0 <= i < |ls| && ls[i].Has(k) == FirstHas(ls, k) && AbsentBefore(ls, k, i)
    ensures FirstHas(ls, k) == Ok(false) <==> AbsentBefore(ls, k, |ls|)
    decreases |ls|
  {
    if ls != [] {
      var rest := FirstHas(ls[1..], k);
      FirstHasDecides(ls[1..], k);
      assert forall i :: 1 <= i < |ls| ==> ls[1..][i - 1] == ls[i];
      if ls[0].Has(k) != Ok(false) {
        assert AbsentBefore(ls, k, 0);
      } else {
        if rest != Ok(false) {
          var i :| 0 <= i < |ls[1..]| && ls[1..][i].Has(k) == rest && AbsentBefore(ls[1..], k, i);
          assert ls[i + 1].Has(k) == rest;
          assert AbsentBefore(ls, k, i + 1);
        }
        assert AbsentBefore(ls[1..], k, |ls| - 1) <==> AbsentBefore(ls, k, |ls|);
      }
    }
  }

  /** No layer before index `i` holds or fails on `k`. */
  ghost predicate MissingBefore(ls: seq<Layer>, k: Key, i: int)
    requires i <= |ls|
  {
    forall j :: 0 <= j < i ==> ls[j].Get(k) == Err(NotFound)
  }

  /** The layered answer to Get: the first layer that does not report
      NotFound decides (its block or its error). */
  function FirstGet(ls: seq<Layer>, k: Key): Result<Bytes>
    decreases |ls|
  {
    if ls == [] then Err(NotFound)
    else
      var g := ls[0].Get(k);
      if g.Ok? || g.error != NotFound then g else FirstGet(ls[1..], k)
  }

  /** Get through a stack answers as the first layer that holds or fails
      on the key, and reports NotFound only when every layer does. */
  lemma {:induction false} FirstGetDecides(ls: seq<Layer>, k: Key)
    ensures FirstGet(ls, k).Ok? ==> exists i :: 0 <= i < |ls| && ls[i].Get(k) == FirstGet(ls, k) && MissingBefore(ls, k, i)
    ensures FirstGet(ls, k).Err? && FirstGet(ls, k).error != NotFound ==>
      exists i :: 0 <= i < |ls| && ls[i].Get(k) == FirstGet(ls, k) && MissingBefore(ls, k, i)
    ensures FirstGet(ls, k) == Err(NotFound) <==> MissingBefore(ls, k, |ls|)
    decreases |ls|
  {
    if ls != [] {
      var r := FirstGet(ls, k);
      var rest := FirstGet(ls[1..], k);
      FirstGetDecides(ls[1..], k);
      assert forall i :: 1 <= i < |ls| ==> ls[1..][i - 1] == ls[i];
      var g := ls[0].Get(k);
      if g.Ok? || g.error != NotFound {
        assert MissingBefore(ls, k, 0);
      } else {
        if rest != Err(NotFound) {
          var i :| 0 <= i < |ls[1..]| && ls[1..][i].Get(k) == rest && MissingBefore(ls[1..], k, i);
          assert ls[i + 1].Get(k) == rest;
          assert MissingBefore(ls, k, i + 1);
        }
        assert MissingBefore(ls[1..], k, |ls| - 1) <==> MissingBefore(ls, k, |ls|);
      }
    }
  }

  /** The layered answer to GetSize, with the same precedence as FirstGet. */
  function FirstGetSize(ls: seq<Layer>, k: Key): Result<nat>
    decreases |ls|
  {
    if ls == [] then Err(NotFound)
    else
      var s := ls[0].GetSize(k);
      if s.Ok? || s.error != NotFound then s else FirstGetSize(ls[1..], k)
  }

  /** GetSize through a stack of layers is the length of Get through it. */
  lemma {:induction false} FirstGetSizeIsSizeOfGet(ls: seq<Layer>, k: Key)
    ensures FirstGetSize(ls, k) == SizeOf(FirstGet(ls, k))
    decreases |ls|
  {
    if ls != [] {
      FirstGetSizeIsSizeOfGet(ls[1..], k);
    }
  }

  /** Has through a stack is decided by Get through it: true for a block,
      false for NotFound, and Get's error otherwise. */
  lemma {:induction false} FirstHasIsHasOfGet(ls: seq<Layer>, k: Key)
    ensures FirstHas(ls, k) == HasOf(FirstGet(ls, k))
    decreases |ls|
  {
    if ls != [] {
      FirstHasIsHasOfGet(ls[1..], k);
    }
  }

  /** Stacks whose Get answers agree on `k` also agree on Has and GetSize. */
  lemma SameGetSameQueries(a: seq<Layer>, b: seq<Layer>, k: Key)
    requires FirstGet(a, k) == FirstGet(b, k)
    ensures FirstHas(a, k) == FirstHas(b, k) && FirstGetSize(a, k) == FirstGetSize(b, k)
  {
    FirstHasIsHasOfGet(a, k);
    FirstHasIsHasOfGet(b, k);
    FirstGetSizeIsSizeOfGet(a, k);
    FirstGetSizeIsSizeOfGet(b, k);
  }

  /** Has through a stack answers true exactly when Get through it finds a block. */
  lemma {:induction false} FirstHasAgreesWithGet(ls: seq<Layer>, k: Key)
    ensures FirstHas(ls, k) == Ok(true) <==> FirstGet(ls, k).Ok?
    ensures FirstHas(ls, k) == Ok(false) <==> FirstGet(ls, k) == Err(NotFound)
    decreases |ls|
  {
    if ls != [] {
      LayerQueriesAgree(ls[0], k);
      FirstHasAgreesWithGet(ls[1..], k);
    }
  }
}
