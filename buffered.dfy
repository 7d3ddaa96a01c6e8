/** The three-layer store: writes go to an in-memory buffer, reads fall
    through buffer, then the read-only source, then the persistent output,
    and an explicit flush copies the whole buffer into the output. */
module Buffered {
  import opened Blockstore

  /** A batch is written once it holds more than this many blocks. */
  const BatchLimit: nat := 100

  /** The size of every batch of a flush but the last. */
  const FullBatch: nat := BatchLimit + 1

  function Sum(s: seq<nat>): nat
    decreases |s|
  {
    if s == [] then 0 else s[0] + Sum(s[1..])
  }

  /** The sizes of the PutMany batches a flush of `n` blocks issues: batches of
      FullBatch blocks while more than BatchLimit remain, then the rest. */
  function Batches(n: nat): seq<nat>
    decreases n
  {
    if n == 0 then []
    else if n <= BatchLimit then [n]
    else [FullBatch] + Batches(n - FullBatch)
  }

  /** The batches of a flush hold every block exactly once: their sizes add
      up to `n`, every batch is non-empty and at most FullBatch long, and
      every batch but the last holds exactly FullBatch blocks. */
  lemma {:induction false} BatchesPartition(n: nat)
    ensures Sum(Batches(n)) == n
    ensures forall i :: 0 <= i < |Batches(n)| ==> 1 <= Batches(n)[i] <= FullBatch
    ensures forall i :: 0 <= i < |Batches(n)| - 1 ==> Batches(n)[i] == FullBatch
    decreases n
  {
    if n > BatchLimit {
      var rest := Batches(n - FullBatch);
      BatchesPartition(n - FullBatch);
      assert Batches(n) == [FullBatch] + rest;
      assert Batches(n)[1..] == rest;
      assert forall i :: 1 <= i < |Batches(n)| ==> Batches(n)[i] == rest[i - 1];
    }
  }

  /** A flush of `n` blocks issues n / 101 full batches and one more exactly
      when n is not a multiple of 101. */
  lemma {:induction false} BatchCount(n: nat)
    ensures |Batches(n)| == n / FullBatch + (if n % FullBatch == 0 then 0 else 1)
    decreases n
  {
    if n > BatchLimit {
      BatchCount(n - FullBatch);
    }
  }

  /** The part of `m` whose keys lie in `s`. */
  function Restrict(m: map<Key, Bytes>, s: set<Key>): (r: map<Key, Bytes>)
    ensures r.Keys == m.Keys * s
    ensures forall k :: k in r ==> r[k] == m[k]
  {
    map k | k in m && k in s :: m[k]
  }

  /** The two on-disk stores once their datastores are open: the chain
      store to read from and the store to write to. */
  datatype Opened = Opened(read: Layer, write: Layer)

  /** Builds the store over an empty in-memory buffer. `open` is the outcome
      of expanding the two global datastore paths and opening them; the
      path arguments play no part in it. */
  method NewBufferedBlockstore(readPath: string, writePath: string, open: Result<Opened>)
    returns (r: Result<BufferedBlockstore>)
    ensures r.Ok? <==> open.Ok?
    ensures r.Err? ==> r.error == open.error
    ensures r.Ok? ==> fresh(r.value) && r.value.Layers() == [EmptyLayer, open.value.read, open.value.write]
  {
    match open
    case Err(e) => r := Err(e);
    case Ok(o) =>
      var bs := new BufferedBlockstore(EmptyLayer, o.read, o.write);
      r := Ok(bs);
  }

  /** Every key the DAG copy visits can be read from `read`. */
  ghost predicate Copyable(read: Layer, reachable: set<Key>) {
    forall k :: k in reachable ==> read.Get(k).Ok?
  }

  /** The buffer once the blocks of `reachable` have been copied into it
      from `read`. */
  function Preloaded(buffer: Layer, read: Layer, reachable: set<Key>): (r: Layer)
    ensures r.broken == buffer.broken && r.listBroken == buffer.listBroken && r.hashOnRead == buffer.hashOnRead
    ensures r.blocks.Keys == buffer.blocks.Keys + (read.blocks.Keys * reachable)
    ensures forall k :: k in read.blocks && k in reachable ==> r.blocks[k] == read.blocks[k]
    ensures forall k :: k in buffer.blocks && !(k in read.blocks && k in reachable) ==> r.blocks[k] == buffer.blocks[k]
  {
    buffer.(blocks := buffer.blocks + Restrict(read.blocks, reachable))
  }

  class BufferedBlockstore {
    var buffer: Layer
    var read: Layer
    var write: Layer

    constructor (buffer: Layer, read: Layer, write: Layer)
      ensures this.buffer == buffer && this.read == read && this.write == write
    {
      this.buffer := buffer;
      this.read := read;
      this.write := write;
    }

    /** The layers in read precedence order. */
    function Layers(): seq<Layer>
      reads this
    {
      [buffer, read, write]
    }

    function Has(k: Key): (r: Result<bool>)
      reads this
      ensures r == FirstHas(Layers(), k)
    {
      assert Layers()[1..] == [read, write] && [read, write][1..] == [write] && [write][1..] == [];
      assert FirstHas([write], k) == write.Has(k);
      assert FirstHas([read, write], k) == if read.Has(k) == Ok(false) then write.Has(k) else read.Has(k);
      match buffer.Has(k)
      case Err(e) => Err(e)
      case Ok(true) => Ok(true)
      case Ok(false) =>
        match read.Has(k)
        case Err(e) => Err(e)
        case Ok(true) => Ok(true)
        case Ok(false) => write.Has(k)
    }

    function Get(k: Key): (r: Result<Bytes>)
      reads this
      ensures r == FirstGet(Layers(), k)
    {
      assert Layers()[1..] == [read, write] && [read, write][1..] == [write] && [write][1..] == [];
      assert FirstGet([write], k) == write.Get(k);
      assert FirstGet([read, write], k) == if read.Get(k) == Err(NotFound) then write.Get(k) else read.Get(k);
      var b := buffer.Get(k);
      if b.Ok? || b.error != NotFound then b
      else
        var s := read.Get(k);
        if s.Ok? || s.error != NotFound then s
        else write.Get(k)
    }

    function GetSize(k: Key): (r: Result<nat>)
      reads this
      ensures r == FirstGetSize(Layers(), k)
      ensures r == SizeOf(Get(k))
    {
      assert Layers()[1..] == [read, write] && [read, write][1..] == [write] && [write][1..] == [];
      assert FirstGetSize([write], k) == write.GetSize(k);
      FirstGetSizeIsSizeOfGet(Layers(), k);
      var b := buffer.GetSize(k);
      if b.Ok? || b.error != NotFound then b
      else
        var s := read.GetSize(k);
        if s.Ok? || s.error != NotFound then s
        else write.GetSize(k)
    }

    method Put(b: Block) returns (r: Outcome)
      modifies this
      ensures read == old(read) && write == old(write)
      ensures old(buffer).PutMany([b]).Ok? ==> r == Pass && buffer == old(buffer).PutMany([b]).value
      ensures old(buffer).PutMany([b]).Err? ==> r == Fail(old(buffer).PutMany([b]).error) && buffer == old(buffer)
      ensures r.Pass? ==> Get(b.key) == Ok(b.data)
    {
      r := PutMany([b]);
    }

    method PutMany(batch: seq<Block>) returns (r: Outcome)
      modifies this
      ensures read == old(read) && write == old(write)
      ensures old(buffer).PutMany(batch).Ok? ==> r == Pass && buffer == old(buffer).PutMany(batch).value
      ensures old(buffer).PutMany(batch).Err? ==> r == Fail(old(buffer).PutMany(batch).error) && buffer == old(buffer)
      ensures r.Pass? ==> forall i :: 0 <= i < |batch| && (forall j :: i < j < |batch| ==> batch[j].key != batch[i].key)
                                 ==> Get(batch[i].key) == Ok(batch[i].data)
    {
      InsertStores(buffer.blocks, batch);
      match buffer.PutMany(batch)
      case Ok(l) =>
        buffer := l;
        r := Pass;
      case Err(e) =>
        r := Fail(e);
    }

    function DeleteBlock(k: Key): (r: Outcome)
      ensures r.Fail? && r.error.Unsupported?
    {
      Fail(Unsupported("buffered block store can't delete blocks"))
    }

    function AllKeysChan(): (r: Result<set<Key>>)
      ensures r.Err? && r.error.Unsupported?
    {
      Err(Unsupported("redirect block store doesn't support operation"))
    }

    method HashOnRead(enabled: bool)
      modifies this
      ensures buffer == old(buffer).(hashOnRead := enabled)
      ensures read == old(read).(hashOnRead := enabled)
      ensures write == old(write).(hashOnRead := enabled)
    {
      buffer := buffer.(hashOnRead := enabled);
      read := read.(hashOnRead := enabled);
      write := write.(hashOnRead := enabled);
    }

    /** Copies the DAG under `root` from the read layer into the buffer.
        `reachable` is the set of keys the external DAG copy visits from
        `root` (link decoding is not modelled). */
    method LoadToBuffer(root: Key, reachable: set<Key>) returns (r: Outcome)
      requires root in reachable
      modifies this
      ensures read == old(read) && write == old(write)
      ensures r.Pass? <==> Copyable(read, reachable)
      ensures r.Pass? ==> buffer == Preloaded(old(buffer), read, reachable)
      ensures r.Fail? ==> buffer == old(buffer) && exists k :: k in reachable && read.Get(k) == Err(r.error)
    {
      if exists k :: k in reachable && read.Get(k).Err? {
        var k :| k in reachable && read.Get(k).Err?;
        r := Fail(read.Get(k).error);
      } else {
        buffer := Preloaded(buffer, read, reachable);
        r := Pass;
      }
    }

    /** Copies every buffered block into the write layer, whatever `anchor`
        is; see FlushLayers. */
    method FlushFromBuffer(anchor: Key) returns (r: Outcome, ghost flushed: set<Key>, ghost sizes: seq<nat>)
      modifies this
      ensures buffer == old(buffer) && read == old(read)
      ensures write.broken == old(write.broken) && write.listBroken == old(write.listBroken)
      ensures write.hashOnRead == old(write.hashOnRead)
      ensures flushed <= buffer.blocks.Keys
      ensures write.blocks == old(write.blocks) + Restrict(buffer.blocks, flushed)
      ensures buffer.listBroken ==> r == Fail(ListFailure) && flushed == {}
      ensures r.Pass? ==> flushed == buffer.blocks.Keys && sizes == Batches(|buffer.blocks|)
      ensures r.Pass? ==> forall k :: k in buffer.blocks ==> k !in buffer.broken && k !in write.broken
      ensures r.Fail? ==> buffer.listBroken || ReadFailed(buffer, r) || WriteFailed(buffer, write.broken, r)
      ensures r.Fail? ==> flushed !! write.broken && sizes == FullBatches(|sizes|) && |flushed| == |sizes| * FullBatch
      ensures r.Fail? ==> flushed !! buffer.broken
    {
      var w;
      r, w, flushed, sizes := FlushLayers(buffer, write);
      write := w;
    }
  }

  /** One `PutMany` of a flush into the write layer `w`, with its error wrapped. */
  method WriteBatch(w: Layer, batch: seq<Block>) returns (r: Outcome, w': Layer)
    ensures w'.broken == w.broken && w'.listBroken == w.listBroken && w'.hashOnRead == w.hashOnRead
    ensures r.Pass? ==> w'.blocks == Insert(w.blocks, batch) && KeysOf(batch) !! w.broken
    ensures r.Fail? ==> w' == w
    ensures r.Fail? ==> exists k :: k in KeysOf(batch) && k in w.broken && r == Fail(Wrapped("batch put in flush", StorageFailure(k)))
  {
    match w.PutMany(batch)
    case Err(e) =>
      r, w' := Fail(Wrapped("batch put in flush", e)), w;
    case Ok(l) =>
      r, w' := Pass, l;
  }

  /** The flush of the buffer layer `buf` into the write layer `w`: every
      buffered block is copied, in batches of FullBatch blocks and one
      final smaller batch. The ghost `flushed` is the set of keys whose batch
      was written and `sizes` lists the batch sizes issued. A failure stops
      the flush and leaves the batches already written in place. */
  method FlushLayers(buf: Layer, w: Layer) returns (r: Outcome, w': Layer, ghost flushed: set<Key>, ghost sizes: seq<nat>)
    ensures w'.broken == w.broken && w'.listBroken == w.listBroken && w'.hashOnRead == w.hashOnRead
    ensures flushed <= buf.blocks.Keys
    ensures w'.blocks == w.blocks + Restrict(buf.blocks, flushed)
    ensures buf.listBroken ==> r == Fail(ListFailure) && flushed == {}
    ensures r.Pass? ==> flushed == buf.blocks.Keys && sizes == Batches(|buf.blocks|) &&
                        forall k :: k in buf.blocks ==> k !in buf.broken && k !in w.broken
    ensures r.Fail? ==> buf.listBroken || ReadFailed(buf, r) || WriteFailed(buf, w.broken, r)
    ensures r.Fail? ==> flushed !! w.broken && sizes == FullBatches(|sizes|) && |flushed| == |sizes| * FullBatch
    ensures r.Fail? ==> flushed !! buf.broken
  {
    var all := buf.AllKeys();
    if all.Err? {
      assert Restrict(buf.blocks, {}) == map[] && w.blocks + map[] == w.blocks;
      assert FullBatches(0) == [];
      return Fail(all.error), w, {}, [];
    }
    var batch;
    ghost var copied, full;
    r, w', batch, copied, full := CopyFullBatches(buf, w);
    if r.Fail? {
      return r, w', copied, full;
    }
    r, w', flushed, sizes := WriteLastBatch(buf, w, w', batch, copied, full);
  }

  /** The end of a flush: writes the batch left over by the loop, if any. */
  method WriteLastBatch(buf: Layer, w0: Layer, w: Layer, batch: seq<Block>, ghost flushed: set<Key>, ghost sizes: seq<nat>)
      returns (r: Outcome, w': Layer, ghost flushed': set<Key>, ghost sizes': seq<nat>)
    requires w.broken == w0.broken && w.listBroken == w0.listBroken && w.hashOnRead == w0.hashOnRead
    requires w.blocks == w0.blocks + Restrict(buf.blocks, flushed) && flushed !! w0.broken
    requires flushed + KeysOf(batch) == buf.blocks.Keys && flushed !! buf.broken && FromBuffer(buf, batch)
    requires |batch| <= BatchLimit && Batches(|buf.blocks|) == sizes + LastBatch(|batch|)
    requires sizes == FullBatches(|sizes|) && |flushed| == |sizes| * FullBatch
    ensures w'.broken == w0.broken && w'.listBroken == w0.listBroken && w'.hashOnRead == w0.hashOnRead
    ensures flushed' <= buf.blocks.Keys
    ensures w'.blocks == w0.blocks + Restrict(buf.blocks, flushed')
    ensures r.Pass? ==> flushed' == buf.blocks.Keys && sizes' == Batches(|buf.blocks|) &&
                        forall k :: k in buf.blocks ==> k !in buf.broken && k !in w0.broken
    ensures r.Fail? ==> WriteFailed(buf, w0.broken, r)
    ensures r.Fail? ==> flushed' == flushed && sizes' == sizes && flushed !! w0.broken
  {
    if batch == [] {
      assert KeysOf([]) == {} && sizes + [] == sizes;
      return Pass, w, flushed, sizes;
    }
    r, w' := WriteBatch(w, batch);
    if r.Fail? {
      ghost var j :| j in KeysOf(batch) && j in w.broken && r == Fail(Wrapped("batch put in flush", StorageFailure(j)));
      assert j in buf.blocks;
      return r, w', flushed, sizes;
    }
    LastStep(buf, w0.blocks, w.blocks, w'.blocks, flushed, batch, sizes, |buf.blocks|);
    flushed', sizes' := flushed + KeysOf(batch), sizes + [|batch|];
    forall k | k in buf.blocks
      ensures k !in buf.broken && k !in w0.broken
    {
      assert k in flushed';
    }
  }

  /** The loop of a flush: takes every key of the buffer once and writes each
      batch that grows past BatchLimit blocks; returns the last, smaller
      batch unwritten. */
  method CopyFullBatches(buf: Layer, w: Layer)
      returns (r: Outcome, w': Layer, batch: seq<Block>, ghost flushed: set<Key>, ghost sizes: seq<nat>)
    ensures w'.broken == w.broken && w'.listBroken == w.listBroken && w'.hashOnRead == w.hashOnRead
    ensures flushed <= buf.blocks.Keys && flushed !! w.broken && flushed !! buf.broken
    ensures w'.blocks == w.blocks + Restrict(buf.blocks, flushed)
    ensures r.Pass? ==> flushed + KeysOf(batch) == buf.blocks.Keys && FromBuffer(buf, batch)
    ensures r.Pass? ==> |batch| <= BatchLimit && Batches(|buf.blocks|) == sizes + LastBatch(|batch|)
    ensures sizes == FullBatches(|sizes|) && |flushed| == |sizes| * FullBatch
    ensures r.Fail? ==> ReadFailed(buf, r) || WriteFailed(buf, w.broken, r)
  {
    flushed, sizes, w', r := {}, [], w, Pass;
    var todo := buf.blocks.Keys;
    ghost var n := |buf.blocks|;
    batch := [];
    PendingStart(buf, w.blocks);
    while todo != {}
      invariant w'.broken == w.broken && w'.listBroken == w.listBroken && w'.hashOnRead == w.hashOnRead
      invariant Pending(buf, w.blocks, w'.blocks, todo, flushed, batch, sizes, n, BatchLimit)
      invariant flushed !! w.broken && r == Pass
      decreases |todo|
    {
      r, w', todo, batch, flushed, sizes := CopyOne(buf, w, w', todo, batch, flushed, sizes, n);
      if r.Fail? {
        return;
      }
    }
    PendingDone(buf, w.blocks, w'.blocks, flushed, batch, sizes, n);
    PendingFacts(buf, w.blocks, w'.blocks, todo, flushed, batch, sizes, n, BatchLimit);
  }

  /** One turn of the flush loop: takes one key of `todo` into the batch and
      writes the batch once it holds more than BatchLimit blocks. */
  method CopyOne(buf: Layer, w: Layer, w': Layer, todo: set<Key>, batch: seq<Block>,
                 ghost flushed: set<Key>, ghost sizes: seq<nat>, ghost n: nat)
      returns (r: Outcome, w'': Layer, todo': set<Key>, batch': seq<Block>, ghost flushed': set<Key>, ghost sizes': seq<nat>)
    requires todo != {}
    requires w'.broken == w.broken && w'.listBroken == w.listBroken && w'.hashOnRead == w.hashOnRead
    requires Pending(buf, w.blocks, w'.blocks, todo, flushed, batch, sizes, n, BatchLimit)
    requires flushed !! w.broken
    ensures w''.broken == w.broken && w''.listBroken == w.listBroken && w''.hashOnRead == w.hashOnRead
    ensures flushed' !! w.broken
    ensures r.Pass? ==> |todo'| < |todo| && Pending(buf, w.blocks, w''.blocks, todo', flushed', batch', sizes', n, BatchLimit)
    ensures r.Fail? ==> flushed' <= buf.blocks.Keys && w''.blocks == w.blocks + Restrict(buf.blocks, flushed')
    ensures r.Fail? ==> flushed' == flushed && sizes' == sizes
    ensures r.Fail? ==> ReadFailed(buf, r) || WriteFailed(buf, w.broken, r)
  {
    var k :| k in todo;
    var blk := buf.Get(k);
    PendingFacts(buf, w.blocks, w'.blocks, todo, flushed, batch, sizes, n, BatchLimit);
    if blk.Err? {
      assert k in buf.blocks && k in buf.broken;
      return Fail(Message("buffer get in flush")), w', todo, batch, flushed, sizes;
    }
    AppendStep(buf, w.blocks, w'.blocks, todo, flushed, batch, sizes, n, k);
    r, w'', todo', batch', flushed', sizes' := Pass, w', todo - {k}, batch + [Block(k, blk.value)], flushed, sizes;
    if |batch'| > BatchLimit {
      r, w'' := WriteBatch(w', batch');
      if r.Fail? {
        PendingFacts(buf, w.blocks, w'.blocks, todo', flushed', batch', sizes', n, FullBatch);
        ghost var j :| j in KeysOf(batch') && j in w.broken && r == Fail(Wrapped("batch put in flush", StorageFailure(j)));
        assert j in buf.blocks;
        return;
      }
      WriteStep(buf, w.blocks, w'.blocks, w''.blocks, todo', flushed', batch', sizes', n);
      flushed', sizes', batch' := flushed' + KeysOf(batch'), sizes' + [FullBatch], [];
    }
  }

  /** The state of a flush between two keys: the keys still in `todo` have
      not been taken from the buffer `buf`; of the others, `flushed` are
      already in the write layer `w` (which started as `w0`) and the rest sit
      in `batch`; the batches written so far have the sizes `sizes`, so that
      the `n` buffered blocks end up written in the batches `Batches(n)`. */
  ghost predicate Pending(buf: Layer, w0: map<Key, Bytes>, w: map<Key, Bytes>, todo: set<Key>,
                          flushed: set<Key>, batch: seq<Block>, sizes: seq<nat>, n: nat, cap: nat)
  {
    && KeysTaken(buf, todo, flushed, batch)
    && BlocksCopied(buf, w0, w, flushed, batch)
    && BatchesCounted(todo, batch, sizes, n, cap)
    && WholeBatches(todo, flushed, batch, sizes)
  }

  /** A flush that fails in the buffer: some buffered key could not be read. */
  ghost predicate ReadFailed(buf: Layer, r: Outcome) {
    exists k :: k in buf.blocks && k in buf.broken && r == Fail(Message("buffer get in flush"))
  }

  /** A flush that fails in the write layer: a batch held a key that layer
      cannot store, and the error names it. */
  ghost predicate WriteFailed(buf: Layer, broken: set<Key>, r: Outcome) {
    exists k :: k in buf.blocks && k in broken && r == Fail(Wrapped("batch put in flush", StorageFailure(k)))
  }

  /** The keys taken so far are distinct and the written ones fill whole
      batches, so a failure leaves whole batches in the write layer. */
  ghost predicate WholeBatches(todo: set<Key>, flushed: set<Key>, batch: seq<Block>, sizes: seq<nat>) {
    && flushed !! todo && flushed !! KeysOf(batch) && KeysOf(batch) !! todo
    && |KeysOf(batch)| == |batch|
    && |flushed| == |sizes| * FullBatch
  }

  /** Every buffered key is still to do, flushed or in the batch. */
  ghost predicate KeysTaken(buf: Layer, todo: set<Key>, flushed: set<Key>, batch: seq<Block>) {
    todo + flushed + KeysOf(batch) == buf.blocks.Keys && flushed !! buf.broken
  }

  /** The batch holds blocks the buffer could read. */
  ghost predicate FromBuffer(buf: Layer, batch: seq<Block>) {
    forall i :: 0 <= i < |batch| ==>
      batch[i].key in buf.blocks && batch[i].key !in buf.broken && batch[i].data == buf.blocks[batch[i].key]
  }

  ghost predicate BlocksCopied(buf: Layer, w0: map<Key, Bytes>, w: map<Key, Bytes>, flushed: set<Key>, batch: seq<Block>) {
    w == w0 + Restrict(buf.blocks, flushed) && FromBuffer(buf, batch)
  }

  ghost predicate BatchesCounted(todo: set<Key>, batch: seq<Block>, sizes: seq<nat>, n: nat, cap: nat) {
    && |batch| <= cap
    && sizes == FullBatches(|sizes|)
    && n == |sizes| * FullBatch + |batch| + |todo|
  }

  /** `q` batches of FullBatch blocks. */
  function FullBatches(q: nat): (r: seq<nat>)
    ensures |r| == q && forall i :: 0 <= i < q ==> r[i] == FullBatch
  {
    seq(q, _ => FullBatch)
  }

  /** The last batch of a flush, of `rem` leftover blocks. */
  function LastBatch(rem: nat): seq<nat> {
    if rem == 0 then [] else [rem]
  }

  lemma FullBatchesSucc(q: nat)
    ensures FullBatches(q + 1) == FullBatches(q) + [FullBatch]
  {
  }

  /** `q` full batches followed by `rem` leftover blocks. */
  lemma {:induction false} BatchesClosedForm(q: nat, rem: nat)
    requires rem <= BatchLimit
    ensures Batches(q * FullBatch + rem) == FullBatches(q) + LastBatch(rem)
    decreases q
  {
    if q > 0 {
      BatchesClosedForm(q - 1, rem);
      assert q * FullBatch + rem - FullBatch == (q - 1) * FullBatch + rem;
      assert FullBatches(q) == [FullBatch] + FullBatches(q - 1);
    }
  }

  /** A flush starts with every buffered key still to do. */
  lemma PendingStart(buf: Layer, w0: map<Key, Bytes>)
    ensures Pending(buf, w0, w0, buf.blocks.Keys, {}, [], [], |buf.blocks|, BatchLimit)
  {
    assert KeysOf([]) == {};
    assert KeysTaken(buf, buf.blocks.Keys, {}, []);
    assert Restrict(buf.blocks, {}) == map[] && w0 + map[] == w0;
    assert BlocksCopied(buf, w0, w0, {}, []);
    assert |buf.blocks.Keys| == |buf.blocks|;
    assert FullBatches(0) == [];
    assert WholeBatches(buf.blocks.Keys, {}, [], []);
  }

  /** Once no key is left to do, the blocks still to write are those of the batch. */
  lemma PendingDone(buf: Layer, w0: map<Key, Bytes>, w: map<Key, Bytes>,
                    flushed: set<Key>, batch: seq<Block>, sizes: seq<nat>, n: nat)
    requires Pending(buf, w0, w, {}, flushed, batch, sizes, n, BatchLimit)
    ensures flushed <= buf.blocks.Keys && w == w0 + Restrict(buf.blocks, flushed)
    ensures flushed + KeysOf(batch) == buf.blocks.Keys && flushed !! buf.broken && FromBuffer(buf, batch)
    ensures |batch| <= BatchLimit && Batches(n) == sizes + LastBatch(|batch|)
    ensures sizes == FullBatches(|sizes|) && |flushed| == |sizes| * FullBatch
  {
    DoneCounted(batch, sizes, n);
  }

  lemma DoneCounted(batch: seq<Block>, sizes: seq<nat>, n: nat)
    requires BatchesCounted({}, batch, sizes, n, BatchLimit)
    ensures Batches(n) == sizes + LastBatch(|batch|)
  {
    BatchesClosedForm(|sizes|, |batch|);
  }

  /** What a pending flush state says about the keys. */
  lemma PendingFacts(buf: Layer, w0: map<Key, Bytes>, w: map<Key, Bytes>, todo: set<Key>,
                     flushed: set<Key>, batch: seq<Block>, sizes: seq<nat>, n: nat, cap: nat)
    requires Pending(buf, w0, w, todo, flushed, batch, sizes, n, cap)
    ensures flushed <= buf.blocks.Keys && KeysOf(batch) <= buf.blocks.Keys
    ensures todo == {} ==> flushed + KeysOf(batch) == buf.blocks.Keys
    ensures todo <= buf.blocks.Keys
    ensures KeysOf(batch) !! buf.broken
    ensures sizes == FullBatches(|sizes|) && |flushed| == |sizes| * FullBatch
  {
    forall k | k in KeysOf(batch)
      ensures k !in buf.broken
    {
      var i :| 0 <= i < |batch| && batch[i].key == k;
    }
  }

  /** Moving the key `k` from `todo` into the pending batch. */
  lemma AppendStep(buf: Layer, w0: map<Key, Bytes>, w: map<Key, Bytes>, todo: set<Key>,
                   flushed: set<Key>, batch: seq<Block>, sizes: seq<nat>, n: nat, k: Key)
    requires Pending(buf, w0, w, todo, flushed, batch, sizes, n, BatchLimit)
    requires k in todo && k !in buf.broken
    ensures Pending(buf, w0, w, todo - {k}, flushed, batch + [Block(k, buf.blocks[k])], sizes, n, FullBatch)
  {
    AppendTaken(buf, todo, flushed, batch, k);
    AppendFromBuffer(buf, batch, k);
    AppendCounted(todo, batch, sizes, n, Block(k, buf.blocks[k]), k);
    AppendWhole(todo, flushed, batch, sizes, Block(k, buf.blocks[k]));
  }

  lemma AppendWhole(todo: set<Key>, flushed: set<Key>, batch: seq<Block>, sizes: seq<nat>, b: Block)
    requires WholeBatches(todo, flushed, batch, sizes) && b.key in todo
    ensures WholeBatches(todo - {b.key}, flushed, batch + [b], sizes)
  {
    KeysOfAppend(batch, b);
  }

  lemma AppendTaken(buf: Layer, todo: set<Key>, flushed: set<Key>, batch: seq<Block>, k: Key)
    requires KeysTaken(buf, todo, flushed, batch)
    requires k in todo && k !in buf.broken
    ensures KeysTaken(buf, todo - {k}, flushed, batch + [Block(k, buf.blocks[k])])
  {
    KeysOfAppend(batch, Block(k, buf.blocks[k]));
  }

  lemma AppendFromBuffer(buf: Layer, batch: seq<Block>, k: Key)
    requires FromBuffer(buf, batch) && k in buf.blocks && k !in buf.broken
    ensures FromBuffer(buf, batch + [Block(k, buf.blocks[k])])
  {
  }

  lemma AppendCounted(todo: set<Key>, batch: seq<Block>, sizes: seq<nat>, n: nat, b: Block, k: Key)
    requires BatchesCounted(todo, batch, sizes, n, BatchLimit)
    requires k in todo
    ensures BatchesCounted(todo - {k}, batch + [b], sizes, n, FullBatch)
  {
    assert |todo - {k}| == |todo| - 1;
  }

  /** Writing a full pending batch into the write layer. */
  lemma WriteStep(buf: Layer, w0: map<Key, Bytes>, w: map<Key, Bytes>, w': map<Key, Bytes>, todo: set<Key>,
                  flushed: set<Key>, batch: seq<Block>, sizes: seq<nat>, n: nat)
    requires Pending(buf, w0, w, todo, flushed, batch, sizes, n, FullBatch)
    requires |batch| == FullBatch && w' == Insert(w, batch)
    ensures Pending(buf, w0, w', todo, flushed + KeysOf(batch), [], sizes + [FullBatch], n, BatchLimit)
  {
    PendingFacts(buf, w0, w, todo, flushed, batch, sizes, n, FullBatch);
    WriteTaken(buf, todo, flushed, batch);
    WriteCopied(buf, w0, w, w', flushed, batch);
    WriteCounted(todo, batch, sizes, n);
    WriteWhole(todo, flushed, batch, sizes);
  }

  lemma WriteWhole(todo: set<Key>, flushed: set<Key>, batch: seq<Block>, sizes: seq<nat>)
    requires WholeBatches(todo, flushed, batch, sizes) && |batch| == FullBatch
    ensures WholeBatches(todo, flushed + KeysOf(batch), [], sizes + [FullBatch])
  {
    assert KeysOf([]) == {};
    assert |flushed + KeysOf(batch)| == |flushed| + |KeysOf(batch)|;
    assert (|sizes| + 1) * FullBatch == |sizes| * FullBatch + FullBatch;
  }

  lemma WriteTaken(buf: Layer, todo: set<Key>, flushed: set<Key>, batch: seq<Block>)
    requires KeysTaken(buf, todo, flushed, batch) && KeysOf(batch) !! buf.broken
    ensures KeysTaken(buf, todo, flushed + KeysOf(batch), [])
  {
    assert KeysOf([]) == {};
  }

  lemma WriteCopied(buf: Layer, w0: map<Key, Bytes>, w: map<Key, Bytes>, w': map<Key, Bytes>,
                    flushed: set<Key>, batch: seq<Block>)
    requires BlocksCopied(buf, w0, w, flushed, batch) && w' == Insert(w, batch)
    ensures BlocksCopied(buf, w0, w', flushed + KeysOf(batch), [])
  {
    InsertFromBuffer(buf, w, batch);
    RestrictUnion(buf.blocks, w0, flushed, KeysOf(batch));
  }

  lemma WriteCounted(todo: set<Key>, batch: seq<Block>, sizes: seq<nat>, n: nat)
    requires BatchesCounted(todo, batch, sizes, n, FullBatch)
    requires |batch| == FullBatch
    ensures BatchesCounted(todo, [], sizes + [FullBatch], n, BatchLimit)
  {
    FullBatchesSucc(|sizes|);
    assert (|sizes| + 1) * FullBatch == |sizes| * FullBatch + FullBatch;
  }

  /** Writing the last pending batch completes the flush. */
  lemma LastStep(buf: Layer, w0: map<Key, Bytes>, w: map<Key, Bytes>, w': map<Key, Bytes>,
                 flushed: set<Key>, batch: seq<Block>, sizes: seq<nat>, n: nat)
    requires w == w0 + Restrict(buf.blocks, flushed) && FromBuffer(buf, batch)
    requires 0 < |batch| <= BatchLimit && Batches(n) == sizes + LastBatch(|batch|)
    requires w' == Insert(w, batch)
    ensures w' == w0 + Restrict(buf.blocks, flushed + KeysOf(batch))
    ensures Batches(n) == sizes + [|batch|]
    ensures KeysOf(batch) !! buf.broken
  {
    WriteCopied(buf, w0, w, w', flushed, batch);
    forall k | k in KeysOf(batch)
      ensures k !in buf.broken
    {
      var i :| 0 <= i < |batch| && batch[i].key == k;
    }
  }

  /** Inserting blocks taken from the buffer adds that part of the buffer. */
  lemma {:induction false} InsertFromBuffer(buf: Layer, w: map<Key, Bytes>, batch: seq<Block>)
    requires FromBuffer(buf, batch)
    ensures Insert(w, batch) == w + Restrict(buf.blocks, KeysOf(batch))
    decreases |batch|
  {
    if batch != [] {
      var front, last := batch[..|batch| - 1], batch[|batch| - 1];
      assert FromBuffer(buf, front);
      InsertFromBuffer(buf, w, front);
      assert batch == front + [last];
      KeysOfAppend(front, last);
      RestrictAdd(buf.blocks, KeysOf(front), last.key);
      MergeUpdate(w, Restrict(buf.blocks, KeysOf(front)), last.key, last.data);
    }
  }

  lemma MergeUpdate(w0: map<Key, Bytes>, r: map<Key, Bytes>, k: Key, v: Bytes)
    ensures (w0 + r)[k := v] == w0 + r[k := v]
  {
  }

  lemma RestrictAdd(buf: map<Key, Bytes>, done: set<Key>, k: Key)
    requires k in buf
    ensures Restrict(buf, done + {k}) == Restrict(buf, done)[k := buf[k]]
  {
  }

  lemma RestrictUnion(buf: map<Key, Bytes>, w0: map<Key, Bytes>, a: set<Key>, b: set<Key>)
    ensures w0 + Restrict(buf, a) + Restrict(buf, b) == w0 + Restrict(buf, a + b)
  {
  }

  /** A flush, complete or cut short, changes no read through the store
      (Get, Has or GetSize): every block it copies into the write layer is
      still answered by the buffer first. */
  lemma FlushKeepsReads(buf: Layer, read: Layer, w: Layer, w': Layer, flushed: set<Key>, k: Key)
    requires flushed <= buf.blocks.Keys && w'.broken == w.broken
    requires w'.blocks == w.blocks + Restrict(buf.blocks, flushed)
    ensures FirstGet([buf, read, w'], k) == FirstGet([buf, read, w], k)
    ensures FirstHas([buf, read, w'], k) == FirstHas([buf, read, w], k)
    ensures FirstGetSize([buf, read, w'], k) == FirstGetSize([buf, read, w], k)
  {
    FlushKeepsGet(buf, read, w, w', flushed, k);
    SameGetSameQueries([buf, read, w'], [buf, read, w], k);
  }

  lemma FlushKeepsGet(buf: Layer, read: Layer, w: Layer, w': Layer, flushed: set<Key>, k: Key)
    requires flushed <= buf.blocks.Keys && w'.broken == w.broken
    requires w'.blocks == w.blocks + Restrict(buf.blocks, flushed)
    ensures FirstGet([buf, read, w'], k) == FirstGet([buf, read, w], k)
  {
    assert [buf, read, w'][1..] == [read, w'] && [read, w'][1..] == [w'] && [w'][1..] == [];
    assert [buf, read, w][1..] == [read, w] && [read, w][1..] == [w] && [w][1..] == [];
    if k in flushed {
      assert buf.Get(k).Ok? || buf.Get(k).error != NotFound;
      assert FirstGet([buf, read, w'], k) == buf.Get(k) == FirstGet([buf, read, w], k);
    } else {
      assert w'.Get(k) == w.Get(k);
      assert FirstGet([w'], k) == w'.Get(k) && FirstGet([w], k) == w.Get(k);
    }
  }

  /** A block written through Put shadows whatever the read and write layers
      hold under the same key. */
  lemma PutShadowsLowerLayers(buffer: Layer, read: Layer, write: Layer, b: Block)
    requires buffer.PutMany([b]).Ok?
    ensures FirstGet([buffer.PutMany([b]).value, read, write], b.key) == Ok(b.data)
  {
    var ls := [buffer.PutMany([b]).value, read, write];
    assert ls[0].Get(b.key) == Ok(b.data);
  }
}
