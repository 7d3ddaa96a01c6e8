# ent: layered block stores and the chain walker

`ent` is a command-line tool for migrating Filecoin state trees. It reads a
Lotus chain store and walks the chain from a tip towards genesis. It can
migrate the state root of every (or every k-th) epoch, and it writes the
results to a separate on-disk store. This model covers the part of the tool
that can be stated as precise contracts:

- **Block stores** (`blockstore.dfy`, `buffered.dfy`, `redirect.dfy`,
  `throwaway.dfy`).
  - An underlying store is a `Layer`: a map from key to bytes. A set of
    broken keys stands for storage-engine failures, a flag for a failing key
    enumeration, and the last `HashOnRead` setting is recorded.
  - `FirstHas`, `FirstGet` and `FirstGetSize` are the reference semantics of
    a stack of layers read in order. The first layer that holds the key or
    fails on it decides, and `NotFound` (Go's sentinel
    `blockstore.ErrNotFound`) falls through.
  - The three-layer `BufferedBlockstore` (buffer, read, write) is a class
    whose read methods are proved equal to those reference functions. Its
    writes change only the buffer. Its flush copies the whole buffer in
    batches of 101 blocks, plus, when the block count is not a multiple of
    101, one final batch of the rest.
  - The two-layer `RedirectBlockstore` follows the same precedence. The
    `ThrowawayBlockstore` forgets everything.
- **Chain walking** (`chain.dfy`).
  - A header (height, parent links, parent state root) is read through the
    store and decoded by a `Decoder` parameter.
  - `GetParent` follows only the first parent link.
  - `ChainStateIterator` is a class with `currBlock`/`currParent` fields.
    `Done`, `Val` and `Step` follow the source, including the failed step
    that clears the parent.
  - `Chain` is the lazy cache of the shared buffered store.
  - `Walk` and `Roots` are the value-level specifications of the iterator
    loops. On a chain whose first-parent heights strictly decrease
    (`ParentsDescend`), the walk emits strictly decreasing heights within 1
    up to the parent's height, never the genesis state.
- **Command loops** (`commands.dfy`).
  - The roots command fills a preallocated array by index (`CollectRoots`,
    proved against `Roots`).
  - The migrate-chain command loops until `Done`, with migrate, flush and
    validate as parameters (`MigrateLoop`, proved against `Drive`). Skipping
    by height uses Go's truncating `%`.
  - The debt total of `info debts` is a loop proved against an
    order-independent sum.
  - The available-balance formula of `info balances`.
- **State-tree rules** (`actors.dfy`, `filter_tree.dfy`, `balances.dfy`,
  `export.dfy`).
  - A state tree is a finite map from address to actor.
  - The filter keeps the eight singleton actors plus a list of extra
    addresses.
  - The version-0 balance map has one entry per storage-miner actor.
  - The sector export assigns each sector a status and skips sectors whose
    info cannot be found.

A few behaviours of the source are modelled as written:

- `Chain.LoadToReadOnlyBuffer` calls a `LoadToReadOnlyBuffer` method that the
  buffered store does not define. The model forwards it to `LoadToBuffer`,
  the only method of that kind the store has.
- `NewBufferedBlockstore` ignores its two path arguments and opens the global
  paths instead. The model takes the paths and leaves them unused.
- A flush's buffer-read error (`buffer get in flush`) is built without
  wrapping its cause, so the model returns a plain message.
- The migrate-chain command discards the preload's error. It also flushes
  after every attempted migration, including a failed one.

## Model

| member | source | states |
|---|---|---|
| Blockstore.FirstBroken | lib/buffered_blockstore.go:135-137 | a batch write fails exactly when some key of the batch is broken, and names such a key |
| Blockstore.InsertStores | lib/buffered_blockstore.go:135 | after writing a batch, the layer holds every key of the batch with the bytes of its last occurrence, and no other new key |
| Blockstore.LayerQueriesAgree | lib/buffered_blockstore.go:57-97 | within one layer, Has is true iff Get finds a block, Has is false iff Get reports NotFound, and GetSize is the length of Get |
| Blockstore.PutManyStores | lib/buffered_blockstore.go:103-105 | a successful PutMany on a layer stores every key of the batch and keeps the failure flags |
| Blockstore.FirstHasDecides | lib/buffered_blockstore.go:57-69 | layered Has answers as the first layer that fails or says true, after layers that all said false; it answers false iff every layer does |
| Blockstore.FirstGetDecides | lib/buffered_blockstore.go:71-83 | layered Get returns the block or non-NotFound error of the first layer that does not report NotFound; it reports NotFound iff every layer does |
| Blockstore.FirstGetSizeIsSizeOfGet | lib/buffered_blockstore.go:85-97 | layered GetSize has exactly the precedence and errors of layered Get, with the block length in place of the block |
| Blockstore.FirstHasAgreesWithGet | lib/buffered_blockstore.go:57-83 | layered Has is true iff layered Get finds a block, and false iff it reports NotFound |
| Buffered.BatchesPartition | lib/buffered_blockstore.go:133-145 | the flush batches add up to the number of buffered blocks; each holds 1..101 blocks, and all but the last hold exactly 101 |
| Buffered.BatchCount | lib/buffered_blockstore.go:133-145 | a flush of N blocks issues N / 101 batches, plus one when N mod 101 is not 0 |
| Buffered.Restrict | lib/buffered_blockstore.go:122-147 | the part of a block map within a key set, with the same bytes (what a partial flush has copied) |
| Buffered.NewBufferedBlockstore | lib/buffered_blockstore.go:27-51 | fails with the datastore-opening error; otherwise a fresh store over an empty buffer and the opened read and write stores, whatever the path arguments |
| Buffered.Batches | lib/buffered_blockstore.go:133-145 | the sizes of the batches a flush of n blocks issues: full batches of 101 while more than 100 blocks remain, then the rest (properties in BatchesPartition and BatchCount) |
| Buffered.Preloaded | lib/buffered_blockstore.go:118-120 | after a DAG copy the buffer holds its old keys plus the copied keys of the read store; a copied key holds the read store's bytes, every other buffered key its old bytes; the flags are kept |
| Buffered.BufferedBlockstore.Has | lib/buffered_blockstore.go:57-69 | equals layered Has over buffer, read, write |
| Buffered.BufferedBlockstore.Get | lib/buffered_blockstore.go:71-83 | equals layered Get over buffer, read, write |
| Buffered.BufferedBlockstore.GetSize | lib/buffered_blockstore.go:85-97 | equals layered GetSize over buffer, read, write, and is the size of Get |
| Buffered.BufferedBlockstore.Put | lib/buffered_blockstore.go:99-101 | writes only the buffer (read and write unchanged), passes the buffer's error on, and afterwards Get returns the block |
| Buffered.BufferedBlockstore.PutMany | lib/buffered_blockstore.go:103-105 | writes only the buffer, passes its error on, and afterwards Get of each block's last occurrence returns that block |
| Buffered.BufferedBlockstore.DeleteBlock | lib/buffered_blockstore.go:53-55 | always fails with an unsupported-operation error and reads no state |
| Buffered.BufferedBlockstore.AllKeysChan | lib/buffered_blockstore.go:107-110 | always fails with an unsupported-operation error |
| Buffered.BufferedBlockstore.HashOnRead | lib/buffered_blockstore.go:112-116 | sets the flag on all three layers and changes nothing else |
| Buffered.BufferedBlockstore.LoadToBuffer | lib/buffered_blockstore.go:118-120 | succeeds iff every key the copy visits can be read from the read layer; on success the buffer is preloaded with those blocks; on failure the error is a read error of a visited key; read and write are unchanged |
| Buffered.BufferedBlockstore.FlushFromBuffer | lib/buffered_blockstore.go:122-147 | for any argument, the write layer gains exactly the flushed buffer blocks; on success every buffered block is flushed in the batches Batches(N); a failure is the enumeration error, the unwrapped `buffer get in flush` message for a broken buffer key, or `batch put in flush` wrapping the write layer's error on a buffered key; after a failure the flushed keys fill whole batches of 101 and none of them is a key the buffer could not read; buffer and read are unchanged |
| Buffered.WriteBatch | lib/buffered_blockstore.go:135-137 | a batch write stores the batch, or fails with `batch put in flush` wrapping the storage error of a broken key of the batch and leaves the layer as it was |
| Buffered.FlushLayers | lib/buffered_blockstore.go:122-147 | the flush on values: a failed enumeration writes nothing; success copies the whole buffer; a failure returns the read or wrapped write error of a buffered key and leaves exactly the whole batches written before it, none of them undone and none holding a key the buffer could not read |
| Buffered.CopyFullBatches | lib/buffered_blockstore.go:128-140 | the flush loop takes every buffered key once and writes each batch that grows past 100 blocks, leaving a batch of at most 100; on failure it returns a read or wrapped write error of a buffered key, with only whole batches of readable keys written |
| Buffered.CopyOne | lib/buffered_blockstore.go:129-139 | one turn of the flush loop keeps the flush invariant and takes one key, or fails with the read error of a broken buffer key or the wrapped write error of a broken write key, writing nothing more |
| Buffered.WriteLastBatch | lib/buffered_blockstore.go:141-145 | the residual batch is written only if non-empty; afterwards the whole buffer is in the write layer, or the wrapped write error of a buffered key is returned and only the earlier full batches are written |
| Buffered.FlushKeepsReads | lib/buffered_blockstore.go:122-147 | a flush, complete or cut short, changes no Get, Has or GetSize answer of the store |
| Buffered.PutShadowsLowerLayers | lib/buffered_blockstore.go:71-76 | after a Put, Get returns the buffered block even if read or write hold the key |
| Redirect.RedirectBlockstore.constructor | lib/redirect_blockstore.go:22-27 | the store reads and writes `readWrite` first and falls back to `readStore` |
| Redirect.RedirectBlockstore.Has | lib/redirect_blockstore.go:33-46 | equals layered Has over readWrite then readStore |
| Redirect.RedirectBlockstore.Get | lib/redirect_blockstore.go:48-57 | equals layered Get over readWrite then readStore |
| Redirect.RedirectBlockstore.GetSize | lib/redirect_blockstore.go:59-68 | equals layered GetSize over the two layers, and is the size of Get |
| Redirect.RedirectBlockstore.Put | lib/redirect_blockstore.go:70-72 | writes only readWrite (readStore untouched); afterwards Get returns the block |
| Redirect.RedirectBlockstore.PutMany | lib/redirect_blockstore.go:74-76 | writes only readWrite; afterwards Get of each block's last occurrence returns it |
| Redirect.RedirectBlockstore.DeleteBlock | lib/redirect_blockstore.go:29-31 | always fails with an unsupported-operation error |
| Redirect.RedirectBlockstore.AllKeysChan | lib/redirect_blockstore.go:78-81 | always fails with an unsupported-operation error |
| Redirect.RedirectBlockstore.HashOnRead | lib/redirect_blockstore.go:83-86 | sets the flag on both layers and changes nothing else |
| Redirect.RedirectPrecedence | lib/redirect_blockstore.go:33-57 | a block in readWrite wins; a NotFound in readWrite yields readStore's Get answer; a false Has in readWrite yields readStore's Has answer |
| Throwaway.ThrowawayBlockstore.DeleteBlock | lib/throwaway_blockstore.go:18-20 | always succeeds |
| Throwaway.ThrowawayBlockstore.Has | lib/throwaway_blockstore.go:22-24 | false for every key: an empty layer, an empty stack |
| Throwaway.ThrowawayBlockstore.Get | lib/throwaway_blockstore.go:26-28 | NotFound for every key |
| Throwaway.ThrowawayBlockstore.GetSize | lib/throwaway_blockstore.go:30-32 | NotFound for every key, the size of Get |
| Throwaway.ThrowawayBlockstore.Put | lib/throwaway_blockstore.go:35-37 | always succeeds |
| Throwaway.ThrowawayBlockstore.PutMany | lib/throwaway_blockstore.go:39-41 | always succeeds |
| Throwaway.ThrowawayBlockstore.AllKeysChan | lib/throwaway_blockstore.go:43-46 | always fails with an unsupported-operation error |
| Throwaway.ThrowawayBlockstore.HashOnRead | lib/throwaway_blockstore.go:49-51 | has no effect |
| Throwaway.WritesAreForgotten | lib/throwaway_blockstore.go:22-41 | after a successful write every written key is still absent, unlike an empty layer, which then holds them |
| ChainLib.Fetch | lib/chain.go:89-97 | a header read passes a read error on, turns an undecodable block into a decode error, and otherwise gives the decoded header of the stored bytes |
| ChainLib.GetParent | lib/chain.go:140-151 | a header without parents fails with NoParents; otherwise the result is the read-and-decode of parents[0] |
| ChainLib.ParentIsFirstLinkOnly | lib/chain.go:145-146 | headers with the same first parent link have the same parent, whatever their other links |
| ChainLib.GetParentFrom | lib/chain.go:140-151 | reading the parent through a live buffered store equals GetParent over its layers |
| ChainLib.ParentDescends | lib/chain.go:140-151 | on a chain whose stored headers descend, a resolved parent descends too |
| ChainLib.Walk | lib/chain.go:110-138 | the values a run of the iterator emits: none iff the parent is at height 0; the first is (parent height, block's parent state root); at most parent-height many |
| ChainLib.WalkDescends | lib/chain.go:126-138 | on a well-formed chain the emitted heights strictly decrease within 1 up to the start parent's height, so the genesis state is never emitted and the walk ends, by Done or a failed Step, after at most that many values |
| ChainLib.Roots | cmd/ent/main.go:289-294 | the values the roots loop collects, at most num of them |
| ChainLib.RootsArePrefixOfWalk | cmd/ent/main.go:289-294 | collecting num roots gives the first num values of the walk and success when the walk is longer, and the whole walk otherwise |
| ChainLib.RootsDescend | cmd/ent/main.go:289-294 | the collected roots come out in walk order, with heights strictly decreasing and never 0 |
| ChainLib.Start | lib/chain.go:88-101 | starting a walk fails with the tip's read or decode error or with its parent's error; otherwise gives the tip and its parent |
| ChainLib.GenesisTipFails | lib/chain.go:98-100 | a tip without parents cannot start an iterator |
| ChainLib.StartDescends | lib/chain.go:98-107 | the parent an iterator starts at descends on a well-formed chain |
| ChainLib.ChainStateIterator.constructor | lib/chain.go:103-107 | the iterator holds the store, the tip block and its parent |
| ChainLib.ChainStateIterator.Done | lib/chain.go:110-115 | true iff the current parent is at height 0 |
| ChainLib.ChainStateIterator.Val | lib/chain.go:118-123 | (current parent's height, current block's parent state root); reads no more than the fields |
| ChainLib.ChainStateIterator.Step | lib/chain.go:125-138 | a no-op when Done; otherwise the block becomes the old parent and the parent its first parent; a failure returns the error, clears the parent and leaves the block |
| ChainLib.Chain.constructor | lib/chain.go:22-24 | no store is cached yet |
| ChainLib.Chain.LoadBufferedBstore | lib/chain.go:37-44 | returns the cached store when there is one; otherwise builds one, caching it on success and nothing on failure |
| ChainLib.Chain.LoadCborStore | lib/chain.go:47-53 | the store behind the IPLD store, with the same caching |
| ChainLib.Chain.LoadToReadOnlyBuffer | lib/chain.go:55-61 | fails with the opening error, or preloads the cached store's buffer from its read layer with LoadToBuffer's outcome |
| ChainLib.Chain.FlushBufferedState | lib/chain.go:63-69 | fails with the opening error, or flushes the cached store: buffer and read unchanged; on success the write layer gains the whole buffer; on failure it gains only whole batches of 101 buffered keys that neither the buffer nor the write layer fails on, and the error is the flush's |
| ChainLib.Chain.NewChainStateIterator | lib/chain.go:83-108 | fails with the opening error, the tip's read or decode error, or the parent's error (genesis tip); otherwise a fresh iterator at the tip and its parent, linked through the shared store |
| Commands.Padded | cmd/ent/main.go:283-298 | num slots, the collected values first and zero values after them |
| Commands.CollectRoots | cmd/ent/main.go:283-294 | the array of num slots holds Roots' values and then zero values, and the outcome is Roots' end (the first failing Step's error) |
| Commands.CollectOne | cmd/ent/main.go:290-293 | stores the current value in slot i and steps, changing no other slot |
| Commands.RunRoots | cmd/ent/main.go:269-300 | fewer than 2 arguments fail; opening or starting failures are returned; otherwise exactly num entries are printed, those of Roots padded with zero values, unless a Step fails |
| Commands.GoRem | cmd/ent/main.go:208 | Go's truncating remainder: zero or of the dividend's sign, smaller in magnitude than the divisor, and differing from the dividend by a multiple of the divisor |
| Commands.Selected | cmd/ent/main.go:208 | the height filter of the migrate loop: k = 0 or height % k == 0 with Go's `%` (meaning stated by SelectedByAbs) |
| Commands.SelectedByAbs | cmd/ent/main.go:208 | a height is migrated iff k is 0 or k divides it, for negative k as well as positive k |
| Commands.Attempted | cmd/ent/main.go:209-223 | an attempt records the height and state, the migration's root and outcome, and the flush of that root, made whatever the migration's outcome |
| Commands.DriveAttempts | cmd/ent/main.go:206-237 | every attempt migrates and flushes a selected height in the walk's range, and heights strictly decrease across attempts |
| Commands.DriveFollowsWalk | cmd/ent/main.go:206-237 | without validation the loop attempts exactly the selected values of the walk, in walk order, and ends as the walk ends: migration and flush failures do not stop it, and a Step error does |
| Commands.DriveStopsAtValidation | cmd/ent/main.go:206-237 | with or without validation the loop attempts a prefix of the walk's selected values in order; every attempt but the last passed validation; it ends with the last attempt's validation error if that failed, and otherwise with the walk's end after all selected values |
| Commands.SkipZeroSelectsAll | cmd/ent/main.go:208 | with k = 0 every value of the walk is migrated |
| Commands.Drive | cmd/ent/main.go:205-237 | the migrate loop as a function of the layers and the iterator's state; at most one attempt per height (properties in DriveAttempts, DriveFollowsWalk, DriveStopsAtValidation) |
| Commands.MigrateLoop | cmd/ent/main.go:205-237 | the attempts and the outcome of the loop are those of Drive from the iterator's state |
| Commands.MigrateAt | cmd/ent/main.go:207-231 | an attempt is made iff the height is selected; a validation outcome is produced only when validating |
| Commands.SameReadsSameDrive | cmd/ent/main.go:195 | stacks of layers that answer every read alike give the same migration run |
| Commands.SameReadsSameHeaders | cmd/ent/main.go:195 | stacks that answer reads alike agree on every header, parent and start, and on ParentsDescend |
| Commands.PreloadKeepsReads | cmd/ent/main.go:393-408 | preloading blocks from the read layer into the empty buffer of a fresh store changes no Get, Has or GetSize answer |
| Commands.RunMigrateChain | cmd/ent/main.go:179-239 | no chain head fails; an opening or starting error is returned; otherwise the run is Drive from the tip over the unpreloaded store, whatever the preload did |
| Commands.Debt | cmd/ent/main.go:328-329 | a balance contributes its negation when negative and nothing otherwise |
| Commands.Debts | cmd/ent/main.go:326-333 | the total debt of a key set is non-negative, and 0 iff no balance is negative |
| Commands.DebtsTake | cmd/ent/main.go:327 | any address can be summed first: the total does not depend on the map's iteration order |
| Commands.TotalDebt | cmd/ent/main.go:326-333 | the loop's total is the sum of -balance over negative available balances; it is non-negative and 0 iff none is negative |
| Commands.Available | cmd/ent/main.go:359-360 | balance minus locked funds, pre-commit deposits and initial pledge, in exact integers |
| Commands.BalanceReport | cmd/ent/main.go:358-362 | one row per miner: its locked funds and its available balance |
| Commands.ReportShowsShortfall | cmd/ent/main.go:359-360 | the available balance is negative iff the liabilities exceed the balance |
| Actors.SingletonCount | lib/filter_tree.go:23-30 | the eight singleton addresses are distinct |
| FilterTree.KeepSet | lib/filter_tree.go:18-30 | the keep set is the optional addresses plus the eight singletons, duplicates being harmless |
| FilterTree.Filtered | lib/filter_tree.go:45-51 | the output holds an address iff the input does and it is kept, with the same actor |
| FilterTree.Filter | lib/filter_tree.go:16-56 | load and setup errors are returned; otherwise succeeds iff no kept address fails SetActor, giving exactly the kept part of the input |
| FilterTree.FilterKeepsExactly | lib/filter_tree.go:45-51 | an actor is kept iff the input holds it and its address is a singleton or an optional address, and is copied unchanged |
| FilterTree.FilterIdempotent | lib/filter_tree.go:45-51 | filtering twice is filtering once, and the singletons of the input always survive |
| Balances.IsMiner | lib/balances.go:33-35 | only actors with the version-0 storage-miner code get an entry |
| Balances.InfoOf | lib/balances.go:42-47 | an entry's balance is the actor's; locked funds, initial pledge and pre-commit deposits come from the miner state |
| Balances.V0TreeMinerBalances | lib/balances.go:26-52 | a tree-load failure gives no map and the error; every entry belongs to a miner and is right; with no error every miner gets exactly one entry; an error is some miner's state-load error |
| Export.Status | lib/export.go:76-85 | unproven before faulty before recovering before terminated; active iff in none of the four sets |
| Export.SectorStatus.Name | lib/export.go:76-85 | the status string each record carries |
| Export.PartitionRecords | lib/export.go:75-95 | a partition's records are those of its own sector list (properties in Records and OneRecordPerFoundSector) |
| Export.Records | lib/export.go:75-95 | every record is that of a sector of the partition whose info is found, with the status computed for its number |
| Export.OneRecordPerFoundSector | lib/export.go:86-89 | exactly one record per sector whose info is found: failed lookups are skipped without stopping the traversal |
| Export.ActorRecords | lib/export.go:33-35 | a non-miner actor yields no records |
| Export.MinerRecordsConcatenate | lib/export.go:51-103 | a miner's records are its partitions' records, one partition after another |

## Left out

- Opening the datastores (badger options, `homedir.Expand`, the global
  paths) is I/O. The `open: Result<Opened>` parameter stands for its outcome.
- The link decoding of the DAG copy behind `LoadToBuffer` is not modelled.
  The set of keys the copy visits is a parameter, and the root is always
  among them.
- Buffered.BufferedBlockstore.LoadToBuffer: the model's copy is
  all-or-nothing. A real copy may have put some blocks into the buffer before
  it fails. Either way the copied blocks come from the read layer, so no read
  changes (Commands.PreloadKeepsReads). The copy is abstracted further:
  its error is the read layer's error for a visited key, unwrapped. The
  wrapping of the real copy's errors is not modelled, and neither are its
  failures on the buffer side (the buffer's `Has` or `PutMany`); the copy
  also writes into buffer keys marked broken. Both callers discard the
  preload's error.
- Header decoding (CBOR) is the `Decoder` parameter. Keys are opaque: a key
  is not derived from its bytes.
- The effect of the `HashOnRead` flag on reads is not modelled; only its
  forwarding to the layers is.
- ChainLib.ChainStateIterator.Done, ChainLib.ChainStateIterator.Val,
  ChainLib.ChainStateIterator.Step: these require a current parent. After a
  failed Step the source's parent is nil, and calling any of them
  dereferences it and panics.
- ChainLib.Walk, Commands.Drive, Commands.MigrateLoop,
  Commands.RunMigrateChain: these require that first-parent heights strictly
  decrease in the store (`ParentsDescend`). On a store with a parent cycle
  the source loop would not terminate.
- Commands.RunRoots: arguments are counted, not parsed. `cid.Decode` and
  `strconv.Atoi` are not modelled, and the tip and count are parameters. The
  count is a `nat`: `make` with a negative count panics in the source.
- Commands.RunMigrateChain: the migration (`migration2.MigrateStateTree`),
  the flush and the validation (`validate`) are function parameters in
  `Migration`. The flush parameter stands for `Chain.FlushBufferedState`,
  which Buffered.FlushKeepsReads shows changes no header read.
- Commands.RunMigrateChain: `MigrateStateTree` writes its new state
  through the same buffered store the iterator reads. The model never
  applies the migration's writes to the layer stack the walk reads. This is
  sound for the source only because keys are content addresses, so a write
  cannot change a header already stored; the model's keys are opaque and do
  not capture that.
- Buffered.FlushLayers, Buffered.FlushFromBuffer: which keys fall into each
  batch follows Go's map iteration order, which the model leaves open (the
  loop picks any remaining key). So the model does not say which buffered
  blocks precede a failure, only that whole batches of 101 were written
  before it.
- Printing, timing, `cpuProfile`/pprof and the CLI framework are I/O and are
  left out.
- Commands.TotalDebt: the map of available balances and the burnt-funds
  balance come from `migration2.InputTreeMinerAvailableBalance` and
  `migration2.InputTreeBurntFunds`, which are external; the map is a
  parameter and the burnt funds are only printed.
- `int64` heights and `big.Int` token amounts are unbounded integers. No
  chain height comes near 2^63, and big integers do not overflow.
- FilterTree.Filter: models `FilterTreeV0` and `FilterTreeV2`, whose rules
  are identical. It returns the filtered tree rather than the root key its
  final `actorsOut.Flush()` produces, and the error that flush can return is
  not modelled. The HAMT `ForEach` iteration's own errors are folded into
  `setup`.
- Balances.V0TreeMinerBalances: the HAMT traversal order is left open, so
  the model does not fix which miner's failure is reported first. The
  actor map is abstract, so errors of the HAMT `ForEach` itself (a node
  that fails to load) are not modelled. An error is therefore always some
  miner's state-load error, and success means every miner loaded.
- Export.ActorRecords: the traversal of the whole state tree, the goroutine,
  the channel and the `panic` on a traversal error are concurrency and are
  left out, and so is bitfield decoding (`AllMap`). The records of one actor
  from its given partitions are modelled.
- `lib/hamtsize.go` (floating-point HAMT statistics) is not part of this
  model.
