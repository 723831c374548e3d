# Tile streaming engine: model and proofs

AlpineMaps streams a quadtree of map tiles from the network through a RAM cache to texture arrays on the GPU.
This project models that engine (`nucleus/tile`), the two consumers that replay its deltas (`gl_engine`) and the
throttled label filter (`nucleus/map_label`) in Dafny, and proves the invariants on which the assertions in the C++
code rest. `dafny verify dfyconfig.toml` checks everything.

## How the model is laid out

Each stateful C++ class is a Dafny class whose methods change the same fields. Next to it stands a value-level
specification, and the properties of whole runs are proved about that. The `ghost` parameters `p: Pipe` and the ghost
log fields (`history`, `emitted`, `accepted`) tie an object to its specification state; they have no counterpart in C++.

| file | models |
|---|---|
| Tiles, Traversal, Quads | tile ids, parents and children; leaf and inner-node traversal; quads of four tiles and their joined network status |
| Srs, Dictionary | 32-bit packing, the 16-bit hash, the overlap test; the linear-probing dictionary |
| Entries, Cache, Persistence | time stamps, visit, purge; the cache object; the cache directory and runs over restarts |
| Residency, Convergence, Scheduler | one update of the GPU cache and what it keeps; exactly when repeated updates settle; the scheduler object |
| GpuArray | the layer allocator and the replay of a delta into it |
| Streaming, StreamRuns, Emission | whole runs of scheduler, FIFO of deltas and consumer; the objects connected that way |
| Pipeline, Limiters | whole runs of slot limiter, rate limiter, quad assembler and network; the objects, wired by nested synchronous calls |
| SlotOrder, Rates, Draining | in which order requests are served; the rate bound over whole runs, exactly when it holds and that the rate is used; how the pipeline runs empty |
| Fetching | scheduler and pipeline together, from a camera to the GPU |
| Drawing | limiting a draw list; refining it against the available tiles |
| LabelFilter, LabelRuns | the throttled filter and the label view fed by it; what a whole run comes to in terms of its events |
| Seqs, Runs | duplicate-free sequences; runs of a state machine |

Main results:

* **GPU residency.** In every run of updates and FIFO deliveries the ids resident in the consumer's array are exactly
  those of some earlier GPU cache (its quads, or the children of its quads), every layer holds the image of its tile,
  no removal hits an absent tile, no addition a present one, and no tile is dropped, provided tiles-per-quad times the
  quad limit fits the array (`app/RenderingContext.cpp` and `nucleus/tile/setup.h` configure 4 x 512 <= 2048 and
  1024 <= 1024). The GPU cache stays closed under parents because the visited stamp of a parent is always the higher one,
  and once a quad is in a texture array, every tile below the root finds a layer ever after, while the quad limit is
  positive.
* **Request pipeline.** Between events, what occupies a slot is the disjoint union of the rate queue and the quads under
  assembly; each of those awaits exactly its missing children; only complete quads are delivered; erasing a quad after
  the nested signal equals erasing it before; and no closed window of one period holds more emissions than the rate, while
  exactly that many lie in the period up to now as long as anything is queued. Requests are served first come, first
  served, and every tile of a delivered quad is the unchanged tile of some reply.
  Without further requests every run, in whatever order its events come, is of bounded length, and where it cannot be
  continued every stage is empty and every accepted id was delivered.
* **From the camera to the GPU.** With a fixed camera, good and fresh replies and no purge of the RAM cache, requesting
  what is missing and running until drained leaves nothing missing, and the next update whose refinable part fits makes
  every refined tile's quad resident.
* **Settling.** Repeated updates of one camera keep the resident set if and only if the first one dropped no selected tile
  of the zoom level of a kept tile; a limit that ends with a whole level of refinable tiles guarantees it, and one that
  splits a level of selected tiles never does.
* **Persistence.** The incremental write refines a full rewrite over any interleaving of insertions, visits, purges,
  writes and restarts in which no two insertions of one id share a creation stamp. For a single insertion the condition
  is exact: it must not repeat the creation stamp of different written content. No write of an uninterrupted run that began
  with an empty directory leaves a file of a tile that left the cache.
* **Draw lists.** Limiting terminates, keeps an exact partition, merges only the full sibling group nearest to the end
  of the sorted list, and ends within two of the limit; the list refined against availability is exactly determined.
* **Dictionary.** Probing finds a tile's layer if and only if the tile is resident, for any insertion order.
* **Labels.** After any prefix of the filter's messages the view shows exactly the live tiles of an earlier state of the
  run, each filtered with the definitions of that state. After all of them its keys are the live tiles, and each is
  filtered with the latest definitions or queued. This holds for any interleaving of filter changes and timers with the
  deltas of any run of the label scheduler. Once the timer has fired, the view is determined by the events alone: a tile is
  shown if and only if the last update that mentions it brought it, with that data, filtered with the last definitions.

Properties that hold only under a condition, with the condition proved:

* On an exact cover the loop of `limit` ends if and only if the maximum is at least one (`Drawing.LimitEndsExactly`).
* Whatever is requested, no run exceeds the rate if and only if the rate is zero or the clock starts at least one period
  past zero (`Rates.RateBoundExact`): before that, the subtraction wraps around and the limiter forgets every emission.
* A tile inserted with the creation stamp of other, already written content is lost by the next write
  (`Persistence.InsertWriteRead`; `Persistence.ClashReachable` shows such a run).
* With all 2^16 slots taken, a lookup for an absent tile never ends (`Dictionary.FullTableHasNoStop`;
  `GpuArray.FullDictionary` builds one).
* A delta replays without a failed assertion or a dropped tile if and only if the result fits the array
  (`GpuArray.ReplayExact`).

Conventions: `radix` (tile ids, `onTheFlyTraverse`, rasters) is not part of this model; children are (2x+i, 2y+j) and the
traversal is the depth-first leaf collector that its callers describe. The camera's refine functor is an arbitrary
predicate that rejects every tile from the maximal zoom level on; `is_ready_to_ship` is a predicate passed to each
update. A visit returns the accepted ids in visiting order in place of calling a functor with side effects. The clock
never goes back and stays below 2^57 ms; a tile's time stamp plus the retirement age stays below 2^64. `nth_element` is a selection over an array. Both rasters of the dictionary are
indexed by the 16-bit hash itself.

## Model

| member | source | states |
|---|---|---|
| StreamRuns.RunSafe | nucleus/tile/Scheduler.cpp:119-161 | in every run the consumer's resident ids are the image of some earlier GPU cache (of the current one when nothing is pending), layers partition the array, each holds its tile's image, and the next delivery replays cleanly |
| Streaming.StepInv | gl_engine/TileGeometry.cpp:196-219 | updates and deliveries keep the invariant that ties pending deltas, logged caches and the consumer together |
| Streaming.DeliverClean | gl_engine/TextureLayer.cpp:86-102 | with tiles-per-quad times the quad limit fitting the array, replaying the oldest delta removes only resident tiles, adds only absent ones and never meets a full array |
| Streaming.DeltaApplies | nucleus/tile/GeometryScheduler.cpp:43-66 | the tiles of the difference of two quad sets lead from the tiles of the first to the tiles of the second |
| StreamRuns.HistoryIsPast | nucleus/tile/Scheduler.cpp:143-160 | every logged quad set was the GPU cache of an earlier state of the run |
| StreamRuns.RunLayerFound | nucleus/tile/GpuArrayHelper.cpp:76-86 | with one layer per quad, in every state of every run in which anything is resident every tile below the root finds a layer |
| StreamRuns.ResidentRootSticks | nucleus/tile/GpuArrayHelper.cpp:76-86 | with limits of at least one quad, the root stays in the consumer's array once it is there |
| StreamRuns.RunLayerKept | nucleus/tile/GpuArrayHelper.cpp:76-86 | so, once anything is resident, no later state gives the startup answer to a tile below the root |
| StreamRuns.RunPackable | nucleus/srs.cpp:137-139 | while no camera refines beyond zoom 28, in every state of every run the resident ids meet the assertions of pack and fit the dictionary |
| StreamRuns.RunChained | nucleus/tile/Scheduler.cpp:146-160 | the deltas sent in a run lead, one after the other, from the empty set through the logged GPU caches to the current one, whatever the consumer |
| StreamRuns.RunRootSticks | nucleus/tile/Scheduler.cpp:137-144 | with limits of at least one quad, the root is never evicted again once it is on the GPU |
| Emission.Connection.Update | nucleus/tile/Scheduler.cpp:119-161 | the scheduler object's update is an update step of the run machine and keeps its invariant |
| Emission.Connection.HandleDelta | gl_engine/TileGeometry.cpp:202-218 | the consumer object's replay is a delivery step of the run machine, and is clean |
| Emission.Connection.ReceiveQuad | nucleus/tile/Scheduler.cpp:78-97 | receiving a complete quad keeps the connection's invariant and changes nothing on the GPU side |
| Emission.Connection.PurgeRamCache | nucleus/tile/Scheduler.cpp:176-184 | purging the RAM cache keeps the connection's invariant and changes nothing on the GPU side |
| Emission.Connection.SetGpuQuadLimit | nucleus/tile/Scheduler.cpp:350 | any quad limit that the consumer's array was made for keeps the connection's invariant |
| Emission.Connection.constructor | app/RenderingContext.cpp:180-185 | an empty scheduler and a consumer whose limit fits tiles-per-quad times the quad limit start a run |
| Emission.AllTilesExact | nucleus/tile/GeometryScheduler.cpp:43-58 | distinct complete quads yield each of their children exactly once |
| Emission.AllChildrenExact | nucleus/tile/GeometryScheduler.cpp:60-66 | distinct deleted quads yield each of their children exactly once |
| Emission.AllTilesAt | nucleus/tile/GeometryScheduler.cpp:43-58 | the tiles of new quads are listed quad by quad, four each, in the order of the array |
| Emission.AllChildrenAt | nucleus/tile/GeometryScheduler.cpp:60-66 | the children of deleted quads are listed quad by quad, in order |
| Emission.TransformPerTile | nucleus/tile/GeometryScheduler.cpp:37-69 | the loops list the children of deleted quads and the tiles of new quads, in order |
| Emission.TransformPerQuad | nucleus/tile/TextureScheduler.cpp:35-50 | merged quads become tiles of the same id, in order |
| Emission.TransformAndEmit | nucleus/tile/GeometryScheduler.cpp:43-68 | the emitted delta lists, once each, the tiles of the quads that left and of those that came |
| Schedulers.Scheduler.constructor | nucleus/tile/Scheduler.cpp:38-41 | empty caches and the given settings, such as 512 or 1024 quads on the GPU |
| Schedulers.Scheduler.SetGpuQuadLimit | nucleus/tile/Scheduler.cpp:350 | sets the limit and nothing else |
| Schedulers.Scheduler.UpdateGpuQuads | nucleus/tile/Scheduler.cpp:119-161 | the GPU cache is extended by the selection, restamped and purged; the emitted lists are exactly the difference of the cached sets; what is emitted is refined, ready and, beyond zoom level 8, has only good tiles; the RAM cache is only restamped |
| Schedulers.Scheduler.CollectCandidates | nucleus/tile/Scheduler.cpp:122-135 | candidates are the selected quads that are not on the GPU yet, once each |
| Schedulers.Scheduler.InsertCandidates | nucleus/tile/Scheduler.cpp:137-139 | the GPU cache gains exactly the selection and keeps its other entries |
| Schedulers.Scheduler.RefreshGpu | nucleus/tile/Scheduler.cpp:141-144 | the refinable part is restamped, the highest stamps stay, and exactly the dropped quads are returned |
| Schedulers.CancelDoubles | nucleus/tile/Scheduler.cpp:146-160 | quads that were inserted and at once purged appear in neither list |
| Schedulers.SelectedIsSelection | nucleus/tile/Scheduler.cpp:122-135 | what a visit of the RAM cache selects is refined and closed under parents |
| Schedulers.SelectedExactly | nucleus/tile/Scheduler.cpp:122-135 | selected is exactly what is cached, refined, ready, coarse (zoom level at most 8) or all good, and has a selected parent or is the root |
| Schedulers.RefinableExactly | nucleus/tile/Scheduler.cpp:141 | restamped is exactly what is cached and refined and has a restamped parent or is the root |
| Quads.JoinedStatus | nucleus/tile/types.h:40-51 | the joined status is an error if and only if some tile failed, and good if and only if all are |
| Quads.JoinedTimestamp | nucleus/tile/types.h:40-51 | the joined time stamp is the least of the four, so a quad retires with its first tile |
| Quads.Join | nucleus/tile/types.h:40-51 | the loop computes the worst status and the least time stamp of any number of tiles |
| Schedulers.Scheduler.ReceiveQuad | nucleus/tile/Scheduler.cpp:78-97 | a quad with a failed tile changes nothing, any other is cached with the current stamp |
| Schedulers.Scheduler.PurgeRamCache | nucleus/tile/Scheduler.cpp:176-184 | nothing happens up to the threshold 5% over the limit; beyond it the refined part is restamped and the highest stamps stay |
| Schedulers.Scheduler.QuadsForCurrentCameraPosition | nucleus/tile/Scheduler.cpp:282-294 | the list holds, once each, exactly the tiles reached from the root through refined tiles |
| Schedulers.Scheduler.MissingQuadsForCurrentCamera | nucleus/tile/Scheduler.cpp:298-306 | requested are, once each, exactly the refined tiles whose quad is absent or has a tile past its retirement age |
| Schedulers.MissingExactly | nucleus/tile/Scheduler.cpp:302-304 | a cached quad is requested again if and only if one of its tiles has retired |
| Residency.RestampedTree | nucleus/tile/Cache.h:332-347 | restamping the refinable part of an extended cache gives every parent a higher stamp than its children again |
| Residency.PurgedTree | nucleus/tile/Cache.h:350-367 | keeping the highest stamps never orphans a child |
| Residency.UpdateKeepsInv | nucleus/tile/Scheduler.cpp:119-144 | with a non-decreasing clock every update keeps the cache parent-closed, parents stamped higher, and within the limit |
| Residency.RootStays | nucleus/tile/Scheduler.cpp:141-144 | a resident or selected root survives every update whose limit is at least one |
| Residency.FittingUpdateComplete | nucleus/tile/Scheduler.cpp:137-144 | if the refinable part fits, an update at a later time keeps all of it, so everything selected becomes resident |
| Schedulers.SelectionKept | nucleus/tile/Scheduler.cpp:122-135 | restamping the RAM cache does not change what a visit selects |
| Schedulers.UpdatesConverge | nucleus/tile/Scheduler.cpp:119-161 | of two updates with only the first one's RAM stamps between them, the second changes nothing once the refinable part fits |
| Schedulers.PurgeThreshold | nucleus/tile/Scheduler.cpp:178 | the single-precision threshold, between the limit and 5% above it, rounding included |
| Schedulers.ThresholdExact | nucleus/tile/Scheduler.cpp:178 | up to 2^18 quads the threshold is 5% over the limit rounded down, possibly one less where 5% is a whole number; it is never less than 4% over |
| Schedulers.ThresholdRounding | nucleus/tile/Scheduler.cpp:178 | for a limit of 12000 it is one less |
| Residency.Converged | nucleus/tile/Scheduler.cpp:119-161 | with unchanged camera and selection and a fitting refinable part, the next update changes nothing |
| Convergence.StableExactly | nucleus/tile/Scheduler.cpp:119-144 | whatever the purge chooses among equal stamps, after a first update every further one keeps the resident set if and only if the first dropped no selected tile of the zoom level of a kept tile |
| Convergence.WholeLevelsCut | nucleus/tile/Cache.h:341-359 | a limit equal to the number of refinable tiles up to some zoom level guarantees that |
| Convergence.SplitLevelNeverCuts | nucleus/tile/Cache.h:341-359 | a limit strictly inside a level whose refinable tiles are all selected rules it out |
| Convergence.FirstOverfull | nucleus/tile/Scheduler.cpp:137-144 | when the refinable part does not fit, the cache is full of refinable tiles and nothing coarser than a kept tile was dropped |
| Fetching.AnswersRequest | nucleus/tile/setup.h:64-71 | from any reachable state, a request answered until drained delivers every requested id, and only good quads if the replies are good |
| Fetching.QuietRunCarries | nucleus/tile/SlotLimiter.cpp:61-71 | whatever has a slot or waits for one still does, or has been delivered since |
| Fetching.DeliveredAsReplied | nucleus/tile/QuadAssembler.cpp:40-43 | in every run each tile of each delivered quad is, unchanged, the tile of some reply |
| Fetching.ReceiveContents | nucleus/tile/Scheduler.cpp:78-97 | what receiving a quad does to the cached quads, whatever the stamps |
| Fetching.NothingMissing | nucleus/tile/Scheduler.cpp:163-174 | with a fixed camera, good and fresh replies and no purge, a drained run leaves nothing to request |
| Fetching.CameraShown | nucleus/tile/Scheduler.cpp:119-144 | if every refined tile has a shippable quad in RAM, an update whose refinable part fits makes all of them resident |
| Fetching.RequestedIsShown | nucleus/tile/Scheduler.cpp:119-174 | so a request for what is missing ends with every refined tile's quad on the GPU |
| Entries.StampWraps | nucleus/tile/Cache.h:110 | the stamp is the difference in unsigned 64-bit arithmetic |
| Entries.StampOrder | nucleus/tile/Cache.h:110 | below zoom 100 the 64-bit stamp orders by later visit, then coarser zoom, both ways |
| Entries.FreshIsVisited | nucleus/tile/Cache.h:109-112 | an inserted tile carries the creation time and the stamp that a visit at that time would give it |
| Entries.FreshSurvives | nucleus/tile/Cache.h:109-112 | a tile inserted later than everything before survives every purge that keeps anything |
| Entries.VisitedOutrank | nucleus/tile/Cache.h:341 | after a visit at a later time, visited entries outrank all others |
| Entries.VisitedSurvive | nucleus/tile/Cache.h:350-367 | the whole visited set survives a purge if it fits |
| Entries.OnlyVisitedSurvive | nucleus/tile/Cache.h:350-367 | if the visited set fills the capacity, only visited tiles survive |
| Entries.CoarserSurvive | nucleus/tile/Cache.h:341-359 | no surviving visited tile is finer than a dropped visited tile |
| Caches.NthElement | nucleus/tile/Cache.h:358-359 | a permutation after which nothing before n has a lower stamp than anything from n on |
| Caches.DropBehind | nucleus/tile/Cache.h:358-365 | dropping what lies behind such a partition keeps exactly the capacity, with the highest stamps |
| Caches.Cache.Insert | nucleus/tile/Cache.h:106-113 | one entry is replaced by the tile, created and visited at the current time |
| Caches.Cache.Visit | nucleus/tile/Cache.h:318-328 | stamps exactly the entries reached from the root through accepted entries, each once |
| Caches.Cache.VisitNode | nucleus/tile/Cache.h:332-347 | the recursive descent does the same from any node |
| Caches.Cache.Purge | nucleus/tile/Cache.h:350-367 | keeps the capacity with the highest stamps, unchanged, and returns exactly the other tiles, once each |
| Caches.Cache.EraseFrom | nucleus/tile/Cache.h:360-365 | erases the listed entries and returns their tiles in order |
| Caches.Cache.WriteToDisk | nucleus/tile/Cache.h:136-220 | files, index and record of the disk after an incremental write: files of tiles that left the cache are gone, new and changed tiles are written, unknown files stay |
| Caches.Cache.RemoveOutdated | nucleus/tile/Cache.h:161-169 | removes exactly the files of tiles that left the cache or carry another creation stamp |
| Caches.Cache.WriteChanged | nucleus/tile/Cache.h:171-198 | writes exactly the files of new and changed tiles, and records every entry |
| Caches.Cache.ReadFromDisk | nucleus/tile/Cache.h:222-314 | succeeds if and only if index and all listed files exist in the right version, and then restores them; otherwise the cache is empty, and the outcome names a reason |
| Persistence.WriteThenRead | nucleus/tile/Cache.h:157-218 | the incremental write leaves what a full rewrite would for every cached tile, and a read restores tiles and metadata exactly; other files may remain |
| Persistence.WriteIsRewrite | nucleus/tile/Cache.h:161-202 | the directory is exactly what a full rewrite leaves if and only if every other file was in the record of the disk |
| Persistence.RunLeavesNoFiles | nucleus/tile/Cache.h:161-202 | from an empty directory on, no write of an uninterrupted run without clashes leaves a file of a tile that left the cache |
| Persistence.OtherVersionUnread | nucleus/tile/Cache.h:222-238 | a directory written under another version is read as empty |
| Persistence.InsertSynced | nucleus/tile/Cache.h:106-113 | an insertion keeps the directory in step if and only if it does not reuse the creation stamp of different written content |
| Persistence.InsertWriteRead | nucleus/tile/Cache.h:165-178 | insert, write and read return the inserted tile if and only if the insertion does not clash |
| Persistence.StepInStep | nucleus/tile/Cache.h:136-314 | every event without such a clash keeps the directory in step with the cache |
| Persistence.RunPersists | nucleus/tile/Cache.h:136-314 | after any run without clashes, over any directory, a write, a restart and a read bring back exactly the written cache |
| Persistence.AdvancingRunPersists | nucleus/tile/Cache.h:106-314 | so it is for every run in which no two insertions of one id share a creation stamp |
| Persistence.ClashReachable | nucleus/tile/Cache.h:106-314 | a run in which a reused creation stamp loses the second content |
| GpuArray.GpuArrayHelper.SetTileLimit | nucleus/tile/GpuArrayHelper.cpp:56-68 | all layers are free, layer 0 on top of the stack |
| GpuArray.GpuArrayHelper.AddTile | nucleus/tile/GpuArrayHelper.cpp:26-41 | takes the top free layer; a resident id gets its layer, a full array the invalid one, without change |
| GpuArray.GpuArrayHelper.RemoveTile | nucleus/tile/GpuArrayHelper.cpp:43-54 | frees the layer of a resident id, ignores others |
| GpuArray.LastFreedFirst | nucleus/tile/GpuArrayHelper.cpp:37-53 | the layer freed last is the next one taken |
| GpuArray.LayersFromTop | nucleus/tile/GpuArrayHelper.cpp:37-40 | absent tiles that fit take the free layers from the top of the stack, in order |
| GpuArray.FirstLayers | nucleus/tile/GpuArrayHelper.cpp:64-66 | the first tiles of a new array get the layers 0, 1, 2 and so on |
| GpuArray.AddKeepsPartition | nucleus/tile/GpuArrayHelper.cpp:37-39 | adding keeps free and assigned layers disjoint, without repetition and complete |
| GpuArray.RemoveKeepsPartition | nucleus/tile/GpuArrayHelper.cpp:52-53 | removing keeps them so |
| GpuArray.PartitionExhaustive | nucleus/tile/GpuArrayHelper.cpp:61-65 | every layer below the size is either free or assigned |
| GpuArray.GpuArrayHelper.LayerFor | nucleus/tile/GpuArrayHelper.cpp:76-86 | terminates with the nearest resident ancestor-or-self, and with the startup answer only if there is none |
| GpuArray.RootNeverStartsUp | nucleus/tile/GpuArrayHelper.cpp:83-84 | with the root resident, no tile below it gets the startup answer |
| GpuArray.ReplayExact | gl_engine/TileGeometry.cpp:202-218 | a delta of resident deletions and absent additions replays cleanly if and only if the result fits, and then changes the resident set by exactly the delta |
| GpuArray.ReplayKeepsImages | gl_engine/TextureLayer.cpp:93-102 | after a clean replay the layer of every resident tile holds that tile's image |
| GpuArray.DeltaConsumer.UpdateGpuTiles | gl_engine/TextureLayer.cpp:81-103 | the loops realise the replay, including dropping the rest once the array is full |
| GpuArray.TileCodingUnambiguous | nucleus/tile/GpuArrayHelper.cpp:96-100 | no two tiles can be confused in the dictionary |
| GpuArray.GpuArrayHelper.GenerateDictionary | nucleus/tile/GpuArrayHelper.cpp:90-105 | the two rasters represent the id-to-layer map, for up to 2^16 tiles |
| GpuArray.GpuArrayHelper.LookupInDictionary | nucleus/tile/GpuArrayHelper.cpp:95-101 | probing the rasters finds an id with its layer if and only if it is resident |
| Dictionary.FindEmpty | nucleus/tile/GpuArrayHelper.cpp:96-98 | with a slot left, the wrapping probe ends at the first empty one |
| Dictionary.Generate | nucleus/tile/GpuArrayHelper.cpp:93-102 | taking the entries in any order, each ends up at its first free slot from its hash, and nothing else is stored |
| Dictionary.Lookup | nucleus/tile/GpuArrayHelper.cpp:95-101 | the same probe sequence terminates and returns the stored layer, or missing |
| Dictionary.FullTableHasNoStop | nucleus/tile/GpuArrayHelper.cpp:97-98 | in a table of 2^16 tiles no slot stops the probe for an absent tile |
| GpuArray.ZoomEightFull | nucleus/tile/GpuArrayHelper.cpp:59 | the tiles of zoom level 8 fill an array of the largest size, without the root |
| GpuArray.FullDictionary | nucleus/tile/GpuArrayHelper.cpp:90-105 | their dictionary has no slot that stops the probe for the root |
| Srs.UnpackPack | nucleus/srs.cpp:135-156 | unpack(pack(id)) == id for every id that pack accepts |
| Srs.PackArithmetic | nucleus/srs.cpp:135-146 | the two packed words in arithmetic: zoom level and upper bits of x, lower three bits of x and y |
| Srs.PackInjective | nucleus/srs.cpp:135-146 | packing is injective and never yields the all-ones sentinel |
| Srs.HashBijectiveInX | nucleus/srs.cpp:124-133 | for fixed zoom and y the hash is a bijection in x modulo 2^16, with its inverse |
| Srs.HashAffine | nucleus/srs.cpp:124-133 | the hash is the 16-bit remainder of one affine form in zoom level, x and y, wherever the arithmetic truncates on the way |
| Srs.Overlap | nucleus/srs.cpp:72-83 | terminates, and holds if and only if one tile is an ancestor-or-self of the other |
| Srs.OverlapIsFootprint | nucleus/srs.cpp:72-83 | equivalently, the footprints meet at any common finer zoom; symmetric |
| Srs.BelowRoot | nucleus/srs.cpp:138-139 | the tiles below the root are those whose coordinates fit their zoom level |
| Pipeline.RunConserves | nucleus/tile/SlotLimiter.cpp:46-71 | in every run, slots in use are the disjoint union of rate queue and assembling quads, within the limit; accepted is in flight or delivered; delivered quads are complete; the next reply finds room in its quad |
| Pipeline.StepKeeps | nucleus/tile/setup.h:64-71 | requests, timer and replies, with all nested signals, keep the pipeline's invariant |
| Pipeline.RunKeeps | nucleus/tile/setup.h:64-71 | so does every run, with slot limit, rate and period unchanged |
| Pipeline.ReplyExpected | nucleus/tile/QuadAssembler.cpp:40-41 | an outstanding reply is a child still missing from a quad under assembly, so the array index is in bounds |
| Pipeline.ReplyCompletes | nucleus/tile/QuadAssembler.cpp:42-44 | the fourth tile makes a quad with exactly its four children, and leaves nothing outstanding for it |
| Pipeline.ReplyKeeps | nucleus/tile/QuadAssembler.cpp:38-46 | every reply keeps the invariant, whether or not it completes a quad |
| Pipeline.EraseCommutes | nucleus/tile/QuadAssembler.cpp:43-44 | passing a quad on before erasing it equals erasing it first: the nested loads never target it |
| Pipeline.AssemblingNotQueued | nucleus/tile/SlotLimiter.cpp:61-71 | a quad under assembly is neither queued for its rate nor waiting for a slot |
| Pipeline.DeliverKeeps | nucleus/tile/SlotLimiter.cpp:61-71 | a delivered quad's slot goes to the first one waiting, within the limit |
| Pipeline.RequestEachKeeps | nucleus/tile/SlotLimiter.cpp:46-59 | requesting distinct ids fills the slots, queues the rest and skips what is in flight, within the limit |
| SlotOrder.RequestLine | nucleus/tile/SlotLimiter.cpp:46-59 | after a request, the newly accepted ids followed by the waiting ones are the requested ids that were not in flight, in order |
| SlotOrder.QuietRunLine | nucleus/tile/SlotLimiter.cpp:61-71 | until the next request, what is accepted followed by what waits stays the same sequence |
| SlotOrder.RunServesInOrder | nucleus/tile/SlotLimiter.cpp:46-71 | so in every run what was emitted, queued for its rate and waiting, in this order, is what was accepted before the latest request and then that request's ids |
| Rates.RunRateBound | nucleus/tile/RateLimiter.cpp:61-78 | no closed window of one period holds more emissions than the rate; emitted ids followed by the queue are the requested ones in order; a non-empty queue has its timer armed |
| Rates.RunRateUsed | nucleus/tile/RateLimiter.cpp:64-73 | while anything is queued, exactly rate many emissions lie in the period up to the last processing of the queue |
| Rates.WindowBound | nucleus/tile/RateLimiter.cpp:64-70 | emissions more than a period apart at distance rate put at most rate into any closed window |
| Rates.PruneExact | nucleus/tile/RateLimiter.cpp:64 | in any window, an emission of the current period is remembered if and only if the clock is at least one period past zero |
| Rates.EarlyClockExceedsRate | nucleus/tile/RateLimiter.cpp:61-73 | from every start less than one period past zero, at every positive rate, some legal run exceeds the rate |
| Rates.RateBoundExact | nucleus/tile/RateLimiter.cpp:55-78 | all legal runs respect the rate if and only if the rate is zero or the clock starts at least one period past zero |
| Draining.TimerMeasure | nucleus/tile/RateLimiter.cpp:66-73 | every emission takes one from the measure |
| Draining.ReplyMeasure | nucleus/tile/QuadAssembler.cpp:38-46 | every reply strictly decreases the measure |
| Draining.Progress | nucleus/tile/RateLimiter.cpp:75-77 | while anything is left, an outstanding reply or the armed timer decreases the measure |
| Draining.QuietRunBounded | nucleus/tile/setup.h:64-71 | without requests no run has more replies than the measure, in whatever order its events come |
| Draining.Drains | nucleus/tile/setup.h:64-71 | without requests the pipeline can run empty, and then every id was delivered as often as it was accepted |
| Draining.EmptyWhenZero | nucleus/tile/setup.h:64-71 | at measure zero every stage is empty and every accepted id was delivered |
| Draining.QuietRank | nucleus/tile/RateLimiter.cpp:61-77 | every event other than a request, including a timer that lets nothing through, strictly decreases a rank |
| Draining.StuckIsDrained | nucleus/tile/setup.h:64-71 | no such event is possible if and only if every stage is empty, every accepted id was delivered and the timer is off |
| Draining.QuietRunsDrain | nucleus/tile/setup.h:64-71 | every run without requests has at most rank many events, and cannot be continued if and only if it has drained the pipeline |
| Limiters.SlotLimiter.RequestQuads | nucleus/tile/SlotLimiter.cpp:46-59 | the loop with its nested emissions realises the request step, at non-decreasing times |
| Limiters.SlotLimiter.DeliverQuad | nucleus/tile/SlotLimiter.cpp:61-71 | frees the slot, passes the quad on, emits the first one waiting, and only then drops it from the queue |
| Limiters.RateLimiter.RequestQuad | nucleus/tile/RateLimiter.cpp:55-59 | queues the id and processes the queue |
| Limiters.RateLimiter.Timeout | nucleus/tile/RateLimiter.cpp:31-32 | the single-shot timer processes the queue and is re-armed if anything is left |
| Limiters.RateLimiter.EmitQueued | nucleus/tile/RateLimiter.cpp:65-73 | emits from the front, one after the other, and stops exactly when the queue is empty or the window full |
| Limiters.EmissionsComplete | nucleus/tile/RateLimiter.cpp:65-73 | such single emissions add up to what the specification emits at once |
| Limiters.RateLimiter.ProcessRequestQueue | nucleus/tile/RateLimiter.cpp:61-78 | prunes the window, emits, and arms the timer if requests are left |
| Limiters.DropOlder | nucleus/tile/RateLimiter.cpp:64 | erases exactly the time stamps before the threshold |
| Limiters.QuadAssembler.Load | nucleus/tile/QuadAssembler.cpp:30-36 | opens the entry and requests each child once |
| Limiters.QuadAssembler.DeliverTile | nucleus/tile/QuadAssembler.cpp:38-46 | in a reachable state the re-entrant handler realises the reply step |
| Limiters.QuadAssembler.PassOn | nucleus/tile/QuadAssembler.cpp:42-45 | the quad passed on is still in place afterwards and exactly its entry is erased |
| Limiters.EntryStays | nucleus/tile/QuadAssembler.cpp:40-44 | the reference held across the nested signal still denotes the completed quad |
| Drawing.Limit | nucleus/tile/drawing.cpp:41-81 | terminates; the result is an exact, duplicate-free partition, coarser than the input, within two of the maximum; it comes from the sorted list by merging, each time, the full sibling group nearest to the end |
| Drawing.FinestGroupFull | nucleus/tile/drawing.cpp:68-79 | while more than one leaf remains, all siblings of a finest leaf are leaves |
| Drawing.MergedPartition | nucleus/tile/drawing.cpp:72-76 | merging a full sibling group keeps an exact partition and removes three tiles |
| Drawing.MergedCoarsens | nucleus/tile/drawing.cpp:72-76 | every input tile keeps an ancestor-or-self |
| Drawing.CoarsensUnique | nucleus/tile/drawing.cpp:41-81 | and only one |
| Drawing.FindGroup | nucleus/tile/drawing.cpp:69-72 | the search from the end finds the last tile whose sibling group is full |
| Drawing.CoarsestMergedFirst | nucleus/tile/drawing.cpp:46-72 | in the sorted list no full sibling group is coarser than the one found |
| Drawing.Merge | nucleus/tile/drawing.cpp:59-75 | list and set lose the four siblings, the rest keeps its order, the parent comes last, and both stay equal |
| Drawing.Erase | nucleus/tile/drawing.cpp:61-62 | removes the one occurrence and keeps the order |
| Drawing.SortByZoom | nucleus/tile/drawing.cpp:46 | a permutation, finest zoom first |
| Drawing.LimitEndsExactly | nucleus/tile/drawing.cpp:68-79 | on every exact cover, passes of the loop reach the maximum if and only if it is at least one |
| Drawing.ZeroNeverReached | nucleus/tile/drawing.cpp:68 | with a maximum of zero the guard holds in every state that the loop can reach |
| Drawing.PartitionNotEmpty | nucleus/tile/drawing.cpp:68-79 | no exact cover is empty |
| Drawing.SiblingsAgree | nucleus/tile/drawing.cpp:70-72 | in an exact cover the wrap-around of the zoom level above zero gives the root no full sibling group |
| Drawing.RootCannotMerge | nucleus/tile/drawing.cpp:68-79 | the root alone is an exact cover without a full sibling group |
| Drawing.DrawListGenerator.GenerateFor | nucleus/tile/DrawListGenerator.cpp:52-69 | exactly the tiles that cannot be refined but lie below refined ones: a partition of the root with 3 x refined + 1 tiles, all available but possibly the root, covering the unrestricted list |
| Drawing.AvailabilityIsResidency | nucleus/tile/DrawListGenerator.cpp:55-61 | when the available tiles are the children of a set of quads, a tile is refined if and only if its quad is in the set and the camera wants it |
| Drawing.DrawListGenerator.AddTile | nucleus/tile/DrawListGenerator.cpp:40-43 | the tile becomes available, nothing else changes |
| Drawing.DrawListGenerator.RemoveTile | nucleus/tile/DrawListGenerator.cpp:45-48 | the tile is no longer available, nothing else changes |
| Traversal.LeavesPartition | nucleus/tile/drawing.cpp:25-29 | the generated leaves are an exact, duplicate-free partition, one more than three times the refined tiles |
| Traversal.LeafExact | nucleus/tile/drawing.cpp:25-29 | a tile is generated if and only if it is not refined and everything above it is |
| Traversal.ExactlyOne | nucleus/tile/drawing.cpp:25-29 | every tile at least as fine as a partition has exactly one ancestor-or-self in it |
| Traversal.CoarserLeaves | nucleus/tile/DrawListGenerator.cpp:54-63 | refining fewer tiles gives every leaf of the finer traversal an ancestor-or-self among the coarser leaves |
| Traversal.InnerReached | nucleus/tile/Scheduler.cpp:284-293 | the collected inner nodes are those reached through refined tiles |
| Quads.ChildrenOfSize | nucleus/tile/GeometryScheduler.cpp:40-41 | a set of quads has four times as many tiles |
| Quads.AllChildrenAvailable | nucleus/tile/DrawListGenerator.cpp:55-61 | all four children of a tile belong to a set of quads if and only if the tile is one of them |
| LabelFilter.RunConsistent | nucleus/map_label/Filter.cpp:35-78 | after every run, once all messages have arrived, the view shows exactly the live tiles, and once the timer fires each of them filtered with the definitions passed in last |
| LabelFilter.RunDefinitions | nucleus/map_label/Filter.cpp:35-37 | the filter works with the definitions passed in last |
| LabelRuns.RunLive | nucleus/map_label/Filter.cpp:56-73 | the filter's tile of an id is that of the last update that mentions the id |
| LabelRuns.RunShowsLatest | nucleus/map_label/Filter.cpp:35-78 | in the end a tile is shown if and only if the last update that mentions it brought it, with the data of that update filtered by the definitions passed in last |
| LabelRuns.Throttled | nucleus/map_label/Filter.cpp:42-53 | between two firings of the timer the filter runs once per update, and once more if the definitions change and the timer was off |
| LabelRuns.PendingChange | nucleus/map_label/Filter.cpp:49-53 | after changes while the timer is on, its next firing runs the filter exactly once |
| LabelFilter.PrefixShown | app/RenderingContext.cpp:201-203 | while messages are in transit, the view is exactly what the filter made of its live tiles in some earlier state of the run |
| LabelFilter.StepKeeps | nucleus/map_label/Filter.cpp:35-78 | every event keeps: view keys are the live tiles; each is up to date or queued; a non-empty queue has run flag and timer set; the repeated removal list names no live tile |
| LabelFilter.FilterExact | nucleus/map_label/Filter.cpp:121-140 | running the filter empties the queue and makes the view exact |
| LabelRuns.RefilterConcat | nucleus/map_label/Filter.cpp:130-137 | a message lists the queued tiles that are still live, in the order of the queue |
| LabelFilter.DeltaEnables | nucleus/map_label/Scheduler.cpp:34-58 | the label scheduler's deltas are such disjoint updates and keep the live tiles equal to the tiles of the quads on the GPU |
| LabelFilter.FedByRun | nucleus/map_label/Filter.cpp:35-78 | fed with the deltas of any streaming run, in order and interleaved with anything else, the filter only sees legal events, and its live tiles are those of a GPU cache of that run |
| LabelFilter.ShowRefiltered | gl_engine/MapLabels.cpp:146-161 | showing the refiltered tiles brings every queued live tile up to date and leaves the others alone |
| LabelRuns.ReceiveExactly | gl_engine/MapLabels.cpp:146-161 | after a message a tile is shown if and only if it was updated, or was shown and not removed; the others keep their data |
| LabelRuns.LastUpdateCounts | gl_engine/MapLabels.cpp:154-160 | of several updates of one tile in a message the last one counts |
| LabelFilter.ApplyFilterCounts | nucleus/map_label/Filter.cpp:80-119 | filtering keeps exactly the shown points, as often as they occur |
| LabelFilter.ApplyFilterConcat | nucleus/map_label/Filter.cpp:80-119 | filtering keeps their order |
| LabelFilter.HiddenExactly | nucleus/map_label/Filter.cpp:84-117 | a point is hidden if and only if its kind is switched off or it lacks what is asked of its kind, case by case |
| LabelFilter.LabelFilterObject.UpdateFilter | nucleus/map_label/Filter.cpp:35-54 | the new definitions are stored and every live tile is queued; the filter runs at once unless the timer is armed, which it is afterwards |
| LabelFilter.LabelFilterObject.UpdateQuads | nucleus/map_label/Filter.cpp:56-78 | removals, additions and the queue, then the filter runs |
| LabelFilter.LabelFilterObject.TimerTimeout | nucleus/map_label/Filter.cpp:29-32 | the timer runs the filter if the flag is set |
| LabelFilter.LabelFilterObject.RunFilter | nucleus/map_label/Filter.cpp:121-140 | drains the queue, skipping tiles removed in the meantime, and emits one signal; without the flag nothing happens |
| LabelFilter.MapLabels.UpdateLabels | gl_engine/MapLabels.cpp:146-161 | the view after one signal; drawable tiles stay equal to the tiles on the GPU |

## Left out

- Srs.HashBijectiveInX: does not cover undefined behaviour; the C++ products of two 16-bit values are computed in signed `int` and may overflow, and are read here as arithmetic modulo 2^16.
- Schedulers.Scheduler.ReceiveQuad: does not model the variant for Emscripten, nor statistics and timers started there.
- Rates.RunRateBound: rate, period and slot limit are fixed per run; lowering a limit in mid-run legitimately leaves counts above it.
- Draining.QuietRunsDrain: assumes that a timer armed for at least one millisecond fires strictly later than it was armed.
- Pipeline.StepKeeps: the network answers each request exactly once, in any order; a service that answers twice or never is not modelled.
- Caches.Cache.WriteToDisk: writes succeed, serialisation is the identity, a path names one id, and a cache object uses one directory; failed writes, which make the scheduler delete the directory, are not modelled.
- LabelFilter.MapLabels.UpdateLabels: the early return without an OpenGL context during shutdown is not modelled, here and in the delta consumers.
- Drawing.SortByZoom: `std::sort` leaves the order of equal zoom levels open; an insertion sort stands in for it.
- Threads and mutexes: a queued signal is a FIFO of deltas, everything else runs to completion.
- Camera, frustum, bounding boxes and Mercator formulas: replaced by the refine predicate.
- `cull`, `sort` and `compute_bounds` in `drawing.cpp`: floating-point geometry around plain loops.
- Texture upload and all drawing, and the WebGPU shader that reads the dictionary with another hash and without wrapping around.
- `Texture3DScheduler`: it skips empty tiles but deletes all four children, so the strict delta protocol does not apply to its consumer.
- Image decoding, stitching and point-of-interest parsing in `transform_and_emit`.
- `clear_full_cache`, the switch for network reachability, settings, statistics and timer intervals.
