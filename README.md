# cmetrics label map and gauges, modelled in Dafny

This project models the label-keyed metric store of cmetrics
(`lib/cmetrics/src/cmt_map.c`) and the gauge operations built on it
(`lib/cmetrics/src/cmt_gauge.c`), and proves what they promise.

A map (`struct cmt_map`) owns three things:

- an ordered list of label keys;
- an insertion-ordered list of series slots (`struct cmt_metric`);
- one distinguished "static" slot, guarded by the flag `metric_static_set`.

`cmt_map_metric_get` resolves a tuple of label values to a slot in five steps:

1. It checks the cardinality.
2. It serves the static slot when the call passes no values and a NULL array.
3. It hashes the fully qualified metric name and then the label values.
4. It returns the first slot whose hash is equal. A hash of 0 names the static slot.
5. On a miss, and only for a write, it appends a new zero-valued slot.

A gauge owns its options and one map. It is linked into the context's list of gauges. Each write (set, inc, dec, add, sub) is a creating resolution followed by one update of the resolved slot. A read is a non-creating resolution.

The model has three layers:

- **`MapSpec`** works on values. `Store` is the map's state. `Resolve` is one resolution when every allocation succeeds. The lemmas state what a resolution means: error cases, the static path, lookup, growth, idempotence, stability, the store invariant, and write-then-read.
- **`CmtMap.MetricMap`** is a class with the map's fields. Its methods follow the C functions loop for loop and are proved against `MapSpec`. `MetricGet` does exactly what `Resolve` says, except that in the creating branch the allocation may fail; then it returns NULL and the map is unchanged.
- **`CmtGauge`** holds the `Cmt` context (its gauge list) and the `Gauge` class. Their methods are proved against the same definitions.

External effects are parameters or nondeterminism:

- XXH64 is an arbitrary function `Digest` from byte streams to 64-bit values. It is fixed per map, and every result holds for every such function.
- Every `malloc`/`calloc`/`cmt_sds_create` is `Base.Malloc`, which may fail.
- `cmt_opts_init` may fail. It yields an arbitrary fully qualified name.

Where the code and the prose description of the library differ, the model follows the code:

- The static path is taken only for a zero count together with a NULL array. A zero count with a non-NULL array hashes the metric name alone.
- A negative count is not rejected by resolution. It hashes the metric name alone.
- Slots form an insertion-ordered list, and the first slot with an equal hash wins.
- A computed hash of 0 resolves to the static slot.
- The hash is fed the metric name and then the label values back to back, with nothing between them, as the code does. The consequence, that some distinct tuples always share a slot, is stated by `MapSpec.AliasedTuplesShareSlot` and recorded under "## Findings".

## Model

| member | source | states |
|---|---|---|
| `MapSpec.Resolve` | lib/cmetrics/src/cmt_map.c:156-230 | the outcome of `cmt_map_metric_get` when allocation succeeds, hashing the stream the code builds; its own contract fixes only that the declared label count never changes, and the lemmas below state its meaning |
| `MapSpec.Tuple` | lib/cmetrics/src/cmt_map.c:199-206 | the values the hash loop reads are the first `labels_count` entries, in order, none for a count that is not positive |
| `MapSpec.FirstWithHash` | lib/cmetrics/src/cmt_map.c:88-95 | the result is the first slot in list order whose hash is equal, or none when no slot carries it |
| `MapSpec.UpdateSlot` | lib/cmetrics/src/cmt_gauge.c:84-88 | a write to a resolved slot changes that slot only: the other slots, the flag and the label count stay |
| `MapSpec.ResolveRejectsWrongCardinality` | lib/cmetrics/src/cmt_map.c:169-171 | a positive count other than the declared one gives NULL and leaves the map unchanged |
| `MapSpec.ResolveStaticPath` | lib/cmetrics/src/cmt_map.c:177-194 | a zero count with a NULL array gives the static slot exactly when it is active or the call writes, activates it on such a write, and never touches the slot list |
| `MapSpec.ResolveRejectsNullLabel` | lib/cmetrics/src/cmt_map.c:199-203 | a NULL label value gives NULL before lookup or creation, map unchanged |
| `MapSpec.ReadOnlyResolveChangesNothing` | lib/cmetrics/src/cmt_map.c:219-221 | a resolution without `write_op` never adds a slot or activates the static slot |
| `MapSpec.WriteResolveFailsOnlyOnBadArgs` | lib/cmetrics/src/cmt_map.c:169-229 | when allocation succeeds, a writing resolution gives NULL if and only if the count is wrong or a value is NULL |
| `MapSpec.ResolveGrowsOnlyWhenCreating` | lib/cmetrics/src/cmt_map.c:223-229 | existing slots keep place and content; exactly one slot `{0.0, hash, values}` is appended, and returned, if and only if the creating branch is taken |
| `MapSpec.ResolvedSlotCarriesHash` | lib/cmetrics/src/cmt_map.c:84-95 | a resolved labelled slot exists and carries the tuple's nonzero hash; a resolved static slot comes from the static path or from hash 0 |
| `MapSpec.ResolvePreservesInvariant` | lib/cmetrics/src/cmt_map.c:156-230 | every resolution keeps the map invariant: static slot has hash 0, labelled slots have distinct nonzero hashes and the declared number of values |
| `MapSpec.UpdateSlotPreservesInvariant` | lib/cmetrics/src/cmt_gauge.c:84-88 | a write to a slot keeps the map invariant |
| `MapSpec.NoLabelMapAlwaysStatic` | lib/cmetrics/src/cmt_map.c:182-184 | a map declared without labels resolves every static request to the static slot and never changes |
| `MapSpec.FirstWithHashStable` | lib/cmetrics/src/cmt_map.c:88-93 | appending slots behind the first match does not change the match |
| `MapSpec.FoundSlotSurvivesGrowth` | lib/cmetrics/src/cmt_map.c:209-213 | a slot found without change is found again, without change, in any store grown from this one |
| `MapSpec.ResolveIsIdempotent` | lib/cmetrics/src/cmt_map.c:209-229 | resolving a tuple again right after a successful write resolution gives the same slot and does not grow the list |
| `MapSpec.ResolvedSlotIsStable` | lib/cmetrics/src/cmt_map.c:209-229 | after any series of other resolutions, the tuple still resolves to the same slot and nothing changes |
| `MapSpec.ReplayGrows` | lib/cmetrics/src/cmt_map.c:223-228 | a series of resolutions only appends slots and activates the static slot |
| `MapSpec.DistinctHashesDistinctSlots` | lib/cmetrics/src/cmt_map.c:84-95 | tuples with different hashes never share a labelled slot, in the store or in any store grown from it |
| `MapSpec.FirstWithHashSeesOnlyHashes` | lib/cmetrics/src/cmt_map.c:88-93 | the match depends on the slots' hashes alone, never on their values or labels |
| `MapSpec.ReadResolveSeesOnlyIdentities` | lib/cmetrics/src/cmt_map.c:84-95 | a read resolution gives the same slot in two stores that differ only in values and timestamps |
| `MapSpec.WriteThenRead` | lib/cmetrics/src/cmt_gauge.c:148-163 | after a successful write, a read of the same tuple finds the same slot, changes nothing, and sees the written value (set) or the stepped value (inc, dec, add, sub) |
| `CmtHash.Concat` | lib/cmetrics/src/cmt_map.c:199-206 | the values as the loop feeds them: exactly their bytes, back to back, with nothing added |
| `CmtHash.ConcatSnoc` | lib/cmetrics/src/cmt_map.c:204-205 | each loop step extends the stream by exactly the bytes of one more value |
| `MapSpec.AliasedTuplesShareSlot` | lib/cmetrics/src/cmt_map.c:197-213 | as written, after a write of ("a","bc") on a two-label map, ("ab","c") resolves to that same slot under every digest and changes nothing |
| `CmtHash.Terminated` | lib/cmetrics/src/cmt_map.c:199-206 | the corrected stream (not the one the code builds) holds every value byte plus one NUL per value |
| `CmtHash.TerminatedInjective` | lib/cmetrics/src/cmt_map.c:199-206 | the corrected stream determines the tuple of values |
| `CmtHash.DistinctTuplesDistinctStreams` | lib/cmetrics/src/cmt_map.c:197-208 | with the corrected stream only, distinct tuples under one metric name feed the digest distinct streams; the code's stream does not have this property |
| `CmtHash.WrittenStreamAliases` | lib/cmetrics/src/cmt_map.c:197-208 | as written, the tuples ("a","bc") and ("ab","c") feed the same stream and get the same hash under every digest |
| `CmtMetric.NewMetric` | lib/cmetrics/src/cmt_map.c:111-113 | a new slot has value 0.0, the computed hash and the given values |
| `CmtMetric.Apply` | lib/cmetrics/src/cmt_gauge.c:84-88 | a write records its timestamp and never changes the slot's hash or values |
| `CmtMap.MetricMap.Create` | lib/cmetrics/src/cmt_map.c:28-77 | a negative count gives NULL; a map has the given kind and count, its label keys are exactly the first `count` names in order, no slots, and the static slot active exactly when `count == 0` |
| `CmtMap.MetricMap.HashLookup` | lib/cmetrics/src/cmt_map.c:79-96 | hash 0 gives the static slot; otherwise the first slot in list order with an equal hash, or NULL when no slot has it |
| `CmtMap.MetricMap.MapMetricCreate` | lib/cmetrics/src/cmt_map.c:98-137 | a created slot has value 0.0, the hash, and exactly the first `count` label values in order |
| `CmtMap.MetricMap.HashLabels` | lib/cmetrics/src/cmt_map.c:196-208 | NULL exactly when a value read is NULL; otherwise the digest of the metric name followed by the values back to back, with no separator |
| `CmtMap.MetricMap.MetricGet` | lib/cmetrics/src/cmt_map.c:156-230 | result and new state are those of `Resolve`, or, when the creating branch's allocation fails, NULL with the map unchanged; the invariant holds afterwards |
| `CmtMap.MetricMap.UpdateMetric` | lib/cmetrics/src/cmt_gauge.c:84-88 | the map after one write is `UpdateSlot` of the map before |
| `CmtMap.MetricMap.MetricGetVal` | lib/cmetrics/src/cmt_map.c:233-248 | -1 with the output untouched exactly when a read resolution finds no slot, otherwise 0 and the slot's value; the map never changes |
| `CmtMap.MetricMap.MapMetricDestroy` | lib/cmetrics/src/cmt_map.c:139-154 | the slot's values are released and the slot is unlinked from the list; nothing else changes |
| `CmtMap.MetricMap.Destroy` | lib/cmetrics/src/cmt_map.c:250-270 | every label key and every slot with its values is released, and the lists end empty |
| `CmtMap.MetricMap.DestroyLabelList` | lib/cmetrics/src/cmt_map.c:279-294 | every entry is released, one per entry, and the list ends empty |
| `CmtGauge.OptsInit` | lib/cmetrics/src/cmt_gauge.c:50-54 | the options keep the namespace, subsystem, name and help given; the call may fail |
| `CmtGauge.Unlink` | lib/cmetrics/src/cmt_gauge.c:68 | unlinking a linked gauge shortens the list by one and adds nothing |
| `CmtGauge.UnlinkAppended` | lib/cmetrics/src/cmt_gauge.c:47-61 | linking a gauge at the tail and unlinking it gives the list back |
| `CmtGauge.GaugeCreate` | lib/cmetrics/src/cmt_gauge.c:27-64 | NULL or empty name or help, or a negative label count, gives NULL; a failed create leaves the gauge list unchanged; success appends the new gauge, whose map carries the given keys |
| `CmtGauge.GaugeDestroy` | lib/cmetrics/src/cmt_gauge.c:66-74 | the gauge is unlinked and its map, if any, emptied |
| `CmtGauge.Gauge.Write` | lib/cmetrics/src/cmt_gauge.c:76-89 | a creating resolution then one update; -1 with the map unchanged on failure, which happens on bad arguments or a failed allocation only |
| `CmtGauge.Gauge.Set` | lib/cmetrics/src/cmt_gauge.c:76-89 | -1, with the map unchanged, only when the creating resolution refuses the arguments or its allocation fails; otherwise 0 and the resolved slot, materialised if new, holds the value and timestamp |
| `CmtGauge.Gauge.Inc` | lib/cmetrics/src/cmt_gauge.c:91-104 | -1, with the map unchanged, only when the creating resolution refuses the arguments or its allocation fails; otherwise 0 and the resolved slot is incremented |
| `CmtGauge.Gauge.Dec` | lib/cmetrics/src/cmt_gauge.c:106-118 | -1, with the map unchanged, only when the creating resolution refuses the arguments or its allocation fails; otherwise 0 and the resolved slot is decremented |
| `CmtGauge.Gauge.Add` | lib/cmetrics/src/cmt_gauge.c:120-132 | -1, with the map unchanged, only when the creating resolution refuses the arguments or its allocation fails; otherwise 0 and the delta is added to the resolved slot |
| `CmtGauge.Gauge.Sub` | lib/cmetrics/src/cmt_gauge.c:134-146 | -1, with the map unchanged, only when the creating resolution refuses the arguments or its allocation fails; otherwise 0 and the delta is subtracted from the resolved slot |
| `CmtGauge.Gauge.GetVal` | lib/cmetrics/src/cmt_gauge.c:148-163 | never creates a slot; -1 with the output untouched on a miss, 0 and the slot's value on a hit |

## Left out

- XXH64 internals are not modelled. The digest is an arbitrary function of the byte stream, so hash collisions are possible in the model as in the library.
- The linked-list splicing of `mk_list` is not modelled. Lists are Dafny sequences, and `cmt_sds` strings are Dafny strings.
- Memory accounting is not modelled. Releases are counted but not tracked on a heap. The error path of `map_metric_create` frees the slot but not the labels already copied (lines 134-136), and this leak is not represented.
- CmtMap.MetricMap.Destroy empties the map's lists instead of freeing the map. A destroyed map object cannot be reclaimed in Dafny.
- CmtMap.MetricMap.MapMetricCreate gives a new slot timestamp 0. The source leaves it uninitialised.
- The floating-point arithmetic of `cmt_metric.c` is not modelled. That file is not part of this model. Values are exact reals, and timestamps are unbounded naturals rather than 64-bit.
- `cmt_errno()` logging is left out.
- `cmt_opts_init`, `cmt_opts_exit` and the way the fully qualified name is built are not modelled. They live in `cmt_opts.c`, which is not part of this model. `map->opts` is not stored: resolution takes the name as a parameter.
- `cmt_gauge_destroy` is declared to return `int` but returns nothing. It is modelled without a result.
- `CMT_GAUGE` is taken to be 1. `cmetrics.h` is not part of this model.
- The context's list of gauges is modelled only as far as one gauge's membership goes.
- The MessagePack decoding helpers declared in `cmt_mpack_utils.h` are left out. Their bodies are not part of this model.
- CmtGauge.GaugeCreate does not state that nothing is allocated before the name and help are checked. The model has no allocation log; it states only the NULL result and the unchanged gauge list.
- CmtMap.MetricMap.MapMetricCreate, like CmtMap.MetricMap.Create, can fail on any allocation. Their contracts describe the result only when it is not NULL.

## Findings

| source | as written | input that shows it | evidently intended | confidence | as-written member | corrected member |
|---|---|---|---|---|---|---|
| lib/cmetrics/src/cmt_map.c:204-205 | each label value is hashed as `strlen` bytes, with nothing between values | the tuples ("a","bc") and ("ab","c") under the same metric name feed the same bytes to XXH64, so they get the same hash and share one slot | distinct tuples feed distinct streams, so only a true XXH64 collision can merge two series; hashing `strlen + 1` bytes (each value with its NUL) does this. The map model keeps the code's stream, and `MapSpec.AliasedTuplesShareSlot` states the consequence for resolution | not executed; high that the aliasing occurs, medium that it is unintended | `CmtHash.WrittenStreamAliases` | `CmtHash.TerminatedInjective` |
