/** `struct cmt_map` and the functions of cmt_map.c: creation and
    destruction of a map, the hash lookup, the creation of a series slot and
    the resolution of a tuple of label values to a slot. Each method is
    proved against the value-level definitions of `MapSpec`. */
module CmtMap {
  import opened Base
  import opened CmtHash
  import opened CmtMetric
  import opened MapSpec

  /** Number of list entries a series owns: the slot itself and one entry
      per label value. */
  function SeriesEntries(ms: seq<Metric>): (n: nat)
    ensures n >= |ms|
    decreases |ms|
  {
    if ms == [] then 0 else 1 + |ms[0].labels| + SeriesEntries(ms[1..])
  }

  /** A label map: the kind of metric it belongs to, the declared label
      keys, the labelled series in insertion order, and the static series
      with the flag that says whether it is active. `digest` is the XXH64
      function every hash of this map is computed with. */
  class MetricMap {
    const kind: int
    const labelCount: int
    const digest: Digest
    var labelKeys: seq<CString>
    var metrics: seq<Metric>
    var staticSet: bool
    var staticMetric: Metric

    /** The map as a value, for the definitions of `MapSpec`. */
    function Abs(): (s: Store)
      reads this
      ensures s.labelCount == labelCount && s.metrics == metrics
      ensures s.staticSet == staticSet && s.staticMetric == staticMetric
    {
      Store(labelCount, metrics, staticSet, staticMetric)
    }

    /** A fully built map: one key per declared label, and the store
      invariant. */
    ghost predicate Valid()
      reads this
    {
      |labelKeys| == labelCount && StoreInvariant(Abs())
    }

    /** The zero-filled map `calloc` returns, with its header fields set. */
    constructor (kind: int, count: nat, digest: Digest)
      ensures this.kind == kind && labelCount == count && this.digest == digest
      ensures labelKeys == [] && metrics == [] && !staticSet && staticMetric == StaticZero
    {
      this.kind := kind;
      labelCount := count;
      this.digest := digest;
      labelKeys := [];
      metrics := [];
      staticSet := false;
      staticMetric := StaticZero;
    }

    /** `cmt_map_create`: a negative count is refused; otherwise the map is
      allocated, a map without labels gets its static series activated,
      and one key is copied per declared label, in order. Any failed
      allocation destroys what was built and gives NULL. */
    static method Create(kind: int, count: int, labels: seq<CString>, digest: Digest) returns (m: MetricMap?)
      requires count <= |labels|
      ensures count < 0 ==> m == null
      ensures m != null ==> fresh(m) && m.Valid()
      ensures m != null ==> m.kind == kind && m.labelCount == count && m.digest == digest
      ensures m != null ==> m.labelKeys == labels[..count] && m.metrics == []
      ensures m != null ==> m.staticSet == (count == 0) && m.staticMetric == StaticZero
    {
      if count < 0 {
        return null;
      }
      var ok := Malloc();
      if !ok {
        return null;
      }
      m := new MetricMap(kind, count, digest);
      if count == 0 {
        m.staticSet := true;
      }
      var i := 0;
      while i < count
        invariant 0 <= i <= count
        invariant fresh(m) && m.kind == kind && m.labelCount == count && m.digest == digest
        invariant m.labelKeys == labels[..i] && m.metrics == []
        invariant m.staticSet == (count == 0) && m.staticMetric == StaticZero
      {
        // the `struct cmt_map_label`, then the copy of its name
        ok := Malloc();
        if ok {
          ok := Malloc();
        }
        if !ok {
          var _ := m.Destroy();
          return null;
        }
        m.labelKeys := m.labelKeys + [labels[i]];
        i := i + 1;
      }
    }

    /** `metric_hash_lookup`: hash 0 names the static series; any other hash
      names the first series in insertion order that carries it, or none.
      Only hashes are compared, never label values. */
    method HashLookup(hash: bv64) returns (r: Option<Slot>)
      ensures hash == 0 ==> r == Some(Static)
      ensures hash != 0 && r.Some? ==>
        && r.value.Index? && r.value.i < |metrics| && metrics[r.value.i].hash == hash
        && forall j :: 0 <= j < r.value.i ==> metrics[j].hash != hash
      ensures hash != 0 && r.None? ==> forall j :: 0 <= j < |metrics| ==> metrics[j].hash != hash
    {
      if hash == 0 {
        return Some(Static);
      }
      var i := 0;
      while i < |metrics|
        invariant 0 <= i <= |metrics|
        invariant forall j :: 0 <= j < i ==> metrics[j].hash != hash
      {
        if metrics[i].hash == hash {
          return Some(Index(i));
        }
        i := i + 1;
      }
      return None;
    }

    /** `map_metric_create`: a new zero-valued series with the given hash and
      a copy of the first `count` label values, in order. Every allocation
      may fail, and then there is no series. */
    static method MapMetricCreate(hash: bv64, a: LabelArgs) returns (m: Option<Metric>)
      requires a.count > 0 ==> a.vals.Some? && a.count <= |a.vals.value|
      requires a.count > 0 ==> forall i :: 0 <= i < a.count ==> a.vals.value[i].Some?
      ensures m.Some? ==> m.value.val == 0.0 && m.value.timestamp == 0 && m.value.hash == hash
      ensures m.Some? && a.count <= 0 ==> m.value.labels == []
      ensures m.Some? && a.count > 0 ==>
        |m.value.labels| == a.count && forall i :: 0 <= i < a.count ==> a.vals.value[i] == Some(m.value.labels[i])
    {
      var ok := Malloc();
      if !ok {
        return None;
      }
      var labels: seq<CString> := [];
      var i := 0;
      while i < a.count
        invariant 0 <= i && (a.count > 0 ==> i <= a.count) && (a.count <= 0 ==> i == 0)
        invariant |labels| == i
        invariant i > 0 ==> forall k :: 0 <= k < i ==> a.vals.value[k] == Some(labels[k])
      {
        ok := Malloc();
        if ok {
          ok := Malloc();
        }
        if !ok {
          return None;
        }
        labels := labels + [a.vals.value[i].value];
        i := i + 1;
      }
      m := Some(Metric(0.0, 0, hash, labels));
    }

    /** The hash loop of `cmt_map_metric_get` (the caller has already
      ruled out a wrong cardinality and the static path): the digest of the
      metric name and the label values read, or NULL on the first NULL
      value. */
    method HashLabels(fqname: string, a: LabelArgs) returns (h: Option<bv64>)
      requires Readable(a, labelCount) && !WrongCardinality(a, labelCount)
      ensures h.None? <==> HasNull(a, labelCount)
      ensures h.Some? ==> h.value == digest(WrittenStream(fqname, Tuple(a, labelCount)))
    {
      var stream := fqname;
      var tuple: seq<CString> := [];
      var i := 0;
      while i < a.count
        invariant 0 <= i && (a.count > 0 ==> i <= a.count) && (a.count <= 0 ==> i == 0)
        invariant |tuple| == i
        invariant i > 0 ==> forall k :: 0 <= k < i ==> a.vals.value[k] == Some(tuple[k])
        invariant stream == WrittenStream(fqname, tuple)
      {
        var p := a.vals.value[i];
        if p.None? {
          assert HasNull(a, labelCount);
          return None;
        }
        ConcatSnoc(tuple, p.value);
        stream := stream + p.value;
        tuple := tuple + [p.value];
        i := i + 1;
      }
      assert !HasNull(a, labelCount);
      assert tuple == Tuple(a, labelCount);
      h := Some(digest(stream));
    }

    /** `cmt_map_metric_get`: the resolution `Resolve` describes, except that
      when it takes the creating branch the allocation may fail, and then
      the result is NULL and the map is unchanged. The hash is taken over
      the metric name followed by the label values back to back. */
    method MetricGet(fqname: string, a: LabelArgs, writeOp: bool) returns (r: Option<Slot>)
      requires Valid() && Readable(a, labelCount)
      modifies this
      ensures Valid() && labelKeys == old(labelKeys)
      ensures var res := Resolve(old(Abs()), digest, fqname, a, writeOp);
        || (r == res.slot && Abs() == res.store)
        || (Creates(old(Abs()), digest, fqname, a, writeOp) && r.None? && Abs() == old(Abs()))
    {
      ResolvePreservesInvariant(Abs(), digest, fqname, a, writeOp);
      if a.count > 0 && a.count != labelCount {
        return None;
      }
      if a.count == 0 && a.vals.None? {
        if staticSet {
          r := Some(Static);
        } else if writeOp {
          r := Some(Static);
          staticSet := true;
        } else {
          r := None;
        }
        return;
      }
      var h := HashLabels(fqname, a);
      if h.None? {
        return None;
      }
      var hash := h.value;
      var found := HashLookup(hash);
      if found.Some? {
        assert hash != 0 ==> FirstWithHash(metrics, hash) == Some(found.value.i);
        return found;
      }
      assert FirstWithHash(metrics, hash).None?;
      if !writeOp {
        return None;
      }
      var m := MapMetricCreate(hash, a);
      if m.None? {
        return None;
      }
      assert m.value == NewMetric(hash, Tuple(a, labelCount));
      metrics := metrics + [m.value];
      r := Some(Index(|metrics| - 1));
    }

    /** One write (`cmt_metric_set`, `_inc`, `_dec`, `_add`, `_sub`) to a
      resolved slot: the slot takes its new value and timestamp, nothing
      else in the map changes. */
    method UpdateMetric(slot: Slot, u: Update)
      requires Valid() && SlotIn(Abs(), slot)
      modifies this
      ensures Valid() && labelKeys == old(labelKeys)
      ensures Abs() == UpdateSlot(old(Abs()), slot, u)
    {
      UpdateSlotPreservesInvariant(Abs(), slot, u);
      match slot
      case Static =>
        staticMetric := Apply(staticMetric, u);
      case Index(i) =>
        metrics := metrics[i := Apply(metrics[i], u)];
    }

    /** `cmt_map_metric_get_val`: a non-creating resolution; -1 with the
      output untouched when it finds no slot, otherwise 0 and the slot's
      value. The map never changes. */
    method MetricGetVal(fqname: string, a: LabelArgs, outVal: real) returns (ret: int, out: real)
      requires Valid() && Readable(a, labelCount)
      modifies this
      ensures Valid() && labelKeys == old(labelKeys) && Abs() == old(Abs())
      ensures var res := Resolve(old(Abs()), digest, fqname, a, false);
        && (ret == -1 <==> res.slot.None?)
        && (ret == -1 ==> out == outVal)
        && (ret != -1 ==> ret == 0 && SlotIn(Abs(), res.slot.value) && out == ValueOf(Abs(), res.slot.value))
    {
      ReadOnlyResolveChangesNothing(Abs(), digest, fqname, a);
      ResolvedSlotCarriesHash(Abs(), digest, fqname, a, false);
      var slot := MetricGet(fqname, a, false);
      if slot.None? {
        return -1, outVal;
      }
      return 0, ValueOf(Abs(), slot.value);
    }

    /** `map_metric_destroy` for the i-th series: its label values are
      released, then it is unlinked from the series list and released. */
    method MapMetricDestroy(i: nat) returns (released: nat)
      requires i < |metrics|
      modifies this
      ensures metrics == old(metrics[..i] + metrics[i + 1..])
      ensures released == 1 + |old(metrics[i]).labels|
      ensures labelKeys == old(labelKeys) && staticSet == old(staticSet) && staticMetric == old(staticMetric)
    {
      var rest, n := DestroyLabelList(metrics[i].labels);
      metrics := metrics[..i] + metrics[i + 1..];
      released := n + 1;
    }

    /** `cmt_map_destroy`: every label key, then every series with its
      label values, is unlinked and released. Returns how many list entries
      were released. */
    method Destroy() returns (released: nat)
      modifies this
      ensures labelKeys == [] && metrics == []
      ensures released == |old(labelKeys)| + SeriesEntries(old(metrics))
    {
      labelKeys, released := DestroyLabelList(labelKeys);
      while metrics != []
        invariant released + SeriesEntries(metrics) == |old(labelKeys)| + SeriesEntries(old(metrics))
        invariant labelKeys == []
        decreases |metrics|
      {
        ghost var before := metrics;
        var n := MapMetricDestroy(0);
        assert metrics == before[1..];
        released := released + n;
      }
    }

    /** `destroy_label_list`: every entry of a label list is released, head
      first; the list ends empty. Returns the emptied list and how many
      entries were released. */
    static method DestroyLabelList(list: seq<CString>) returns (rest: seq<CString>, released: nat)
      ensures rest == [] && released == |list|
    {
      rest := list;
      released := 0;
      while rest != []
        invariant released + |rest| == |list|
        decreases |rest|
      {
        rest := rest[1..];
        released := released + 1;
      }
    }
  }
}
