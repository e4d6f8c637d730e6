/** The gauge layer of cmt_gauge.c: a gauge owns its options and one label
    map, is linked into the context's list of gauges while it lives, and
    turns every write into a creating resolution followed by one update of
    the resolved slot, and every read into a non-creating resolution. */
module CmtGauge {
  import opened Base
  import opened CmtHash
  import opened CmtMetric
  import opened MapSpec
  import opened CmtMap

  /** `CMT_GAUGE`, the kind tag a gauge's map carries. */
  const GaugeKind: int := 1

  /** `struct cmt_opts`: the names given at creation and the fully
      qualified name every hash of the gauge starts from. */
  datatype Opts = Opts(ns: Option<CString>, subsystem: Option<CString>, name: CString, help: CString, fqname: string)

  /** `cmt_opts_init`: keeps the names and builds the fully qualified name.
      How the name is built (cmt_opts.c) is not part of this model, and the
      call allocates, so it may fail. */
  method OptsInit(ns: Option<CString>, subsystem: Option<CString>, name: CString, help: CString)
    returns (ok: bool, opts: Opts)
    ensures opts.ns == ns && opts.subsystem == subsystem && opts.name == name && opts.help == help
  {
    ok := Malloc();
    var fqname: string :| true;
    opts := Opts(ns, subsystem, name, help, fqname);
  }

  /** The list `s` without its first occurrence of `g`: `mk_list_del` on a
      gauge linked into it. */
  function Unlink(s: seq<Gauge>, g: Gauge): (r: seq<Gauge>)
    ensures g in s ==> |r| == |s| - 1
    ensures g !in s ==> r == s
    ensures forall x :: x in r ==> x in s
    decreases |s|
  {
    if s == [] then []
    else if s[0] == g then s[1..]
    else [s[0]] + Unlink(s[1..], g)
  }

  /** Linking a gauge at the tail and unlinking it again gives the list
      back: a failed create leaves the context's list as it found it. */
  lemma {:induction false} UnlinkAppended(s: seq<Gauge>, g: Gauge)
    requires g !in s
    ensures Unlink(s + [g], g) == s
    decreases |s|
  {
    if s != [] {
      assert (s + [g])[0] == s[0];
      assert (s + [g])[1..] == s[1..] + [g];
      UnlinkAppended(s[1..], g);
    }
  }

  /** `struct cmt`, as far as gauges go: the list of live gauges. */
  class Cmt {
    var gauges: seq<Gauge>

    constructor ()
      ensures gauges == []
    {
      gauges := [];
    }
  }

  /** `struct cmt_gauge`: its options and its label map (NULL until the map
      is created). */
  class Gauge {
    var opts: Opts
    var metricMap: MetricMap?

    /** A gauge whose creation succeeded. */
    ghost predicate Valid()
      reads this, metricMap
    {
      metricMap != null && metricMap.Valid()
    }

    /** The zero-filled gauge `calloc` returns. */
    constructor ()
      ensures metricMap == null
    {
      metricMap := null;
      opts := Opts(None, None, [], [], []);
    }

    /** The resolution every write of this gauge performs, when it succeeds. */
    ghost function WriteResolution(a: LabelArgs): Resolution
      reads this, metricMap
      requires Valid() && Readable(a, metricMap.labelCount)
    {
      Resolve(metricMap.Abs(), metricMap.digest, opts.fqname, a, true)
    }

    /** The write common to set, inc, dec, add and sub: a creating
      resolution, then one update of the resolved slot. Returns -1, the map
      unchanged, when there is no slot: the arguments were refused, or the
      new slot could not be allocated. */
    method Write(u: Update, a: LabelArgs) returns (ret: int)
      requires Valid() && Readable(a, metricMap.labelCount)
      modifies metricMap
      ensures Valid() && metricMap.labelKeys == old(metricMap.labelKeys)
      ensures ret == 0 || ret == -1
      ensures old(WriteResolution(a)).slot.None? ==> ret == -1
      ensures ret == -1 ==> metricMap.Abs() == old(metricMap.Abs())
      ensures ret == -1 && old(WriteResolution(a)).slot.Some? ==>
        Creates(old(metricMap.Abs()), metricMap.digest, opts.fqname, a, true)
      ensures ret == 0 ==> var res := old(WriteResolution(a));
        res.slot.Some? && SlotIn(res.store, res.slot.value)
        && metricMap.Abs() == UpdateSlot(res.store, res.slot.value, u)
    {
      ResolvedSlotCarriesHash(metricMap.Abs(), metricMap.digest, opts.fqname, a, true);
      var slot := metricMap.MetricGet(opts.fqname, a, true);
      if slot.None? {
        return -1;
      }
      metricMap.UpdateMetric(slot.value, u);
      return 0;
    }

    /** `cmt_gauge_set`. */
    method Set(timestamp: nat, val: real, a: LabelArgs) returns (ret: int)
      requires Valid() && Readable(a, metricMap.labelCount)
      modifies metricMap
      ensures Valid() && metricMap.labelKeys == old(metricMap.labelKeys)
      ensures ret == 0 || ret == -1
      ensures old(WriteResolution(a)).slot.None? ==> ret == -1
      ensures ret == -1 ==> metricMap.Abs() == old(metricMap.Abs())
      ensures ret == -1 && old(WriteResolution(a)).slot.Some? ==>
        Creates(old(metricMap.Abs()), metricMap.digest, opts.fqname, a, true)
      ensures ret == 0 ==> var res := old(WriteResolution(a));
        res.slot.Some? && SlotIn(res.store, res.slot.value)
        && metricMap.Abs() == UpdateSlot(res.store, res.slot.value, Update.Set(timestamp, val))
    {
      ret := Write(Update.Set(timestamp, val), a);
    }

    /** `cmt_gauge_inc`. */
    method Inc(timestamp: nat, a: LabelArgs) returns (ret: int)
      requires Valid() && Readable(a, metricMap.labelCount)
      modifies metricMap
      ensures Valid() && metricMap.labelKeys == old(metricMap.labelKeys)
      ensures ret == 0 || ret == -1
      ensures old(WriteResolution(a)).slot.None? ==> ret == -1
      ensures ret == -1 ==> metricMap.Abs() == old(metricMap.Abs())
      ensures ret == -1 && old(WriteResolution(a)).slot.Some? ==>
        Creates(old(metricMap.Abs()), metricMap.digest, opts.fqname, a, true)
      ensures ret == 0 ==> var res := old(WriteResolution(a));
        res.slot.Some? && SlotIn(res.store, res.slot.value)
        && metricMap.Abs() == UpdateSlot(res.store, res.slot.value, Update.Inc(timestamp))
    {
      ret := Write(Update.Inc(timestamp), a);
    }

    /** `cmt_gauge_dec`. */
    method Dec(timestamp: nat, a: LabelArgs) returns (ret: int)
      requires Valid() && Readable(a, metricMap.labelCount)
      modifies metricMap
      ensures Valid() && metricMap.labelKeys == old(metricMap.labelKeys)
      ensures ret == 0 || ret == -1
      ensures old(WriteResolution(a)).slot.None? ==> ret == -1
      ensures ret == -1 ==> metricMap.Abs() == old(metricMap.Abs())
      ensures ret == -1 && old(WriteResolution(a)).slot.Some? ==>
        Creates(old(metricMap.Abs()), metricMap.digest, opts.fqname, a, true)
      ensures ret == 0 ==> var res := old(WriteResolution(a));
        res.slot.Some? && SlotIn(res.store, res.slot.value)
        && metricMap.Abs() == UpdateSlot(res.store, res.slot.value, Update.Dec(timestamp))
    {
      ret := Write(Update.Dec(timestamp), a);
    }

    /** `cmt_gauge_add`. */
    method Add(timestamp: nat, val: real, a: LabelArgs) returns (ret: int)
      requires Valid() && Readable(a, metricMap.labelCount)
      modifies metricMap
      ensures Valid() && metricMap.labelKeys == old(metricMap.labelKeys)
      ensures ret == 0 || ret == -1
      ensures old(WriteResolution(a)).slot.None? ==> ret == -1
      ensures ret == -1 ==> metricMap.Abs() == old(metricMap.Abs())
      ensures ret == -1 && old(WriteResolution(a)).slot.Some? ==>
        Creates(old(metricMap.Abs()), metricMap.digest, opts.fqname, a, true)
      ensures ret == 0 ==> var res := old(WriteResolution(a));
        res.slot.Some? && SlotIn(res.store, res.slot.value)
        && metricMap.Abs() == UpdateSlot(res.store, res.slot.value, Update.Add(timestamp, val))
    {
      ret := Write(Update.Add(timestamp, val), a);
    }

    /** `cmt_gauge_sub`. */
    method Sub(timestamp: nat, val: real, a: LabelArgs) returns (ret: int)
      requires Valid() && Readable(a, metricMap.labelCount)
      modifies metricMap
      ensures Valid() && metricMap.labelKeys == old(metricMap.labelKeys)
      ensures ret == 0 || ret == -1
      ensures old(WriteResolution(a)).slot.None? ==> ret == -1
      ensures ret == -1 ==> metricMap.Abs() == old(metricMap.Abs())
      ensures ret == -1 && old(WriteResolution(a)).slot.Some? ==>
        Creates(old(metricMap.Abs()), metricMap.digest, opts.fqname, a, true)
      ensures ret == 0 ==> var res := old(WriteResolution(a));
        res.slot.Some? && SlotIn(res.store, res.slot.value)
        && metricMap.Abs() == UpdateSlot(res.store, res.slot.value, Update.Sub(timestamp, val))
    {
      ret := Write(Update.Sub(timestamp, val), a);
    }

    /** `cmt_gauge_get_val`: a non-creating resolution; -1 with the output
      untouched on a miss, otherwise 0 and the slot's value. The map never
      changes. */
    method GetVal(a: LabelArgs, outVal: real) returns (ret: int, out: real)
      requires Valid() && Readable(a, metricMap.labelCount)
      modifies metricMap
      ensures Valid() && metricMap.labelKeys == old(metricMap.labelKeys) && metricMap.Abs() == old(metricMap.Abs())
      ensures var res := Resolve(old(metricMap.Abs()), metricMap.digest, opts.fqname, a, false);
        && (ret == -1 <==> res.slot.None?)
        && (ret == -1 ==> out == outVal)
        && (ret != -1 ==> ret == 0 && SlotIn(metricMap.Abs(), res.slot.value) && out == ValueOf(metricMap.Abs(), res.slot.value))
    {
      var r, val := metricMap.MetricGetVal(opts.fqname, a, 0.0);
      if r == -1 {
        return -1, outVal;
      }
      return 0, val;
    }
  }

  /** `cmt_gauge_create`: a NULL or empty name or help is refused before
      anything is allocated. Otherwise the gauge is allocated and linked into
      the context, its options are initialised and its map created; if
      either of these fails the gauge is destroyed again, which unlinks it,
      so the context's list of gauges is left as it was. */
  method GaugeCreate(cmt: Cmt, ns: Option<CString>, subsystem: Option<CString>, name: Option<CString>,
                     help: Option<CString>, labelCount: int, labelKeys: seq<CString>, digest: Digest)
    returns (g: Gauge?)
    requires labelCount <= |labelKeys|
    modifies cmt
    ensures name.None? || help.None? || name.value == [] || help.value == [] ==> g == null
    ensures labelCount < 0 ==> g == null
    ensures g == null ==> cmt.gauges == old(cmt.gauges)
    ensures g != null ==> && fresh(g) && fresh(g.metricMap) && g.Valid()
                          && cmt.gauges == old(cmt.gauges) + [g]
                          && name.Some? && help.Some?
                          && g.opts.ns == ns && g.opts.subsystem == subsystem
                          && g.opts.name == name.value && g.opts.help == help.value
                          && g.metricMap.kind == GaugeKind && g.metricMap.labelCount == labelCount
                          && g.metricMap.labelKeys == labelKeys[..labelCount] && g.metricMap.metrics == []
                          && g.metricMap.staticSet == (labelCount == 0) && g.metricMap.digest == digest
  {
    if name.None? || help.None? {
      return null;
    }
    if |name.value| == 0 || |help.value| == 0 {
      return null;
    }
    var ok := Malloc();
    if !ok {
      return null;
    }
    g := new Gauge();
    cmt.gauges := cmt.gauges + [g];

    var opts;
    ok, opts := OptsInit(ns, subsystem, name.value, help.value);
    g.opts := opts;
    if !ok {
      GaugeDestroy(cmt, g);
      UnlinkAppended(old(cmt.gauges), g);
      return null;
    }

    var m := MetricMap.Create(GaugeKind, labelCount, labelKeys, digest);
    g.metricMap := m;
    if m == null {
      GaugeDestroy(cmt, g);
      UnlinkAppended(old(cmt.gauges), g);
      return null;
    }
  }

  /** `cmt_gauge_destroy`: the gauge is unlinked from the context and its
      map, if it has one, is destroyed. */
  method GaugeDestroy(cmt: Cmt, g: Gauge)
    requires g in cmt.gauges
    modifies cmt, g.metricMap
    ensures cmt.gauges == Unlink(old(cmt.gauges), g)
    ensures g.metricMap != null ==> g.metricMap.labelKeys == [] && g.metricMap.metrics == []
  {
    cmt.gauges := Unlink(cmt.gauges, g);
    if g.metricMap != null {
      var _ := g.metricMap.Destroy();
    }
  }
}
