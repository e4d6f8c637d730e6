/** What resolving a tuple of label values against a map means, stated on
    values: the abstract state of a map (`Store`), the outcome of one
    resolution when every allocation succeeds (`Resolve`), and the lemmas
    that give the resolution its meaning. The class `CmtMap.MetricMap` is
    proved against these definitions. */
module MapSpec {
  import opened Base
  import opened CmtHash
  import opened CmtMetric

  /** A resolved slot: the map's static series, or the i-th labelled series
      in insertion order. */
  datatype Slot = Static | Index(i: nat)

  /** The `labels_count` / `labels_val` pair of a call. `vals == None` is a
      NULL array; a `None` entry is a NULL label value. */
  datatype LabelArgs = LabelArgs(count: int, vals: Option<seq<Option<CString>>>)

  /** The part of `struct cmt_map` resolution reads and writes: the declared
      label count, the labelled series in insertion order, the flag
      `metric_static_set` and the static series. */
  datatype Store = Store(labelCount: int, metrics: seq<Metric>, staticSet: bool, staticMetric: Metric)

  /** The slot a resolution returns (None for NULL) and the map afterwards. */
  datatype Resolution = Resolution(slot: Option<Slot>, store: Store)

  /** A write or read request, for sequences of resolutions. */
  datatype Request = Request(args: LabelArgs, writeOp: bool)

  /** What the caller of `cmt_map_metric_get` must provide: whenever the call
      gets past the cardinality check with a positive count, `labels_val`
      points to at least that many entries. */
  predicate Readable(a: LabelArgs, labelCount: int)
  {
    a.count > 0 && a.count == labelCount ==> a.vals.Some? && a.count <= |a.vals.value|
  }

  /** The cardinality check: a positive count must equal the declared one. */
  predicate WrongCardinality(a: LabelArgs, labelCount: int)
  {
    a.count > 0 && a.count != labelCount
  }

  /** A request for the static series: no values and a NULL array. */
  predicate StaticRequest(a: LabelArgs)
  {
    a.count == 0 && a.vals.None?
  }

  /** One of the values the hash loop reads is NULL. */
  predicate HasNull(a: LabelArgs, labelCount: int)
    requires Readable(a, labelCount) && !WrongCardinality(a, labelCount)
  {
    a.count > 0 && exists i :: 0 <= i < a.count && a.vals.value[i].None?
  }

  /** The values of a sequence that holds no NULL. */
  function Strip(vs: seq<Option<CString>>): (r: seq<CString>)
    requires forall i :: 0 <= i < |vs| ==> vs[i].Some?
    ensures |r| == |vs|
    ensures forall i :: 0 <= i < |vs| ==> vs[i] == Some(r[i])
    decreases |vs|
  {
    if vs == [] then [] else [vs[0].value] + Strip(vs[1..])
  }

  /** The tuple of label values the hash loop reads: the first `count`
      entries, none for a count that is not positive. */
  function Tuple(a: LabelArgs, labelCount: int): (t: seq<CString>)
    requires Readable(a, labelCount) && !WrongCardinality(a, labelCount) && !HasNull(a, labelCount)
    ensures a.count <= 0 ==> t == []
    ensures a.count > 0 ==> |t| == a.count && forall i :: 0 <= i < a.count ==> a.vals.value[i] == Some(t[i])
  {
    if a.count <= 0 then [] else Strip(a.vals.value[..a.count])
  }

  /** The identity hash of a tuple under the metric name `fqname`: the
      digest of the name followed by the values back to back, the stream
      cmt_map.c builds. */
  function KeyHash(digest: Digest, fqname: string, a: LabelArgs, labelCount: int): bv64
    requires Readable(a, labelCount) && !WrongCardinality(a, labelCount) && !HasNull(a, labelCount)
  {
    digest(WrittenStream(fqname, Tuple(a, labelCount)))
  }

  /** The first series in insertion order whose hash is `h`. */
  function FirstWithHash(ms: seq<Metric>, h: bv64): (r: Option<nat>)
    ensures r.Some? ==> r.value < |ms| && ms[r.value].hash == h
    ensures r.Some? ==> forall j :: 0 <= j < r.value ==> ms[j].hash != h
    ensures r.None? ==> forall j :: 0 <= j < |ms| ==> ms[j].hash != h
    decreases |ms|
  {
    if ms == [] then None
    else if ms[0].hash == h then Some(0)
    else match FirstWithHash(ms[1..], h)
      case None => None
      case Some(k) => Some(k + 1)
  }

  /** `cmt_map_metric_get` when every allocation succeeds. */
  function Resolve(s: Store, digest: Digest, fqname: string, a: LabelArgs, writeOp: bool): (r: Resolution)
    requires Readable(a, s.labelCount)
    ensures r.store.labelCount == s.labelCount
  {
    if WrongCardinality(a, s.labelCount) then Resolution(None, s)
    else if StaticRequest(a) then
      if s.staticSet then Resolution(Some(Static), s)
      else if writeOp then Resolution(Some(Static), s.(staticSet := true))
      else Resolution(None, s)
    else if HasNull(a, s.labelCount) then Resolution(None, s)
    else
      var h := KeyHash(digest, fqname, a, s.labelCount);
      if h == 0 then Resolution(Some(Static), s)
      else match FirstWithHash(s.metrics, h)
        case Some(i) => Resolution(Some(Index(i)), s)
        case None =>
          if !writeOp then Resolution(None, s)
          else Resolution(Some(Index(|s.metrics|)),
                          s.(metrics := s.metrics + [NewMetric(h, Tuple(a, s.labelCount))]))
  }

  /** The resolution takes the creating branch: a write for a labelled
      tuple whose nonzero hash no series carries yet. This is the only
      branch that allocates, hence the only one that can fail for lack of
      memory. */
  predicate Creates(s: Store, digest: Digest, fqname: string, a: LabelArgs, writeOp: bool)
    requires Readable(a, s.labelCount)
  {
    && writeOp
    && !WrongCardinality(a, s.labelCount)
    && !StaticRequest(a)
    && !HasNull(a, s.labelCount)
    && KeyHash(digest, fqname, a, s.labelCount) != 0
    && FirstWithHash(s.metrics, KeyHash(digest, fqname, a, s.labelCount)).None?
  }

  /** A slot that exists in the store. */
  predicate SlotIn(s: Store, slot: Slot)
  {
    slot.Index? ==> slot.i < |s.metrics|
  }

  /** The value a read of a slot returns. */
  function ValueOf(s: Store, slot: Slot): real
    requires SlotIn(s, slot)
  {
    match slot
    case Static => s.staticMetric.val
    case Index(i) => s.metrics[i].val
  }

  /** The store after one write to one slot. */
  function UpdateSlot(s: Store, slot: Slot, u: Update): (r: Store)
    requires SlotIn(s, slot)
    ensures r.labelCount == s.labelCount && r.staticSet == s.staticSet && |r.metrics| == |s.metrics|
    ensures forall j :: 0 <= j < |s.metrics| && slot != Index(j) ==> r.metrics[j] == s.metrics[j]
    ensures slot.Index? ==> r.staticMetric == s.staticMetric
  {
    match slot
    case Static => s.(staticMetric := Apply(s.staticMetric, u))
    case Index(i) => s.(metrics := s.metrics[i := Apply(s.metrics[i], u)])
  }

  /** What every map keeps true between calls: a non-negative label count;
      a map without labels has its static series active; the static series
      has hash 0 and no label values; no labelled series has hash 0 and no
      two share a hash; every series has the declared number of values or
      none. */
  ghost predicate StoreInvariant(s: Store)
  {
    && s.labelCount >= 0
    && (s.labelCount == 0 ==> s.staticSet)
    && s.staticMetric.hash == 0 && s.staticMetric.labels == []
    && (forall i :: 0 <= i < |s.metrics| ==>
          s.metrics[i].hash != 0 && (|s.metrics[i].labels| == s.labelCount || s.metrics[i].labels == []))
    && (forall i, j :: 0 <= i < j < |s.metrics| ==> s.metrics[i].hash != s.metrics[j].hash)
  }

  /** The store after a series of resolutions, each allocating successfully. */
  function Replay(s: Store, digest: Digest, fqname: string, reqs: seq<Request>): Store
    requires forall k :: 0 <= k < |reqs| ==> Readable(reqs[k].args, s.labelCount)
    decreases |reqs|
  {
    if reqs == [] then s
    else Replay(Resolve(s, digest, fqname, reqs[0].args, reqs[0].writeOp).store, digest, fqname, reqs[1..])
  }

  // ----- lemmas -----

  /** A positive count other than the declared one resolves to NULL and
      changes nothing. */
  lemma ResolveRejectsWrongCardinality(s: Store, digest: Digest, fqname: string, a: LabelArgs, writeOp: bool)
    requires Readable(a, s.labelCount) && WrongCardinality(a, s.labelCount)
    ensures Resolve(s, digest, fqname, a, writeOp) == Resolution(None, s)
  {
  }

  /** The static path: it returns the static series when it is active or the
      call writes, activates it on such a write, and never touches the
      labelled series. */
  lemma ResolveStaticPath(s: Store, digest: Digest, fqname: string, a: LabelArgs, writeOp: bool)
    requires StaticRequest(a)
    ensures Readable(a, s.labelCount)
    ensures var r := Resolve(s, digest, fqname, a, writeOp);
      && (r.slot == Some(Static) <==> s.staticSet || writeOp)
      && (r.slot.None? <==> !s.staticSet && !writeOp)
      && r.store == s.(staticSet := s.staticSet || writeOp)
  {
  }

  /** A NULL among the values read resolves to NULL before any lookup or
      creation, so the store is unchanged. */
  lemma ResolveRejectsNullLabel(s: Store, digest: Digest, fqname: string, a: LabelArgs, writeOp: bool)
    requires Readable(a, s.labelCount) && !WrongCardinality(a, s.labelCount) && HasNull(a, s.labelCount)
    ensures Resolve(s, digest, fqname, a, writeOp) == Resolution(None, s)
  {
  }

  /** A read-only resolution never changes the store: no series is added and
      the static series is not activated. */
  lemma ReadOnlyResolveChangesNothing(s: Store, digest: Digest, fqname: string, a: LabelArgs)
    requires Readable(a, s.labelCount)
    ensures Resolve(s, digest, fqname, a, false).store == s
  {
  }

  /** A writing resolution fails exactly on a wrong cardinality or a NULL
      value (when allocation succeeds). */
  lemma WriteResolveFailsOnlyOnBadArgs(s: Store, digest: Digest, fqname: string, a: LabelArgs)
    requires Readable(a, s.labelCount)
    ensures Resolve(s, digest, fqname, a, true).slot.None?
        <==> WrongCardinality(a, s.labelCount) || HasNull(a, s.labelCount)
  {
  }

  /** Resolution only ever appends: existing series keep their place and
      content, the label count and static series stay, an active static
      series stays active, and exactly one series, the new zero-valued one
      carrying the hash and the values, is added when and only when the
      creating branch is taken; the result is then that new series. */
  lemma ResolveGrowsOnlyWhenCreating(s: Store, digest: Digest, fqname: string, a: LabelArgs, writeOp: bool)
    requires Readable(a, s.labelCount)
    ensures var r := Resolve(s, digest, fqname, a, writeOp);
      && r.store.labelCount == s.labelCount
      && r.store.staticMetric == s.staticMetric
      && (s.staticSet ==> r.store.staticSet)
      && s.metrics <= r.store.metrics
      && (Creates(s, digest, fqname, a, writeOp) ==>
            && r.store.metrics == s.metrics + [NewMetric(KeyHash(digest, fqname, a, s.labelCount), Tuple(a, s.labelCount))]
            && r.slot == Some(Index(|s.metrics|)))
      && (!Creates(s, digest, fqname, a, writeOp) ==> r.store.metrics == s.metrics)
  {
  }

  /** A resolved labelled slot exists in the store afterwards and carries
      the tuple's (nonzero) hash; a resolved static slot comes either from
      the static path or from a tuple whose hash is 0. */
  lemma ResolvedSlotCarriesHash(s: Store, digest: Digest, fqname: string, a: LabelArgs, writeOp: bool)
    requires Readable(a, s.labelCount)
    ensures var r := Resolve(s, digest, fqname, a, writeOp);
      && (r.slot.Some? ==> SlotIn(r.store, r.slot.value))
      && (r.slot.Some? && r.slot.value.Index? ==>
            && !WrongCardinality(a, s.labelCount) && !StaticRequest(a) && !HasNull(a, s.labelCount)
            && KeyHash(digest, fqname, a, s.labelCount) != 0
            && r.store.metrics[r.slot.value.i].hash == KeyHash(digest, fqname, a, s.labelCount))
      && (r.slot == Some(Static) ==>
            StaticRequest(a) || (!HasNull(a, s.labelCount) && KeyHash(digest, fqname, a, s.labelCount) == 0))
  {
  }

  /** Every resolution keeps the map's invariant. */
  lemma ResolvePreservesInvariant(s: Store, digest: Digest, fqname: string, a: LabelArgs, writeOp: bool)
    requires Readable(a, s.labelCount) && StoreInvariant(s)
    ensures StoreInvariant(Resolve(s, digest, fqname, a, writeOp).store)
  {
  }

  /** A write to one slot keeps the map's invariant: it changes a value and
      a timestamp, never an identity. */
  lemma UpdateSlotPreservesInvariant(s: Store, slot: Slot, u: Update)
    requires StoreInvariant(s) && SlotIn(s, slot)
    ensures StoreInvariant(UpdateSlot(s, slot, u))
  {
  }

  /** A map declared without labels resolves every static request to the
      static series and changes nothing, however often it is asked. */
  lemma NoLabelMapAlwaysStatic(s: Store, digest: Digest, fqname: string, a: LabelArgs, writeOp: bool)
    requires StoreInvariant(s) && s.labelCount == 0 && StaticRequest(a)
    ensures Resolve(s, digest, fqname, a, writeOp) == Resolution(Some(Static), s)
  {
  }

  /** The first series with a hash stays the first one when series are
      appended behind it. */
  lemma FirstWithHashStable(ms: seq<Metric>, more: seq<Metric>, h: bv64)
    requires FirstWithHash(ms, h).Some?
    ensures FirstWithHash(ms + more, h) == FirstWithHash(ms, h)
  {
    assert forall j :: 0 <= j < |ms| ==> (ms + more)[j] == ms[j];
  }

  /** A resolution that found its slot without changing anything finds the
      same slot in any store that grew from this one by appending series
      and activating the static series. */
  lemma FoundSlotSurvivesGrowth(s: Store, t: Store, digest: Digest, fqname: string, a: LabelArgs, writeOp: bool)
    requires Readable(a, s.labelCount)
    requires Resolve(s, digest, fqname, a, writeOp) == Resolution(Resolve(s, digest, fqname, a, writeOp).slot, s)
    requires Resolve(s, digest, fqname, a, writeOp).slot.Some?
    requires t.labelCount == s.labelCount && s.metrics <= t.metrics && (s.staticSet ==> t.staticSet)
    ensures Resolve(t, digest, fqname, a, writeOp) == Resolution(Resolve(s, digest, fqname, a, writeOp).slot, t)
  {
  }

  /** Resolving the same tuple again right after a successful write
      resolution returns the same slot and does not grow the store, whether
      the second call writes or only reads. */
  lemma ResolveIsIdempotent(s: Store, digest: Digest, fqname: string, a: LabelArgs, writeOp: bool)
    requires Readable(a, s.labelCount)
    requires Resolve(s, digest, fqname, a, true).slot.Some?
    ensures var r := Resolve(s, digest, fqname, a, true);
      Resolve(r.store, digest, fqname, a, writeOp) == Resolution(r.slot, r.store)
  {
    var r := Resolve(s, digest, fqname, a, true);
    if Creates(s, digest, fqname, a, true) {
      var h := KeyHash(digest, fqname, a, s.labelCount);
      var ms := r.store.metrics;
      assert ms == s.metrics + [NewMetric(h, Tuple(a, s.labelCount))];
      assert ms[|s.metrics|].hash == h;
      assert forall j :: 0 <= j < |s.metrics| ==> ms[j] == s.metrics[j];
      assert FirstWithHash(ms, h) == Some(|s.metrics|);
    }
  }

  /** Once a write has resolved a tuple, every later resolution of that
      tuple, after any series of other requests, returns the same slot and
      changes nothing. */
  lemma {:induction false} ResolvedSlotIsStable(s: Store, digest: Digest, fqname: string, a: LabelArgs,
                                                reqs: seq<Request>, writeOp: bool)
    requires Readable(a, s.labelCount)
    requires forall k :: 0 <= k < |reqs| ==> Readable(reqs[k].args, s.labelCount)
    requires Resolve(s, digest, fqname, a, true).slot.Some?
    ensures var r := Resolve(s, digest, fqname, a, true);
      var t := Replay(r.store, digest, fqname, reqs);
      Resolve(t, digest, fqname, a, writeOp) == Resolution(r.slot, t)
  {
    var r := Resolve(s, digest, fqname, a, true);
    ResolveGrowsOnlyWhenCreating(s, digest, fqname, a, true);
    ResolveIsIdempotent(s, digest, fqname, a, writeOp);
    ReplayGrows(r.store, digest, fqname, reqs);
    var t := Replay(r.store, digest, fqname, reqs);
    FoundSlotSurvivesGrowth(r.store, t, digest, fqname, a, writeOp);
  }

  /** A series of resolutions only appends series and activates the static
      series. */
  lemma {:induction false} ReplayGrows(s: Store, digest: Digest, fqname: string, reqs: seq<Request>)
    requires forall k :: 0 <= k < |reqs| ==> Readable(reqs[k].args, s.labelCount)
    ensures var t := Replay(s, digest, fqname, reqs);
      t.labelCount == s.labelCount && s.metrics <= t.metrics && (s.staticSet ==> t.staticSet)
    decreases |reqs|
  {
    if reqs != [] {
      ResolveGrowsOnlyWhenCreating(s, digest, fqname, reqs[0].args, reqs[0].writeOp);
      var s1 := Resolve(s, digest, fqname, reqs[0].args, reqs[0].writeOp).store;
      ReplayGrows(s1, digest, fqname, reqs[1..]);
    }
  }

  /** Two tuples whose hashes differ never share a labelled slot: once the
      first has resolved to a series, the second resolves to a different one
      in that store or in any store grown from it (by `Replay`, for
      instance; see `ReplayGrows`). */
  lemma DistinctHashesDistinctSlots(s: Store, t: Store, digest: Digest, fqname: string,
                                    a: LabelArgs, w1: bool, b: LabelArgs, w2: bool, i: nat, j: nat)
    requires Readable(a, s.labelCount) && Readable(b, s.labelCount)
    requires !WrongCardinality(a, s.labelCount) && !HasNull(a, s.labelCount)
    requires !WrongCardinality(b, s.labelCount) && !HasNull(b, s.labelCount)
    requires KeyHash(digest, fqname, a, s.labelCount) != KeyHash(digest, fqname, b, s.labelCount)
    requires Resolve(s, digest, fqname, a, w1).slot == Some(Index(i))
    requires t.labelCount == s.labelCount && Resolve(s, digest, fqname, a, w1).store.metrics <= t.metrics
    requires Resolve(t, digest, fqname, b, w2).slot == Some(Index(j))
    ensures i != j
  {
  }

  /** The first series with a hash depends only on the hashes, in order. */
  lemma FirstWithHashSeesOnlyHashes(ms: seq<Metric>, ns: seq<Metric>, h: bv64)
    requires |ms| == |ns| && forall i :: 0 <= i < |ms| ==> ms[i].hash == ns[i].hash
    ensures FirstWithHash(ms, h) == FirstWithHash(ns, h)
  {
  }

  /** A read-only resolution looks at the identities of the series only:
      two stores that differ in values and timestamps alone resolve every
      tuple to the same slot. */
  lemma ReadResolveSeesOnlyIdentities(s: Store, t: Store, digest: Digest, fqname: string, a: LabelArgs)
    requires Readable(a, s.labelCount)
    requires t.labelCount == s.labelCount && t.staticSet == s.staticSet && |t.metrics| == |s.metrics|
    requires forall i :: 0 <= i < |s.metrics| ==> t.metrics[i].hash == s.metrics[i].hash
    ensures Resolve(t, digest, fqname, a, false).slot == Resolve(s, digest, fqname, a, false).slot
  {
  }

  /** A gauge write followed by a read of the same tuple: the write
      resolves (creating if needed) a slot and updates it; the read then
      finds that same slot, changes nothing, and sees the written value. */
  lemma WriteThenRead(s: Store, digest: Digest, fqname: string, a: LabelArgs, u: Update)
    requires Readable(a, s.labelCount)
    requires Resolve(s, digest, fqname, a, true).slot.Some?
    ensures var r := Resolve(s, digest, fqname, a, true);
      && SlotIn(r.store, r.slot.value)
      && var t := UpdateSlot(r.store, r.slot.value, u);
      && Resolve(t, digest, fqname, a, false) == Resolution(r.slot, t)
      && (u.Set? ==> ValueOf(t, r.slot.value) == u.v)
      && (u.Inc? ==> ValueOf(t, r.slot.value) == ValueOf(r.store, r.slot.value) + 1.0)
      && (u.Dec? ==> ValueOf(t, r.slot.value) == ValueOf(r.store, r.slot.value) - 1.0)
      && (u.Add? ==> ValueOf(t, r.slot.value) == ValueOf(r.store, r.slot.value) + u.v)
      && (u.Sub? ==> ValueOf(t, r.slot.value) == ValueOf(r.store, r.slot.value) - u.v)
  {
    var r := Resolve(s, digest, fqname, a, true);
    ResolvedSlotCarriesHash(s, digest, fqname, a, true);
    ResolveIsIdempotent(s, digest, fqname, a, false);
    var t := UpdateSlot(r.store, r.slot.value, u);
    ReadResolveSeesOnlyIdentities(r.store, t, digest, fqname, a);
    ReadOnlyResolveChangesNothing(t, digest, fqname, a);
  }

  /** The consequence of hashing the values back to back: once a write has
      resolved ("a", "bc") on a map with two labels, ("ab", "c") resolves to
      that very slot under every digest, and neither a read nor a write of
      it changes the map. */
  lemma AliasedTuplesShareSlot(s: Store, digest: Digest, fqname: string, writeOp: bool)
    requires s.labelCount == 2
    ensures var a := LabelArgs(2, Some([Some("a"), Some("bc")]));
      var b := LabelArgs(2, Some([Some("ab"), Some("c")]));
      var r := Resolve(s, digest, fqname, a, true);
      && r.slot.Some?
      && Resolve(r.store, digest, fqname, b, writeOp) == Resolution(r.slot, r.store)
  {
    var a := LabelArgs(2, Some([Some("a"), Some("bc")]));
    var b := LabelArgs(2, Some([Some("ab"), Some("c")]));
    WriteResolveFailsOnlyOnBadArgs(s, digest, fqname, a);
    ResolveIsIdempotent(s, digest, fqname, a, writeOp);
    var r := Resolve(s, digest, fqname, a, true);
    assert Tuple(a, 2) == ["a", "bc"];
    assert Tuple(b, 2) == ["ab", "c"];
    WrittenStreamAliases(fqname, digest);
    assert KeyHash(digest, fqname, a, 2) == KeyHash(digest, fqname, b, 2);
  }
}
