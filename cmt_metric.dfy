/** One series slot (`struct cmt_metric`) and the value operations applied to
    a resolved slot. The operations themselves live in cmt_metric.c, which is
    not part of this model; they are taken with their documented meaning
    (set overwrites, inc/dec step by one, add/sub step by a delta, every
    write records its timestamp, a read returns the value) over exact reals. */
module CmtMetric {
  import opened Base

  /** A series slot: current value, timestamp of the last write, identity
      hash and the label values in the order of the map's label keys. */
  datatype Metric = Metric(val: real, timestamp: nat, hash: bv64, labels: seq<CString>)

  /** The zero-initialised slot `calloc` gives the map for its static series. */
  const StaticZero: Metric := Metric(0.0, 0, 0, [])

  /** The slot `map_metric_create` builds: value 0.0, the computed hash and a
      copy of the label values, in order. */
  function NewMetric(hash: bv64, labels: seq<CString>): (m: Metric)
    ensures m.val == 0.0 && m.hash == hash && m.labels == labels
  {
    Metric(0.0, 0, hash, labels)
  }

  /** One write to a slot: `cmt_metric_set`, `_inc`, `_dec`, `_add`, `_sub`. */
  datatype Update =
    | Set(ts: nat, v: real)
    | Inc(ts: nat)
    | Dec(ts: nat)
    | Add(ts: nat, v: real)
    | Sub(ts: nat, v: real)

  /** The slot after one write. A write never changes which series the slot
      is: its hash and label values stay. */
  function Apply(m: Metric, u: Update): (r: Metric)
    ensures r.hash == m.hash && r.labels == m.labels
    ensures r.timestamp == u.ts
  {
    match u
    case Set(ts, v) => m.(val := v, timestamp := ts)
    case Inc(ts) => m.(val := m.val + 1.0, timestamp := ts)
    case Dec(ts) => m.(val := m.val - 1.0, timestamp := ts)
    case Add(ts, v) => m.(val := m.val + v, timestamp := ts)
    case Sub(ts, v) => m.(val := m.val - v, timestamp := ts)
  }
}
