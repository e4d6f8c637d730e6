/** The identity hash of a labelled series: XXH64 with seed 0, fed first the
    bytes of the metric's fully qualified name and then the bytes of every
    label value in declared order. The digest itself is abstract: every
    result proved here holds for every function from byte streams to 64-bit
    values. What the model does fix is the byte stream the digest is fed. */
module CmtHash {
  import opened Base

  /** XXH64 with seed 0 over one byte stream. The streaming interface
      (`reset`, a series of `update`s, `digest`) digests the concatenation of
      the updates, so a digest of the whole stream is the same thing. */
  type Digest = seq<char> -> bv64

  /** The label values one after the other, with nothing between them: the
      stream cmt_map.c builds, since it passes `strlen(ptr)` bytes per value. */
  function Concat(labels: seq<CString>): (r: string)
    ensures |labels| == 1 ==> r == labels[0]
    ensures |r| == SumLengths(labels)
    decreases |labels|
  {
    if labels == [] then [] else labels[0] + Concat(labels[1..])
  }

  /** Total number of bytes in a tuple of label values. */
  function SumLengths(labels: seq<CString>): nat
    decreases |labels|
  {
    if labels == [] then 0 else |labels[0]| + SumLengths(labels[1..])
  }

  /** The stream as the source builds it, and the one the model of the map
      hashes. */
  function WrittenStream(fqname: string, labels: seq<CString>): string
  {
    fqname + Concat(labels)
  }

  /** Hashing one more value extends the stream by exactly that value's
      bytes: the stream can be built value by value, as the hash loop does. */
  lemma {:induction false} ConcatSnoc(labels: seq<CString>, x: CString)
    ensures Concat(labels + [x]) == Concat(labels) + x
    decreases |labels|
  {
    if labels == [] {
      assert labels + [x] == [x];
    } else {
      assert (labels + [x])[0] == labels[0];
      assert (labels + [x])[1..] == labels[1..] + [x];
      ConcatSnoc(labels[1..], x);
    }
  }

  /** As written, two different tuples of the same cardinality give the same
      byte stream, hence the same hash under EVERY digest, hence the same
      series slot. */
  lemma WrittenStreamAliases(fqname: string, digest: Digest)
    ensures ["a", "bc"] != ["ab", "c"]
    ensures WrittenStream(fqname, ["a", "bc"]) == WrittenStream(fqname, ["ab", "c"])
    ensures digest(WrittenStream(fqname, ["a", "bc"])) == digest(WrittenStream(fqname, ["ab", "c"]))
  {
    var t1: seq<CString> := ["a", "bc"];
    var t2: seq<CString> := ["ab", "c"];
    assert t1[0] != t2[0];
    assert Concat(t1) == "a" + Concat(["bc"]) == "abc";
    assert Concat(t2) == "ab" + Concat(["c"]) == "abc";
  }

  /** Every label value followed by its terminating NUL: what hashing
      `strlen(ptr) + 1` bytes per value feeds the digest. */
  function Terminated(labels: seq<CString>): (r: string)
    ensures |r| == SumLengths(labels) + |labels|
    decreases |labels|
  {
    if labels == [] then [] else labels[0] + ['\0'] + Terminated(labels[1..])
  }

  /** The corrected stream: what hashing `strlen(ptr) + 1` bytes per value
      would feed the digest. */
  function Stream(fqname: string, labels: seq<CString>): string
  {
    fqname + Terminated(labels)
  }

  /** With the terminators, the stream determines the tuple. */
  lemma {:induction false} TerminatedInjective(a: seq<CString>, b: seq<CString>)
    requires Terminated(a) == Terminated(b)
    ensures a == b
    decreases |a|
  {
    if a == [] || b == [] {
      assert |Terminated(a)| == |Terminated(b)|;
    } else {
      var s := Terminated(a);
      var x, y := a[0], b[0];
      assert s == x + ['\0'] + Terminated(a[1..]);
      assert s == y + ['\0'] + Terminated(b[1..]);
      // the first NUL of the stream ends the first value of either tuple
      assert s[|x|] == '\0' && s[|y|] == '\0';
      assert forall k :: 0 <= k < |x| ==> s[k] == x[k] != '\0';
      assert forall k :: 0 <= k < |y| ==> s[k] == y[k] != '\0';
      assert |x| == |y|;
      assert x == s[..|x|] == y;
      assert Terminated(a[1..]) == s[|x| + 1..] == Terminated(b[1..]);
      TerminatedInjective(a[1..], b[1..]);
      assert a == [x] + a[1..];
      assert b == [y] + b[1..];
    }
  }

  /** With the corrected stream, distinct tuples under one metric name are
      fed to the digest as distinct streams, so only a collision of the
      digest itself could make them share a series. */
  lemma DistinctTuplesDistinctStreams(fqname: string, a: seq<CString>, b: seq<CString>)
    requires a != b
    ensures Stream(fqname, a) != Stream(fqname, b)
  {
    if Stream(fqname, a) == Stream(fqname, b) {
      assert Terminated(a) == Stream(fqname, a)[|fqname|..];
      assert Terminated(b) == Stream(fqname, b)[|fqname|..];
      TerminatedInjective(a, b);
    }
  }
}
