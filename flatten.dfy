/**
  Concatenation of a sequence of sequences, and the offset at which each
  inner sequence starts in the concatenation (a prefix sum of the lengths).
  The builder's brush and face numbering is exactly this offset.
*/
module Flat {

  function Flatten<T>(ss: seq<seq<T>>): (r: seq<T>)
  {
    if ss == [] then [] else Flatten(ss[..|ss| - 1]) + ss[|ss| - 1]
  }

  /** Where `ss[i]` starts in `Flatten(ss)`: the sum of the lengths of `ss[..i]`. */
  function Offset<T>(ss: seq<seq<T>>, i: nat): nat
    requires i <= |ss|
  {
    if i == 0 then 0 else Offset(ss, i - 1) + |ss[i - 1]|
  }

  lemma FlattenSnoc<T>(ss: seq<seq<T>>, s: seq<T>)
    ensures Flatten(ss + [s]) == Flatten(ss) + s
  {
    assert (ss + [s])[..|ss|] == ss;
  }

  /** Appending an inner sequence moves none of the earlier ones. */
  lemma {:induction false} OffsetSnoc<T>(ss: seq<seq<T>>, s: seq<T>, i: nat)
    requires i <= |ss|
    ensures Offset(ss + [s], i) == Offset(ss, i)
  {
    if i > 0 {
      OffsetSnoc(ss, s, i - 1);
      assert (ss + [s])[i - 1] == ss[i - 1];
    }
  }

  /** The offset past the last inner sequence is the length of the concatenation. */
  lemma {:induction false} OffsetAll<T>(ss: seq<seq<T>>)
    ensures Offset(ss, |ss|) == |Flatten(ss)|
  {
    if ss != [] {
      var init := ss[..|ss| - 1];
      assert ss == init + [ss[|ss| - 1]];
      OffsetAll(init);
      OffsetSnoc(init, ss[|ss| - 1], |init|);
    }
  }

  /** Consecutive inner sequences are laid out back to back. */
  lemma OffsetNext<T>(ss: seq<seq<T>>, i: nat)
    requires i < |ss|
    ensures Offset(ss, i + 1) == Offset(ss, i) + |ss[i]|
  {
  }

  /** A later inner sequence starts after every element of an earlier one. */
  lemma {:induction false} OffsetMonotone<T>(ss: seq<seq<T>>, i: nat, k: nat)
    requires i < k <= |ss|
    ensures Offset(ss, i) + |ss[i]| <= Offset(ss, k)
    decreases k - i
  {
    OffsetNext(ss, i);
    if i + 1 < k {
      OffsetMonotone(ss, i + 1, k);
      OffsetNext(ss, i + 1);
    }
  }

  /** Element `j` of `ss[i]` sits at position `Offset(ss, i) + j` of the concatenation. */
  lemma {:induction false} FlattenAt<T>(ss: seq<seq<T>>, i: nat, j: nat)
    requires i < |ss| && j < |ss[i]|
    ensures Offset(ss, i) + j < |Flatten(ss)|
    ensures Flatten(ss)[Offset(ss, i) + j] == ss[i][j]
  {
    var init := ss[..|ss| - 1];
    assert ss == init + [ss[|ss| - 1]];
    FlattenSnoc(init, ss[|ss| - 1]);
    if i == |ss| - 1 {
      OffsetAll(init);
      OffsetSnoc(init, ss[|ss| - 1], i);
    } else {
      FlattenAt(init, i, j);
      OffsetSnoc(init, ss[|ss| - 1], i);
    }
  }

  /** The inner sequence that position `k` of the concatenation belongs to. */
  function Owner<T>(ss: seq<seq<T>>, k: nat): (i: nat)
    requires k < |Flatten(ss)|
    ensures i < |ss|
    ensures Offset(ss, i) <= k < Offset(ss, i) + |ss[i]|
  {
    var init := ss[..|ss| - 1];
    assert ss == init + [ss[|ss| - 1]];
    FlattenSnoc(init, ss[|ss| - 1]);
    OffsetAll(init);
    if k < |Flatten(init)| then
      var i := Owner(init, k);
      OffsetSnoc(init, ss[|ss| - 1], i);
      i
    else
      OffsetSnoc(init, ss[|ss| - 1], |init|);
      |ss| - 1
  }
}
