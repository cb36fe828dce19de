/**
  The four identifier kinds. Each is a non-negative integer wrapped in a type
  of its own, as the Rust tuple structs `EntityId(usize)`, `BrushId(usize)`,
  `FaceId(usize)` and `TextureId(usize)` are. The counters are unbounded:
  `usize` overflow is not modelled.
*/
module Ids {

  newtype EntityId = i: int | 0 <= i
  newtype BrushId = i: int | 0 <= i
  newtype FaceId = i: int | 0 <= i
  newtype TextureId = i: int | 0 <= i

  /** The entity ids 0, 1, ..., n - 1. */
  function EntityRun(n: nat): (r: seq<EntityId>)
    ensures |r| == n
    ensures forall i :: 0 <= i < n ==> r[i] == i as EntityId
  {
    seq(n, i requires 0 <= i => i as EntityId)
  }

  /** The brush ids start, start + 1, ..., start + len - 1. */
  function BrushRun(start: nat, len: nat): (r: seq<BrushId>)
    ensures |r| == len
    ensures forall j :: 0 <= j < len ==> r[j] == (start + j) as BrushId
  {
    seq(len, j requires 0 <= j => (start + j) as BrushId)
  }

  /** The face ids start, start + 1, ..., start + len - 1. */
  function FaceRun(start: nat, len: nat): (r: seq<FaceId>)
    ensures |r| == len
    ensures forall j :: 0 <= j < len ==> r[j] == (start + j) as FaceId
  {
    seq(len, j requires 0 <= j => (start + j) as FaceId)
  }

  // Extending a run by its next id.

  lemma EntityRunSnoc(n: nat)
    ensures EntityRun(n + 1) == EntityRun(n) + [n as EntityId]
  {
  }

  lemma BrushRunSnoc(start: nat, len: nat)
    ensures BrushRun(start, len + 1) == BrushRun(start, len) + [(start + len) as BrushId]
  {
  }

  lemma FaceRunSnoc(start: nat, len: nat)
    ensures FaceRun(start, len + 1) == FaceRun(start, len) + [(start + len) as FaceId]
  {
  }
}
