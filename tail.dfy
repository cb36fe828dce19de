/**
  The two pipelines that end `GeoMap::new`: the point-entity filter and the
  inversion of the texture interning table.
*/
module Tail {
  import opened Ids
  import Lex

  /** Strictly increasing. */
  predicate Increasing(s: seq<EntityId>)
  {
    forall i, j :: 0 <= i < j < |s| ==> s[i] < s[j]
  }

  /**
    The entities, in their order, that have no entry in the entity-to-brushes
    table.
  */
  function PointEntities(entities: seq<EntityId>, entityBrushes: map<EntityId, seq<BrushId>>): (r: seq<EntityId>)
    ensures forall e :: e in r <==> e in entities && e !in entityBrushes
    ensures |r| <= |entities|
  {
    if entities == [] then
      []
    else
      var head := if entities[0] in entityBrushes then [] else [entities[0]];
      head + PointEntities(entities[1..], entityBrushes)
  }

  /** Filtering keeps the order: an increasing list stays increasing. */
  lemma {:induction false} PointEntitiesIncreasing(entities: seq<EntityId>, entityBrushes: map<EntityId, seq<BrushId>>)
    requires Increasing(entities)
    ensures Increasing(PointEntities(entities, entityBrushes))
  {
    if entities != [] {
      var rest := PointEntities(entities[1..], entityBrushes);
      PointEntitiesIncreasing(entities[1..], entityBrushes);
      if entities[0] !in entityBrushes {
        forall j | 0 <= j < |rest| ensures entities[0] < rest[j] {
          assert rest[j] in entities[1..];
        }
      }
    }
  }

  /**
    The texture name-to-id table turned round into an id-to-name table.
    `BTreeMap::into_iter` visits names in ascending order and `collect` keeps
    the last pair for a repeated id, so an id that several names share goes
    to the greatest of them.
  */
  function Invert(table: map<string, TextureId>): (r: map<TextureId, string>)
    ensures r.Keys == table.Values
    ensures forall t :: t in r ==> r[t] in table && table[r[t]] == t
    ensures forall s :: s in table ==> s == r[table[s]] || Lex.Less(s, r[table[s]])
    decreases table.Keys
  {
    if table == map[] then map[]
    else
      var k := Lex.Greatest(table.Keys);
      var rest := table - {k};
      var r := Invert(rest)[table[k] := k];
      InvertStep(table, k, rest, Invert(rest), r);
      r
  }

  /** The last name visited overrides whatever the names before it produced. */
  lemma InvertStep(table: map<string, TextureId>, k: string, rest: map<string, TextureId>,
                   restInverted: map<TextureId, string>, r: map<TextureId, string>)
    requires Lex.IsGreatest(k, table.Keys) && rest == table - {k}
    requires restInverted.Keys == rest.Values
    requires forall t :: t in restInverted ==> restInverted[t] in rest && rest[restInverted[t]] == t
    requires forall s :: s in rest ==> s == restInverted[rest[s]] || Lex.Less(s, restInverted[rest[s]])
    requires r == restInverted[table[k] := k]
    ensures r.Keys == table.Values
    ensures forall t :: t in r ==> r[t] in table && table[r[t]] == t
    ensures forall s :: s in table ==> s == r[table[s]] || Lex.Less(s, r[table[s]])
  {
    forall v | v in table.Values ensures v in r.Keys {
      var s :| s in table && table[s] == v;
      if s != k { assert s in rest && rest[s] == v; }
    }
    forall s | s in table ensures s == r[table[s]] || Lex.Less(s, r[table[s]]) {
      if table[s] != table[k] {
        assert s in rest && rest[s] == table[s];
      }
    }
  }

  predicate Injective(table: map<string, TextureId>)
  {
    forall s, s' :: s in table && s' in table && s != s' ==> table[s] != table[s']
  }

  /** On an injective table the inversion loses nothing. */
  lemma InvertInjective(table: map<string, TextureId>)
    requires Injective(table)
    ensures forall s :: s in table ==> table[s] in Invert(table) && Invert(table)[table[s]] == s
  {
  }
}
