/**
  What `GeoMap::new` promises about the map it returns, stated on the layout
  `Expected(m)` that `Builder.New` is proved to return.

  Throughout, `es` is the map's entity list, brush id `b` names
  `AllBrushes(es)[b]` and face id `f` names `AllFaces(es)[f]`.
*/
module GeoMapFacts {
  import opened Repr
  import opened Ids
  import opened Flat
  import opened Interning
  import opened Tail
  import opened GeoMapStruct
  import opened Layout

  // The traversal-order tables in closed form.

  /**
    An entity has an entry exactly when it has brushes, and its entry is the
    run of brush ids that starts after the brushes of the entities before it.
  */
  lemma {:induction false} EntityBrushesAt<P, T, O, F, X>(es: seq<Entity<P, T, O, F, X>>, e: EntityId)
    ensures e in EntityBrushes(es) <==> (e as int) < |es| && es[e].brushes != []
    ensures e in EntityBrushes(es) ==>
              EntityBrushes(es)[e] == BrushRun(Offset(BrushLists(es), e as nat), |es[e].brushes|)
  {
    if es != [] {
      var init := es[..|es| - 1];
      var last := es[|es| - 1];
      assert es == init + [last];
      EntityBrushesSnoc(init, last);
      assert BrushLists(es) == BrushLists(init) + [last.brushes];
      if (e as int) < |init| {
        EntityBrushesAt(init, e);
        OffsetSnoc(BrushLists(init), last.brushes, e as nat);
      } else if e as int == |init| {
        OffsetSnoc(BrushLists(init), last.brushes, |init|);
        OffsetAll(BrushLists(init));
      }
    }
  }

  /**
    A brush has an entry exactly when it has faces, and its entry is the run
    of face ids that starts after the faces of the brushes before it.
  */
  lemma {:induction false} BrushFacesAt<T, O, F, X>(bs: seq<Brush<T, O, F, X>>, b: BrushId)
    ensures b in BrushFaces(bs) <==> (b as int) < |bs| && bs[b].planes != []
    ensures b in BrushFaces(bs) ==>
              BrushFaces(bs)[b] == FaceRun(Offset(PlaneLists(bs), b as nat), |bs[b].planes|)
  {
    if bs != [] {
      var init := bs[..|bs| - 1];
      var last := bs[|bs| - 1];
      assert bs == init + [last];
      BrushFacesSnoc(init, last);
      assert PlaneLists(bs) == PlaneLists(init) + [last.planes];
      if (b as int) < |init| {
        BrushFacesAt(init, b);
        OffsetSnoc(PlaneLists(init), last.planes, b as nat);
      } else if b as int == |init| {
        OffsetSnoc(PlaneLists(init), last.planes, |init|);
        OffsetAll(PlaneLists(init));
      }
    }
  }

  /**
    Every face has a texture id, and it is the position of the face's name
    among all the distinct names, not only those met before it.
  */
  lemma {:induction false} FaceTexturesAt<T, O, F, X>(fs: seq<BrushPlane<T, O, F, X>>, f: FaceId)
    ensures f in FaceTextures(fs) <==> (f as int) < |fs|
    ensures f in FaceTextures(fs) ==>
              fs[f].texture in Interned(fs) &&
              FaceTextures(fs)[f] == IndexOf(Interned(fs), fs[f].texture) as TextureId
  {
    if fs != [] {
      var init := fs[..|fs| - 1];
      var last := fs[|fs| - 1];
      assert fs == init + [last];
      FaceTexturesSnoc(init, last);
      if (f as int) < |init| {
        FaceTexturesAt(init, f);
        InternedSnoc(init, last);
        IndexOfSnoc(Interned(init), last.texture, init[f].texture);
      }
    }
  }

  // Ids.

  /**
    Entities, brushes and faces are numbered 0, 1, 2, ... in traversal order,
    each kind by its own counter, and each entity's properties are stored
    under its id.
  */
  lemma IdsDense<P, T, O, F, X>(m: Map<P, T, O, F, X>)
    ensures var g := Expected(m);
            && |g.entities| == |m.entities|
            && (forall i :: 0 <= i < |g.entities| ==> g.entities[i] == i as EntityId)
            && |g.brushes| == |AllBrushes(m.entities)|
            && (forall i :: 0 <= i < |g.brushes| ==> g.brushes[i] == i as BrushId)
            && |g.faces| == |AllFaces(m.entities)|
            && (forall i :: 0 <= i < |g.faces| ==> g.faces[i] == i as FaceId)
  {
  }

  lemma EntityPropertiesVerbatim<P, T, O, F, X>(m: Map<P, T, O, F, X>, e: EntityId)
    ensures var g := Expected(m);
            && (e in g.entityProperties <==> e in g.entities)
            && (e in g.entityProperties ==> g.entityProperties[e] == m.entities[e].properties)
  {
    var g := Expected(m);
    if (e as int) < |m.entities| {
      assert g.entities[e] == e;
    }
  }

  // The entity-to-brushes relation.

  /** An entity has an entry exactly when it has at least one brush. */
  lemma EntityBrushesKeys<P, T, O, F, X>(m: Map<P, T, O, F, X>, e: EntityId)
    ensures var g := Expected(m);
            e in g.entityBrushes <==> e in g.entities && m.entities[e].brushes != []
  {
    var g := Expected(m);
    EntityBrushesAt(m.entities, e);
    if (e as int) < |m.entities| {
      assert g.entities[e] == e;
    }
  }

  /**
    An entity's entry lists its own brushes, one id per brush in source
    order: the j-th id names the entity's j-th brush.
  */
  lemma EntityBrushesSourceOrder<P, T, O, F, X>(m: Map<P, T, O, F, X>, e: EntityId)
    requires e in Expected(m).entityBrushes
    ensures var owned := Expected(m).entityBrushes[e];
            && |owned| == |m.entities[e].brushes|
            && forall j :: 0 <= j < |owned| ==>
                 (owned[j] as int) < |AllBrushes(m.entities)| &&
                 AllBrushes(m.entities)[owned[j]] == m.entities[e].brushes[j]
  {
    var es := m.entities;
    var owned := Expected(m).entityBrushes[e];
    EntityBrushesAt(es, e);
    forall j | 0 <= j < |owned|
      ensures (owned[j] as int) < |AllBrushes(es)| && AllBrushes(es)[owned[j]] == es[e].brushes[j]
    {
      assert owned[j] as int == Offset(BrushLists(es), e as nat) + j;
      FlattenAt(BrushLists(es), e as nat, j);
    }
  }

  /** No brush belongs to two entities. */
  lemma EntityBrushesDisjoint<P, T, O, F, X>(m: Map<P, T, O, F, X>, e: EntityId, e': EntityId)
    requires e in Expected(m).entityBrushes && e' in Expected(m).entityBrushes && e != e'
    ensures forall b :: b in Expected(m).entityBrushes[e] ==> b !in Expected(m).entityBrushes[e']
  {
    var es := m.entities;
    EntityBrushesAt(es, e);
    EntityBrushesAt(es, e');
    if e < e' {
      OffsetMonotone(BrushLists(es), e as nat, e' as nat);
    } else {
      OffsetMonotone(BrushLists(es), e' as nat, e as nat);
    }
  }

  /** The entity that owns brush `b`: every brush belongs to some entity's entry. */
  function BrushOwner<P, T, O, F, X>(m: Map<P, T, O, F, X>, b: BrushId): (e: EntityId)
    requires b in Expected(m).brushes
    ensures e in Expected(m).entityBrushes && b in Expected(m).entityBrushes[e]
  {
    var es := m.entities;
    var lists := BrushLists(es);
    var i := Owner(lists, b as nat);
    EntityBrushesAt(es, i as EntityId);
    assert BrushRun(Offset(lists, i), |es[i].brushes|)[b as nat - Offset(lists, i)] == b;
    i as EntityId
  }

  /** Each entity's entry, or nothing for an entity without one, in entity order. */
  function OwnedBrushes<P, T, O, F, X>(es: seq<Entity<P, T, O, F, X>>): seq<seq<BrushId>>
  {
    var table := EntityBrushes(es);
    seq(|es|, i requires 0 <= i < |es| => if i as EntityId in table then table[i as EntityId] else [])
  }

  /** Laid end to end in entity order, the entries are exactly the brush list. */
  lemma {:induction false} EntityBrushesConcat<P, T, O, F, X>(es: seq<Entity<P, T, O, F, X>>)
    ensures Flatten(OwnedBrushes(es)) == BrushRun(0, |AllBrushes(es)|)
  {
    if es != [] {
      var init := es[..|es| - 1];
      var last := es[|es| - 1];
      assert es == init + [last];
      EntityBrushesSnoc(init, last);
      AllBrushesSnoc(init, last);
      var run := if last.brushes == [] then [] else BrushRun(|AllBrushes(init)|, |last.brushes|);
      assert OwnedBrushes(es) == OwnedBrushes(init) + [run];
      FlattenSnoc(OwnedBrushes(init), run);
      EntityBrushesConcat(init);
      assert BrushRun(0, |AllBrushes(es)|) == BrushRun(0, |AllBrushes(init)|) + run;
    }
  }

  lemma EntityBrushesPartition<P, T, O, F, X>(m: Map<P, T, O, F, X>)
    ensures Flatten(OwnedBrushes(m.entities)) == Expected(m).brushes
  {
    EntityBrushesConcat(m.entities);
  }

  // The brush-to-faces relation.

  /** A brush has an entry exactly when it has at least one face. */
  lemma BrushFacesKeys<P, T, O, F, X>(m: Map<P, T, O, F, X>, b: BrushId)
    ensures var g := Expected(m);
            var bs := AllBrushes(m.entities);
            b in g.brushFaces <==> b in g.brushes && bs[b].planes != []
  {
    var g := Expected(m);
    BrushFacesAt(AllBrushes(m.entities), b);
    if (b as int) < |AllBrushes(m.entities)| {
      assert g.brushes[b] == b;
    }
  }

  /**
    A brush's entry lists its own faces, one id per face in source order: the
    j-th id names the brush's j-th face.
  */
  lemma BrushFacesSourceOrder<P, T, O, F, X>(m: Map<P, T, O, F, X>, b: BrushId)
    requires b in Expected(m).brushFaces
    ensures var bs := AllBrushes(m.entities);
            var owned := Expected(m).brushFaces[b];
            && (b as int) < |bs|
            && |owned| == |bs[b].planes|
            && forall j :: 0 <= j < |owned| ==>
                 (owned[j] as int) < |AllFaces(m.entities)| &&
                 AllFaces(m.entities)[owned[j]] == bs[b].planes[j]
  {
    var bs := AllBrushes(m.entities);
    var owned := Expected(m).brushFaces[b];
    BrushFacesAt(bs, b);
    forall j | 0 <= j < |owned|
      ensures (owned[j] as int) < |AllPlanes(bs)| && AllPlanes(bs)[owned[j]] == bs[b].planes[j]
    {
      assert owned[j] as int == Offset(PlaneLists(bs), b as nat) + j;
      FlattenAt(PlaneLists(bs), b as nat, j);
    }
  }

  /** No face belongs to two brushes. */
  lemma BrushFacesDisjoint<P, T, O, F, X>(m: Map<P, T, O, F, X>, b: BrushId, b': BrushId)
    requires b in Expected(m).brushFaces && b' in Expected(m).brushFaces && b != b'
    ensures forall f :: f in Expected(m).brushFaces[b] ==> f !in Expected(m).brushFaces[b']
  {
    var bs := AllBrushes(m.entities);
    BrushFacesAt(bs, b);
    BrushFacesAt(bs, b');
    if b < b' {
      OffsetMonotone(PlaneLists(bs), b as nat, b' as nat);
    } else {
      OffsetMonotone(PlaneLists(bs), b' as nat, b as nat);
    }
  }

  /** The brush that owns face `f`: every face belongs to some brush's entry. */
  function FaceOwner<P, T, O, F, X>(m: Map<P, T, O, F, X>, f: FaceId): (b: BrushId)
    requires f in Expected(m).faces
    ensures b in Expected(m).brushFaces && f in Expected(m).brushFaces[b]
  {
    var bs := AllBrushes(m.entities);
    var lists := PlaneLists(bs);
    var i := Owner(lists, f as nat);
    BrushFacesAt(bs, i as BrushId);
    assert FaceRun(Offset(lists, i), |bs[i].planes|)[f as nat - Offset(lists, i)] == f;
    i as BrushId
  }

  /** Each brush's entry, or nothing for a brush without one, in brush order. */
  function OwnedFaces<T, O, F, X>(bs: seq<Brush<T, O, F, X>>): seq<seq<FaceId>>
  {
    var table := BrushFaces(bs);
    seq(|bs|, i requires 0 <= i < |bs| => if i as BrushId in table then table[i as BrushId] else [])
  }

  /** Laid end to end in brush order, the entries are exactly the face list. */
  lemma {:induction false} BrushFacesConcat<T, O, F, X>(bs: seq<Brush<T, O, F, X>>)
    ensures Flatten(OwnedFaces(bs)) == FaceRun(0, |AllPlanes(bs)|)
  {
    if bs != [] {
      var init := bs[..|bs| - 1];
      var last := bs[|bs| - 1];
      assert bs == init + [last];
      BrushFacesSnoc(init, last);
      AllPlanesSnoc(init, last);
      var run := if last.planes == [] then [] else FaceRun(|AllPlanes(init)|, |last.planes|);
      assert OwnedFaces(bs) == OwnedFaces(init) + [run];
      FlattenSnoc(OwnedFaces(init), run);
      BrushFacesConcat(init);
      assert FaceRun(0, |AllPlanes(bs)|) == FaceRun(0, |AllPlanes(init)|) + run;
    }
  }

  lemma BrushFacesPartition<P, T, O, F, X>(m: Map<P, T, O, F, X>)
    ensures Flatten(OwnedFaces(AllBrushes(m.entities))) == Expected(m).faces
  {
    BrushFacesConcat(AllBrushes(m.entities));
  }

  // The face attribute tables.

  /**
    The six face tables have the same keys, the face ids, and each holds the
    corresponding attribute of the face.
  */
  lemma FaceTablesAt<P, T, O, F, X>(m: Map<P, T, O, F, X>, f: FaceId)
    ensures var g := Expected(m);
            && (f in g.faces <==> f in g.facePlanes)
            && (f in g.faces <==> f in g.faceTextures)
            && (f in g.faces <==> f in g.faceOffsets)
            && (f in g.faces <==> f in g.faceAngles)
            && (f in g.faces <==> f in g.faceScales)
            && (f in g.faces <==> f in g.faceExtensions)
    ensures var g := Expected(m);
            var fs := AllFaces(m.entities);
            f in g.faces ==>
              && g.facePlanes[f] == fs[f].plane
              && g.faceOffsets[f] == fs[f].textureOffset
              && g.faceAngles[f] == fs[f].angle
              && g.faceScales[f] == Vector2(fs[f].scaleX, fs[f].scaleY)
              && g.faceExtensions[f] == fs[f].extension
  {
    var g := Expected(m);
    FaceTexturesAt(AllFaces(m.entities), f);
    if (f as int) < |AllFaces(m.entities)| {
      assert g.faces[f] == f;
    }
  }

  // Texture interning.

  /** Two faces share a texture id exactly when they name the same texture. */
  lemma TextureIdsShared<P, T, O, F, X>(m: Map<P, T, O, F, X>, f: FaceId, f': FaceId)
    requires (f as int) < |AllFaces(m.entities)| && (f' as int) < |AllFaces(m.entities)|
    ensures f in Expected(m).faceTextures && f' in Expected(m).faceTextures
    ensures var fs := AllFaces(m.entities);
            Expected(m).faceTextures[f] == Expected(m).faceTextures[f'] <==> fs[f].texture == fs[f'].texture
  {
    FaceTexturesAt(AllFaces(m.entities), f);
    FaceTexturesAt(AllFaces(m.entities), f');
  }

  /**
    The texture ids are 0, 1, ..., k - 1, and they are exactly the ids the
    faces use.
  */
  lemma TextureIdsDense<P, T, O, F, X>(m: Map<P, T, O, F, X>, t: TextureId)
    ensures var g := Expected(m);
            && (t in g.textures <==> (t as int) < |Interned(AllFaces(m.entities))|)
            && (t in g.faceTextures.Values <==> t in g.textures)
  {
    var g := Expected(m);
    var fs := AllFaces(m.entities);
    var reg := Interned(fs);
    if t in g.faceTextures.Values {
      var f :| f in g.faceTextures && g.faceTextures[f] == t;
      FaceTexturesAt(fs, f);
    }
    if (t as int) < |reg| {
      var i := IndexOf(Names(fs), reg[t]);
      assert fs[i].texture == reg[t];
      FaceTexturesAt(fs, i as FaceId);
      IndexOfAt(reg, t as nat);
      assert g.faceTextures[i as FaceId] == t;
    }
  }

  /** There are as many texture ids as distinct texture names among the faces. */
  lemma TextureCount<P, T, O, F, X>(m: Map<P, T, O, F, X>)
    ensures |Expected(m).textures| == |set s | s in Names(AllFaces(m.entities))|
  {
    TexturesSize(Interned(AllFaces(m.entities)));
    RegistrySize(Names(AllFaces(m.entities)));
  }

  /** Ids follow first use: a lower id names a texture some earlier face uses first. */
  lemma TextureFirstOccurrence<P, T, O, F, X>(m: Map<P, T, O, F, X>, t: TextureId, t': TextureId)
    requires t < t' && t' in Expected(m).textures
    ensures t in Expected(m).textures
    ensures var names := Names(AllFaces(m.entities));
            var g := Expected(m);
            && g.textures[t] in names && g.textures[t'] in names
            && IndexOf(names, g.textures[t]) < IndexOf(names, g.textures[t'])
  {
    RegistryFirstOccurrence(Names(AllFaces(m.entities)), t as nat, t' as nat);
  }

  /** Looking a face's texture id up in the texture table gives back the face's texture name. */
  lemma TextureRoundTrip<P, T, O, F, X>(m: Map<P, T, O, F, X>, f: FaceId)
    requires (f as int) < |AllFaces(m.entities)|
    ensures var g := Expected(m);
            && f in g.faceTextures && g.faceTextures[f] in g.textures
            && g.textures[g.faceTextures[f]] == AllFaces(m.entities)[f].texture
  {
    FaceTexturesAt(AllFaces(m.entities), f);
  }

  /** Distinct ids name distinct textures: with the two lemmas above, a bijection onto 0, ..., k - 1. */
  lemma TexturesInjective<P, T, O, F, X>(m: Map<P, T, O, F, X>, t: TextureId, t': TextureId)
    requires t in Expected(m).textures && t' in Expected(m).textures && t != t'
    ensures Expected(m).textures[t] != Expected(m).textures[t']
  {
  }

  // Point entities.

  /** The point entities are the entities without brushes. */
  lemma PointEntitiesAt<P, T, O, F, X>(m: Map<P, T, O, F, X>, e: EntityId)
    ensures var g := Expected(m);
            e in g.pointEntities <==> (e as int) < |m.entities| && m.entities[e].brushes == []
  {
    var g := Expected(m);
    EntityBrushesAt(m.entities, e);
    if (e as int) < |m.entities| {
      assert g.entities[e] == e;
    }
  }

  /**
    Every entity is either a point entity or has an entry in the
    entity-to-brushes table, never both.
  */
  lemma PointEntitiesPartition<P, T, O, F, X>(m: Map<P, T, O, F, X>, e: EntityId)
    ensures var g := Expected(m);
            && (e in g.entities <==> e in g.pointEntities || e in g.entityBrushes)
            && !(e in g.pointEntities && e in g.entityBrushes)
  {
    var g := Expected(m);
    EntityBrushesAt(m.entities, e);
    if (e as int) < |m.entities| {
      assert g.entities[e] == e;
    }
  }

  /** The point entities keep the order of the entity list. */
  lemma PointEntitiesInOrder<P, T, O, F, X>(m: Map<P, T, O, F, X>)
    ensures Increasing(Expected(m).pointEntities)
  {
    var es := m.entities;
    PointEntitiesIncreasing(EntityRun(|es|), EntityBrushes(es));
  }

  // The empty map.

  /** A map without entities gives an empty value in every field. */
  lemma EmptyMap<P, T, O, F, X>(m: Map<P, T, O, F, X>)
    requires m.entities == []
    ensures Expected(m) ==
      GeoMap([], [], [], map[], map[], map[], [], map[], map[], map[], map[], map[], map[], map[])
  {
    assert AllBrushes(m.entities) == [];
    assert AllFaces(m.entities) == [];
    assert Interned(AllFaces(m.entities)) == [];
  }

  // Two worked examples.

  /**
    A light without brushes followed by an entity with one brush of two
    "brick" faces.
  */
  lemma LightAndBrick<P, T, O, F, X>(light: P, solid: P, f: BrushPlane<T, O, F, X>, f': BrushPlane<T, O, F, X>)
    requires f.texture == "brick" && f'.texture == "brick"
    ensures var g := Expected(Map([Entity(light, []), Entity(solid, [Brush([f, f'])])]));
            && g.entities == [0, 1]
            && g.entityProperties == map[0 := light, 1 := solid]
            && g.brushes == [0]
            && g.entityBrushes == map[1 := [0]]
            && g.faces == [0, 1]
            && g.brushFaces == map[0 := [0, 1]]
            && g.faceTextures == map[0 := 0, 1 := 0]
            && g.textures == map[0 := "brick"]
            && g.pointEntities == [0]
  {
    var fs := [f, f'];
    LightAndBrickLayout(light, solid, fs);
    LightAndBrickFaces(f, f');
  }

  lemma LightAndBrickLayout<P, T, O, F, X>(light: P, solid: P, fs: seq<BrushPlane<T, O, F, X>>)
    ensures var es := [Entity(light, []), Entity(solid, [Brush(fs)])];
            && AllBrushes(es) == [Brush(fs)]
            && AllFaces(es) == fs
            && EntityBrushes(es) == map[1 := [0]]
            && PointEntities(EntityRun(2), EntityBrushes(es)) == [0]
  {
    var es := [Entity(light, []), Entity(solid, [Brush(fs)])];
    var none: seq<Entity<P, T, O, F, X>> := [];
    assert none + [es[0]] == [es[0]];
    assert [es[0]] + [es[1]] == es;
    AllBrushesSnoc(none, es[0]);
    AllBrushesSnoc([es[0]], es[1]);
    AllPlanesSnoc([], Brush(fs));
    EntityBrushesSnoc(none, es[0]);
    EntityBrushesSnoc([es[0]], es[1]);
    assert BrushRun(0, 1) == [0];
    assert EntityRun(2) == [0, 1] && [0, 1][1..] == [1];
  }

  lemma LightAndBrickFaces<T, O, F, X>(f: BrushPlane<T, O, F, X>, f': BrushPlane<T, O, F, X>)
    requires f.texture == "brick" && f'.texture == "brick"
    ensures BrushFaces([Brush([f, f'])]) == map[0 := [0, 1]]
    ensures Textures(Interned([f, f'])) == map[0 := "brick"]
    ensures FaceTextures([f, f']) == map[0 := 0, 1 := 0]
  {
    var fs := [f, f'];
    var noBrushes: seq<Brush<T, O, F, X>> := [];
    assert noBrushes + [Brush(fs)] == [Brush(fs)];
    BrushFacesSnoc(noBrushes, Brush(fs));
    assert FaceRun(0, 2) == [0, 1];
    SharedTexture(f, f');
    TexturesSingle("brick");
  }

  lemma TexturesSingle(name: string)
    ensures Textures([name]) == map[0 := name]
  {
    assert Textures([name]).Keys == {0};
  }

  /** Both faces of a brush use the same texture: one id, 0, for both. */
  lemma SharedTexture<T, O, F, X>(f: BrushPlane<T, O, F, X>, f': BrushPlane<T, O, F, X>)
    requires f.texture == f'.texture
    ensures Interned([f, f']) == [f.texture]
    ensures FaceTextures([f, f']) == map[0 := 0, 1 := 0]
  {
    var noFaces: seq<BrushPlane<T, O, F, X>> := [];
    assert noFaces + [f] == [f];
    assert [f] + [f'] == [f, f'];
    assert Names([f]) == [] + [f.texture];
    assert Names([f, f']) == [f.texture] + [f.texture];
    RegistrySnocNew([], f.texture);
    RegistrySnocSeen([f.texture], f.texture);
    FaceTexturesSnoc(noFaces, f);
    FaceTexturesSnoc([f], f');
  }

  /** One brush whose two faces use "a" and then "b". */
  lemma TwoTextures<P, T, O, F, X>(p: P, f: BrushPlane<T, O, F, X>, f': BrushPlane<T, O, F, X>)
    requires f.texture == "a" && f'.texture == "b"
    ensures var g := Expected(Map([Entity(p, [Brush([f, f'])])]));
            && g.faceTextures == map[0 := 0, 1 := 1]
            && g.textures == map[0 := "a", 1 := "b"]
  {
    var es := [Entity(p, [Brush([f, f'])])];
    var fs := [f, f'];
    assert AllFaces(es) == fs by {
      AllBrushesSnoc([], es[0]);
      AllPlanesSnoc([], Brush(fs));
    }
    assert Interned(fs) == ["a", "b"] by {
      assert Names(fs) == ["a"] + ["b"];
      RegistrySnocNew([], "a");
      RegistrySnocNew(["a"], "b");
    }
    assert FaceTextures(fs) == map[0 := 0, 1 := 1] by {
      var noFaces: seq<BrushPlane<T, O, F, X>> := [];
      assert noFaces + [f] == [f] && [f] + [f'] == fs;
      assert Names([f]) == ["a"];
      FaceTexturesSnoc(noFaces, f);
      FaceTexturesSnoc([f], f');
    }
    assert Textures(Interned(fs)) == map[0 := "a", 1 := "b"];
  }
}
