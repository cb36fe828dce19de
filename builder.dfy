/**
  `GeoMap::new`: one pass over the nested map that numbers entities, brushes,
  faces and textures with four counters and fills the tables as it goes,
  followed by the point-entity filter and the inversion of the texture table.
*/
module Builder {
  import opened Repr
  import opened Ids
  import opened Interning
  import opened Tail
  import opened GeoMapStruct
  import opened Layout

  /** The entity list and the two entity tables match the visited entities. */
  ghost predicate EntitiesBuilt<P, T, O, F, X>(
    done: seq<Entity<P, T, O, F, X>>, entityHead: nat, entities: seq<EntityId>,
    entityProperties: map<EntityId, P>, entityBrushes: map<EntityId, seq<BrushId>>)
  {
    && entityHead == |done|
    && entities == EntityRun(|done|)
    && entityProperties == EntityProperties(done)
    && entityBrushes == EntityBrushes(done)
  }

  /** The brush list and the brush-to-faces table match the visited brushes. */
  ghost predicate BrushesBuilt<T, O, F, X>(
    bs: seq<Brush<T, O, F, X>>, brushHead: nat, brushes: seq<BrushId>, brushPlanes: map<BrushId, seq<FaceId>>)
  {
    && brushHead == |bs|
    && brushes == BrushRun(0, |bs|)
    && brushPlanes == BrushFaces(bs)
  }

  /** The face list and the five copied face attributes match the visited faces. */
  ghost predicate FacesBuilt<T, O, F, X>(
    fs: seq<BrushPlane<T, O, F, X>>, planeHead: nat, faces: seq<FaceId>,
    facePlanes: map<FaceId, T>, faceOffsets: map<FaceId, O>, faceAngles: map<FaceId, F>,
    faceScales: map<FaceId, Vector2<F>>, faceExtensions: map<FaceId, X>)
  {
    && planeHead == |fs|
    && faces == FaceRun(0, |fs|)
    && facePlanes == FaceTable(fs, PlaneOf)
    && faceOffsets == FaceTable(fs, OffsetOf)
    && faceAngles == FaceTable(fs, AngleOf)
    && faceScales == FaceTable(fs, ScaleOf)
    && faceExtensions == FaceTable(fs, ExtensionOf)
  }

  /** The interning table and each visited face's texture id match the names met so far. */
  ghost predicate TexturesBuilt<T, O, F, X>(
    fs: seq<BrushPlane<T, O, F, X>>, textureHead: nat,
    faceTextures: map<FaceId, TextureId>, textures: map<string, TextureId>)
  {
    && textureHead == |Interned(fs)|
    && faceTextures == FaceTextures(fs)
    && textures == NameTable(Interned(fs))
  }

  /**
    The builder's locals hold exactly the layout of `es`, the part of the tree
    visited so far, whose brushes are `bs` and whose faces are `fs`, and the
    interning table of the names met so far.
  */
  ghost predicate Built<P, T, O, F, X>(
    es: seq<Entity<P, T, O, F, X>>, bs: seq<Brush<T, O, F, X>>, fs: seq<BrushPlane<T, O, F, X>>,
    entityHead: nat, brushHead: nat, planeHead: nat, textureHead: nat,
    entities: seq<EntityId>, brushes: seq<BrushId>, faces: seq<FaceId>,
    entityProperties: map<EntityId, P>, entityBrushes: map<EntityId, seq<BrushId>>,
    brushPlanes: map<BrushId, seq<FaceId>>,
    facePlanes: map<FaceId, T>, faceTextures: map<FaceId, TextureId>, faceOffsets: map<FaceId, O>,
    faceAngles: map<FaceId, F>, faceScales: map<FaceId, Vector2<F>>, faceExtensions: map<FaceId, X>,
    textures: map<string, TextureId>)
  {
    && bs == AllBrushes(es)
    && fs == AllPlanes(bs)
    && EntitiesBuilt(es, entityHead, entities, entityProperties, entityBrushes)
    && BrushesBuilt(bs, brushHead, brushes, brushPlanes)
    && FacesBuilt(fs, planeHead, faces, facePlanes, faceOffsets, faceAngles, faceScales, faceExtensions)
    && TexturesBuilt(fs, textureHead, faceTextures, textures)
  }

  /** Appending a face extends the face list and the five copied attributes. */
  lemma FacesGrow<T, O, F, X>(
    fs: seq<BrushPlane<T, O, F, X>>, f: BrushPlane<T, O, F, X>, planeHead: nat, faces: seq<FaceId>,
    facePlanes: map<FaceId, T>, faceOffsets: map<FaceId, O>, faceAngles: map<FaceId, F>,
    faceScales: map<FaceId, Vector2<F>>, faceExtensions: map<FaceId, X>)
    requires FacesBuilt(fs, planeHead, faces, facePlanes, faceOffsets, faceAngles, faceScales, faceExtensions)
    ensures var faceId := planeHead as FaceId;
            FacesBuilt(fs + [f], planeHead + 1, faces + [faceId],
                       facePlanes[faceId := f.plane], faceOffsets[faceId := f.textureOffset],
                       faceAngles[faceId := f.angle], faceScales[faceId := Vector2(f.scaleX, f.scaleY)],
                       faceExtensions[faceId := f.extension])
  {
    FaceRunSnoc(0, |fs|);
    FaceTableSnoc(fs, f, PlaneOf);
    FaceTableSnoc(fs, f, OffsetOf);
    FaceTableSnoc(fs, f, AngleOf);
    FaceTableSnoc(fs, f, ScaleOf);
    FaceTableSnoc(fs, f, ExtensionOf);
  }

  /**
    Appending a face looks its texture name up in the interning table, and
    interns it under the next id when it is new.
  */
  lemma TexturesGrow<T, O, F, X>(
    fs: seq<BrushPlane<T, O, F, X>>, f: BrushPlane<T, O, F, X>, textureHead: nat,
    faceTextures: map<FaceId, TextureId>, textures: map<string, TextureId>)
    requires TexturesBuilt(fs, textureHead, faceTextures, textures)
    ensures var seen := f.texture in textures;
            var textureId := if seen then textures[f.texture] else textureHead as TextureId;
            TexturesBuilt(fs + [f], if seen then textureHead else textureHead + 1,
                          faceTextures[|fs| as FaceId := textureId],
                          if seen then textures else textures[f.texture := textureId])
  {
    var reg := Interned(fs);
    FaceTexturesSnoc(fs, f);
    InternedSnoc(fs, f);
    if f.texture in textures {
      IndexOfSnoc(reg, f.texture, f.texture);
    } else {
      NameTableSnoc(reg, f.texture);
      assert (reg + [f.texture])[..|reg|] == reg;
    }
  }

  /** The body of the face loop keeps the builder in step with the tree. */
  lemma FaceVisited<P, T, O, F, X>(
    done: seq<Entity<P, T, O, F, X>>, p: P, brushesDone: seq<Brush<T, O, F, X>>,
    ps: seq<BrushPlane<T, O, F, X>>, f: BrushPlane<T, O, F, X>,
    es: seq<Entity<P, T, O, F, X>>, es': seq<Entity<P, T, O, F, X>>,
    bs: seq<Brush<T, O, F, X>>, fs: seq<BrushPlane<T, O, F, X>>,
    entityHead: nat, brushHead: nat, planeHead: nat, textureHead: nat,
    entities: seq<EntityId>, brushes: seq<BrushId>, faces: seq<FaceId>,
    entityProperties: map<EntityId, P>, entityBrushes: map<EntityId, seq<BrushId>>,
    brushPlanes: map<BrushId, seq<FaceId>>,
    facePlanes: map<FaceId, T>, faceTextures: map<FaceId, TextureId>, faceOffsets: map<FaceId, O>,
    faceAngles: map<FaceId, F>, faceScales: map<FaceId, Vector2<F>>, faceExtensions: map<FaceId, X>,
    textures: map<string, TextureId>)
    requires es == done + [Entity(p, brushesDone + [Brush(ps)])]
    requires es' == done + [Entity(p, brushesDone + [Brush(ps + [f])])]
    requires Built(es, bs, fs, entityHead, brushHead, planeHead, textureHead,
                   entities, brushes, faces, entityProperties, entityBrushes, brushPlanes,
                   facePlanes, faceTextures, faceOffsets, faceAngles, faceScales, faceExtensions, textures)
    ensures brushHead > 0
    ensures var faceId := planeHead as FaceId;
            var brushId := (brushHead - 1) as BrushId;
            var seen := f.texture in textures;
            var textureId := if seen then textures[f.texture] else textureHead as TextureId;
            Built(es', AllBrushes(es'), fs + [f], entityHead, brushHead, planeHead + 1,
                  if seen then textureHead else textureHead + 1,
                  entities, brushes, faces + [faceId], entityProperties, entityBrushes,
                  brushPlanes[brushId := (if brushId in brushPlanes then brushPlanes[brushId] else []) + [faceId]],
                  facePlanes[faceId := f.plane],
                  faceTextures[faceId := textureId],
                  faceOffsets[faceId := f.textureOffset],
                  faceAngles[faceId := f.angle],
                  faceScales[faceId := Vector2(f.scaleX, f.scaleY)],
                  faceExtensions[faceId := f.extension],
                  if seen then textures else textures[f.texture := textureId])
  {
    FaceStep(done, p, brushesDone, ps, f, es, es');
    FacesGrow(fs, f, planeHead, faces, facePlanes, faceOffsets, faceAngles, faceScales, faceExtensions);
    TexturesGrow(fs, f, textureHead, faceTextures, textures);
  }

  /** Entering the brush loop body keeps the builder in step with the tree. */
  lemma BrushVisited<P, T, O, F, X>(
    done: seq<Entity<P, T, O, F, X>>, p: P, brushesDone: seq<Brush<T, O, F, X>>,
    es: seq<Entity<P, T, O, F, X>>, es': seq<Entity<P, T, O, F, X>>,
    bs: seq<Brush<T, O, F, X>>, fs: seq<BrushPlane<T, O, F, X>>,
    entityHead: nat, brushHead: nat, planeHead: nat, textureHead: nat,
    entities: seq<EntityId>, brushes: seq<BrushId>, faces: seq<FaceId>,
    entityProperties: map<EntityId, P>, entityBrushes: map<EntityId, seq<BrushId>>,
    brushPlanes: map<BrushId, seq<FaceId>>,
    facePlanes: map<FaceId, T>, faceTextures: map<FaceId, TextureId>, faceOffsets: map<FaceId, O>,
    faceAngles: map<FaceId, F>, faceScales: map<FaceId, Vector2<F>>, faceExtensions: map<FaceId, X>,
    textures: map<string, TextureId>)
    requires es == done + [Entity(p, brushesDone)]
    requires es' == done + [Entity(p, brushesDone + [Brush([])])]
    requires entityHead > 0 && entityHead == |done| + 1
    requires Built(es, bs, fs, entityHead, brushHead, planeHead, textureHead,
                   entities, brushes, faces, entityProperties, entityBrushes, brushPlanes,
                   facePlanes, faceTextures, faceOffsets, faceAngles, faceScales, faceExtensions, textures)
    ensures var entityId := (entityHead - 1) as EntityId;
            var brushId := brushHead as BrushId;
            Built(es', bs + [Brush([])], fs, entityHead, brushHead + 1, planeHead, textureHead,
                  entities, brushes + [brushId], faces, entityProperties,
                  entityBrushes[entityId := (if entityId in entityBrushes then entityBrushes[entityId] else []) + [brushId]],
                  brushPlanes, facePlanes, faceTextures, faceOffsets, faceAngles, faceScales, faceExtensions, textures)
  {
    BrushStep(done, p, brushesDone, es, es');
  }

  /** Entering the entity loop body keeps the builder in step with the tree. */
  lemma EntityVisited<P, T, O, F, X>(
    es: seq<Entity<P, T, O, F, X>>, p: P, bs: seq<Brush<T, O, F, X>>, fs: seq<BrushPlane<T, O, F, X>>,
    entityHead: nat, brushHead: nat, planeHead: nat, textureHead: nat,
    entities: seq<EntityId>, brushes: seq<BrushId>, faces: seq<FaceId>,
    entityProperties: map<EntityId, P>, entityBrushes: map<EntityId, seq<BrushId>>,
    brushPlanes: map<BrushId, seq<FaceId>>,
    facePlanes: map<FaceId, T>, faceTextures: map<FaceId, TextureId>, faceOffsets: map<FaceId, O>,
    faceAngles: map<FaceId, F>, faceScales: map<FaceId, Vector2<F>>, faceExtensions: map<FaceId, X>,
    textures: map<string, TextureId>)
    requires Built(es, bs, fs, entityHead, brushHead, planeHead, textureHead,
                   entities, brushes, faces, entityProperties, entityBrushes, brushPlanes,
                   facePlanes, faceTextures, faceOffsets, faceAngles, faceScales, faceExtensions, textures)
    ensures var entityId := entityHead as EntityId;
            Built(es + [Entity(p, [])], bs, fs, entityHead + 1, brushHead, planeHead, textureHead,
                  entities + [entityId], brushes, faces, entityProperties[entityId := p], entityBrushes,
                  brushPlanes, facePlanes, faceTextures, faceOffsets, faceAngles, faceScales, faceExtensions, textures)
  {
    EntityStep(es, p);
  }

  // Prefixes of the lists being walked.

  lemma PrefixSnoc<A>(s: seq<A>, i: nat)
    requires i < |s|
    ensures s[..i + 1] == s[..i] + [s[i]]
  {
  }

  lemma PrefixEnds<A>(s: seq<A>)
    ensures s[..0] == [] && s[..|s|] == s
  {
  }

  method New<P, T, O, F, X>(m: Map<P, T, O, F, X>) returns (g: GeoMap<P, T, O, F, X>)
    ensures g == Expected(m)
  {
    var entityHead: nat, brushHead: nat, planeHead: nat, textureHead: nat := 0, 0, 0, 0;

    var entities: seq<EntityId> := [];
    var brushes: seq<BrushId> := [];
    var faces: seq<FaceId> := [];

    var entityProperties: map<EntityId, P> := map[];
    var entityBrushes: map<EntityId, seq<BrushId>> := map[];

    var brushPlanes: map<BrushId, seq<FaceId>> := map[];

    var facePlanes: map<FaceId, T> := map[];
    var faceTextures: map<FaceId, TextureId> := map[];
    var faceOffsets: map<FaceId, O> := map[];
    var faceAngles: map<FaceId, F> := map[];
    var faceScales: map<FaceId, Vector2<F>> := map[];
    var faceExtensions: map<FaceId, X> := map[];

    var textures: map<string, TextureId> := map[];

    ghost var es: seq<Entity<P, T, O, F, X>> := [];
    ghost var bs: seq<Brush<T, O, F, X>> := [];
    ghost var fs: seq<BrushPlane<T, O, F, X>> := [];

    PrefixEnds(m.entities);
    for ei := 0 to |m.entities|
      invariant es == m.entities[..ei]
      invariant Built(es, bs, fs, entityHead, brushHead, planeHead, textureHead,
                      entities, brushes, faces, entityProperties, entityBrushes, brushPlanes,
                      facePlanes, faceTextures, faceOffsets, faceAngles, faceScales, faceExtensions, textures)
    {
      var entity := m.entities[ei];
      ghost var done := es;
      PrefixSnoc(m.entities, ei);
      PrefixEnds(entity.brushes);
      EntityVisited(es, entity.properties, bs, fs, entityHead, brushHead, planeHead, textureHead,
                    entities, brushes, faces, entityProperties, entityBrushes, brushPlanes,
                    facePlanes, faceTextures, faceOffsets, faceAngles, faceScales, faceExtensions, textures);
      es := done + [Entity(entity.properties, [])];

      var entityId := entityHead as EntityId;
      entityHead := entityHead + 1;

      entities := entities + [entityId];
      entityProperties := entityProperties[entityId := entity.properties];

      for bi := 0 to |entity.brushes|
        invariant entityId == (entityHead - 1) as EntityId && entityHead == |done| + 1
        invariant es == done + [Entity(entity.properties, entity.brushes[..bi])]
        invariant Built(es, bs, fs, entityHead, brushHead, planeHead, textureHead,
                        entities, brushes, faces, entityProperties, entityBrushes, brushPlanes,
                        facePlanes, faceTextures, faceOffsets, faceAngles, faceScales, faceExtensions, textures)
      {
        var brush := entity.brushes[bi];
        ghost var brushesDone := entity.brushes[..bi];
        PrefixSnoc(entity.brushes, bi);
        PrefixEnds(brush.planes);
        ghost var next := done + [Entity(entity.properties, brushesDone + [Brush([])])];
        BrushVisited(done, entity.properties, brushesDone, es, next, bs, fs,
                     entityHead, brushHead, planeHead, textureHead,
                     entities, brushes, faces, entityProperties, entityBrushes, brushPlanes,
                     facePlanes, faceTextures, faceOffsets, faceAngles, faceScales, faceExtensions, textures);
        es, bs := next, bs + [Brush([])];

        var brushId := brushHead as BrushId;
        brushHead := brushHead + 1;

        brushes := brushes + [brushId];
        var owned := if entityId in entityBrushes then entityBrushes[entityId] else [];
        entityBrushes := entityBrushes[entityId := owned + [brushId]];

        for pi := 0 to |brush.planes|
          invariant brushId == (brushHead - 1) as BrushId
          invariant es == done + [Entity(entity.properties, brushesDone + [Brush(brush.planes[..pi])])]
          invariant Built(es, bs, fs, entityHead, brushHead, planeHead, textureHead,
                          entities, brushes, faces, entityProperties, entityBrushes, brushPlanes,
                          facePlanes, faceTextures, faceOffsets, faceAngles, faceScales, faceExtensions, textures)
        {
          var plane := brush.planes[pi];
          PrefixSnoc(brush.planes, pi);
          ghost var next := done + [Entity(entity.properties, brushesDone + [Brush(brush.planes[..pi + 1])])];
          FaceVisited(done, entity.properties, brushesDone, brush.planes[..pi], plane, es, next, bs, fs,
                      entityHead, brushHead, planeHead, textureHead,
                      entities, brushes, faces, entityProperties, entityBrushes, brushPlanes,
                      facePlanes, faceTextures, faceOffsets, faceAngles, faceScales, faceExtensions, textures);
          es, bs, fs := next, AllBrushes(next), fs + [plane];

          var planeId := planeHead as FaceId;
          planeHead := planeHead + 1;

          faces := faces + [planeId];
          facePlanes := facePlanes[planeId := plane.plane];

          var textureId: TextureId;
          if plane.texture in textures {
            textureId := textures[plane.texture];
          } else {
            textureId := textureHead as TextureId;
            textures := textures[plane.texture := textureId];
            textureHead := textureHead + 1;
          }

          faceTextures := faceTextures[planeId := textureId];

          faceOffsets := faceOffsets[planeId := plane.textureOffset];
          faceAngles := faceAngles[planeId := plane.angle];
          faceScales := faceScales[planeId := Vector2(plane.scaleX, plane.scaleY)];
          faceExtensions := faceExtensions[planeId := plane.extension];
          var ownedFaces := if brushId in brushPlanes then brushPlanes[brushId] else [];
          brushPlanes := brushPlanes[brushId := ownedFaces + [planeId]];
        }
      }
    }
    PrefixEnds(m.entities);

    var pointEntities := PointEntities(entities, entityBrushes);

    InvertNameTable(Interned(fs));
    var textureNames := Invert(textures);

    g := GeoMap(
      entities := entities,
      brushes := brushes,
      faces := faces,
      textures := textureNames,
      entityProperties := entityProperties,
      entityBrushes := entityBrushes,
      pointEntities := pointEntities,
      brushFaces := brushPlanes,
      facePlanes := facePlanes,
      faceTextures := faceTextures,
      faceOffsets := faceOffsets,
      faceAngles := faceAngles,
      faceScales := faceScales,
      faceExtensions := faceExtensions);
  }

  /** `impl From<Map> for GeoMap`: the same conversion. */
  method From<P, T, O, F, X>(m: Map<P, T, O, F, X>) returns (g: GeoMap<P, T, O, F, X>)
    ensures g == Expected(m)
  {
    g := New(m);
  }
}
