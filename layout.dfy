/**
  The layout that `GeoMap::new` produces, as a function of the map:
  brushes and faces are numbered by their position in the flattened tree,
  the attribute tables are read off the flattened face list, and texture
  ids are positions in the registry of distinct names. The three ownership
  tables are defined one item at a time; the GeoMapFacts module proves their
  closed form (an owner's children are the run of ids that starts at the
  prefix sum of the child counts before it).
*/
module Layout {
  import opened Repr
  import opened Ids
  import opened Flat
  import opened Interning
  import opened Tail
  import opened GeoMapStruct

  /** Each entity's brush list. */
  function BrushLists<P, T, O, F, X>(es: seq<Entity<P, T, O, F, X>>): (r: seq<seq<Brush<T, O, F, X>>>)
  {
    seq(|es|, i requires 0 <= i < |es| => es[i].brushes)
  }

  /** Every brush of the map, in traversal order: brush id `b` is `AllBrushes(es)[b]`. */
  function AllBrushes<P, T, O, F, X>(es: seq<Entity<P, T, O, F, X>>): seq<Brush<T, O, F, X>>
  {
    Flatten(BrushLists(es))
  }

  /** Each brush's plane list. */
  function PlaneLists<T, O, F, X>(bs: seq<Brush<T, O, F, X>>): seq<seq<BrushPlane<T, O, F, X>>>
  {
    seq(|bs|, i requires 0 <= i < |bs| => bs[i].planes)
  }

  /** Every plane of the given brushes, in traversal order. */
  function AllPlanes<T, O, F, X>(bs: seq<Brush<T, O, F, X>>): seq<BrushPlane<T, O, F, X>>
  {
    Flatten(PlaneLists(bs))
  }

  /** Every face of the map, in traversal order: face id `f` is `AllFaces(es)[f]`. */
  function AllFaces<P, T, O, F, X>(es: seq<Entity<P, T, O, F, X>>): seq<BrushPlane<T, O, F, X>>
  {
    AllPlanes(AllBrushes(es))
  }

  /** The texture name of each face. */
  function Names<T, O, F, X>(fs: seq<BrushPlane<T, O, F, X>>): seq<string>
  {
    seq(|fs|, i requires 0 <= i < |fs| => fs[i].texture)
  }

  /** The distinct texture names of the faces in first-occurrence order: name of texture id `t` is the `t`-th. */
  function Interned<T, O, F, X>(fs: seq<BrushPlane<T, O, F, X>>): seq<string>
  {
    Registry(Names(fs))
  }

  function EntityProperties<P, T, O, F, X>(es: seq<Entity<P, T, O, F, X>>): map<EntityId, P>
  {
    map e: EntityId | 0 <= e < |es| as EntityId :: es[e].properties
  }

  /**
    The entity-to-brushes table, built entity by entity: an entity with
    brushes owns the run of brush ids that follows the brushes of the
    entities before it; an entity without brushes has no entry.
  */
  function EntityBrushes<P, T, O, F, X>(es: seq<Entity<P, T, O, F, X>>): (r: map<EntityId, seq<BrushId>>)
    ensures forall e :: e in r ==> e < |es| as EntityId
  {
    if es == [] then map[]
    else
      var init := es[..|es| - 1];
      var e := es[|es| - 1];
      var prev := EntityBrushes(init);
      if e.brushes == [] then prev
      else prev[|init| as EntityId := BrushRun(|AllBrushes(init)|, |e.brushes|)]
  }

  /**
    The brush-to-faces table, built brush by brush: a brush with faces owns
    the run of face ids that follows the faces of the brushes before it; a
    brush without faces has no entry.
  */
  function BrushFaces<T, O, F, X>(bs: seq<Brush<T, O, F, X>>): (r: map<BrushId, seq<FaceId>>)
    ensures forall b :: b in r ==> b < |bs| as BrushId
  {
    if bs == [] then map[]
    else
      var init := bs[..|bs| - 1];
      var b := bs[|bs| - 1];
      var prev := BrushFaces(init);
      if b.planes == [] then prev
      else prev[|init| as BrushId := FaceRun(|AllPlanes(init)|, |b.planes|)]
  }

  /** One attribute of each face, keyed by face id. */
  function FaceTable<T, O, F, X, V>(fs: seq<BrushPlane<T, O, F, X>>, field: BrushPlane<T, O, F, X> -> V): map<FaceId, V>
  {
    map f: FaceId | 0 <= f < |fs| as FaceId :: field(fs[f])
  }

  function PlaneOf<T, O, F, X>(p: BrushPlane<T, O, F, X>): T { p.plane }
  function OffsetOf<T, O, F, X>(p: BrushPlane<T, O, F, X>): O { p.textureOffset }
  function AngleOf<T, O, F, X>(p: BrushPlane<T, O, F, X>): F { p.angle }
  function ScaleOf<T, O, F, X>(p: BrushPlane<T, O, F, X>): Vector2<F> { Vector2(p.scaleX, p.scaleY) }
  function ExtensionOf<T, O, F, X>(p: BrushPlane<T, O, F, X>): X { p.extension }

  /**
    Each face's texture id, assigned face by face: the position of its name
    among the names interned up to and including that face.
  */
  function FaceTextures<T, O, F, X>(fs: seq<BrushPlane<T, O, F, X>>): (r: map<FaceId, TextureId>)
    ensures forall f :: f in r ==> f < |fs| as FaceId
  {
    if fs == [] then map[]
    else
      var init := fs[..|fs| - 1];
      var f := fs[|fs| - 1];
      assert Names(fs)[|fs| - 1] == f.texture;
      FaceTextures(init)[|init| as FaceId := IndexOf(Interned(fs), f.texture) as TextureId]
  }

  /** The whole flattened map. */
  function Expected<P, T, O, F, X>(m: Map<P, T, O, F, X>): GeoMap<P, T, O, F, X>
  {
    var es := m.entities;
    var bs := AllBrushes(es);
    var fs := AllPlanes(bs);
    GeoMap(
      entities := EntityRun(|es|),
      brushes := BrushRun(0, |bs|),
      faces := FaceRun(0, |fs|),
      textures := Textures(Interned(fs)),
      entityProperties := EntityProperties(es),
      entityBrushes := EntityBrushes(es),
      pointEntities := PointEntities(EntityRun(|es|), EntityBrushes(es)),
      brushFaces := BrushFaces(bs),
      facePlanes := FaceTable(fs, PlaneOf),
      faceTextures := FaceTextures(fs),
      faceOffsets := FaceTable(fs, OffsetOf),
      faceAngles := FaceTable(fs, AngleOf),
      faceScales := FaceTable(fs, ScaleOf),
      faceExtensions := FaceTable(fs, ExtensionOf))
  }

  // How each table grows when the traversal appends one item.

  lemma AllBrushesSnoc<P, T, O, F, X>(es: seq<Entity<P, T, O, F, X>>, e: Entity<P, T, O, F, X>)
    ensures AllBrushes(es + [e]) == AllBrushes(es) + e.brushes
  {
    assert BrushLists(es + [e]) == BrushLists(es) + [e.brushes];
    FlattenSnoc(BrushLists(es), e.brushes);
  }

  lemma AllPlanesSnoc<T, O, F, X>(bs: seq<Brush<T, O, F, X>>, b: Brush<T, O, F, X>)
    ensures AllPlanes(bs + [b]) == AllPlanes(bs) + b.planes
  {
    assert PlaneLists(bs + [b]) == PlaneLists(bs) + [b.planes];
    FlattenSnoc(PlaneLists(bs), b.planes);
  }

  lemma EntityPropertiesSnoc<P, T, O, F, X>(es: seq<Entity<P, T, O, F, X>>, e: Entity<P, T, O, F, X>)
    ensures EntityProperties(es + [e]) == EntityProperties(es)[|es| as EntityId := e.properties]
  {
  }

  lemma EntityBrushesSnoc<P, T, O, F, X>(es: seq<Entity<P, T, O, F, X>>, e: Entity<P, T, O, F, X>)
    ensures EntityBrushes(es + [e]) ==
      if e.brushes == [] then EntityBrushes(es)
      else EntityBrushes(es)[|es| as EntityId := BrushRun(|AllBrushes(es)|, |e.brushes|)]
  {
    assert (es + [e])[..|es|] == es;
  }

  lemma BrushFacesSnoc<T, O, F, X>(bs: seq<Brush<T, O, F, X>>, b: Brush<T, O, F, X>)
    ensures BrushFaces(bs + [b]) ==
      if b.planes == [] then BrushFaces(bs)
      else BrushFaces(bs)[|bs| as BrushId := FaceRun(|AllPlanes(bs)|, |b.planes|)]
  {
    assert (bs + [b])[..|bs|] == bs;
  }

  lemma FaceTableSnoc<T, O, F, X, V>(fs: seq<BrushPlane<T, O, F, X>>, f: BrushPlane<T, O, F, X>, field: BrushPlane<T, O, F, X> -> V)
    ensures FaceTable(fs + [f], field) == FaceTable(fs, field)[|fs| as FaceId := field(f)]
  {
  }

  lemma InternedSnoc<T, O, F, X>(fs: seq<BrushPlane<T, O, F, X>>, f: BrushPlane<T, O, F, X>)
    ensures Interned(fs + [f]) ==
      if f.texture in Interned(fs) then Interned(fs) else Interned(fs) + [f.texture]
  {
    assert Names(fs + [f]) == Names(fs) + [f.texture];
    if f.texture in Names(fs) {
      RegistrySnocSeen(Names(fs), f.texture);
    } else {
      RegistrySnocNew(Names(fs), f.texture);
    }
  }

  lemma FaceTexturesSnoc<T, O, F, X>(fs: seq<BrushPlane<T, O, F, X>>, f: BrushPlane<T, O, F, X>)
    ensures f.texture in Interned(fs + [f])
    ensures FaceTextures(fs + [f]) ==
      FaceTextures(fs)[|fs| as FaceId := IndexOf(Interned(fs + [f]), f.texture) as TextureId]
  {
    assert (fs + [f])[..|fs|] == fs;
    assert Names(fs + [f])[|fs|] == f.texture;
  }

  // The three steps of the traversal, stated on the visited part of the tree.

  /** Visiting a new entity, before any of its brushes. */
  lemma EntityStep<P, T, O, F, X>(done: seq<Entity<P, T, O, F, X>>, p: P)
    ensures AllBrushes(done + [Entity(p, [])]) == AllBrushes(done)
    ensures EntityRun(|done| + 1) == EntityRun(|done|) + [|done| as EntityId]
    ensures EntityProperties(done + [Entity(p, [])]) == EntityProperties(done)[|done| as EntityId := p]
    ensures EntityBrushes(done + [Entity(p, [])]) == EntityBrushes(done)
  {
    AllBrushesSnoc(done, Entity(p, []));
    EntityRunSnoc(|done|);
    EntityPropertiesSnoc(done, Entity(p, []));
    EntityBrushesSnoc(done, Entity(p, []));
  }

  /**
    Visiting a new brush of the current (last) entity, before any of its
    faces: its id is appended to the entity's list, which is created on the
    entity's first brush.
  */
  lemma BrushStep<P, T, O, F, X>(done: seq<Entity<P, T, O, F, X>>, p: P, bs: seq<Brush<T, O, F, X>>,
                                 es: seq<Entity<P, T, O, F, X>>, es': seq<Entity<P, T, O, F, X>>)
    requires es == done + [Entity(p, bs)]
    requires es' == done + [Entity(p, bs + [Brush([])])]
    ensures AllBrushes(es') == AllBrushes(es) + [Brush([])]
    ensures AllPlanes(AllBrushes(es')) == AllPlanes(AllBrushes(es))
    ensures BrushRun(0, |AllBrushes(es)| + 1) == BrushRun(0, |AllBrushes(es)|) + [|AllBrushes(es)| as BrushId]
    ensures EntityProperties(es') == EntityProperties(es)
    ensures var e := |done| as EntityId;
            EntityBrushes(es') == EntityBrushes(es)[e :=
              (if e in EntityBrushes(es) then EntityBrushes(es)[e] else []) + [|AllBrushes(es)| as BrushId]]
    ensures BrushFaces(AllBrushes(es')) == BrushFaces(AllBrushes(es))
  {
    BrushStepBrushes(done, p, bs, es, es');
    AllPlanesSnoc(AllBrushes(es), Brush([]));
    BrushFacesSnoc(AllBrushes(es), Brush([]));
    PropertiesIgnoreBrushes(done, p, bs, bs + [Brush([])]);
    BrushStepOwned(done, p, bs, es, es');
  }

  lemma BrushStepBrushes<P, T, O, F, X>(done: seq<Entity<P, T, O, F, X>>, p: P, bs: seq<Brush<T, O, F, X>>,
                                        es: seq<Entity<P, T, O, F, X>>, es': seq<Entity<P, T, O, F, X>>)
    requires es == done + [Entity(p, bs)]
    requires es' == done + [Entity(p, bs + [Brush([])])]
    ensures AllBrushes(es') == AllBrushes(es) + [Brush([])]
  {
    AllBrushesSnoc(done, Entity(p, bs));
    AllBrushesSnoc(done, Entity(p, bs + [Brush([])]));
  }

  /** The property table does not look at brushes. */
  lemma PropertiesIgnoreBrushes<P, T, O, F, X>(done: seq<Entity<P, T, O, F, X>>, p: P,
                                               bs: seq<Brush<T, O, F, X>>, bs': seq<Brush<T, O, F, X>>)
    ensures EntityProperties(done + [Entity(p, bs')]) == EntityProperties(done + [Entity(p, bs)])
  {
    EntityPropertiesSnoc(done, Entity(p, bs));
    EntityPropertiesSnoc(done, Entity(p, bs'));
  }

  lemma BrushStepOwned<P, T, O, F, X>(done: seq<Entity<P, T, O, F, X>>, p: P, bs: seq<Brush<T, O, F, X>>,
                                      es: seq<Entity<P, T, O, F, X>>, es': seq<Entity<P, T, O, F, X>>)
    requires es == done + [Entity(p, bs)]
    requires es' == done + [Entity(p, bs + [Brush([])])]
    ensures var e := |done| as EntityId;
            EntityBrushes(es') == EntityBrushes(es)[e :=
              (if e in EntityBrushes(es) then EntityBrushes(es)[e] else []) + [|AllBrushes(es)| as BrushId]]
  {
    var start := |AllBrushes(done)|;
    var e := |done| as EntityId;
    AllBrushesSnoc(done, Entity(p, bs));
    EntityBrushesSnoc(done, Entity(p, bs));
    EntityBrushesSnoc(done, Entity(p, bs + [Brush([])]));
    BrushRunSnoc(start, |bs|);
    if bs == [] {
      assert e !in EntityBrushes(done);
    } else {
      assert EntityBrushes(es)[e] == BrushRun(start, |bs|);
    }
  }

  /** The entity-to-brushes table looks only at how many brushes each entity has. */
  lemma EntityBrushesIgnoreFaces<P, T, O, F, X>(done: seq<Entity<P, T, O, F, X>>, p: P,
                                                bs: seq<Brush<T, O, F, X>>, bs': seq<Brush<T, O, F, X>>)
    requires |bs| == |bs'|
    ensures EntityBrushes(done + [Entity(p, bs')]) == EntityBrushes(done + [Entity(p, bs)])
  {
    EntityBrushesSnoc(done, Entity(p, bs));
    EntityBrushesSnoc(done, Entity(p, bs'));
  }

  /**
    Visiting a face of the current brush: the face is appended to the faces,
    and its id to the brush's list, which is created on the brush's first
    face.
  */
  lemma FaceStep<P, T, O, F, X>(done: seq<Entity<P, T, O, F, X>>, p: P, bs: seq<Brush<T, O, F, X>>,
                                ps: seq<BrushPlane<T, O, F, X>>, f: BrushPlane<T, O, F, X>,
                                es: seq<Entity<P, T, O, F, X>>, es': seq<Entity<P, T, O, F, X>>)
    requires es == done + [Entity(p, bs + [Brush(ps)])]
    requires es' == done + [Entity(p, bs + [Brush(ps + [f])])]
    ensures |AllBrushes(es')| == |AllBrushes(es)| > 0
    ensures AllFaces(es') == AllFaces(es) + [f]
    ensures FaceRun(0, |AllFaces(es)| + 1) == FaceRun(0, |AllFaces(es)|) + [|AllFaces(es)| as FaceId]
    ensures EntityProperties(es') == EntityProperties(es)
    ensures EntityBrushes(es') == EntityBrushes(es)
    ensures var b := (|AllBrushes(es)| - 1) as BrushId;
            BrushFaces(AllBrushes(es')) == BrushFaces(AllBrushes(es))[b :=
              (if b in BrushFaces(AllBrushes(es)) then BrushFaces(AllBrushes(es))[b] else []) + [|AllFaces(es)| as FaceId]]
  {
    var prior := AllBrushes(done) + bs;
    FaceStepBrushes(done, p, bs, ps, f, es, es');
    FaceStepFaces(prior, ps, f);
    FaceRunSnoc(0, |AllFaces(es)|);
    PropertiesIgnoreBrushes(done, p, bs + [Brush(ps)], bs + [Brush(ps + [f])]);
    EntityBrushesIgnoreFaces(done, p, bs + [Brush(ps)], bs + [Brush(ps + [f])]);
    FaceStepOwned(prior, ps, f);
  }

  lemma FaceStepFaces<T, O, F, X>(prior: seq<Brush<T, O, F, X>>, ps: seq<BrushPlane<T, O, F, X>>, f: BrushPlane<T, O, F, X>)
    ensures AllPlanes(prior + [Brush(ps + [f])]) == AllPlanes(prior + [Brush(ps)]) + [f]
  {
    AllPlanesSnoc(prior, Brush(ps));
    AllPlanesSnoc(prior, Brush(ps + [f]));
  }

  lemma FaceStepBrushes<P, T, O, F, X>(done: seq<Entity<P, T, O, F, X>>, p: P, bs: seq<Brush<T, O, F, X>>,
                                       ps: seq<BrushPlane<T, O, F, X>>, f: BrushPlane<T, O, F, X>,
                                       es: seq<Entity<P, T, O, F, X>>, es': seq<Entity<P, T, O, F, X>>)
    requires es == done + [Entity(p, bs + [Brush(ps)])]
    requires es' == done + [Entity(p, bs + [Brush(ps + [f])])]
    ensures AllBrushes(es) == AllBrushes(done) + bs + [Brush(ps)]
    ensures AllBrushes(es') == AllBrushes(done) + bs + [Brush(ps + [f])]
  {
    AllBrushesSnoc(done, Entity(p, bs + [Brush(ps)]));
    AllBrushesSnoc(done, Entity(p, bs + [Brush(ps + [f])]));
  }

  lemma FaceStepOwned<T, O, F, X>(prior: seq<Brush<T, O, F, X>>, ps: seq<BrushPlane<T, O, F, X>>, f: BrushPlane<T, O, F, X>)
    ensures var b := |prior| as BrushId;
            var faces := BrushFaces(prior + [Brush(ps)]);
            BrushFaces(prior + [Brush(ps + [f])]) == faces[b :=
              (if b in faces then faces[b] else []) + [|AllPlanes(prior + [Brush(ps)])| as FaceId]]
  {
    var start := |AllPlanes(prior)|;
    AllPlanesSnoc(prior, Brush(ps));
    BrushFacesSnoc(prior, Brush(ps));
    BrushFacesSnoc(prior, Brush(ps + [f]));
    FaceRunSnoc(start, |ps|);
    ExtendOwned(BrushFaces(prior), |prior| as BrushId, BrushFaces(prior + [Brush(ps)]),
                BrushFaces(prior + [Brush(ps + [f])]), FaceRun(start, |ps|), (start + |ps|) as FaceId);
  }

  /**
    Map bookkeeping shared by the brush and face steps: the list of owner k,
    absent while it is empty, grows by x.
  */
  lemma ExtendOwned<K, V>(prev: map<K, seq<V>>, k: K, cur: map<K, seq<V>>, next: map<K, seq<V>>, run: seq<V>, x: V)
    requires k !in prev
    requires cur == if run == [] then prev else prev[k := run]
    requires next == prev[k := run + [x]]
    ensures next == cur[k := (if k in cur then cur[k] else []) + [x]]
  {
  }
}
