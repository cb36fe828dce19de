/**
  The flattened, struct-of-arrays form of a map (`GeoMap`): three id lists,
  the texture registry, and one table per relation or face attribute.
*/
module GeoMapStruct {
  import opened Ids

  /** `nalgebra`'s two-component vector, as used for the texture scale. */
  datatype Vector2<F> = Vector2(x: F, y: F)

  datatype GeoMap<P, T, O, F, X> = GeoMap(
    entities: seq<EntityId>,
    brushes: seq<BrushId>,
    faces: seq<FaceId>,
    textures: map<TextureId, string>,
    entityProperties: map<EntityId, P>,
    entityBrushes: map<EntityId, seq<BrushId>>,
    pointEntities: seq<EntityId>,
    brushFaces: map<BrushId, seq<FaceId>>,
    facePlanes: map<FaceId, T>,
    faceTextures: map<FaceId, TextureId>,
    faceOffsets: map<FaceId, O>,
    faceAngles: map<FaceId, F>,
    faceScales: map<FaceId, Vector2<F>>,
    faceExtensions: map<FaceId, X>)
}
