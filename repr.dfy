/**
  The nested map tree that the parser hands to the builder (shalrath's `repr`
  types). A map is a sequence of entities, an entity a property set and a
  sequence of brushes, a brush a sequence of brush planes (faces).

  The payloads that the builder only copies are type parameters:
    P  the entity property set (`Properties`)
    T  the plane's defining triangle (`Triangle`)
    O  the texture offset (`TextureOffset`)
    F  a 32-bit float (the rotation angle and both scale components)
    X  the format-specific extension (`Extension`)
*/
module Repr {

  datatype BrushPlane<T, O, F, X> = BrushPlane(
    plane: T,
    texture: string,
    textureOffset: O,
    angle: F,
    scaleX: F,
    scaleY: F,
    extension: X)

  datatype Brush<T, O, F, X> = Brush(planes: seq<BrushPlane<T, O, F, X>>)

  datatype Entity<P, T, O, F, X> = Entity(properties: P, brushes: seq<Brush<T, O, F, X>>)

  datatype Map<P, T, O, F, X> = Map(entities: seq<Entity<P, T, O, F, X>>)
}
