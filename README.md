# shambler `GeoMap::new` in Dafny

shambler turns a parsed Quake-style map into a `GeoMap`, a struct-of-arrays
form: a map is a list of entities, each entity has a property set and a list
of brushes, and each brush is a list of faces (brush planes). `GeoMap::new`
walks that tree once. Entities, brushes and faces each get consecutive ids
from their own counter. Along the way it records which brushes each entity
owns and which faces each brush owns, and it copies five face attributes into
tables keyed by face id. Texture names are interned: a name gets the next
`TextureId` the first time it is met. After the walk the name-to-id table is
inverted into the published id-to-name table. The point entities, the
entities without brushes, are filtered out of the entity list.

The project has these modules:

- `Repr`: the input tree.
- `Ids`: the four id newtypes and runs of consecutive ids.
- `GeoMapStruct`: the output record.
- `Builder.New`: the walk itself, with the source's four counters, three
  lists, ten tables and three nested loops. It is proved to return exactly
  `Layout.Expected(m)`.
- `Layout`: the layout as a function of the map. Ids are positions in the
  flattened brush and face lists (module `Flat`). Texture ids are positions in
  the registry of distinct names (module `Interning`).
- `Tail`: the point-entity filter and the inversion of the texture table.
- `Lex`: the string order that the inversion depends on.
- `GeoMapFacts`: what the returned map promises, proved of `Expected(m)`
  (partition, source order, dense ids, interning, round trip).

The Rust payload types (`Properties`, `Triangle`, `TextureOffset`, `f32`,
`Extension`) are the type parameters `P`, `T`, `O`, `F`, `X`. They are copied
through unchanged. `Vector2` is a pair of `F`.

## Model

| member | source | states |
|---|---|---|
| `Builder.New` | src/geo_map.rs:33-146 | The result equals `Expected(m)`: each list and table holds exactly what the layout assigns to the input tree. The loops are proved through the invariant that the locals match the layout of the part of the tree visited so far. |
| `Builder.From` | src/geo_map.rs:149-153 | The conversion gives the same result as `new`. |
| `Builder.EntityVisited` | src/geo_map.rs:57-66 | Taking the next entity id, pushing it and storing the properties under it keeps the locals equal to the layout of the visited tree, now extended by an entity with no brushes yet. |
| `Builder.BrushVisited` | src/geo_map.rs:68-73 | Taking the next brush id and appending it to the current entity's list keeps the layout. The list is created on the first brush, via `entry().or_default()`. |
| `Builder.FaceVisited` | src/geo_map.rs:75-106 | Taking the next face id, filling the six face tables, and appending the id to the current brush's list (created on its first face) keeps the layout. |
| `Builder.FacesGrow` | src/geo_map.rs:85-105 | Pushing the face id and inserting plane, offset, angle, scale `(scale_x, scale_y)` and extension under it extends each attribute table by that face. |
| `Builder.TexturesGrow` | src/geo_map.rs:91-100 | A name already in the table reuses its id. A new name is inserted under `texture_head`, which then grows by one. Either way the table stays the name table of the registry, and the face gets its name's registry position. |
| `Layout.EntityStep` | src/geo_map.rs:62-66 | A new entity extends the entity list and the property table by one entry, and leaves the brush and ownership tables unchanged. |
| `Layout.BrushStep` | src/geo_map.rs:69-73 | A new brush extends the brush list by the next id. The entity's list gains that id, and is created if absent. The entity properties and the brush-to-faces table are unchanged. |
| `Layout.FaceStep` | src/geo_map.rs:85-106 | A new face extends the face list by the next id. The current brush's face list gains that id, and is created if absent. The entity tables are unchanged. |
| `Layout.EntityBrushesSnoc` | src/geo_map.rs:68-73 | An appended entity with brushes gets the run of ids after all earlier brushes. One without brushes gets no entry. |
| `Layout.BrushFacesSnoc` | src/geo_map.rs:75-106 | An appended brush with faces gets the run of ids after all earlier faces. One without faces gets no entry. |
| `Layout.FaceTexturesSnoc` | src/geo_map.rs:91-100 | An appended face's texture id is its name's position in the registry after the face. |
| `Layout.InternedSnoc` | src/geo_map.rs:91-98 | A name already seen leaves the registry unchanged. A new name is appended at the end. |
| `Interning.Registry` | src/geo_map.rs:91-98 | The registry holds each name met exactly once, and only names met. |
| `Interning.RegistryFirstOccurrence` | src/geo_map.rs:91-98 | Registry order is first-occurrence order: a lower position means a first use that comes earlier. |
| `Interning.RegistrySize` | src/geo_map.rs:91-98 | The registry has as many entries as there are distinct names. |
| `Interning.NameTableSnoc` | src/geo_map.rs:94-96 | Interning a new name adds it under the next id, which is the current registry size. |
| `Interning.InvertNameTable` | src/geo_map.rs:117-120 | Inverting the name table of a registry gives the table from each position to its name, so nothing is lost. |
| `Interning.TexturesSize` | src/geo_map.rs:117-120 | The id-to-name table has one entry per registered name. |
| `Tail.PointEntities` | src/geo_map.rs:111-115 | An id is kept exactly when it is in the entity list and has no key in the entity-to-brushes table. |
| `Tail.PointEntitiesIncreasing` | src/geo_map.rs:111-115 | Filtering an increasing id list leaves it increasing, so the order is kept. |
| `Tail.Invert` | src/geo_map.rs:117-120 | The keys of the inverted table are the ids of the table. Each id maps back to a name that has that id. When several names share an id, the one that BTreeMap iteration visits last wins: the greatest in string order. |
| `Tail.InvertInjective` | src/geo_map.rs:117-120 | On a table with no shared ids the inversion maps every id back to its own name. |
| `GeoMapFacts.EntityBrushesAt` | src/geo_map.rs:68-73 | An entity has an entry exactly when it has brushes. The entry is the run of consecutive ids starting at the number of brushes of the entities before it. |
| `GeoMapFacts.BrushFacesAt` | src/geo_map.rs:75-106 | A brush has an entry exactly when it has faces. The entry is the run of consecutive ids starting at the number of faces of the brushes before it. |
| `GeoMapFacts.FaceTexturesAt` | src/geo_map.rs:91-100 | Every face, and only faces, has a texture id. It is the position of the face's name in the registry of all distinct names. |
| `GeoMapFacts.IdsDense` | src/geo_map.rs:62-88 | There is one entity id per entity, one brush id per brush and one face id per face. Each kind is numbered 0, 1, 2, ... in traversal order. |
| `GeoMapFacts.EntityPropertiesVerbatim` | src/geo_map.rs:62-66 | The property table is keyed by exactly the entity ids. Each entity's properties are stored unchanged under its id. |
| `GeoMapFacts.EntityBrushesKeys` | src/geo_map.rs:68-73 | An entity has an entry in the entity-to-brushes table exactly when it has at least one brush. |
| `GeoMapFacts.EntityBrushesSourceOrder` | src/geo_map.rs:68-73 | An entity's entry has one id per brush of that entity. The j-th id names the entity's j-th brush. |
| `GeoMapFacts.EntityBrushesDisjoint` | src/geo_map.rs:68-73 | No brush id is in the entries of two different entities. |
| `GeoMapFacts.BrushOwner` | src/geo_map.rs:68-73 | Every brush id is in some entity's entry. |
| `GeoMapFacts.EntityBrushesConcat` | src/geo_map.rs:68-73 | The entries, laid end to end in entity order, are the ids 0, 1, ..., one per brush. |
| `GeoMapFacts.EntityBrushesPartition` | src/geo_map.rs:68-73 | The entries, laid end to end in entity order, equal the returned brush list. |
| `GeoMapFacts.BrushFacesKeys` | src/geo_map.rs:75-106 | A brush has an entry in the brush-to-faces table exactly when it has at least one face. |
| `GeoMapFacts.BrushFacesSourceOrder` | src/geo_map.rs:75-106 | A brush's entry has one id per face of that brush. The j-th id names the brush's j-th face. |
| `GeoMapFacts.BrushFacesDisjoint` | src/geo_map.rs:75-106 | No face id is in the entries of two different brushes. |
| `GeoMapFacts.FaceOwner` | src/geo_map.rs:75-106 | Every face id is in some brush's entry. |
| `GeoMapFacts.BrushFacesConcat` | src/geo_map.rs:75-106 | The entries, laid end to end in brush order, are the ids 0, 1, ..., one per face. |
| `GeoMapFacts.BrushFacesPartition` | src/geo_map.rs:75-106 | The entries, laid end to end in brush order, equal the returned face list. |
| `GeoMapFacts.FaceTablesAt` | src/geo_map.rs:88-105 | The six face tables are all keyed by exactly the face ids. Plane, offset, angle, scale and extension are those of the face. |
| `GeoMapFacts.TextureIdsShared` | src/geo_map.rs:91-100 | Two faces get the same texture id exactly when they use the same texture name. |
| `GeoMapFacts.TextureIdsDense` | src/geo_map.rs:91-100 | The texture ids are 0, ..., k-1, where k is the number of distinct names. They are exactly the ids the faces use. |
| `GeoMapFacts.TextureCount` | src/geo_map.rs:91-98 | The id-to-name table has as many entries as there are distinct texture names among the faces. |
| `GeoMapFacts.TextureFirstOccurrence` | src/geo_map.rs:91-98 | A lower texture id names a texture whose first use comes earlier in traversal order. |
| `GeoMapFacts.TextureRoundTrip` | src/geo_map.rs:91-120 | Looking a face's texture id up in the returned texture table gives back the face's own texture name. |
| `GeoMapFacts.TexturesInjective` | src/geo_map.rs:117-120 | Different texture ids name different textures. Together with `TextureIdsDense` this makes the table a bijection onto 0, ..., k-1. |
| `GeoMapFacts.PointEntitiesAt` | src/geo_map.rs:111-115 | An id is a point entity exactly when it belongs to an entity with no brushes. |
| `GeoMapFacts.PointEntitiesPartition` | src/geo_map.rs:111-115 | Every entity is a point entity or has an entry in the entity-to-brushes table, and never both. |
| `GeoMapFacts.PointEntitiesInOrder` | src/geo_map.rs:111-115 | The point entities are strictly increasing, in the order of the entity list. |
| `GeoMapFacts.EmptyMap` | src/geo_map.rs:34-120 | A map with no entities gives empty lists and empty tables in every field, including the point entities and the texture table. |
| `GeoMapFacts.LightAndBrick` | src/geo_map.rs:57-115 | Example input: a light with no brushes, then an entity with one brush of two "brick" faces. Entities are 0 and 1. Brush 0 belongs to entity 1. Faces 0 and 1 belong to brush 0. Both faces use texture 0, which is "brick". Entity 0 is the only point entity. |
| `GeoMapFacts.TwoTextures` | src/geo_map.rs:91-120 | Example input: two faces using "a" and then "b". They get ids 0 and 1, and the table is {0: "a", 1: "b"}. |

## Left out

- The `println!` listing of the point entities (src/geo_map.rs:122-128) is not modelled. It is output only and changes nothing that is returned.
- The `shalrath` types and the map parser (src/geo_map.rs:3-5) are not part of this model. The input is the plain tree of `Repr`, with the payloads as type parameters.
- The `f32` angle, the `Triangle` plane and the `nalgebra::vector!` scale (src/geo_map.rs:27-28, 104) are copied unchanged. They are opaque type parameters, and the scale is a pair of them.
- The counters are unbounded, so `usize` overflow is not modelled.
- Rust moves and ownership are not modelled; the model works on values.
- `BTreeMap` is a Dafny `map`. Its key order is observable only in the inversion at src/geo_map.rs:117-120, which models it explicitly. Rust compares `String`s by their UTF-8 bytes. That is the same as comparing code points, which is what `Lex.Less` does on Dafny characters.
- No entity or brush ever gets an empty list. `entry().or_default()` runs only inside the inner loops (src/geo_map.rs:73, 106), so an entity with no brushes has no key in `entity_brushes`, and a brush with no faces has no key in `brush_faces`. The point-entity filter at src/geo_map.rs:111-115 therefore keeps exactly the entities without brushes.
