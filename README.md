# Sphere deposits of a voxel world

A model of the core of a voxel-world plugin that decorates generated terrain with
sphere-shaped deposits, written in Dafny and verified. It covers:

- the geometry shared by every sphere: a strict squared-distance test (`Sphere`),
  and the `Point3D` value class;
- the sphere kinds and what material each cell gets: `RawMaterialSphere`, and the
  older and newer `FilledSphere` with a shell, a fill and an optional diamond core.
  The older one also rasterizes itself with a full-cube loop (`Generate`);
- the catalogs that pick a structure or a schematic by a threshold rule
  (`StructureRepository`, both versions, and `SchematicRepository` with its call
  counter);
- the chunk generator, which writes block ids into lazily allocated 4096-cell
  sections. Chunk (0, 0) gets a spawn island, and every other chunk gets random
  2x2x2 packs and a structure template (`WorldGenerator`);
- the populators, which run once a chunk exists. One places a structure around a
  random centre (`SphereIncludePopulator`). The other finds a sphere by scanning a
  column, measures its radius by probing the six axis directions, runs a hook once
  per sphere, and caps a sphere layer by layer (`SpherePopulator`).

The host world is a value: a map from positions to materials, where an absent
position reads as air (`HostWorld`). Operations that change the world take a world
and return the new one. The chunk's section buffer is a class over arrays
(`WorldGenerator.ChunkData`). `Point3D` and the schematic table are classes with
fields. Random numbers are parameters, checked against the ranges the random
source can produce. Java's 32-bit arithmetic is explicit where it matters (`JavaInt`,
`JavaBits`): the wrap of `Point3D.add` and `hashCode`, the schematic counter, the
`(byte) id` cast, and the shifts and masks of the section index.

Points about the code that shape the model:

- The only rasterizer in the code (`FilledSphere.generate`, older version) tests
  every cell of the cube [-r, r) cubed. Octant symmetry is stated as lemmas about
  the distance test and about the written cells (`Sphere.OctantSymmetry`,
  `ContestFilledSphere.GeneratedSymmetric`).
- The generator's `setBlock` never clips a template to the 16-block column, so the
  model states the bounds as preconditions.
- `Point3D` has setters, and the model has them too.
- The older `FilledSphere` accepts a minimum radius of 1, although its documentation
  comment asks for more than 1.

## Model

| member | source | states |
|---|---|---|
| Point3DUtil.Point3D.constructor | src/main/java/com/turt2live/survive/util/Point3D.java:38-42 | the new point holds exactly the given coordinates |
| Point3DUtil.Point3D.Origin | src/main/java/com/turt2live/survive/util/Point3D.java:47-49 | the no-argument constructor yields the origin (0, 0, 0) |
| Point3DUtil.Point3D.Add | src/main/java/com/turt2live/survive/util/Point3D.java:61-63 | a fresh point whose coordinates are the 32-bit wrapped sums; the receiver is unchanged; without overflow the result is the receiver moved by the offset |
| Point3DUtil.Point3D.DistanceSquared | src/main/java/com/turt2live/survive/util/Point3D.java:74-86 | 0 for a null point, otherwise the squared Euclidean distance, never negative |
| Point3DUtil.Point3D.Equals | src/main/java/com/turt2live/survive/util/Point3D.java:156-167 | true exactly when the other point is non-null and has the same three coordinates |
| Point3DUtil.Point3D.HashCode | src/main/java/com/turt2live/survive/util/Point3D.java:170-175 | equals 31 * (31 * x + y) + z reduced to a 32-bit int |
| Point3DUtil.Point3D.SetX | src/main/java/com/turt2live/survive/util/Point3D.java:120-122 | sets x and keeps y and z |
| Point3DUtil.Point3D.SetY | src/main/java/com/turt2live/survive/util/Point3D.java:129-131 | sets y and keeps x and z |
| Point3DUtil.Point3D.SetZ | src/main/java/com/turt2live/survive/util/Point3D.java:138-140 | sets z and keeps x and y |
| Point3DUtil.Point3D.Set | src/main/java/com/turt2live/survive/util/Point3D.java:149-153 | the point afterwards is exactly (x, y, z) |
| Point3DUtil.EqualsHashCode | src/main/java/com/turt2live/survive/util/Point3D.java:156-175 | points that are equal have equal hash codes |
| Point3DUtil.DistanceSymmetric | src/main/java/com/turt2live/survive/util/Point3D.java:74-86 | the squared distance is symmetric, and a point is at distance 0 from itself |
| Point3DUtil.DistanceExamples | src/test/java/com/turt2live/survive/util/Point3DTest.java:92-104 | (1,1,1) to (2,2,2) is 3; (10,18,-50) to (45,80,1) is 7670 |
| Sphere.InRadius | src/main/java/com/turt2live/contest/tenjava/survive/structure/Sphere.java:40-58 | the absolute differences make no difference: the test is the sum of the squared signed differences below r squared |
| Sphere.WithinIsDistance | src/main/java/com/turt2live/contest/tenjava/survive/structure/Sphere.java:40-58 | the test holds exactly when the squared distance is below r squared |
| Sphere.BoundaryExcluded | src/main/java/com/turt2live/contest/tenjava/survive/structure/Sphere.java:57 | a point exactly r away along any axis is outside: the comparison is strict |
| Sphere.OctantSymmetry | src/main/java/com/turt2live/contest/tenjava/survive/structure/Sphere.java:45-51 | negating any one offset component keeps the answer |
| Sphere.SwapSymmetric | src/main/java/com/turt2live/contest/tenjava/survive/structure/Sphere.java:45-51 | swapping centre and test point keeps the answer |
| Sphere.TranslationInvariant | src/main/java/com/turt2live/contest/tenjava/survive/structure/Sphere.java:45-47 | moving centre and test point by the same offset keeps the answer |
| Sphere.CenterInside | src/main/java/com/turt2live/contest/tenjava/survive/structure/Sphere.java:43-57 | the centre is inside exactly when r is non-zero |
| Sphere.RadiusSignIrrelevant | src/main/java/com/turt2live/contest/tenjava/survive/structure/Sphere.java:43 | r and -r give the same answer |
| Sphere.FillInsideSphere | src/main/java/com/turt2live/contest/tenjava/survive/structure/Sphere.java:40-58 | for r >= 1, inside radius r - 1 implies inside radius r |
| Sphere.WithinCube | src/main/java/com/turt2live/contest/tenjava/survive/structure/Sphere.java:40-58 | every point inside radius r >= 0 has each offset in (-r, r) |
| RawMaterialSphere.New | src/main/java/com/turt2live/contest/tenjava/survive/structure/RawMaterialSphere.java:43-52 | fails exactly on a null material; otherwise keeps every argument |
| RawMaterialSphere.NewWithoutDiamond | src/main/java/com/turt2live/contest/tenjava/survive/structure/RawMaterialSphere.java:59-61 | fails exactly on a null material; keeps the radii; no diamond |
| RawMaterialSphere.NewDefaultRadius | src/main/java/com/turt2live/contest/tenjava/survive/structure/RawMaterialSphere.java:68-70 | fails exactly on a null material; radius 3..7; no diamond; keeps the chance |
| RawMaterialSphere.NewDefaultRadiusWithDiamond | src/main/java/com/turt2live/contest/tenjava/survive/structure/RawMaterialSphere.java:77-79 | fails exactly on a null material; radius 3..7; keeps the diamond flag |
| RawMaterialSphere.MaterialChoice | src/main/java/com/turt2live/contest/tenjava/survive/structure/RawMaterialSphere.java:83-84 | a diamond exactly when the block is the centre and the flag is set; otherwise the sphere material |
| RawMaterialSphere.MaterialFor | src/main/java/com/turt2live/contest/tenjava/survive/structure/RawMaterialSphere.java:83-84 | a cell gets either the sphere material or a diamond, and the diamond only at the centre |
| RawMaterialSphere.SetBlock | src/main/java/com/turt2live/contest/tenjava/survive/structure/RawMaterialSphere.java:82-87 | the block takes the chosen material and no other cell changes |
| ContestFilledSphere.New | src/main/java/com/turt2live/contest/tenjava/survive/structure/FilledSphere.java:50-68 | succeeds exactly when shell and filler are present, minRadius >= 1, maxRadius >= minRadius and the chance is in [0, 1]; each failing check, taken in source order (shell, filler, minimum radius, maximum radius, chance), gives its own message; success keeps every argument |
| ContestFilledSphere.NewDefaultRadius | src/main/java/com/turt2live/contest/tenjava/survive/structure/FilledSphere.java:75-77 | succeeds exactly with both materials and a chance in [0, 1]; radius 3..7; keeps the diamond flag |
| ContestFilledSphere.NewDefault | src/main/java/com/turt2live/contest/tenjava/survive/structure/FilledSphere.java:84-86 | succeeds exactly with both materials and a chance in [0, 1]; radius 3..7; no diamond |
| ContestFilledSphere.NewWithoutDiamond | src/main/java/com/turt2live/contest/tenjava/survive/structure/FilledSphere.java:93-95 | the validation of the full constructor; no diamond; keeps the radii |
| ContestFilledSphere.GetPercentChance | src/main/java/com/turt2live/contest/tenjava/survive/structure/FilledSphere.java:98-100 | the chance a valid sphere reports lies in [0, 1] |
| ContestFilledSphere.PickRadius | src/main/java/com/turt2live/contest/tenjava/survive/structure/FilledSphere.java:104 | the radius is minRadius for a one-value range, else in [minRadius, maxRadius), and always >= 1 |
| ContestFilledSphere.RadiusRange | src/main/java/com/turt2live/contest/tenjava/survive/structure/FilledSphere.java:104 | every radius in [minRadius, maxRadius) comes from some draw |
| ContestFilledSphere.CellMaterial | src/main/java/com/turt2live/contest/tenjava/survive/structure/FilledSphere.java:117-120 | a cell gets the diamond, the fill or the shell, and for r >= 1 a cell that does not get the shell lies inside the sphere |
| ContestFilledSphere.Generate | src/main/java/com/turt2live/contest/tenjava/survive/structure/FilledSphere.java:103-129 | every cell strictly inside the drawn radius gets its shell, fill or diamond material and every other cell keeps its material; returns (2r, 2r, 2r) |
| ContestFilledSphere.CubeCovers | src/main/java/com/turt2live/contest/tenjava/survive/structure/FilledSphere.java:110-112 | the cube [-r, r) cubed visited by the loops holds every cell of the sphere |
| ContestFilledSphere.ShellAndFill | src/main/java/com/turt2live/contest/tenjava/survive/structure/FilledSphere.java:117-118 | a written non-centre cell gets the fill exactly when its squared distance is below (r-1) squared, and the shell exactly when it lies between (r-1) squared and r squared |
| ContestFilledSphere.DiamondAtCenter | src/main/java/com/turt2live/contest/tenjava/survive/structure/FilledSphere.java:119-120 | with the diamond flag the centre cell is written, and written as a diamond block |
| ContestFilledSphere.GeneratedSymmetric | src/main/java/com/turt2live/contest/tenjava/survive/structure/FilledSphere.java:110-122 | mirroring an offset along the x, y or z axis gives a cell that is written alike (the sphere test agrees) with the same material |
| FilledSphere.New | src/main/java/com/turt2live/survive/structure/FilledSphere.java:44-56 | succeeds exactly when shell and filler are present; one message for each; success keeps every argument |
| FilledSphere.NewDefaultRadius | src/main/java/com/turt2live/survive/structure/FilledSphere.java:63-65 | succeeds exactly with both materials; radius 3..7; keeps the diamond flag |
| FilledSphere.NewDefault | src/main/java/com/turt2live/survive/structure/FilledSphere.java:72-74 | succeeds exactly with both materials; radius 3..7; no diamond |
| FilledSphere.NewWithoutDiamond | src/main/java/com/turt2live/survive/structure/FilledSphere.java:81-83 | succeeds exactly with both materials; keeps the radii; no diamond |
| FilledSphere.MaterialFor | src/main/java/com/turt2live/survive/structure/FilledSphere.java:86-89 | the chosen material is the diamond, the fill or the shell, and for radius >= 1 a block that gets neither the shell nor the centre's diamond lies inside the sphere |
| FilledSphere.DiamondOverride | src/main/java/com/turt2live/survive/structure/FilledSphere.java:87-88 | a diamond exactly when the block is the centre and the flag is set; otherwise the fill exactly when strictly inside radius - 1 |
| FilledSphere.SetBlock | src/main/java/com/turt2live/survive/structure/FilledSphere.java:86-91 | the block takes the chosen material and no other cell changes |
| FilledSphere.AgreesWithContestVersion | src/main/java/com/turt2live/survive/structure/FilledSphere.java:86-91 | the per-cell choice equals the material the older full-cube loop writes |
| Selection.EligibilityBounds | src/main/java/com/turt2live/survive/StructureRepository.java:76-79 | a chance of 1 admits every draw in [0, 1); a chance outside [0, 1] admits none |
| StructureRepository.CandidateMembership | src/main/java/com/turt2live/survive/StructureRepository.java:76-83 | an entry is a candidate exactly when it is in the catalog, its chance admits the draw and its kind passes the filter |
| StructureRepository.CandidatesAppend | src/main/java/com/turt2live/survive/StructureRepository.java:76-83 | candidates keep catalog order |
| StructureRepository.Candidates | src/main/java/com/turt2live/survive/StructureRepository.java:76-83 | the filtering loop's candidates are never more than the catalog entries |
| StructureRepository.FilterCandidates | src/main/java/com/turt2live/survive/StructureRepository.java:76-83 | the loop keeps exactly the catalog entries that qualify, in catalog order |
| StructureRepository.Is | src/main/java/com/turt2live/survive/StructureRepository.java:89-94 | true exactly when some listed class matches the structure |
| StructureRepository.CatalogShape | src/main/java/com/turt2live/survive/StructureRepository.java:38-55 | 13 entries, every chance in [0, 1], every one with a diamond core |
| StructureRepository.GetRandomStructure | src/main/java/com/turt2live/survive/StructureRepository.java:68-87 | fails exactly without a random source; nothing exactly when there is no candidate; otherwise the candidate at the drawn index, which is a catalog entry that passes the rule |
| StructureRepository.CertainEntryQualifies | src/main/java/com/turt2live/survive/StructureRepository.java:77-79 | a chance-1 entry that passes the filter is a candidate for every draw in [0, 1) |
| StructureRepository.AllZeroGivesNone | src/main/java/com/turt2live/survive/StructureRepository.java:76-86 | entries that all have chance 0 give no candidate for a positive draw |
| StructureRepository.NoEntryQualifies | src/main/java/com/turt2live/survive/StructureRepository.java:76-83 | entries that all fail the rule give no candidate |
| StructureRepository.EveryEntryQualifies | src/main/java/com/turt2live/survive/StructureRepository.java:76-83 | entries that all pass the rule are all candidates, in order |
| StructureRepository.FilledOnlyCandidates | src/main/java/com/turt2live/survive/StructureRepository.java:47-54 | filtering for filled spheres with a draw up to 0.10 leaves exactly the six filled entries |
| ContestStructureRepository.CatalogShape | src/main/java/com/turt2live/contest/tenjava/survive/StructureRepository.java:37-44 | 6 entries, each with radius 3..7, no diamond and a chance in [0, 0.25] |
| ContestStructureRepository.CandidateMembership | src/main/java/com/turt2live/contest/tenjava/survive/StructureRepository.java:61-66 | an entry is a candidate exactly when it is in the catalog and its chance admits the draw |
| ContestStructureRepository.CandidatesAppend | src/main/java/com/turt2live/contest/tenjava/survive/StructureRepository.java:61-66 | candidates keep catalog order |
| ContestStructureRepository.Candidates | src/main/java/com/turt2live/contest/tenjava/survive/StructureRepository.java:61-66 | the filtering loop's candidates are never more than the catalog entries |
| ContestStructureRepository.GetRandomStructure | src/main/java/com/turt2live/contest/tenjava/survive/StructureRepository.java:56-70 | fails exactly without a random source, with its message; nothing exactly when there is no candidate; otherwise the candidate at the drawn index |
| ContestStructureRepository.HighDrawGivesNone | src/main/java/com/turt2live/contest/tenjava/survive/StructureRepository.java:37-44 | a draw above 0.25 gives no candidate |
| ContestStructureRepository.EveryEntryQualifies | src/main/java/com/turt2live/contest/tenjava/survive/StructureRepository.java:61-66 | entries that all admit the draw are all candidates, in order |
| ContestStructureRepository.LowDrawAdmitsAll | src/main/java/com/turt2live/contest/tenjava/survive/StructureRepository.java:37-44 | a draw of at most 0.02 makes the whole catalog the candidates |
| SchematicRepository.Candidates | src/main/java/com/turt2live/survive/structure/schematic/SchematicRepository.java:41-46 | the filtering loop's candidates are never more than the listed schematics |
| SchematicRepository.CandidateMembership | src/main/java/com/turt2live/survive/structure/schematic/SchematicRepository.java:43-45 | a schematic is a candidate exactly when it is listed and the draw is within its chance or the counter is negative |
| SchematicRepository.NegativeCounterAdmitsAll | src/main/java/com/turt2live/survive/structure/schematic/SchematicRepository.java:43-45 | with a negative counter every schematic is a candidate, in iteration order |
| SchematicRepository.NonNegativeCounterIsThreshold | src/main/java/com/turt2live/survive/structure/schematic/SchematicRepository.java:43-45 | with a non-negative counter the rule is the shared threshold rule |
| SchematicRepository.CounterStep | src/main/java/com/turt2live/survive/structure/schematic/SchematicRepository.java:47 | the increment adds one, except at the largest int, where it wraps to the smallest |
| SchematicRepository.SchematicRepository.constructor | src/main/java/com/turt2live/survive/structure/schematic/SchematicRepository.java:29-37 | the initial table is empty and the counter is 0 |
| SchematicRepository.SchematicRepository.Register | src/main/java/com/turt2live/survive/structure/schematic/SchematicRepository.java:60-64 | fails exactly on a null schematic or a chance outside [0, 1]; otherwise stores the chance, overwriting without duplicating; every stored chance stays in [0, 1] |
| SchematicRepository.SchematicRepository.GetRandomSchematic | src/main/java/com/turt2live/survive/structure/schematic/SchematicRepository.java:39-51 | no random source fails before the counter moves; otherwise the counter goes up by one (wrapping), the result is nothing exactly when there is no candidate, else the candidate at the drawn index |
| WorldGenerator.SectionOf | src/main/java/com/turt2live/contest/tenjava/survive/WorldGenerator.java:150 | y >> 4 is y / 16 |
| WorldGenerator.SectionIndex | src/main/java/com/turt2live/contest/tenjava/survive/WorldGenerator.java:153 | the bit expression is (y mod 16) * 256 + z * 16 + x and lies in [0, 4096) |
| WorldGenerator.SectionIndexInjective | src/main/java/com/turt2live/contest/tenjava/survive/WorldGenerator.java:153 | within one section distinct cells have distinct indices |
| WorldGenerator.ChunkData.constructor | src/main/java/com/turt2live/contest/tenjava/survive/WorldGenerator.java:57 | maxHeight / 16 sections, all absent; every cell reads 0 |
| WorldGenerator.ChunkData.GetBlock | src/main/java/com/turt2live/contest/tenjava/survive/WorldGenerator.java:158-163 | returns the cell's byte, 0 in an absent section |
| WorldGenerator.ChunkData.SetBlock | src/main/java/com/turt2live/contest/tenjava/survive/WorldGenerator.java:149-154 | the addressed cell becomes (byte) id and no other cell changes; the section is allocated only when absent; other sections are untouched |
| WorldGenerator.ChunkData.SetRange | src/main/java/com/turt2live/contest/tenjava/survive/WorldGenerator.java:137-145 | exactly the cells of the half-open box become (byte) id |
| WorldGenerator.Paint | src/main/java/com/turt2live/contest/tenjava/survive/WorldGenerator.java:64-86 | one fill of the island writes exactly its box |
| WorldGenerator.SpawnIsland | src/main/java/com/turt2live/contest/tenjava/survive/WorldGenerator.java:60-86 | every cell ends as the island fills, written in order, leave it |
| WorldGenerator.IslandShape | src/main/java/com/turt2live/contest/tenjava/survive/WorldGenerator.java:64-86 | bedrock at (9, 124, 9), a stone floor, log pillars on the corners, dirt walls; nothing changes outside 7..11 x 124..127 x 7..11 |
| WorldGenerator.IslandEnclosed | src/main/java/com/turt2live/contest/tenjava/survive/WorldGenerator.java:67-86 | every ring column is solid from the floor layer up for three layers (y 124..126); the dirt walls stop below y 127 because `setRange` excludes its upper bound |
| WorldGenerator.PackId | src/main/java/com/turt2live/contest/tenjava/survive/WorldGenerator.java:98-105 | every pack cell gets an id from the palette |
| WorldGenerator.PackInChunk | src/main/java/com/turt2live/contest/tenjava/survive/WorldGenerator.java:93-105 | every pack cell lies in the chunk, between height 1 and maxHeight - 3 |
| WorldGenerator.PaletteRange | src/main/java/com/turt2live/contest/tenjava/survive/WorldGenerator.java:29-52 | every palette id is in (0, 256) |
| WorldGenerator.ByteOfId | src/main/java/com/turt2live/contest/tenjava/survive/WorldGenerator.java:153 | (byte) id is never 0 for such an id and reads back as id unsigned |
| WorldGenerator.PacksOverEmpty | src/main/java/com/turt2live/contest/tenjava/survive/WorldGenerator.java:88-106 | over an empty column a cell is non-air exactly when some pack covers it, and then holds a palette id |
| WorldGenerator.PackWritesCube | src/main/java/com/turt2live/contest/tenjava/survive/WorldGenerator.java:98-105 | the eight writes fill exactly the pack's 2x2x2 cube, each cell with its drawn id |
| WorldGenerator.PlacePack | src/main/java/com/turt2live/contest/tenjava/survive/WorldGenerator.java:98-105 | the contents become the eight writes of the pack, in order |
| WorldGenerator.ScatterPacks | src/main/java/com/turt2live/contest/tenjava/survive/WorldGenerator.java:92-106 | every cell ends as the packs, placed in order, leave it |
| WorldGenerator.CopyTemplate | src/main/java/com/turt2live/contest/tenjava/survive/WorldGenerator.java:116-125 | every template cell, zero included, is copied to (sx, cy + sy, sz) and nothing else changes |
| WorldGenerator.GenerateBlockSections | src/main/java/com/turt2live/contest/tenjava/survive/WorldGenerator.java:55-130 | a fresh column of maxHeight / 16 sections; chunk (0, 0) holds exactly the island; any other chunk holds the packs with the template copied over them |
| WorldGenerator.StructureWithinColumn | src/main/java/com/turt2live/contest/tenjava/survive/WorldGenerator.java:113-125 | a placed template cell lies in the chunk between height 32 and maxHeight |
| WorldGenerator.PacksOnly | src/main/java/com/turt2live/contest/tenjava/survive/WorldGenerator.java:88-106 | without a structure a chunk's non-air cells are exactly the pack cells |
| SphereIncludePopulator.Populate | src/main/java/com/turt2live/contest/tenjava/survive/populator/SphereIncludePopulator.java:48-91 | nothing in chunk (0, 0) or without a structure; an IllegalArgumentException from the height draw when the world is at most 64 blocks high; otherwise the centre is the drawn one, every non-null entry is set at centre + offset - radius and every other block keeps its material |
| SphereIncludePopulator.CenterInChunk | src/main/java/com/turt2live/contest/tenjava/survive/populator/SphereIncludePopulator.java:56-65 | the centre is in the populated chunk and 32 blocks clear of the bottom and the top |
| SphereIncludePopulator.Placed | src/main/java/com/turt2live/contest/tenjava/survive/populator/SphereIncludePopulator.java:61-82 | a block changes only inside the template box (from the centre less the radius, |data| layers high) and only to the non-null entry at its offset |
| SphereIncludePopulator.CenterGetsMiddle | src/main/java/com/turt2live/contest/tenjava/survive/populator/SphereIncludePopulator.java:61-82 | the centre block takes the template's middle entry, when there is one |
| SpherePopulator.New | src/main/java/com/turt2live/contest/tenjava/survive/populator/SpherePopulator.java:42-46 | fails exactly when the chance is outside [0, 1]; otherwise keeps it |
| SpherePopulator.AllNot | src/main/java/com/turt2live/contest/tenjava/survive/populator/SpherePopulator.java:178-183 | true exactly when no block has the material |
| SpherePopulator.All | src/main/java/com/turt2live/contest/tenjava/survive/populator/SpherePopulator.java:185-190 | true exactly when every block has the material |
| SpherePopulator.RadiusFrom | src/main/java/com/turt2live/contest/tenjava/survive/populator/SpherePopulator.java:108-127 | a non-zero radius found from distance i is one less than a probing distance in [i, 8) |
| SpherePopulator.GetSphereRadius | src/main/java/com/turt2live/contest/tenjava/survive/populator/SpherePopulator.java:108-127 | 0 for a null location; otherwise the probing radius of the location |
| SpherePopulator.RadiusRange | src/main/java/com/turt2live/contest/tenjava/survive/populator/SpherePopulator.java:108-127 | the radius lies in [-1, 6] |
| SpherePopulator.RadiusNegativeIffAirCenter | src/main/java/com/turt2live/contest/tenjava/survive/populator/SpherePopulator.java:111-122 | the radius is -1 exactly when the centre itself is air |
| SpherePopulator.RadiusPositive | src/main/java/com/turt2live/contest/tenjava/survive/populator/SpherePopulator.java:111-123 | a radius of k in 1..6 means exactly: no probe at distance 0..k is air and every probe at k + 1 is air |
| SpherePopulator.ScanCenter | src/main/java/com/turt2live/contest/tenjava/survive/populator/SpherePopulator.java:81-99 | a found centre lies in the scanned column, below maxHeight - 1 |
| SpherePopulator.GetSphereCenter | src/main/java/com/turt2live/contest/tenjava/survive/populator/SpherePopulator.java:81-99 | returns the result of the upward scan of column (8, 8) |
| SpherePopulator.CenterInsideSolidRun | src/main/java/com/turt2live/contest/tenjava/survive/populator/SpherePopulator.java:86-96 | a found centre is in the column, has a positive radius, and it and the blocks above and below it are solid |
| SpherePopulator.Populate | src/main/java/com/turt2live/contest/tenjava/survive/populator/SpherePopulator.java:48-59 | the hook runs exactly when a centre is found, the draw is below the chance and the centre is unmarked; the centre is marked exactly when the hook succeeds; otherwise nothing changes; marks only grow, and only by the found centre, so a marked centre is never populated again |
| SpherePopulator.MapSphere | src/main/java/com/turt2live/contest/tenjava/survive/populator/SpherePopulator.java:144-152 | the mask is 1 exactly at the columns solid in the centre layer |
| SpherePopulator.CapLayer | src/main/java/com/turt2live/contest/tenjava/survive/populator/SpherePopulator.java:159-170 | one pass caps the masked air cells of its layer and reports whether the layer was clear |
| SpherePopulator.CapSphere | src/main/java/com/turt2live/contest/tenjava/survive/populator/SpherePopulator.java:139-176 | fails exactly on the four invalid arguments; otherwise the first clear layer is the top, and the masked air cells of layers 1 to top + extraLayers take the cap while everything else is unchanged |
| SpherePopulator.ClearAbove | src/main/java/com/turt2live/contest/tenjava/survive/populator/SpherePopulator.java:155-175 | above the world's highest block every layer is clear, so the capping loop ends |
| SpherePopulator.Capped | src/main/java/com/turt2live/contest/tenjava/survive/populator/SpherePopulator.java:144-170 | a changed cell was air, became the cap, lies in layers 1..last above the centre in a column solid at the centre's layer |
| SpherePopulator.CapSquaresTop | src/main/java/com/turt2live/contest/tenjava/survive/populator/SpherePopulator.java:155-175 | every masked column holds the cap at the top layer |

## Left out

- Host input and output: loading chunks, block metadata storage, the plugin
  lifecycle, recipes, the scheduler and reading resources. The populated-sphere
  metadata is a set of marked positions.
- Both `Survive.java` files, `EmbeddedSchematic.java` (foreign NBT parsing),
  `SchematicPopulator.java` and the decorating sub-populators
  (`SphereSandPopulator`, `SphereAnimalPopulator`, `SpawnPopulator`). The call of
  the sub-populators at the end of `SphereIncludePopulator.populate` is not part of
  this model. The subclass hook of `SpherePopulator.populate` is a function
  parameter.
- `getFixedSpawnLocation` and `getDefaultPopulators` of the generator: constant
  host wiring.
- The base class of the newer spheres (radius range, chance and the rasterizer
  that calls `setBlock`) is not part of this model. Its checks are not modelled,
  and the newer constructors validate only what their own code checks.
- HostWorld: the world map has no height limit. The host world reads air and
  drops writes outside [0, maxHeight), while the model keeps cap cells
  (`SpherePopulator.CapSphere`) and template cells
  (`SphereIncludePopulator.Populate`) written there. Only a sphere near the top of
  the world reaches those heights.
- Random sources are parameters: `nextDouble` results are reals in [0, 1) and
  `nextInt(n)` results are naturals below n. Chances are reals, not IEEE doubles.
- The `HashMap` iteration order of the schematic table is a parameter (any order
  that lists each registered schematic once).
- `WorldGenerator.java:109` passes a class filter to a repository whose
  `getRandomStructure` takes none. `SphereIncludePopulator.java:59` reads
  `generate()` as a `Material[][][]` with no arguments, but the visible `generate`
  takes four arguments and returns a size vector. The structure's generated cells are
  therefore a parameter of both populators (`structure`), not the result of a call.
- Point3DUtil.Point3D.DistanceSquared: requires the squared distance to fit in a Java
  `int`, rather than modelling the overflow of the squares and their sum.
- Sphere.WithinIsDistance: the squares are taken over unbounded integers, so the
  `int` overflow of `inRadius` is not modelled: neither for coordinates more than
  about 26 000 apart nor for `r * r`, which overflows for a radius above 46 340.
  `ContestFilledSphere.Generate` shares this: its radius is squared without
  wrap-around, and the coordinate sums `x + cx`, `y + cy` and `z + cz` are taken
  over unbounded integers rather than wrapping as Java `int` additions do.
- The newer `StructureRepository` builds its raw spheres from a newer
  `RawMaterialSphere` class, and the newer `FilledSphere` calls the `inRadius` of a
  newer `Sphere` base class. Neither class is part of this model. The contest
  `RawMaterialSphere` (same constructor signatures) and the contest strict distance
  test `Sphere.Within` stand in for them.
- SphereIncludePopulator.Populate: the message of the height draw's
  IllegalArgumentException is the one of Java 8's `Random.nextInt`; other Java
  versions word it differently.
- The newer `StructureRepository.getRandomStructure`, `SchematicRepository.register`
  and the sphere populator's constructor and `capSphere` throw
  `IllegalArgumentException` without a message (Java `null`); the model gives those
  failures the empty message.
- StructureRepository.Is: a class filter is a list of the catalog's structure kinds.
  A null element of the `types` varargs, which throws NullPointerException at
  `c.isInstance`, and a structure class that matches no catalog entry cannot be
  expressed.
- WorldGenerator.ChunkData.SetBlock: requires x and z in [0, 16) and y in [0, maxHeight).
  The code never clips, and the two kinds of out-of-range call are not modelled.
  A y outside the column, or a negative x or z, is an array error: the section
  index or the cell index falls outside its array. An x in [16, 4096) or a z in
  [16, 256) raises no error: the OR in `((y & 0xF) << 8) | (z << 4) | x` silently
  writes a different cell of the same section. For example, x = 16 at (0, 0, 0)
  writes cell (0, 0, 1), and z = 16 sets the lowest bit of the layer part, so it
  writes cell (x, y + 1, 0) for an even y and (x, y, 0) for an odd y.
- WorldGenerator.CopyTemplate: requires the template to be at most 16 cells wide in x
  and z and to fit below the top of the column. Each copied cell goes through
  `setBlock`, so a wider template would alias into neighbouring cells and a taller
  one would be an array error, as for `SetBlock`.
- WorldGenerator.GenerateBlockSections: requires maxHeight to be a multiple of 16 and
  at least 128, which the host guarantees. The pack count is constrained by the
  draws predicate (`ValidDraws`: between maxHeight / 24 and 4 * (maxHeight / 24)),
  not computed from a count draw; the draws are constrained only for a chunk other
  than (0, 0), which draws nothing. Chunk coordinates are unbounded integers.
- WorldGenerator.PlacePack: states the new contents as the eight writes of the pack
  on the abstract cell map; the per-cell reading is the lemma `PackWritesCube`.
- The contest `RawMaterialSphere` calls base methods that the visible contest
  `Sphere` does not declare; the model keeps the constructor's own checks.
