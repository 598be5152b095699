# qua-vis core in Dafny

This project models the computational core of qua-vis, a Vulkan-based
visibility service, as pure Dafny functions, methods and lemmas.

- **Geometry preprocessing** (include/geojson.hpp):
  - the 2D orientation test and point-in-triangle test;
  - splitting a flattened polygon into its outer ring and holes;
  - bridging each hole into the outer ring at its rightmost vertex;
  - ear-clipping triangulation;
  - the 3D entry point that projects, bridges, clips and lifts back.
- **GeoJSON walk** (include/quavis/vk/geometry/geojson.hpp):
  - FeatureCollection / Feature / MultiPolygon / Polygon dispatch;
  - position conversion.
- **Other geometry**:
  - the fixed-size flat-array triangulator (include/quavis/vk/geometry/triangulate.h);
  - the OBJ dump of test/geojson.cc;
  - the grid generator of examples/create_grid.py.
- **Vertex record** (include/quavis/vk/geometry/vertex.h): equality, hash and vertex-input layout.
- **Vulkan set-up rules**:
  - physical-device selection and queue-family choice;
  - the logical device's features and queues;
  - memory-type choice in the allocator and its host copies;
  - the usage and memory flags buffers and images derive;
  - their staged and direct transfer steps;
  - the descriptor-set builder.
- **Small helpers**:
  - the two `handleVkResult` variants;
  - `toHumanSize`;
  - the max-radial service's option parsing, log-level cascade and message handlers.

Modelling choices:

- **Numbers.** Coordinates are `real`, so geometry is exact algebra. Vulkan flag words are `bv32`. Handles are naturals, with 0 as the null handle.
- **Parameters instead of code.** The hash of a float, the Gram-Schmidt basis, the general `triangulation::triangulate`, the float decoder and the service's compute kernel all become function parameters.
- **Parsed input.** The JSON document is the `GeoJson.Json` datatype. It is already parsed when the model receives it.
- **Fuel.** The ear-clipping loop may never terminate in the source, so it runs on a fuel budget. `None` means the budget ran out.

Shared definitions:

- `Wrappers`: Option and Result.
- `Space` / `Planar`: 3D and 2D points.
- `Vk`: Vulkan constants, taken from the Vulkan 1.0 headers the source includes.
- `Transfer`: the memory commands a transfer issues.

## Model

| member | source | states |
|---|---|---|
| Planar.CcwSwapNegates | include/geojson.hpp:60-62 | swapping the last two points of the orientation test negates it |
| Planar.CcwRotationInvariant | include/geojson.hpp:60-62 | the orientation test is unchanged under cyclic rotation of its three points |
| Planar.CcwSplit | include/geojson.hpp:60-62 | the orientations of p against the three edges of a triangle sum to the triangle's own orientation |
| Planar.InTriangleRotationInvariant | include/geojson.hpp:147-159 | point-in-triangle does not depend on which corner is named first |
| Planar.InTriangleCharacterization | include/geojson.hpp:147-159 | a point is "in" iff the three edge orientations are all negative or all non-negative |
| Planar.InTriangleOfCcwTriangle | include/geojson.hpp:147-159 | for a counter-clockwise triangle, "in" means all three edge orientations are non-negative (the all-negative case cannot occur) |
| Augment.SplitScan | include/geojson.hpp:169-180 | the scan from any state meeting its invariant ends in the ring decomposition: the first closed ring is the outer ring and every later closed ring is a hole, all taken from the input in order |
| Augment.ScanClose | include/geojson.hpp:172-179 | closing a ring (a vertex equal to the ring's first) keeps the scan invariant and restarts two vertices later |
| Augment.Split | include/geojson.hpp:169-180 | the output is the ring decomposition of the input; holes are non-empty; holes exist only after a non-empty outer ring |
| Augment.Rightmost | include/geojson.hpp:192-199 | the first index of the largest x, when that exceeds FLT_MIN, else 0 |
| Augment.Rotate | include/geojson.hpp:203-207 | rotation by k: element j is element (j+k) mod n, and the multiset is unchanged |
| Augment.RotateHoles | include/geojson.hpp:192-207 | each hole starts at its rightmost vertex and keeps its vertices |
| Augment.SortHoles | include/geojson.hpp:216-224 | the holes become sorted by descending first x, as a permutation of the input holes |
| Augment.BridgeIndex | include/geojson.hpp:236-247 | the first outer vertex with x at least the hole start's x that minimises the distance to it, 0 when none qualifies |
| Augment.MergeIsThreeInserts | include/geojson.hpp:253-255 | the merged ring equals the source's three successive inserts: the hole after the bridge, the hole's first vertex, then the bridge vertex again |
| Augment.BridgeAll | include/geojson.hpp:226-259 | merging all holes adds each hole's length plus two, and introduces no vertex from outside the rings |
| Augment.AugmentPolygon | include/geojson.hpp:165-264 | the augmented ring has the outer length plus hole lengths plus two per hole, and every vertex comes from the input |
| Augment.SplitVerticesFromInput | include/geojson.hpp:169-180 | the outer ring and every hole are sub-multisets of the input |
| EarClip.NoVertexInside | include/geojson.hpp:282-293 | true iff no remaining vertex distinct from the three corners lies in the triangle |
| EarClip.RemoveAt | include/geojson.hpp:302 | removal keeps the elements before i and shifts the ones after down by one |
| EarClip.Step | include/geojson.hpp:280-311 | one iteration clips an ear exactly when the cursors sit on one (counter-clockwise, no other remaining vertex inside): it appends the three corners, removes only the middle vertex and keeps the cursors wrapped into the shorter ring; otherwise it only advances the cursors by one |
| EarClip.Run | include/geojson.hpp:275-312 | on completion three vertices remain, three corners were added per removed vertex, counter-clockwise triples are kept, and no vertex is invented |
| EarClip.StepKeepsCcwTriples | include/geojson.hpp:296-299 | a step appends only a counter-clockwise triangle |
| EarClip.StepKeepsVertices | include/geojson.hpp:296-311 | a step introduces no vertex that was not already a corner or remaining vertex |
| EarClip.Triangulate2d | include/geojson.hpp:266-316 | at most three points come back unchanged; n points give 3(n-2) corners; every clipped triangle is counter-clockwise; all corners are input points |
| EarClip.QuadrilateralFirstEar | include/geojson.hpp:282-313 | a counter-clockwise quadrilateral whose first triangle is empty yields triangles (p0,p1,p2) and (p0,p2,p3) |
| EarClip.ClockwiseSquareNeverFinishes | include/geojson.hpp:275-312 | a clockwise square never finds an ear, so the loop does not end on any budget |
| Polygon3.Triangulate | include/geojson.hpp:318-328 | fewer than three points come back unchanged; otherwise 3(m-2) corners for an augmented ring of m vertices, each the lift of the projection of an input point |
| Polygon3.UnclosedRingYieldsNothing | include/geojson.hpp:169-180 | points that never return to the first one have no outer ring and produce no triangles |
| FlatRing.UnpackPack | include/quavis/vk/geometry/triangulate.h:14-24 | reading vertices out of a packed float array returns the packed vertices |
| FlatRing.PackUnpack | include/quavis/vk/geometry/triangulate.h:14-24 | packing the vertices read from an array of whole triples restores the array |
| FlatRing.RingNoHoles | include/quavis/vk/geometry/triangulate.h:26-48 | output is written iff the ring has 3 or 4 vertices: one triangle (v0,v1,v2), or two triangles (v0,v1,v2),(v2,v3,v0) |
| FlatRing.Triangulate | include/quavis/vk/geometry/triangulate.h:50-51 | the closing duplicate vertex is dropped: only 4 or 5 input vertices produce output |
| FlatRing.EmptyPolygonWrapsAround | include/quavis/vk/geometry/triangulate.h:50-51 | zero vertices wraps to 2^32-1 and writes nothing |
| FlatRing.ClosingVertexIgnored | include/quavis/vk/geometry/triangulate.h:36-51 | for a closed quadrilateral, the triangles depend only on the first four vertices |
| GeoJson.Lookup | include/quavis/vk/geometry/geojson.hpp:29 | finds a member iff the object has one with that key, and returns that member's value |
| GeoJson.Get | include/quavis/vk/geometry/geojson.hpp:29-47 | indexing an object gives a member's value, or null when the key is absent |
| GeoJson.Iter | include/quavis/vk/geometry/geojson.hpp:18-19 | iteration visits an array's elements, an object's values, nothing for null, and a scalar itself |
| GeoJson.Position | include/quavis/vk/geometry/geojson.hpp:20 | a position converts iff it is an array whose first three elements are numbers, and becomes those three numbers |
| GeoJson.RingPoints | include/quavis/vk/geometry/geojson.hpp:19-20 | a ring converts iff every position does, point k being position k |
| GeoJson.AllPoints | include/quavis/vk/geometry/geojson.hpp:18-22 | the rings convert iff every ring does, and the result holds as many points as the rings hold positions |
| GeoJson.AllPointsConcatenates | include/quavis/vk/geometry/geojson.hpp:18-22 | the rings of a concatenation give the concatenated points, outer ring first, and the first bad ring fails the whole |
| GeoJson.AllPointsSingle | include/quavis/vk/geometry/geojson.hpp:18-22 | a single ring contributes exactly its own positions |
| GeoJson.TriangulatePolygon | include/quavis/vk/geometry/geojson.hpp:14-24 | fails exactly when some position is bad; otherwise the triangulator receives the flattened ring points that AllPoints, AllPointsConcatenates and AllPointsSingle fix |
| GeoJson.Triangles | include/quavis/vk/geometry/geojson.hpp:26-53 | a value without "type", or with an unknown type, yields no triangles |
| GeoJson.EachPolygon | include/quavis/vk/geometry/geojson.hpp:40-45 | succeeds iff every polygon converts, and its length is the sum of their lengths |
| GeoJson.EachPolygonConcatenates | include/quavis/vk/geometry/geojson.hpp:40-45 | the polygons of a concatenation yield the concatenated triangles, and the first failing polygon fails the whole |
| GeoJson.EachPolygonSingle | include/quavis/vk/geometry/geojson.hpp:40-45 | a single polygon contributes exactly its own triangulation |
| GeoJson.Collect | include/quavis/vk/geometry/geojson.hpp:30-35 | an empty feature list yields no triangles |
| GeoJson.SingleFeatureCollection | include/quavis/vk/geometry/geojson.hpp:30-35 | a collection of one feature yields exactly that feature's triangles |
| GeoJson.OtherGeometriesIgnored | include/quavis/vk/geometry/geojson.hpp:29-53 | a value whose type is none of the four handled ones yields no triangles |
| GeoJson.TrianglesAreTriples | include/quavis/vk/geometry/geojson.hpp:26-53 | when the triangulator returns whole triangles, so does the walk over any document |
| GeoJson.Dispatch | include/quavis/vk/geometry/geojson.hpp:26-53 | on any object, whatever other members it holds: a Feature yields its geometry's triangles, a FeatureCollection its features', a Polygon and a MultiPolygon those of their coordinates, an unknown type nothing; a missing member reads as null |
| GeoJson.FeatureWithoutGeometry | include/quavis/vk/geometry/geojson.hpp:36-39 | a Feature without a geometry member contributes nothing |
| GeoJson.DispatchFeature | include/quavis/vk/geometry/geojson.hpp:36-39 | the two-member Feature object yields the triangles of its geometry (GeoJson.Dispatch states it for any Feature object) |
| GeoJson.DispatchCollection | include/quavis/vk/geometry/geojson.hpp:30-35 | the two-member FeatureCollection object yields its features' triangles in order (GeoJson.Dispatch states it for any collection object) |
| GeoJson.DispatchGeometry | include/quavis/vk/geometry/geojson.hpp:40-49 | on the two-member geometry object, Polygon triangulates its coordinates, MultiPolygon concatenates each polygon's triangles and other types yield nothing (GeoJson.Dispatch states it for any geometry object) |
| GeoJson.CollectionConcatenates | include/quavis/vk/geometry/geojson.hpp:30-35 | the triangles of a concatenated feature list are the concatenation of the parts' triangles |
| GeoJson.SinglePolygon | include/quavis/vk/geometry/geojson.hpp:40-49 | a MultiPolygon of one polygon equals that Polygon |
| GeoJson.RingRoundTrip | include/quavis/vk/geometry/geojson.hpp:18-20 | a ring written as positions (with an extra fourth number) reads back as the same points |
| GeoJson.PolygonFlattensRings | include/quavis/vk/geometry/geojson.hpp:14-24 | a polygon with an outer ring and a hole hands the triangulator the outer points followed by the hole points |
| GeoJson.ShortPositionFails | include/quavis/vk/geometry/geojson.hpp:20 | a two-element position is an error, not a point |
| ObjDump.Dump | test/geojson.cc:18-26 | one vertex line per corner in order, then one face line per triangle naming corners 3k+1..3k+3, with all vertex lines first |
| ObjDump.TriangulateFile | test/geojson.cc:13-28 | an unopened file writes nothing; otherwise the dump succeeds iff the walk does, and reading it back gives exactly the triangles |
| ObjDump.DumpRoundTrip | test/geojson.cc:21-26 | resolving the face lines against the vertex lines recovers every written corner in order |
| Grid.GeometryPoints | examples/create_grid.py:14-16 | succeeds iff every entry allows `[0][0]`; every gathered point is a first-ring point of an entry whose `[0][0]` is a list |
| Grid.GeometryPointsAppend | examples/create_grid.py:14-16 | entries side by side contribute the first entries' points followed by the second's, and succeed iff both do |
| Grid.GeometryPointsOne | examples/create_grid.py:14-16 | one entry contributes its whole first ring, in order, when its `[0][0]` is a list, and nothing otherwise |
| Grid.Gather | examples/create_grid.py:13-16 | succeeds iff every feature is a list whose geometry gathers; every point comes from some feature's geometry |
| Grid.GatherAppend | examples/create_grid.py:13-16 | features side by side contribute the first features' points followed by the second's, and succeed iff both do |
| Grid.GatherOne | examples/create_grid.py:13-16 | one feature contributes exactly its geometry's points, and fails when its geometry is a bare number |
| Grid.Positions | examples/create_grid.py:17 | the points form a numeric array iff they are lists of equal length (at least three) of numbers |
| Grid.Linspace | examples/create_grid.py:22-23 | n values starting at lo, ending at hi, equally spaced, and within [lo, hi] |
| Grid.BoundingBox | examples/create_grid.py:18-19 | per-axis minimum and maximum: bounds every point and attained by some point |
| Grid.MidHeight | examples/create_grid.py:21 | the height halfway between the lowest and highest point |
| Grid.RowsLayout | examples/create_grid.py:25-27 | x-major order: entry i*ny+j is (xx[i], yy[j], z) |
| Grid.CreateGrid | examples/create_grid.py:9-27 | nx*ny points inside the box's x-y range at mid-height, in x-major order, and an error iff the input is not a usable point array |
| Grid.RowsMembers | examples/create_grid.py:25-27 | every emitted point takes its x from xx, its y from yy and the common z |
| Grid.Emit | examples/create_grid.py:25-27 | the nested loop emits the x-major row sequence |
| Grid.LinspaceEdgeCases | examples/create_grid.py:22-23 | one point gives lo alone, and zero points give none |
| HumanSize.ToHumanSize | src/initializer.cc:46-57 | the number is the size shifted right by 10 bits k times, where k is the first suffix at which it is at most 1024, or PB |
| HumanSize.SettlesUnique | src/initializer.cc:49-52 | exactly one suffix fits the loop's exit condition |
| HumanSize.SmallSizesInBytes | src/initializer.cc:49 | sizes up to 1024 bytes, 1024 included, stay in B |
| HumanSize.PetabyteBound | src/initializer.cc:46-52 | a 64-bit size in PB is below 16384 |
| HumanSize.OutputReadsBack | src/initializer.cc:54-56 | the text is digits, one space and the suffix, and the digits read back as the scaled size |
| HumanSize.ParseDecimal | src/initializer.cc:55 | the decimal digits an output stream writes read back as the number |
| VkResult.StrictHandle | include/quavis/vk/debug.h:10-16 | succeeds (with true) iff the code is VK_SUCCESS |
| VkResult.Handle | include/quavis/debug.h:9-15 | succeeds (with true) iff the code is not negative |
| VkResult.StrictIsStricter | include/quavis/debug.h:9-15 | the strict variant accepts a subset; they differ exactly on positive codes |
| VkResult.NamedCodes | include/quavis/vk/debug.h:10-16 | success passes both, the status codes only the lenient one, the errors neither |
| VkResult.NeverFalse | include/quavis/debug.h:9-15 | neither helper ever returns false |
| PhysicalDevice.KeepDevice | src/vk/device/physicaldevice.cc:33-70 | a device is kept iff it has queue families, and some family has graphics, some compute and some transfer |
| PhysicalDevice.Kept | src/vk/device/physicaldevice.cc:25-73 | the surviving set is exactly the suitable handles |
| PhysicalDevice.Select | src/vk/device/physicaldevice.cc:4-81 | no devices and no suitable device are the two errors; otherwise the least suitable handle (the set's first) |
| PhysicalDevice.SelectIgnoresOrder | src/vk/device/physicaldevice.cc:25-80 | the enumeration order does not change the chosen device |
| PhysicalDevice.NoFamiliesNoChoice | src/vk/device/physicaldevice.cc:45-48 | a device without queue families is never chosen |
| LogicalDevice.GetQueueFamily | src/vk/device/logicaldevice.cc:137-162 | the first family sharing any bit with the required flags, or the family count when none does |
| LogicalDevice.GetQueueCreateInfo | src/vk/device/logicaldevice.cc:121-135 | the given family, num queues, and every priority 1.0 |
| LogicalDevice.NewDevice | src/vk/device/logicaldevice.cc:7-49 | tessellation, geometry and non-solid fill features only; the chosen family; one create info with one priority of 1.0 per queue; queue i is the family's i-th queue |
| LogicalDevice.TransferOnlyFamilyIsTaken | src/vk/device/logicaldevice.cc:155-157 | a transfer-only first family is chosen although graphics and compute were asked for |
| Allocator.ChooseMemoryType | src/vk/memory/allocator.cc:21-29 | the first type allowed by the type bits whose flags contain the requested ones, else 0 |
| Allocator.Allocate | src/vk/memory/allocator.cc:14-51 | the allocation has the requested size and the chosen type, and the new memory is appended to the allocator's list |
| Allocator.SetData | src/vk/memory/allocator.cc:53-70 | the first size bytes of the block become the host data's; the rest of the block is untouched |
| Allocator.GetData | src/vk/memory/allocator.cc:72-92 | the intended read: the first size bytes of the block, which stays unchanged |
| Allocator.ReadBackRoundTrip | src/vk/memory/allocator.cc:53-92 | reading back what was set yields the data that was set |
| Allocator.GetDataAsWritten | src/vk/memory/allocator.cc:72-92 | as written: the fresh host buffer is copied over the block and returned |
| Allocator.GetDataAsWrittenIgnoresMemory | src/vk/memory/allocator.cc:84 | as written, the returned bytes do not depend on the block, and the block's first size bytes are overwritten |
| Allocator.GetDataAsWrittenCounterexample | src/vk/memory/allocator.cc:84 | a block holding 1 read with a buffer holding 0: the caller gets 0 and the block is clobbered, where the intended read returns 1 |
| Buffer.Usage | src/vk/memory/buffer.cc:22-28 | a staged buffer adds exactly the two transfer bits to the usage; a direct one keeps it |
| Buffer.NewBuffer | src/vk/memory/buffer.cc:5-68 | a staging buffer exists iff staging, of the same size and used only for transfers; device-local memory behind staging, host-visible coherent memory otherwise |
| Buffer.SetData | src/vk/memory/buffer.cc:77-96 | direct: write the memory; staged: write the staging memory, then copy staging to main |
| Buffer.GetData | src/vk/memory/buffer.cc:98-116 | direct: read the memory; staged: copy main to staging, then read staging (the read is the intended allocator read) |
| Buffer.GetDataAsWritten | src/vk/memory/buffer.cc:98-116 | as carried out, the last step copies uninitialised bytes over the very block the intended read reads, and nothing is read |
| Buffer.HostOnlyMapsHostMemory | src/vk/memory/buffer.cc:42-116 | every memory the transfers map exists and is host-visible and coherent |
| Buffer.GetDataReversesSetData | src/vk/memory/buffer.cc:77-116 | the staged read mirrors the staged write: the same copy, reversed |
| Image.Usage | src/vk/memory/image.cc:43-45 | a staged image adds exactly the two transfer bits to the usage; a direct one keeps it |
| Image.NewImage | src/vk/memory/image.cc:4-106 | extent (w,h,1); a staging image iff staging, used only for transfers; device-local main memory; the recorded size; the staging flag left false |
| Image.CopyRegion | src/vk/memory/image.cc:122-136 | the copied region: the aspect, mip level 0, one layer at 0, zero offsets and the full extent |
| Image.StagedCopiesMirror | src/vk/memory/image.cc:115-179 | the staged read uses the staged write's region with source and target swapped |
| Image.SetData | src/vk/memory/image.cc:115-146 | direct: write the memory; staged: write the staging memory, then copy the staging image into the image |
| Image.GetData | src/vk/memory/image.cc:148-179 | direct: read the memory; staged: copy the image into the staging image, then read the staging memory (the read is the intended allocator read) |
| Image.GetDataAsWritten | src/vk/memory/image.cc:148-179 | as carried out, the last step copies uninitialised bytes over the very block the intended read reads, and nothing is read |
| Image.ConstructedImagesMapMainMemory | src/vk/memory/image.cc:71-120 | a constructed image always maps its main memory, which was not requested host-visible |
| Vertex.EqualIsPositionEquality | include/quavis/vk/geometry/vertex.h:37-39 | vertices are equal iff positions agree; colour is ignored |
| Vertex.EqualVerticesHashAlike | include/quavis/vk/geometry/vertex.h:37-51 | equal vertices have equal hashes |
| Vertex.LowBitOfXIsLost | include/quavis/vk/geometry/vertex.h:46-50 | x hashes that differ only in the lowest bit give equal vertex hashes |
| Vertex.TopBitOfYIsLost | include/quavis/vk/geometry/vertex.h:47 | y hashes that differ only in the top bit give equal vertex hashes |
| Vertex.GetBindingDescription | include/quavis/vk/geometry/vertex.h:14-20 | binding 0, stride the size of a vertex, per-vertex rate |
| Vertex.GetAttributeDescriptions | include/quavis/vk/geometry/vertex.h:22-35 | two three-float attributes at locations 0 and 1, at the offsets of position and colour |
| Vertex.LayoutFetchesMembers | include/quavis/vk/geometry/vertex.h:14-35 | fetching vertex k's attributes from the packed buffer at the stride and offsets gives its position and colour |
| Service.Disabled | src/maxradial-service.cc:242-254 | log level 4 disables warning and below, 3 info and below, 2 debug and trace, 1 trace; any other level disables nothing; error and fatal stay on |
| Service.CascadeMonotone | src/maxradial-service.cc:242-254 | a higher level disables at least what a lower one does |
| Service.ParseOpt | src/maxradial-service.cc:195-222 | a second positional argument is a usage error and a special key is answered as unknown; an option sets only its own field, to the parsed argument or its default |
| Service.ParseAll | src/maxradial-service.cc:229-237 | parsing a command line from the defaults fails exactly on a second positional argument, with a usage error, and without options yields the defaults |
| Service.NoOptionsKeepArguments | src/maxradial-service.cc:195-222 | keys that are not options leave the arguments as they were |
| Service.ParseFrom | src/maxradial-service.cc:195-237 | parsing fails exactly when some key is a second positional argument, and then with a usage error; special keys answered as unknown are passed over |
| Service.MissingArgumentsKeepDefaults | src/maxradial-service.cc:195-232 | without port, log-level or retry arguments the defaults 7654, 2 and 5 survive |
| Service.SecondPositionalFails | src/maxradial-service.cc:211-214 | parsing fails with a usage error once a second positional argument is met |
| Service.DecodePoints | src/maxradial-service.cc:105-106 | one point per 12 bytes of the attachment, point i decoded from bytes 12i to 12i+12 |
| Service.TrailingBytesIgnored | src/maxradial-service.cc:105-106 | fewer than 12 bytes left over do not add a point |
| Service.HandleRun | src/maxradial-service.cc:100-110 | always records the caller and the points; stores r_max when it is a number and alpha_max when both are; sends the scenario request only when both are numbers |
| Service.FailedRunKeepsOldParameters | src/maxradial-service.cc:100-108 | a run on inputs that are not an object fails, yet replaces the points and keeps the earlier parameters |
| Service.HandleResult | src/maxradial-service.cc:113-142 | replies only to the scenario call, without registeredName and with a geometry_output object or null; the reply carries 4 bytes per value |
| Service.Index | src/maxradial-service.cc:125 | indexing an object or null succeeds, null giving null; any other value is a type error |
| Service.NumberMember | src/maxradial-service.cc:107-108 | a member reads as a number iff the value is an object whose member under that key is a number |
| Service.ReplyGoesToClient | src/maxradial-service.cc:100-142 | the reply to a run goes to the client call recorded by that run, even when the run failed on its parameters |
| DescriptorSet.New | src/vk/descriptors/descriptorset.cc:4-7 | an empty, well-formed set whose handle is whatever the unassigned member holds |
| DescriptorSet.Add | src/vk/descriptors/descriptorset.cc:9-36 | returns the next binding number and appends one binding and one write aimed at the current handle, changing nothing else |
| DescriptorSet.AddStorageImage | src/vk/descriptors/descriptorset.cc:9-37 | returns the next binding number and appends a storage-image binding and its write; well-formedness is kept |
| DescriptorSet.AddUniformBuffer | src/vk/descriptors/descriptorset.cc:39-66 | the same for a uniform buffer covering offset 0 to the size |
| DescriptorSet.AddStorageBuffer | src/vk/descriptors/descriptorset.cc:68-95 | the same for a storage buffer covering offset 0 to the size |
| DescriptorSet.BuildNumbersCalls | src/vk/descriptors/descriptorset.cc:9-95 | the k-th add gets binding k with the requested type, and every write targets the handle the set held before any add |
| DescriptorSet.Build | src/vk/descriptors/descriptorset.cc:9-95 | a sequence of adds gives one binding and one index per request |
| DescriptorSet.Update | src/vk/descriptors/descriptorset.cc:123-131 | every call submits all writes, whatever the index |
| DescriptorSet.Create | src/vk/descriptors/descriptorset.cc:97-121 | the set gets its handle, and each binding submits all stored writes unchanged |
| DescriptorSet.StaleTargetAsWritten | src/vk/descriptors/descriptorset.cc:24 | after one storage-buffer add and creation with handle 42, the submitted write targets the handle the set held before creation |
| DescriptorSet.CreateCorrected | src/vk/descriptors/descriptorset.cc:97-121 | every submitted write targets the created set and its own binding |
| Transfer.Mapped | src/vk/memory/buffer.cc:77-116 | a memory is mapped iff some command writes or reads it |
| Transfer.AsWritten | src/vk/memory/allocator.cc:72-92 | the steps as carried out: every read becomes a copy of uninitialised bytes into the same block, nothing is read, and the same blocks are mapped |

## Left out

- Vulkan object creation and destruction, command buffers, queue submission, fences and the memory mapping itself. They are effects on the driver. What the model keeps is the information passed in: flags, sizes, indices and the order of steps.
- The allocator's destructor, and the mapping and unmapping around `Allocator::SetData` / `GetData`. They free and map driver memory. The copies themselves are modelled on the block's bytes.
- Floating-point arithmetic. Coordinates are exact reals. The FLT_MAX cut-off of the bridge search is not needed for reals. Distances are compared squared, since a square root keeps the order.
- `gramschmidt`, `to2d` and `to3d` (include/geojson.hpp). They are float numerics, passed in as a `Polygon3.Basis`.
- `triangulation::triangulate`, which the GeoJSON walk calls. Its header is not part of this model, so it is a parameter.
- JSON parsing, booleans in JSON, and file I/O in test/geojson.cc and examples/create_grid.py. Documents arrive parsed, and numbers are not formatted as text.
- EarClip.Triangulate2d: the loop runs on a fuel budget because the source can loop forever. `None` stands for "did not finish within the budget".
- Polygon3.Triangulate: inherits the same fuel budget.
- Augment.SortHoles: `std::sort` is not stable. The model sorts stably, so equal keys keep their input order, which the source does not promise.
- Vertex.LowBitOfXIsLost: `std::hash<float>` is a parameter, so the model states hash collisions in terms of its values.
- Service: the network, the WAMP session, threads, logging output, and the computation kernel (a parameter) are left out. `atoi` is a parameter.
- Service.ParseOpt: the `arg_num < 0` branch of the end-of-arguments key is left out, because the argument count is unsigned and the test never fires.
- Service.ParseFrom: unknown options and argp's own usage and help output are left out. argp rejects unknown options before the handler sees them.
- Service.HandleRun: the source reads the first attachment without checking that one exists. The model takes exactly one attachment.
- Image.NewImage: the constructor never stores its `staging` argument, so `staging_` keeps its default `false` from include/quavis/vk/memory/image.h:79. `staging_property_flags_` is not declared in the image header, so its value is a parameter. The staging usage bits are the buffer transfer constants, as in the source; they have the same values as the image ones.
- ObjDump.Dump: requires a multiple of three corners. With any other count the source's face loop reads past the end of its index vector, which is undefined behaviour, so the model does not give that case a meaning.
- Allocator.ChooseMemoryType: requires at most 32 memory types. That is VK_MAX_MEMORY_TYPES, and beyond it the source's `1 << i` would be undefined.
- FlatRing.RingNoHoles: requires the buffer to hold the vertices it copies. The source copies from raw memory without a length.
- DescriptorSet.AddStorageImage: the write record keeps the image info by value. The source stores a pointer to a local `VkDescriptorImageInfo` (src/vk/descriptors/descriptorset.cc:16-29). That pointer dangles once the function returns, so what `Create` later submits is whatever the stack slot then holds.
- DescriptorSet.AddUniformBuffer: keeps the buffer info by value, while the source points at a local that has gone out of scope (src/vk/descriptors/descriptorset.cc:46-59).
- DescriptorSet.AddStorageBuffer: keeps the buffer info by value, while the source points at a local that has gone out of scope (src/vk/descriptors/descriptorset.cc:75-88).
- DescriptorSet.Add: stores the info by value, for the same reason. The model states what the record was meant to point at.
- LogicalDevice.GetQueueCreateInfo: the create info keeps its priorities by value. The source points `pQueuePriorities` at the local array `priorities` (src/vk/device/logicaldevice.cc:122, 132), which is dead by the time `vkCreateDevice` reads it (line 39). The debug print of `priorities[0]` (line 125), which reads past the array when `num` is 0, is left out too.
- LogicalDevice.NewDevice: the priorities it states are the ones the create info was meant to point at, for the same reason.
- Buffer.SetData: the copy region's `srcOffset` and `dstOffset` are never initialised (src/vk/memory/buffer.cc:85). The model copies from offset 0 to offset 0.
- Buffer.GetData: the same uninitialised offsets (src/vk/memory/buffer.cc:103). The model copies from offset 0 to offset 0.
- Grid.Positions: ragged point lists are an error. Older numpy builds an array of objects from them instead, and the script then fails later or computes on lists. The model does not follow that path.
- Grid.MidHeight: divides exactly. The script is Python 2, so when every gathered coordinate is an integer the array is integral and `(max[2]-min[2])/2` (examples/create_grid.py:21) floors: heights 0 to 5 give 2 in the script and 2.5 here.
- Grid.CreateGrid: every z is Grid.MidHeight's exact value, so the floored all-integer case of Python 2 is not modelled.
- Grid.CreateGrid: a ragged input is an error here, for the same reason as in Grid.Positions.
- Grid.CreateGrid: takes Nx and Ny as natural numbers. The script passes the command-line strings through unconverted, and whether `np.linspace` accepts them depends on the numpy version.
- ObjDump.TriangulateFile: requires the triangulator to emit whole triangles, a multiple of three corners. `triangulation::triangulate` is not part of this model. With any other count the face loop reads past its index vector.
- Augment.AugmentPolygon: the debug output to `std::cout` (include/geojson.hpp:187-259) is left out. It has no effect on the result.
- GeoJson.DispatchCollection: stated for the two-member object only; GeoJson.Dispatch carries the same fact for objects with any further members.
- GeoJson.DispatchGeometry: stated for the two-member object only; GeoJson.Dispatch carries the same fact for objects with any further members, such as "bbox".
- GeoJson.Lookup: a key stored twice yields its first value, and a range-for over an object visits members in stored order. The JSON library keeps one value per key and iterates objects in key order. Parsed documents with duplicate keys, and objects iterated as feature lists, may therefore differ.
- include/quavis/vk/result.h and the other service programs are not part of this model.

## Findings

| source | as written | input that shows it | evidently intended | confidence | as-written member | corrected member |
|---|---|---|---|---|---|---|
| src/vk/descriptors/descriptorset.cc:24 | each write's `dstSet` is copied from `vk_handle` when the binding is added, before `Create` allocates the set (line 116); the constructor never assigns `vk_handle` | add one storage buffer to a new set whose handle member holds 0, then create it with handle 42: the submitted write targets the null handle | writes target the set that `Create` allocated | not executed | DescriptorSet.StaleTargetAsWritten | DescriptorSet.CreateCorrected |
| src/vk/memory/allocator.cc:84 | `GetData` runs `memcpy(gpu_buffer, data, size)`: it copies the freshly `malloc`ed host buffer into the mapped block and returns that buffer | a one-byte block holding 1, read while the new buffer holds 0: the caller gets 0 and the block now holds 0 | `memcpy(data, gpu_buffer, size)`: return the block's bytes and leave the block unchanged | not executed | Allocator.GetDataAsWrittenCounterexample | Allocator.ReadBackRoundTrip |
