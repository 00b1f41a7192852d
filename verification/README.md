# Blender particles container, USD mesh export and Mantaflow bake flags, in Dafny

This project models three small pieces of Blender's source and proves properties about them.

- **Particles container** (`particles.dfy`, module `Particles`). This is the header-level part of the bparticles particle storage. A container holds:
  - a block size;
  - two ordered, duplicate-free lists of attribute names (float attributes and 3-vector attributes);
  - a set of live blocks.

  A block carries a copy of its container's settings. It holds one buffer per registered attribute, plus an active count, which is the number of occupied leading slots. The model covers:
  - the index lookup of an attribute name;
  - the attribute amounts;
  - the block's size, fullness and next free slot;
  - clearing and setting the active count;
  - buffer lookup by name.

  The buffers are sequences, and writing a slot is a functional update.
- **USD mesh export** (`usd_mesh.dfy`, module `UsdMesh`). This part turns a mesh into the arrays of a UsdGeomMesh:
  - points;
  - face vertex counts;
  - face vertex indices;
  - material face groups, built only when the mesh has more than one material slot;
  - crease lengths, crease vertex pairs and crease sharpnesses.

  It also covers two guards:
  - the writer's guard that writes the crease attributes only when there is at least one crease;
  - the object-support test for objects with particle systems.

  Each loop-based method is proved equal to an independent recursive or comprehension-based reference definition. Properties about those definitions are then proved separately: the offset of each face's indices, group membership and order, and the crease encoding.
- **Mantaflow bake jobs** (`manta_bake.dfy`, module `MantaBake`). This part covers the cache flag bits of a fluid domain: "baking" and "baked" for each of data, noise, mesh, particles and guiding. It models:
  - what the bake start and end callbacks do to those bits;
  - the frame loop with its per-category pause frame, so an interrupted bake resumes where it stopped;
  - how the end callback classifies a job as complete, failed or cancelled;
  - what each free job clears;
  - the guard that refuses to free while a non-guiding bake is running.

  The user's break request is an input to the model. It is the first frame at which the break flag is seen set, and once set it stays set.

`particles_container.hpp` declares no error result for an unknown attribute name or a bad configuration, and no particle-removal operation. So the name lookup requires a registered name, and the container constructor is left out because its body is not in the header.

A pause frame of 0 doubles as "not paused" in the bake loop. So a bake broken at frame 0 restarts from the cache start rather than resuming. That can happen only when the loop starts at or below 0, either from the cache start or from a stored pause frame left over from an earlier range.

## Model

| member | source | states |
|---|---|---|
| Particles.IndexOf | source/blender/simulations/bparticles/particles_container.hpp:91-99 | The index of a registered name points at that name, and no earlier position holds it. |
| Particles.DistinctCardinality | source/blender/simulations/bparticles/particles_container.hpp:24-25 | A duplicate-free name list has as many distinct elements as it has entries. |
| Particles.AttributeAmountsCountNames | source/blender/simulations/bparticles/particles_container.hpp:81-89 | Each attribute amount equals the number of distinct names registered for that kind. |
| Particles.FloatBufferIndex | source/blender/simulations/bparticles/particles_container.hpp:91-94 | A registered float name's index is below the float amount, holds that name, and is the only position that does. |
| Particles.Vec3BufferIndex | source/blender/simulations/bparticles/particles_container.hpp:96-99 | A registered 3-vector name's index is below the 3-vector amount, holds that name, and is the only position that does. |
| Particles.MakeBlock | source/blender/simulations/bparticles/particles_container.hpp:53-56 | A block built by the constructor with its default count starts with no active particles and keeps the container and buffers it is given. |
| Particles.MakeBlockEmpty | source/blender/simulations/bparticles/particles_container.hpp:53-56 | A new block with block-sized buffers is well formed, its next free slot is 0, and it is full only when the block size is 0. |
| Particles.SetActiveAmount | source/blender/simulations/bparticles/particles_container.hpp:109-112 | Writing through the active-amount reference sets the count and changes nothing else in the block. |
| Particles.SetActiveAmountFrame | source/blender/simulations/bparticles/particles_container.hpp:109-127 | The block stays well formed exactly when the new count is at most the size. The next free slot follows the count, a count equal to the size makes the block full, and the size does not change. |
| Particles.FullIffNoFreeSlot | source/blender/simulations/bparticles/particles_container.hpp:114-127 | A block is full exactly when its next free slot reaches the container's block size. Otherwise that slot is inside the block, and it always equals the active count. |
| Particles.Clear | source/blender/simulations/bparticles/particles_container.hpp:129-132 | Clearing empties the block and leaves container and buffers unchanged. |
| Particles.ClearEmpties | source/blender/simulations/bparticles/particles_container.hpp:129-132 | Clearing keeps the block well formed and resets the next free slot to 0. It is idempotent, makes a non-empty-size block not full, and leaves the buffers unchanged. |
| Particles.FloatBuffer | source/blender/simulations/bparticles/particles_container.hpp:149-153 | The buffer returned for a float name is the block's buffer at the position where that name is registered. |
| Particles.Vec3Buffer | source/blender/simulations/bparticles/particles_container.hpp:155-159 | The buffer returned for a 3-vector name is the block's buffer at the position where that name is registered. |
| Particles.ActiveBlocksUnchanged | source/blender/simulations/bparticles/particles_container.hpp:101-104 | The accessor hands out the container's block set as it is, and clearing, setting the count or writing a buffer slot of a block leaves the container's block set unchanged. |
| Particles.FloatBufferSpansBlock | source/blender/simulations/bparticles/particles_container.hpp:149-153 | In a well-formed block, every named float buffer has one slot per particle of the block. |
| Particles.WriteFloatThenRead | source/blender/simulations/bparticles/particles_container.hpp:149-153 | Writing one slot through a named float buffer is read back by the same name. Every other slot is unchanged, and so are other names' buffers, the active count and the 3-vector buffers. |
| UsdMesh.GetVertices | source/blender/usd/intern/usd_writer_mesh.cc:169-177 | The points array has one entry per mesh vertex, in vertex order. |
| UsdMesh.FaceIndicesLength | source/blender/usd/intern/usd_writer_mesh.cc:188-196 | The face index array holds exactly as many entries as the sum of the face vertex counts. |
| UsdMesh.FaceIndexAt | source/blender/usd/intern/usd_writer_mesh.cc:188-196 | Corner j of polygon i sits at the offset formed by the earlier polygons' counts plus j, and holds that corner's loop vertex. |
| UsdMesh.FaceIndicesAreLoopVertices | source/blender/usd/intern/usd_writer_mesh.cc:190-195 | Every exported face index is a vertex index taken from the mesh loops. |
| UsdMesh.GroupMembership | source/blender/usd/intern/usd_writer_mesh.cc:197-199 | A polygon is in material k's group exactly when it comes before the cut-off and uses material k. |
| UsdMesh.GroupAscending | source/blender/usd/intern/usd_writer_mesh.cc:188-199 | Each material group lists polygon indices in strictly ascending order. |
| UsdMesh.GroupOfUnusedMaterial | source/blender/usd/intern/usd_writer_mesh.cc:197-199 | A material that no polygon so far uses has an empty group. |
| UsdMesh.GroupsStep | source/blender/usd/intern/usd_writer_mesh.cc:197-199 | Visiting one more polygon appends its index to its material's group (creating the entry if absent) and leaves other groups unchanged. |
| UsdMesh.FaceGroupMembers | source/blender/usd/intern/usd_writer_mesh.cc:183-199 | Every polygon listed under material k uses material k. |
| UsdMesh.FaceGroupsCover | source/blender/usd/intern/usd_writer_mesh.cc:183-199 | With at most one material slot no groups are built. Otherwise the group keys are exactly the materials in use, and every polygon is listed under its own material. |
| UsdMesh.FaceGroupsAscending | source/blender/usd/intern/usd_writer_mesh.cc:188-199 | Every face group lists its polygons in strictly ascending order, with no repeats. |
| UsdMesh.GetLoopsPolys | source/blender/usd/intern/usd_writer_mesh.cc:179-201 | There is one count per polygon, equal to its loop count. The face indices are each polygon's loop vertices in order, their number equals the sum of the counts, and the groups equal the reference grouping. |
| UsdMesh.SharpnessEncoding | source/blender/usd/intern/usd_writer_mesh.cc:214-219 | A crease weight of 255 maps to infinite sharpness, and any other weight maps to the fraction weight/255. The mapping is invertible and injective, and it preserves order. |
| UsdMesh.CreaseEdgesFilter | source/blender/usd/intern/usd_writer_mesh.cc:209-212 | An edge is exported as a crease exactly when its crease weight is non-zero, and the selection distributes over concatenation of edge lists. |
| UsdMesh.CreaseIndicesLayout | source/blender/usd/intern/usd_writer_mesh.cc:221-222 | The crease vertex array holds the two vertices of the k-th crease edge at positions 2k and 2k+1. |
| UsdMesh.CreaseEdgesStep | source/blender/usd/intern/usd_writer_mesh.cc:208-212 | Visiting one more edge adds it to the creases exactly when its weight is non-zero. |
| UsdMesh.CreaseArraysStep | source/blender/usd/intern/usd_writer_mesh.cc:221-224 | Each crease edge appends a length of 2, its two vertices and its sharpness to the three arrays. |
| UsdMesh.CreaseArraysShape | source/blender/usd/intern/usd_writer_mesh.cc:74-81 | There is one length of 2 and one sharpness per crease, and the vertex array length equals the sum of the crease lengths. Each crease's vertices and sharpness come from its edge. |
| UsdMesh.GetCreases | source/blender/usd/intern/usd_writer_mesh.cc:203-226 | There is one length and one sharpness per edge with a non-zero crease, and the three arrays equal the reference arrays built from those edges in edge order. By `UsdMesh.CreaseArraysShape`, that means each length is 2, crease k's vertices sit at 2k and 2k+1, and its sharpness encodes its weight. |
| UsdMesh.CreaseGuard | source/blender/usd/intern/usd_writer_mesh.cc:153-157 | The crease attributes are written exactly when some edge has a non-zero crease weight. |
| UsdMesh.GetGeometryData | source/blender/usd/intern/usd_writer_mesh.cc:228-233 | The collected arrays satisfy the UsdGeomMesh shape constraints. The points are the vertices, and the face counts, face indices, face groups, crease lengths, crease vertex pairs and crease sharpnesses each equal their reference definition. The crease attributes are present exactly when an edge is creased. |
| UsdMesh.IsSupportedCases | source/blender/usd/intern/usd_writer_mesh.cc:26-36 | An object without particle systems is always supported. One with particle systems is supported exactly when its duplicator visibility includes the current evaluation mode. |
| MantaBake.JobKindOf | source/blender/editors/physics/physics_manta.c:308-353 | A job name selects the bake of a category exactly when it is that category's bake operator name, and likewise for free operators. |
| MantaBake.IdnamesRoundTrip | source/blender/editors/physics/physics_manta.c:408-472 | Every operator name is recognised as its own job, and any other name is recognised as no bake or free job. |
| MantaBake.BakeStartFlags | source/blender/editors/physics/physics_manta.c:308-353 | Starting a bake sets the category's baking bit and clears its baked bit. No other bit changes, and an unrecognised job changes nothing. |
| MantaBake.BakeEndFlags | source/blender/editors/physics/physics_manta.c:245-269 | Ending a bake clears the category's baking bit and sets its baked bit. No other bit changes, and an unrecognised job changes nothing. |
| MantaBake.StartThenEnd | source/blender/editors/physics/physics_manta.c:245-269 | A start followed by an end leaves the category baked and not baking and other categories as they were. Any other job leaves the flags unchanged. |
| MantaBake.BakeSequence | source/blender/editors/physics/physics_manta.c:177-235 | See the list below this table. |
| MantaBake.ClassifyCases | source/blender/editors/physics/physics_manta.c:272-285 | The end report is complete exactly on success, a failure carrying the error text exactly when an error is recorded, and a cancel otherwise. |
| MantaBake.RunBakeCompletes | source/blender/editors/physics/physics_manta.c:198-234 | An uninterrupted bake over a non-empty range reports complete and marks the category baked. When the resume frame lies within the range, it records the range end as the pause frame; a stale pause frame beyond the range end is kept. It restores the scene frame and leaves other categories alone. |
| MantaBake.RunBakeCanceledResumes | source/blender/editors/physics/physics_manta.c:208-220 | A bake broken at frame f with no error reports a cancel and keeps f as its pause frame. The scene frame is left at f-1, or at f when f is the first frame of the loop, and the category is still marked baked. When f is not 0 the next bake resumes at f; a pause frame of 0 means "not paused", so after a break at frame 0 the next bake starts again at the cache start. |
| MantaBake.NoFramesReportedComplete | source/blender/editors/physics/physics_manta.c:186-191 | As written, an empty frame range records the "No frames to bake" error, yet the job is reported complete and the category is marked baked. |
| MantaBake.NoFramesExample | source/blender/editors/physics/physics_manta.c:186-191 | For a cache range from frame 10 to frame 5 the bake reports complete while the error text says there are no frames. |
| MantaBake.RunBakeCorrectedReportsNoFrames | source/blender/editors/physics/physics_manta.c:186-191 | With the failure flagged, an empty range is reported as a failure carrying the no-frames error. Completion implies a non-empty range, and non-empty ranges behave exactly as written. |
| MantaBake.FreeFlags | source/blender/editors/physics/physics_manta.c:408-472 | Freeing data clears the baking and baked bits of data, noise, mesh and particles and keeps guiding's. Freeing another category clears only that category's two bits, and other jobs change nothing. |
| MantaBake.FreeStartJob | source/blender/editors/physics/physics_manta.c:408-479 | A free job applies the free flags, zeroes only the freed category's pause frame and moves the scene frame to the cache start. The frame range and error text are left unchanged. |
| MantaBake.FreeGuard | source/blender/editors/physics/physics_manta.c:584-590 | Freeing is blocked exactly when some category other than guiding is baking. |
| MantaBake.FreeExec | source/blender/editors/physics/physics_manta.c:584-614 | For an object with a fluid domain, the free operator is cancelled, leaving the state unchanged, exactly when a non-guiding bake is in progress. Otherwise it runs the free job. |
| MantaBake.BakeBlocksFree | source/blender/editors/physics/physics_manta.c:584-590 | Once a non-guiding bake has started, every free is cancelled. A guiding bake alone does not block a guiding free, which then clears the guiding baking bit mid-bake. |
| MantaBake.FreeRestartsBake | source/blender/editors/physics/physics_manta.c:408-479 | After a category is freed it is neither baking nor baked, and its next bake starts at the cache start frame. |

`MantaBake.BakeSequence` states:
- The loop result equals its closed form.
- An empty range only records the error.
- The flags, the frame range and the other categories' pause frames are unchanged.
- A break at frame f leaves f as the pause frame and clears success. The scene frame is then the first frame if f was the first frame, and f-1 otherwise.
- Without a break, success and the scene frame are kept. The pause frame becomes the range end when any frame ran.

## Left out

- Container construction, destruction, `new_block` and `release_block` are only declared in the header. Their bodies are in a file that is not part of this model, so the live-block set is an opaque set of block ids and no operation adds or removes blocks.
- Particles.FloatBufferIndex: the lookup of an unregistered name is excluded by its precondition. The header only calls `SmallSetVector::index`, whose behaviour on a missing element is not part of this model.
- Particles.Vec3BufferIndex: excluded in the same way as the float lookup.
- Raw buffer pointers and their aliasing are modelled as sequences of values.
- A block holds a copy of its container value, not a reference to it. This is harmless here, because no modelled operation changes a container's block size, attribute names or block set after a block is made.
- Unsigned 32-bit counters are modelled as unbounded naturals, so wrap-around is not modelled.
- The float value of a crease fraction (weight × 1/255 in single precision) is kept as the exact byte numerator. Point coordinates are an opaque element type.
- The USD stage calls, the instancing and reference branch of `write_mesh`, `write_uv_maps`, `assign_materials`, `do_write`, and the frame-has-been-written check are left out. They are I/O or depend on code that is not part of this model.
- The C `short` width of `mat_nr` and `totcol` is not modelled.
- The `int` fields `loopstart` and `totloop` of a polygon are modelled as naturals, so negative or overflowing values are not modelled.
- The integer conversion of loop vertex indices into USD's signed int arrays is not modelled.
- The unsigned edge vertices `v1` and `v2` are pushed into USD's signed int crease index array; that conversion is not modelled.
- The C `int` frame arithmetic of the bake loop (the frame count `end - start + 1` and the frame increment) is unbounded in the model. With a cache end of `INT_MAX` the C loop counter would overflow and the loop would not end; the model's loop ends because its integers do not wrap.
- Particles.MakeBlock: the block constructor's explicit `active_amount` argument is not modelled; only its default of 0 is.
- The duplicator visibility bits are modelled as a set of two flags, because the header that defines their values is not part of this model.
- The following parts of the bake operators are outside the modelled state: cache directories, path checks, reports, the timer, the dependency graph, job registration, modal and cancel handlers, the progress value, draw locks, and the operator type definitions.
- The missing-modifier and missing-domain cancellations are outside the model, because the domain is an input. The bake job setup fails with "no Fluid modifier found" or "invalid domain" (physics_manta.c lines 105-114), and the free operator is cancelled with the same reasons (lines 573-582).
- The break flag is set by another thread or by the pause operator. It is an input of the frame loop, not a shared variable.
- A free job runs synchronously in the model. The source starts it as a background job.
- Its end callback always reports completion, because the free start sets success and never clears it. That is the same classification as for bakes, so it is not modelled separately.
- For an unrecognised bake job name, the start callback leaves the pause-frame pointer unset and the frame loop would then read through it. The model's whole-bake functions therefore take a category, and only the flag callbacks accept any job kind.

## Findings

| source | as written | input that shows it | evidently intended | confidence | as-written member | corrected member |
|---|---|---|---|---|---|---|
| source/blender/editors/physics/physics_manta.c:186-191 | An empty frame range copies "No frames to bake" into the error text and returns without clearing the job's success flag. The end callback therefore reports the bake complete and marks the category baked. | cache frame start 10, cache frame end 5, no break | the job fails, and the end callback reports "failed: No frames to bake" | medium, not executed | MantaBake.NoFramesReportedComplete (with MantaBake.NoFramesExample) | MantaBake.RunBakeCorrected, proved in MantaBake.RunBakeCorrectedReportsNoFrames |
