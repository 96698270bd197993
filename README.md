# Batch loader and model assembly of three-d, in Dafny

This project models two pieces of the three-d rendering library and proves properties of them.

**The batch resource loader** (`src/io.rs`, module `Io` in `io.dfy`). `Loader::load_with_progress`
seeds a shared map `Loaded` (path to `Result<bytes, io::Error>`) with an empty placeholder per
requested path, and calls `load_file` for each path, which overwrites the entry with the bytes read
or the open/read error. It then polls the map every 100 ms. Each poll counts the *resolved* entries
(an error, or a non-empty buffer), reports `count / total`, and either polls again or hands the map
to `on_done`. `Loader::get` looks up a path afterwards. In the model:

- the map of one batch and the poller's state form the class `LoadBatch`. It has `Seed`,
  `LoadFile`, `CountResolved` (the counting loop) and `Tick` (one poll);
- `SeedAndFetch` is the seeding loop with the native `load_file`, `WaitLocal` is the poller's
  self-rescheduling loop of `Tick` calls, and `LoadWithProgress` runs one after the other;
- the file system is a parameter `fs: string -> FsResponse`. It says, per path, whether
  `File::open` fails, whether `read_to_end` fails, or which bytes the whole file holds. Both reads
  of a duplicated path therefore see the same answer;
- each expiry of the self-rescheduling timer is one `Tick` call. A failed `RefCell::try_borrow` is
  the argument `borrowed == false`;
- progress is the integer pair `(count, total)`. `Progress` gives the ratio as a real.

The placeholder is a zero-length `Ok`, so the poller cannot tell it apart from a file that really is
empty. The model keeps this: `Resolved(Ok([]))` is false. `ZeroLengthFileStalls` proves what follows
on the native target. The seeding loop reads every file synchronously, so the map is already final
before the first poll, and a requested empty file makes every poll report "still loading".
`NativeCompletion` is the full statement: on the native target, a poll completes exactly when no
requested file read as zero bytes.

**Model assembly** (`src/renderer/object/model.rs`, module `ObjectModel` in `model.dfy`).
`Model::new` converts the CPU materials index for index. It keeps only the triangle primitives and
gives each one its material: the indexed one, or the default when there is no index. An index past
the material list fails with `MissingMaterial`. Each kept primitive becomes one part, which carries
the primitive's transformation and animations. `Model::start_animation(name)` makes each part run
its first animation whose `Option<String>` name equals `name`, or stops the part when none does.
`None` equals `None`, so `start_animation(None)` picks the first unnamed animation. GPU objects are
opaque stand-ins:

- a `Material` records the CPU material it came from, or that it is the default;
- a `Mesh` records its triangle data, its transformation and the animation it runs.

## Model

| member | source | states |
|---|---|---|
| `Io.ResolvedCount` | src/io.rs:113-121 | the resolved count never exceeds the number of entries, and equals it exactly when every entry is an error or a non-empty buffer |
| `Io.Decide` | src/io.rs:111-124 | a poll that cannot borrow the map reports nothing and keeps loading; otherwise it reports `(resolved count, map size)`, keeps loading iff some entry is unresolved, and completes iff all are resolved |
| `Io.Progress` | src/io.rs:120 | the reported ratio of a non-empty batch lies in [0, 1] and is 1 exactly when every entry is resolved |
| `Io.Get` | src/io.rs:91-96 | an absent path gives `FailedToLoad` "Tried to use a resource which was not loaded: path"; an error entry gives `FailedToLoad` "Could not load resource: path"; an `Ok` entry gives exactly its bytes, and `Ok` is returned only then |
| `Io.LoadBatch.constructor` | src/io.rs:82 | a batch starts with an empty map and a poller that has not completed |
| `Io.LoadBatch.Seed` | src/io.rs:84 | inserting the placeholder adds the path to the key set, changes no other entry, and leaves that entry unresolved |
| `Io.LoadBatch.LoadFile` | src/io.rs:155-167 | only the entry of `path` changes; the key set stays the same when the path was seeded; an open or read failure stores `Err`, a full read stores exactly the bytes read |
| `Io.LoadBatch.CountResolved` | src/io.rs:113-119 | the loop over the entries counts exactly the resolved ones, and that count is at most the number of entries |
| `Io.LoadBatch.Tick` | src/io.rs:109-132 | one poll leaves the map unchanged and returns what `Decide` gives for the map; it sets `done` (the `on_done` call) iff it completes, only when every entry is resolved, and a completed batch is never polled again |
| `Io.SeedAndFetch` | src/io.rs:82-86 | after the seeding loop the map has one entry per distinct requested path, each the outcome of reading that path, and the poller has not completed |
| `Io.WaitLocal` | src/io.rs:104-133 | the poller ticks once per timer expiry and leaves the map unchanged; each report is what `Decide` gives for the map and that expiry's borrow; it reschedules while loading, so no report before the last completes; `on_done` has run iff the last report completes, so it runs at most once; it stops early only by completing |
| `Io.LoadWithProgress` | src/io.rs:77-89 | seeding and reading every requested path, then polling as `WaitLocal` does, on a fresh batch whose map is the native load result |
| `Io.NativeLoadsKeys` | src/io.rs:82-86 | the key set after seeding is exactly the set of requested paths, duplicates collapsed, so the total is at most the number of requests |
| `Io.ResolvingWriteKeepsProgress` | src/io.rs:113-121 | writing an error or a non-empty buffer to a seeded path keeps the key set and never lowers the resolved count |
| `Io.ProgressNeverDecreases` | src/io.rs:113-121 | any sequence of such writes to seeded paths keeps the total and never lowers the resolved count, so successive progress reports do not go backwards |
| `Io.EmptyBatchCompletesAtOnce` | src/io.rs:113-131 | with no requested paths the map is empty, and the first poll that borrows it completes with 0 of 0 |
| `Io.NativeCompletion` | src/io.rs:82-131 | on the native target a poll of the seeded map completes iff no requested file read as zero bytes; errors count as resolved |
| `Io.ZeroLengthFileStalls` | src/io.rs:115-127 | a requested file that reads as zero bytes keeps the native batch loading on every poll |
| `Io.GetAfterLoad` | src/io.rs:91-96 | after loading, `get` gives "not loaded" for any path that was not requested, the exact bytes for a requested path that was read fully, and "Could not load" for one whose open or read failed |
| `ObjectModel.DecimalString` | src/renderer/object/model.rs:96-99 | an index in a `MissingMaterial` error is rendered as a non-empty string of decimal digits with no leading zero: a string starting with '0' is exactly "0", the rendering of 0 |
| `ObjectModel.DecimalRoundTrip` | src/renderer/object/model.rs:96-99 | the rendered index reads back as the index it came from |
| `ObjectModel.Materials` | src/renderer/object/model.rs:84-88 | the material list has as many elements as the CPU material list, and element i is built from CPU material i |
| `ObjectModel.TriangleIndices` | src/renderer/object/model.rs:90-91 | exactly the positions of the triangle primitives, in strictly increasing order; all other primitives are skipped |
| `ObjectModel.MakePart` | src/renderer/object/model.rs:105-113 | the part holds the primitive's triangle mesh with the primitive's transformation, a copy of its animation list, and the indexed material, or the default when there is no index |
| `ObjectModel.PartsOfAssembled` | src/renderer/object/model.rs:89-116 | when every material index resolves, the pushed parts are one per triangle primitive, in the order of those primitives, each built from its primitive |
| `ObjectModel.FirstMissingDecides` | src/renderer/object/model.rs:92-100 | a triangle primitive with an out-of-range index and none before it makes assembly fail, with that primitive's index and name in the error |
| `ObjectModel.BuildParts` | src/renderer/object/model.rs:83-117 | success iff every triangle primitive's material index is absent or in range; on success there is one part per triangle primitive, in their order, each built from its primitive; on failure the error is the `MissingMaterial(index, name)` of the first triangle primitive whose index is out of range |
| `ObjectModel.Model.constructor` | src/renderer/object/model.rs:116 | the model holds exactly the given parts |
| `ObjectModel.Model.New` | src/renderer/object/model.rs:83-117 | a fresh model exists iff every material index resolves; its parts are assembled as in `BuildParts`; otherwise the first missing-material error is returned and no model is produced |
| `ObjectModel.FindAnimation` | src/renderer/object/model.rs:121-125 | no animation is found iff none has the requested name; otherwise the one found is the first with that name |
| `ObjectModel.Model.StartAnimation` | src/renderer/object/model.rs:119-132 | the parts keep their number and order, and each part becomes its old self running `FindAnimation` of its own animation list, or stopped when that finds nothing |
| `ObjectModel.AnimatedRunsFirstMatch` | src/renderer/object/model.rs:119-131 | after `start_animation(name)`, a part runs an animation iff it has one with that name, and then it runs the first such |
| `ObjectModel.AnimatedKeepsPart` | src/renderer/object/model.rs:120-131 | `start_animation` keeps each part's stored animation list, material, mesh data and transformation |

## Left out

- The browser `load_file` (src/io.rs:169-197) is not modelled. It relies on `fetch`, JavaScript promises and `spawn_local`, which are foreign calls. It writes only `Ok(body)`, also when the server answers with an HTTP error status. A rejected `fetch` or a failed `array_buffer` panics at `.await.unwrap()` (src/io.rs:191, 195), so that task never writes and the batch never completes.
- Timers (src/io.rs:135-152) are not modelled. `WaitLocal` makes one `Tick` per given timer expiry, in a loop. It does not model real-time delays, the source's nested recursion, or fetches that write between ticks.
- `Rc<RefCell<..>>` contention is an input to `Tick` and is not concurrency the model checks. Natively everything runs on the calling thread, so `try_borrow` never fails there.
- Float progress and the `info!` logging (src/io.rs:73, 87, 120, 129) are not modelled. `Loader::load` is `load_with_progress` with a progress callback that only logs, so it has no separate member. For an empty batch the source reports 0/0, which is NaN as an `f32`; `Progress` requires a non-empty batch.
- What `on_done` does with the map is the caller's code and is not modelled.
- Image decoding in `get_image` (src/io.rs:98-102) wraps the external `image` crate, and is not modelled.
- The `Saver` file writes and encoders (src/io.rs:200-237) are filesystem I/O and foreign serialisers, and are not modelled.
- The `From` error conversions (src/io.rs:33-59) only wrap values, and are not modelled. The image, bincode and obj error cases are left out of `Error`.
- `Mesh::new`, `M::from_cpu_material` and `M::default` are opaque constructors. Rendering, bounding boxes, `animate` and the `Deref` plumbing (src/renderer/object/model.rs:9-59, 66-76, 134-150) hold a GL context and floats, and are not modelled. `Gm` and `Mesh` are not part of this model beyond the fields named above. Starting an animation records the `KeyFrameAnimation` itself, not the closure evaluated over time.
- src/window/control/orbit_control.rs and src/objects/wireframe.rs are camera and OpenGL code with no stateable logic here, and are not modelled.
