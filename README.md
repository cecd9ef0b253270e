# Structure definitions and their lazily filled geometry cache

This project models the structure feature of PGM (`tc.oc.pgm.structure`).
A *structure definition* describes a region of a map, plus two capture flags:
`includeAir` and `clearSource`. A *structure* is a snapshot of the blocks in
the definition's *static blocks*, taken from a world once. The static blocks
are the block-aligned box around the region's bounds, so for a region that is
not a box the snapshot also holds blocks outside the region. The snapshot can
later be pasted back into a world at an offset.

A definition has three final fields: `region`, `includeAir` and `clearSource`.
It also has three nullable cache fields, and the accessor that owns each one
fills it on first use:

- `origin`: set at construction when one was configured. Otherwise the first
  `origin()` call fills it with the least corner of the region's bounds.
- `bounds`: the region's bounding box.
- `staticBlocks`: the block box built from the bounds.
  `staticBlocks()` calls `bounds()` twice, so it fills the bounds slot too.

The project has five modules:

- `Geometry` (`geometry.dfy`): the library types (`Vector`, `Region`, `Cuboid`, `BlockRegion`) as abstract value types. The library calls (`getBounds`, `minimum`, `minimumBlockInside`, `blockSize`, `fromMinAndSize`) are uninterpreted function constants.
- `Worlds` (`worlds.dfy`): a `World` class whose block contents are an abstract `WorldState`. `copyBlocks`, `pasteBlocks` and `BlockImage.region()` are uninterpreted functions. `copyBlocks` and `pasteBlocks` act on that state; `BlockImage.region()` is a function of the image alone.
- `DefinitionCache` (`definition_cache.dfy`): the cache as a state machine on values. `Step` is one accessor call and `Run` is a sequence of calls. `Expected` is a reference definition that uses no cache. The lemmas connect the two: every call answers what the configuration determines (the region, the two flags and the origin given at construction), whatever was cached before; filled slots never change; each call fills only the slots it owns.
- `Structures` (`structures.dfy`): the `StructureDefinition` class (the Java `StructureDefinitionImpl`) and the `Structure` class (its inner `StructureImpl`). The fields are updated in place, as in the source.
  - Each accessor's postcondition ties its result and the new slots to its `DefinitionCache` step. For `region()`, `includeAir()` and `clearSource()` that step leaves every slot as it was.
  - Each lazy accessor (`origin()`, `bounds()`, `staticBlocks()`) also states its result outright and lists the slots it leaves alone.
  - The `DefinitionCache` lemmas require the slots to be consistent with the origin given at construction. The constructor establishes that, and every lazy accessor and `createFeature` preserves it.
- `Wrappers` (`wrappers.dfy`): `Option` stands for Java's null. `Result` stands for the fail-fast `checkNotNull`.

## Model

| member | source | states |
|---|---|---|
| `Structures.RequireRegion` | PGM/src/main/java/tc/oc/pgm/structure/StructureDefinition.java:49 | a null region fails with `NullRegion`; a non-null region is passed through unchanged (both directions) |
| `Structures.NewStructureDefinition` | PGM/src/main/java/tc/oc/pgm/structure/StructureDefinition.java:47-52 | construction fails exactly when the region is null; otherwise the new definition holds the region and the two flags, its origin slot is the given origin (null stays unset), and bounds and static blocks are unset |
| `Structures.StructureDefinition.constructor` | PGM/src/main/java/tc/oc/pgm/structure/StructureDefinition.java:47-52 | stores region, flags and the origin as given; bounds and static blocks start unset; the slots are consistent with the given origin, as the `DefinitionCache` lemmas require |
| `Structures.StructureDefinition.Origin` | PGM/src/main/java/tc/oc/pgm/structure/StructureDefinition.java:55-60 | returns the stored origin when set, else `minimum(getBounds(region))`, which it stores; the slot then holds the result; bounds and static blocks are untouched |
| `Structures.StructureDefinition.Region` | PGM/src/main/java/tc/oc/pgm/structure/StructureDefinition.java:62-65 | returns the constructor's region and changes nothing |
| `Structures.StructureDefinition.IncludeAir` | PGM/src/main/java/tc/oc/pgm/structure/StructureDefinition.java:67-70 | returns the constructor's `includeAir` and changes nothing |
| `Structures.StructureDefinition.ClearSource` | PGM/src/main/java/tc/oc/pgm/structure/StructureDefinition.java:72-75 | returns the constructor's `clearSource` and changes nothing |
| `Structures.StructureDefinition.Bounds` | PGM/src/main/java/tc/oc/pgm/structure/StructureDefinition.java:77-83 | always returns `getBounds(region)`; afterwards the slot holds it, and a slot already set is not changed; origin and static blocks are untouched |
| `Structures.StructureDefinition.StaticBlocks` | PGM/src/main/java/tc/oc/pgm/structure/StructureDefinition.java:85-92 | always returns `fromMinAndSize(minimumBlockInside(b), blockSize(b))` for the region's bounds `b`; afterwards both the static-blocks and the bounds slots are set, set slots are not changed, and the origin is untouched |
| `Structures.StructureDefinition.CreateFeature` | PGM/src/main/java/tc/oc/pgm/structure/StructureDefinition.java:99-102 | returns a fresh structure of this definition, captured from the given world right away |
| `Structures.Structure.constructor` | PGM/src/main/java/tc/oc/pgm/structure/StructureDefinition.java:108-113 | the image is `copyBlocks` of the world as it was, over the static blocks and with the definition's flags; the dynamic blocks are the image's region; the world goes to its after-copy state; the only change to the definition is that its bounds and static-blocks slots are filled |
| `Structures.Structure.DynamicBlocks` | PGM/src/main/java/tc/oc/pgm/structure/StructureDefinition.java:115-118 | returns the recorded dynamic blocks, which equal the region of the captured image |
| `Structures.Structure.GetDefinition` | PGM/src/main/java/tc/oc/pgm/structure/StructureDefinition.java:120-123 | returns the definition the structure was captured from |
| `Structures.Structure.Place` | PGM/src/main/java/tc/oc/pgm/structure/StructureDefinition.java:125-128 | the world becomes `pasteBlocks(image, offset)` of its old state; the structure (final fields) and its definition are unchanged, so repeated calls paste the same image |
| `DefinitionCache.Run` | PGM/src/main/java/tc/oc/pgm/structure/StructureDefinition.java:55-92 | a sequence of accessor calls gives exactly one answer per call |
| `DefinitionCache.StepMeaning` | PGM/src/main/java/tc/oc/pgm/structure/StructureDefinition.java:55-92 | from a consistent cache, one accessor call returns the cache-free expected answer and leaves the cache consistent |
| `DefinitionCache.StepFills` | PGM/src/main/java/tc/oc/pgm/structure/StructureDefinition.java:55-92 | one call keeps every filled slot, and fills a slot exactly when that slot was set before or the call owns it (`staticBlocks()` also owns the bounds) |
| `DefinitionCache.RunAnswersExpected` | PGM/src/main/java/tc/oc/pgm/structure/StructureDefinition.java:55-92 | whatever the history, each call in a run answers what the region and the configured origin determine, and the cache stays consistent |
| `DefinitionCache.RunExtends` | PGM/src/main/java/tc/oc/pgm/structure/StructureDefinition.java:55-92 | no run of accessor calls changes or clears a slot once it is filled |
| `DefinitionCache.RunFills` | PGM/src/main/java/tc/oc/pgm/structure/StructureDefinition.java:55-92 | after a run a slot is set exactly when it was set before or some call owns it: `origin()` fills only the origin, `bounds()` only the bounds, and `staticBlocks()` the static blocks and the bounds |
| `DefinitionCache.CachingUnobservable` | PGM/src/main/java/tc/oc/pgm/structure/StructureDefinition.java:42-45 | a definition with any consistent cache gives the same answers as a freshly built one. So the lazy initialisation is invisible to callers, provided the geometry calls are deterministic and never fail (see "Left out") |
| `DefinitionCache.RepeatedCallsAgree` | PGM/src/main/java/tc/oc/pgm/structure/StructureDefinition.java:55-92 | any two calls of the same accessor on one definition give equal answers, so the first call and the Nth call agree |
| `DefinitionCache.OriginAnswers` | PGM/src/main/java/tc/oc/pgm/structure/StructureDefinition.java:47-60 | on a fresh definition, every `origin()` call answers the configured origin when one was given, and `minimum(getBounds(region))` otherwise |

## Left out

- Voxel semantics: `World.copyBlocks` (skipping air, clearing the source), `World.pasteBlocks` (translation by the offset) and `BlockImage.region()` are library code and are left uninterpreted. So the model makes no claim about sparsity, clearing, offsets or round trips.
- Geometry arithmetic: `Region.getBounds`, `Cuboid.minimum`, `minimumBlockInside`, `blockSize` and `CuboidBlockRegion.fromMinAndSize` work on double-valued vectors. They are uninterpreted, so no floating-point behaviour is modelled.
- The geometry calls are assumed to give the same answer for the same argument at every call, and never to fail. So the region, even a feature proxy, counts as resolved before the first accessor call. That is exactly why the source makes the cache fields lazy (line 42 of `StructureDefinition.java`, "because of feature proxies"). The model does not represent an unresolved proxy, nor a `getBounds()` that throws or whose answer changes over time.
- The world calls `copyBlocks` and `pasteBlocks` are assumed to succeed. In the source, an exception from `copyBlocks` leaves `createFeature` and the structure's constructor with no structure, after `staticBlocks()` has already filled the bounds and static-blocks slots. An exception from `pasteBlocks` can leave a placement half done. The model shows neither case.
- `ImVector.copyOf` is modelled as the identity: the configured origin is stored as given.
- `load(match)` and the `match.getWorld()` lookup in `createFeature` are feature-registration plumbing and are not modelled. `CreateFeature` takes the world directly.
- The `@FeatureInfo` and `@Inspect` annotations have no behaviour to model.
- Concurrency: the source fills its cache without locking. Racing first calls from several threads are not modelled; every call is sequential.
- Java null on the other reference arguments (the world, the offset) is not modelled. Those are non-null references here, and only the region carries the source's null check.
