/**
 * A structure definition and the structures captured from it.
 *
 * A definition keeps its region and capture flags for life and fills three
 * cache slots (origin, bounds, static blocks) on first use. Each accessor is
 * tied to its step in `DefinitionCache`, whose lemmas say what any sequence of
 * accessor calls returns. A structure snapshots the definition's static blocks
 * from a world once, at construction, and later pastes that snapshot.
 */
module Structures {
  import opened Wrappers
  import opened Geometry
  import opened Worlds
  import Cache = DefinitionCache

  /** Why a definition could not be built. */
  datatype ConfigError = NullRegion

  /** `checkNotNull(region)`: a null region fails fast, any other is passed through. */
  function RequireRegion(region: Option<Region>): (r: Result<Region, ConfigError>)
    ensures r.Success? <==> region.Some?
    ensures r.Success? ==> r.value == region.value
    ensures r.Failure? ==> r.error == NullRegion
  {
    if region.None? then Failure(NullRegion) else Success(region.value)
  }

  /**
   * `new StructureDefinitionImpl(origin, region, includeAir, clearSource)`:
   * refused for a null region; otherwise a definition holding the arguments,
   * with only the origin slot possibly filled.
   */
  method NewStructureDefinition(origin: Option<Vector>, region: Option<Region>, includeAir: bool, clearSource: bool)
    returns (r: Result<StructureDefinition, ConfigError>)
    ensures r.Failure? <==> region.None?
    ensures r.Failure? ==> r.error == NullRegion
    ensures r.Success? ==> && fresh(r.value) && r.value.Valid()
                           && r.value.region == region.value
                           && r.value.includeAir == includeAir
                           && r.value.clearSource == clearSource
                           && r.value.Slots() == Cache.Initial(origin)
  {
    var checked := RequireRegion(region);
    if checked.Failure? {
      return Failure(checked.error);
    }
    var definition := new StructureDefinition(origin, checked.value, includeAir, clearSource);
    r := Success(definition);
  }

  class StructureDefinition {
    const region: Region
    const includeAir: bool
    const clearSource: bool

    // Lazily filled cache slots; None is null.
    var origin: Option<Vector>
    var bounds: Option<Cuboid>
    var staticBlocks: Option<BlockRegion>

    /** The final fields. */
    function Config(): Cache.Config {
      Cache.Config(region, includeAir, clearSource)
    }

    /** The cache slots. */
    function Slots(): Cache.Slots
      reads this
    {
      Cache.Slots(origin, bounds, staticBlocks)
    }

    /** Every filled geometry slot holds what the region determines. */
    predicate Valid()
      reads this
    {
      Cache.Coherent(Config(), Slots())
    }

    /** The origin is stored as given (null stays null); bounds and static blocks start unset. */
    constructor (origin: Option<Vector>, region: Region, includeAir: bool, clearSource: bool)
      ensures Valid()
      ensures this.region == region && this.includeAir == includeAir && this.clearSource == clearSource
      ensures Slots() == Cache.Initial(origin)
      ensures Cache.Consistent(Config(), origin, Slots())
    {
      this.origin := origin;
      this.region := region;
      this.includeAir := includeAir;
      this.clearSource := clearSource;
      this.bounds := None;
      this.staticBlocks := None;
    }

    /**
     * `origin()`: the stored origin, filled on first call with the least
     * corner of the region's bounds when none was configured. Touches no
     * other slot.
     */
    method Origin() returns (v: Vector)
      requires Valid()
      modifies this`origin
      ensures Valid()
      ensures (v, Slots()) == Cache.OriginStep(Config(), old(Slots()))
      ensures old(origin).Some? ==> v == old(origin).value
      ensures old(origin).None? ==> v == Minimum(GetBounds(region))
      ensures origin == Some(v)
      ensures bounds == old(bounds) && staticBlocks == old(staticBlocks)
      ensures forall g :: Cache.Consistent(Config(), g, old(Slots())) ==> Cache.Consistent(Config(), g, Slots())
    {
      if origin.None? {
        origin := Some(Minimum(GetBounds(region)));
      }
      v := origin.value;
    }

    /** `region()`: the region given at construction; no slot changes. */
    method Region() returns (r: Region)
      ensures r == region
      ensures (Cache.RegionAnswer(r), Slots()) == Cache.Step(Config(), Slots(), Cache.RegionCall)
    {
      r := region;
    }

    /** `includeAir()`: the flag given at construction; no slot changes. */
    method IncludeAir() returns (b: bool)
      ensures b == includeAir
      ensures (Cache.FlagAnswer(b), Slots()) == Cache.Step(Config(), Slots(), Cache.IncludeAirCall)
    {
      b := includeAir;
    }

    /** `clearSource()`: the flag given at construction; no slot changes. */
    method ClearSource() returns (b: bool)
      ensures b == clearSource
      ensures (Cache.FlagAnswer(b), Slots()) == Cache.Step(Config(), Slots(), Cache.ClearSourceCall)
    {
      b := clearSource;
    }

    /**
     * `bounds()`: always the region's bounding box; the first call stores it
     * and later calls return the stored value. Touches no other slot.
     */
    method Bounds() returns (b: Cuboid)
      requires Valid()
      modifies this`bounds
      ensures Valid()
      ensures (b, Slots()) == Cache.BoundsStep(Config(), old(Slots()))
      ensures b == GetBounds(region)
      ensures bounds == Some(b)
      ensures old(bounds).Some? ==> bounds == old(bounds)
      ensures origin == old(origin) && staticBlocks == old(staticBlocks)
      ensures forall g :: Cache.Consistent(Config(), g, old(Slots())) ==> Cache.Consistent(Config(), g, Slots())
    {
      if bounds.None? {
        bounds := Some(GetBounds(region));
      }
      b := bounds.value;
    }

    /**
     * `staticBlocks()`: always the block box at the least block corner of the
     * bounds with the bounds' block extent; the first call stores it (and
     * fills the bounds on the way), later calls return the stored value.
     */
    method StaticBlocks() returns (blocks: BlockRegion)
      requires Valid()
      modifies this`bounds, this`staticBlocks
      ensures Valid()
      ensures (blocks, Slots()) == Cache.StaticBlocksStep(Config(), old(Slots()))
      ensures blocks == FromMinAndSize(MinimumBlockInside(GetBounds(region)), BlockSize(GetBounds(region)))
      ensures staticBlocks == Some(blocks) && bounds == Some(GetBounds(region))
      ensures old(staticBlocks).Some? ==> staticBlocks == old(staticBlocks)
      ensures old(bounds).Some? ==> bounds == old(bounds)
      ensures origin == old(origin)
      ensures forall g :: Cache.Consistent(Config(), g, old(Slots())) ==> Cache.Consistent(Config(), g, Slots())
    {
      if staticBlocks.None? {
        var corner := Bounds();
        var size := Bounds();
        staticBlocks := Some(FromMinAndSize(MinimumBlockInside(corner), BlockSize(size)));
      }
      blocks := staticBlocks.value;
    }

    /** `createFeature`: capture a new structure from the world, now. */
    method CreateFeature(world: World) returns (s: Structure)
      requires Valid()
      modifies this`bounds, this`staticBlocks, world
      ensures Valid()
      ensures fresh(s) && s.definition == this
      ensures s.image == Copied(old(world.blocks), Cache.ExpectedStaticBlocks(Config()), includeAir, clearSource)
      ensures s.dynamicBlocks == ImageRegion(s.image) && s.Valid()
      ensures world.blocks == AfterCopy(old(world.blocks), Cache.ExpectedStaticBlocks(Config()), includeAir, clearSource)
      ensures staticBlocks == Some(Cache.ExpectedStaticBlocks(Config())) && bounds == Some(GetBounds(region))
      ensures origin == old(origin)
      ensures forall g :: Cache.Consistent(Config(), g, old(Slots())) ==> Cache.Consistent(Config(), g, Slots())
    {
      s := new Structure(this, world);
    }
  }

  /** A live structure: one snapshot of a definition's static blocks, and the region it covers. */
  class Structure {
    const definition: StructureDefinition
    const image: BlockImage
    const dynamicBlocks: BlockRegion

    /** The recorded region is the one the image covers. */
    predicate Valid() {
      dynamicBlocks == ImageRegion(image)
    }

    /**
     * `new StructureImpl(world)`: copy the definition's static blocks from the
     * world with its two flags (the copy may change the world), and record the
     * region the image covers. Filling the definition's cache is the only
     * other effect.
     */
    constructor (definition: StructureDefinition, world: World)
      requires definition.Valid()
      modifies definition`bounds, definition`staticBlocks, world
      ensures definition.Valid()
      ensures this.definition == definition
      ensures image == Copied(old(world.blocks), Cache.ExpectedStaticBlocks(definition.Config()),
                              definition.includeAir, definition.clearSource)
      ensures dynamicBlocks == ImageRegion(image) && Valid()
      ensures world.blocks == AfterCopy(old(world.blocks), Cache.ExpectedStaticBlocks(definition.Config()),
                                        definition.includeAir, definition.clearSource)
      ensures definition.staticBlocks == Some(Cache.ExpectedStaticBlocks(definition.Config()))
      ensures definition.bounds == Some(GetBounds(definition.region))
      ensures definition.origin == old(definition.origin)
    {
      this.definition := definition;
      var blocks := definition.StaticBlocks();
      var includeAir := definition.IncludeAir();
      var clearSource := definition.ClearSource();
      var captured := world.CopyBlocks(blocks, includeAir, clearSource);
      this.image := captured;
      this.dynamicBlocks := ImageRegion(captured);
    }

    /** `dynamicBlocks()`: the region the captured image covers. */
    method DynamicBlocks() returns (r: BlockRegion)
      requires Valid()
      ensures r == dynamicBlocks
      ensures r == ImageRegion(image)
    {
      r := dynamicBlocks;
    }

    /** `getDefinition()`: the definition this structure was captured from. */
    method GetDefinition() returns (d: StructureDefinition)
      ensures d == definition
    {
      d := definition;
    }

    /**
     * `place(world, offset)`: paste the image into the world at the offset.
     * The structure and its definition stay as they were, so the same image
     * is placed by every call.
     */
    method Place(world: World, offset: Vector)
      modifies world
      ensures world.blocks == Pasted(old(world.blocks), image, offset)
      ensures unchanged(definition)
    {
      world.PasteBlocks(image, offset);
    }
  }
}
