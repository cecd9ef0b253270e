/**
 * The lazily filled geometry cache of a structure definition, as a state
 * machine on values. A definition holds three final values (its region and
 * two capture flags) and three slots that start empty (except the origin,
 * when one was configured) and are filled by the first call of the accessor
 * that owns them. `Step` is one accessor call, `Run` a sequence of them; the
 * lemmas say that caching is unobservable: every call answers what the
 * configuration determines (the region, the two flags and the origin given at
 * construction), whatever was cached before.
 */
module DefinitionCache {
  import opened Wrappers
  import opened Geometry

  /** The final fields of a definition. */
  datatype Config = Config(region: Region, includeAir: bool, clearSource: bool)

  /** The three nullable cache fields; `None` is an unset slot. */
  datatype Slots = Slots(origin: Option<Vector>, bounds: Option<Cuboid>, staticBlocks: Option<BlockRegion>)

  /** The accessors of a definition. */
  datatype Call = OriginCall | RegionCall | IncludeAirCall | ClearSourceCall | BoundsCall | StaticBlocksCall

  /** What an accessor returns. */
  datatype Answer =
    | VectorAnswer(vector: Vector)
    | RegionAnswer(region: Region)
    | FlagAnswer(flag: bool)
    | CuboidAnswer(cuboid: Cuboid)
    | BlocksAnswer(blocks: BlockRegion)

  // ---------------------------------------------------------------------------
  // What the configuration determines, independently of any cache.

  function RegionBounds(cfg: Config): Cuboid {
    GetBounds(cfg.region)
  }

  /** The origin used when none was configured: the least corner of the bounds. */
  function DefaultOrigin(cfg: Config): Vector {
    Minimum(RegionBounds(cfg))
  }

  /** The block-aligned box that a capture covers. */
  function ExpectedStaticBlocks(cfg: Config): BlockRegion {
    FromMinAndSize(MinimumBlockInside(RegionBounds(cfg)), BlockSize(RegionBounds(cfg)))
  }

  /** The answer each accessor owes, given the origin passed at construction. */
  function Expected(cfg: Config, given: Option<Vector>, call: Call): Answer {
    match call
    case OriginCall => VectorAnswer(if given.Some? then given.value else DefaultOrigin(cfg))
    case RegionCall => RegionAnswer(cfg.region)
    case IncludeAirCall => FlagAnswer(cfg.includeAir)
    case ClearSourceCall => FlagAnswer(cfg.clearSource)
    case BoundsCall => CuboidAnswer(RegionBounds(cfg))
    case StaticBlocksCall => BlocksAnswer(ExpectedStaticBlocks(cfg))
  }

  // ---------------------------------------------------------------------------
  // Cache states.

  /** The slots right after construction: the origin as given (possibly null), the rest unset. */
  function Initial(given: Option<Vector>): Slots {
    Slots(given, None, None)
  }

  /** The static blocks are never filled before the bounds. */
  predicate Ordered(s: Slots) {
    s.staticBlocks.Some? ==> s.bounds.Some?
  }

  /** Every filled geometry slot holds what the region determines, and the slots are ordered. */
  predicate Coherent(cfg: Config, s: Slots) {
    && Ordered(s)
    && (s.bounds.Some? ==> s.bounds.value == RegionBounds(cfg))
    && (s.staticBlocks.Some? ==> s.staticBlocks.value == ExpectedStaticBlocks(cfg))
  }

  /** Coherent, and the origin slot is the configured origin, or unset or the default when none was configured. */
  predicate Consistent(cfg: Config, given: Option<Vector>, s: Slots) {
    && Coherent(cfg, s)
    && (if given.Some? then s.origin == given else s.origin.None? || s.origin == Some(DefaultOrigin(cfg)))
  }

  /** `t` keeps every slot that `s` had filled, with the same value. */
  predicate Extends(s: Slots, t: Slots) {
    && (s.origin.Some? ==> t.origin == s.origin)
    && (s.bounds.Some? ==> t.bounds == s.bounds)
    && (s.staticBlocks.Some? ==> t.staticBlocks == s.staticBlocks)
  }

  // ---------------------------------------------------------------------------
  // The accessors.

  /** `origin()`: fill the origin slot from the region's bounds when it is unset, then return it. */
  function OriginStep(cfg: Config, s: Slots): (Vector, Slots) {
    var t := if s.origin.None? then s.(origin := Some(DefaultOrigin(cfg))) else s;
    (t.origin.value, t)
  }

  /** `bounds()`: fill the bounds slot from the region when it is unset, then return it. */
  function BoundsStep(cfg: Config, s: Slots): (Cuboid, Slots) {
    var t := if s.bounds.None? then s.(bounds := Some(RegionBounds(cfg))) else s;
    (t.bounds.value, t)
  }

  /**
   * `staticBlocks()`: when the slot is unset, call `bounds()` twice (once for
   * the corner, once for the size), build the block box and store it.
   */
  function StaticBlocksStep(cfg: Config, s: Slots): (BlockRegion, Slots) {
    if s.staticBlocks.Some? then (s.staticBlocks.value, s)
    else
      var (first, s1) := BoundsStep(cfg, s);
      var (second, s2) := BoundsStep(cfg, s1);
      var blocks := FromMinAndSize(MinimumBlockInside(first), BlockSize(second));
      (blocks, s2.(staticBlocks := Some(blocks)))
  }

  /** One accessor call: its answer and the slots afterwards. */
  function Step(cfg: Config, s: Slots, call: Call): (Answer, Slots) {
    match call
    case OriginCall => var (v, t) := OriginStep(cfg, s); (VectorAnswer(v), t)
    case RegionCall => (RegionAnswer(cfg.region), s)
    case IncludeAirCall => (FlagAnswer(cfg.includeAir), s)
    case ClearSourceCall => (FlagAnswer(cfg.clearSource), s)
    case BoundsCall => var (b, t) := BoundsStep(cfg, s); (CuboidAnswer(b), t)
    case StaticBlocksCall => var (b, t) := StaticBlocksStep(cfg, s); (BlocksAnswer(b), t)
  }

  /** A sequence of accessor calls on one definition: one answer per call, and the final slots. */
  function Run(cfg: Config, s: Slots, calls: seq<Call>): (r: (seq<Answer>, Slots))
    ensures |r.0| == |calls|
    decreases |calls|
  {
    if calls == [] then ([], s)
    else
      var (a, t) := Step(cfg, s, calls[0]);
      var (rest, u) := Run(cfg, t, calls[1..]);
      ([a] + rest, u)
  }

  // ---------------------------------------------------------------------------
  // One call.

  /**
   * From a consistent state each accessor answers what the configuration
   * determines (region, flags, given origin) and leaves a consistent state.
   */
  lemma StepMeaning(cfg: Config, given: Option<Vector>, s: Slots, call: Call)
    requires Consistent(cfg, given, s)
    ensures Step(cfg, s, call).0 == Expected(cfg, given, call)
    ensures Consistent(cfg, given, Step(cfg, s, call).1)
  {
  }

  /** Each accessor keeps what was cached and fills exactly the slots it owns. */
  lemma StepFills(cfg: Config, s: Slots, call: Call)
    requires Ordered(s)
    ensures Ordered(Step(cfg, s, call).1)
    ensures Extends(s, Step(cfg, s, call).1)
    ensures Step(cfg, s, call).1.origin.Some? <==> s.origin.Some? || call == OriginCall
    ensures Step(cfg, s, call).1.bounds.Some? <==> s.bounds.Some? || call == BoundsCall || call == StaticBlocksCall
    ensures Step(cfg, s, call).1.staticBlocks.Some? <==> s.staticBlocks.Some? || call == StaticBlocksCall
  {
  }

  // ---------------------------------------------------------------------------
  // Sequences of calls.

  /**
   * Whatever the history, every call in a run answers what the configuration
   * determines: the region, the two flags and the origin given at construction.
   */
  lemma {:induction false} RunAnswersExpected(cfg: Config, given: Option<Vector>, s: Slots, calls: seq<Call>)
    requires Consistent(cfg, given, s)
    ensures Consistent(cfg, given, Run(cfg, s, calls).1)
    ensures forall i :: 0 <= i < |calls| ==> Run(cfg, s, calls).0[i] == Expected(cfg, given, calls[i])
    decreases |calls|
  {
    if calls != [] {
      StepMeaning(cfg, given, s, calls[0]);
      var t := Step(cfg, s, calls[0]).1;
      RunAnswersExpected(cfg, given, t, calls[1..]);
      forall i | 0 < i < |calls|
        ensures Run(cfg, s, calls).0[i] == Expected(cfg, given, calls[i])
      {
        assert calls[i] == calls[1..][i - 1];
      }
    }
  }

  /** A run never changes or clears a slot that was already filled. */
  lemma {:induction false} RunExtends(cfg: Config, s: Slots, calls: seq<Call>)
    requires Ordered(s)
    ensures Extends(s, Run(cfg, s, calls).1)
    decreases |calls|
  {
    if calls != [] {
      StepFills(cfg, s, calls[0]);
      RunExtends(cfg, Step(cfg, s, calls[0]).1, calls[1..]);
    }
  }

  /**
   * After a run a slot is filled exactly when it was filled before or some
   * call in the run owns it: no accessor fills a slot of another one, except
   * that `staticBlocks()` fills the bounds.
   */
  lemma {:induction false} RunFills(cfg: Config, s: Slots, calls: seq<Call>)
    requires Ordered(s)
    ensures Run(cfg, s, calls).1.origin.Some? <==> s.origin.Some? || OriginCall in calls
    ensures Run(cfg, s, calls).1.bounds.Some? <==> s.bounds.Some? || BoundsCall in calls || StaticBlocksCall in calls
    ensures Run(cfg, s, calls).1.staticBlocks.Some? <==> s.staticBlocks.Some? || StaticBlocksCall in calls
    decreases |calls|
  {
    if calls != [] {
      assert calls == [calls[0]] + calls[1..];
      StepFills(cfg, s, calls[0]);
      RunFills(cfg, Step(cfg, s, calls[0]).1, calls[1..]);
    }
  }

  /** Caching is unobservable: a definition with any consistent cache answers like a fresh one. */
  lemma CachingUnobservable(cfg: Config, given: Option<Vector>, s: Slots, calls: seq<Call>)
    requires Consistent(cfg, given, s)
    ensures Run(cfg, s, calls).0 == Run(cfg, Initial(given), calls).0
  {
    RunAnswersExpected(cfg, given, s, calls);
    RunAnswersExpected(cfg, given, Initial(given), calls);
  }

  /** The first call of an accessor and every later call of it give equal answers. */
  lemma RepeatedCallsAgree(cfg: Config, given: Option<Vector>, calls: seq<Call>, i: nat, j: nat)
    requires i < |calls| && j < |calls| && calls[i] == calls[j]
    ensures Run(cfg, Initial(given), calls).0[i] == Run(cfg, Initial(given), calls).0[j]
  {
    RunAnswersExpected(cfg, given, Initial(given), calls);
  }

  /**
   * On a fresh definition `origin()` always answers the configured origin
   * when there was one, and the least corner of the region's bounds otherwise.
   */
  lemma OriginAnswers(cfg: Config, given: Option<Vector>, calls: seq<Call>, i: nat)
    requires i < |calls| && calls[i] == OriginCall
    ensures given.Some? ==> Run(cfg, Initial(given), calls).0[i] == VectorAnswer(given.value)
    ensures given.None? ==> Run(cfg, Initial(given), calls).0[i] == VectorAnswer(Minimum(GetBounds(cfg.region)))
  {
    RunAnswersExpected(cfg, given, Initial(given), calls);
  }
}
