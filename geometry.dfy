/**
 * The geometry types and library calls that a structure definition consumes.
 * They belong to the server library and are not modelled: each type is an
 * abstract value type and each call an uninterpreted total function. The facts
 * proved about a definition therefore hold for any library whose calls are
 * deterministic and never fail: the same region always has the same bounds,
 * which presumes that a region given as a feature proxy is already resolved
 * when the first accessor runs.
 */
module Geometry {

  /** A position or offset in world space (double-valued in the library). */
  type Vector(==, 0)

  /** An arbitrary-shaped region of the world, compared by identity. */
  type Region(==, 0)

  /** An axis-aligned box with real-valued corners. */
  type Cuboid(==, 0)

  /** A region at block granularity, used to enumerate voxels. */
  type BlockRegion(==, 0)

  /** `Region.getBounds()`: the bounding box of a region. */
  const GetBounds: Region -> Cuboid

  /** `Cuboid.minimum()`: the least corner of a box. */
  const Minimum: Cuboid -> Vector

  /** `Cuboid.minimumBlockInside()`: the least block corner inside a box. */
  const MinimumBlockInside: Cuboid -> Vector

  /** `Cuboid.blockSize()`: the extent of a box in whole blocks. */
  const BlockSize: Cuboid -> Vector

  /** `CuboidBlockRegion.fromMinAndSize(min, size)`: the block box with that corner and extent. */
  const FromMinAndSize: (Vector, Vector) -> BlockRegion
}
