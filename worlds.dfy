/**
 * The world that a structure is captured from and pasted into. Its block
 * contents are an abstract state, and `copyBlocks` / `pasteBlocks` are
 * uninterpreted transitions of that state: the voxel semantics (skipping air,
 * clearing the source, translating by the offset) are not modelled.
 */
module Worlds {
  import opened Geometry

  /** An immutable snapshot of block states (`BlockImage`). */
  type BlockImage(==, 0)

  /** Everything the world stores about its blocks. */
  type WorldState(==, 0)

  /** The image `copyBlocks(region, includeAir, clearSource)` returns in a given state. */
  const Copied: (WorldState, BlockRegion, bool, bool) -> BlockImage

  /** The state `copyBlocks(region, includeAir, clearSource)` leaves behind (it may clear the source). */
  const AfterCopy: (WorldState, BlockRegion, bool, bool) -> WorldState

  /** The state `pasteBlocks(image, offset)` leaves behind. */
  const Pasted: (WorldState, BlockImage, Vector) -> WorldState

  /** `BlockImage.region()`: the blocks an image covers. */
  const ImageRegion: BlockImage -> BlockRegion

  class World {
    var blocks: WorldState

    constructor (blocks: WorldState)
      ensures this.blocks == blocks
    {
      this.blocks := blocks;
    }

    method CopyBlocks(region: BlockRegion, includeAir: bool, clearSource: bool) returns (image: BlockImage)
      modifies this
      ensures image == Copied(old(blocks), region, includeAir, clearSource)
      ensures blocks == AfterCopy(old(blocks), region, includeAir, clearSource)
    {
      image := Copied(blocks, region, includeAir, clearSource);
      blocks := AfterCopy(blocks, region, includeAir, clearSource);
    }

    method PasteBlocks(image: BlockImage, offset: Vector)
      modifies this
      ensures blocks == Pasted(old(blocks), image, offset)
    {
      blocks := Pasted(blocks, image, offset);
    }
  }
}
