/**
 * WorldGenerator::generateChunk (worldgenerator.cpp) over the VoxelChunk of worldgenerator.h:
 * a dense 256 x 256 x 2048 grid filled with 0/1 in three height bands.
 */
module WorldGenerator {

  /** Voxel: int32_t. */
  newtype Voxel = v: int | -0x8000_0000 <= v < 0x8000_0000

  const ChunkWidthMeters := 32
  const ChunkHeightMeters := 256
  const VoxelsPerMeter := 8
  const ChunkWidthVoxels := ChunkWidthMeters * VoxelsPerMeter
  const ChunkHeightVoxels := ChunkHeightMeters * VoxelsPerMeter

  /** Perlin::perlin (perlin.h:10), not modelled: an opaque deterministic noise function. */
  type Noise = (real, real, real) -> real

  /** scale_factor and scale_factor_surface. */
  const ScaleFactor: real := 32.0
  const ScaleFactorSurface: real := 32.0

  /** Lowest z of the noise-shaped surface band (60 m) and of the solid band below it (53 m). */
  const SurfaceBase := 60 * VoxelsPerMeter
  const SolidBase := 53 * VoxelsPerMeter

  /** The surface height of column (x, y); the noise is sampled at the fixed depth 480 / 32. */
  function SurfaceHeight(perlin: Noise, x: int, y: int): real
  {
    perlin(x as real / ScaleFactorSurface, y as real / ScaleFactorSurface, SurfaceBase as real / ScaleFactorSurface) * 4.0
      + SurfaceBase as real
  }

  /** A C++ bool stored into a Voxel. */
  function FromBool(b: bool): Voxel
  {
    if b then 1 else 0
  }

  /** The value the loop body stores at (x, y, z) (worldgenerator.cpp:12-19). */
  function CellValue(perlin: Noise, x: int, y: int, z: int): Voxel
  {
    if z >= SurfaceBase then FromBool(z as real <= SurfaceHeight(perlin, x, y))
    else if z >= SolidBase then 1
    else FromBool(perlin(x as real / ScaleFactor, y as real / ScaleFactor, z as real / ScaleFactor) < 0.5)
  }

  /** VoxelChunk: `voxels[x][y][z]`. */
  class VoxelChunk {
    const voxels: array3<Voxel>

    constructor ()
      ensures fresh(voxels)
      ensures voxels.Length0 == ChunkWidthVoxels && voxels.Length1 == ChunkWidthVoxels
      ensures voxels.Length2 == ChunkHeightVoxels
    {
      voxels := new Voxel[ChunkWidthVoxels, ChunkWidthVoxels, ChunkHeightVoxels];
    }
  }

  /** WorldGenerator::generateChunk (worldgenerator.cpp:3-25): every cell of a new chunk is written from CellValue. */
  method GenerateChunk(perlin: Noise) returns (result: VoxelChunk)
    ensures fresh(result) && fresh(result.voxels)
    ensures result.voxels.Length0 == ChunkWidthVoxels && result.voxels.Length1 == ChunkWidthVoxels
    ensures result.voxels.Length2 == ChunkHeightVoxels
    ensures forall x, y, z :: 0 <= x < ChunkWidthVoxels && 0 <= y < ChunkWidthVoxels && 0 <= z < ChunkHeightVoxels ==>
              result.voxels[x, y, z] == CellValue(perlin, x, y, z)
  {
    result := new VoxelChunk();
    var v := result.voxels;
    for x := 0 to ChunkWidthMeters * VoxelsPerMeter
      invariant forall i, j, k :: 0 <= i < x && 0 <= j < ChunkWidthVoxels && 0 <= k < ChunkHeightVoxels ==>
                  v[i, j, k] == CellValue(perlin, i, j, k)
    {
      for y := 0 to ChunkWidthMeters * VoxelsPerMeter
        invariant forall i, j, k :: 0 <= i < x && 0 <= j < ChunkWidthVoxels && 0 <= k < ChunkHeightVoxels ==>
                    v[i, j, k] == CellValue(perlin, i, j, k)
        invariant forall j, k :: 0 <= j < y && 0 <= k < ChunkHeightVoxels ==> v[x, j, k] == CellValue(perlin, x, j, k)
      {
        for z := 0 to ChunkHeightMeters * VoxelsPerMeter
          invariant forall i, j, k :: 0 <= i < x && 0 <= j < ChunkWidthVoxels && 0 <= k < ChunkHeightVoxels ==>
                      v[i, j, k] == CellValue(perlin, i, j, k)
          invariant forall j, k :: 0 <= j < y && 0 <= k < ChunkHeightVoxels ==> v[x, j, k] == CellValue(perlin, x, j, k)
          invariant forall k :: 0 <= k < z ==> v[x, y, k] == CellValue(perlin, x, y, k)
        {
          if z >= SurfaceBase {
            var height := perlin(x as real / ScaleFactorSurface, y as real / ScaleFactorSurface, SurfaceBase as real / ScaleFactorSurface) * 4.0
                            + SurfaceBase as real;
            v[x, y, z] := FromBool(z as real <= height);
          } else if z >= SolidBase {
            v[x, y, z] := 1;
          } else {
            v[x, y, z] := FromBool(perlin(x as real / ScaleFactor, y as real / ScaleFactor, z as real / ScaleFactor) < 0.5);
          }
        }
      }
    }
  }

  /**
   * The three bands: every value is 0 or 1 (never the negative encoding described in
   * worldgenerator.h:6-10); [424, 480) is solid; below 424 a cell is filled iff the noise is
   * under 1/2; from 480 up iff z is at most the column's surface height.
   */
  lemma CellBands(perlin: Noise, x: int, y: int, z: int)
    ensures CellValue(perlin, x, y, z) == 0 || CellValue(perlin, x, y, z) == 1
    ensures SolidBase <= z < SurfaceBase ==> CellValue(perlin, x, y, z) == 1
    ensures z < SolidBase ==>
              (CellValue(perlin, x, y, z) == 1 <==> perlin(x as real / 32.0, y as real / 32.0, z as real / 32.0) < 0.5)
    ensures z >= SurfaceBase ==>
              (CellValue(perlin, x, y, z) == 1 <==> z as real <= perlin(x as real / 32.0, y as real / 32.0, 15.0) * 4.0 + 480.0)
  {
  }

  /**
   * Above the noise-carved underground, a column is one contiguous filled run starting at 424:
   * a filled cell at z2 implies every cell from 424 to z2 is filled.
   */
  lemma ColumnContiguous(perlin: Noise, x: int, y: int, z1: int, z2: int)
    requires SolidBase <= z1 <= z2
    requires CellValue(perlin, x, y, z2) == 1
    ensures CellValue(perlin, x, y, z1) == 1
  {
  }

  /** The top of a column above 480: cells from 480 are filled exactly up to the surface height, which does not depend on z. */
  lemma ColumnTop(perlin: Noise, x: int, y: int, z: int, top: int)
    requires SurfaceBase <= top < ChunkHeightVoxels
    requires top as real <= SurfaceHeight(perlin, x, y) < (top + 1) as real
    ensures SurfaceBase <= z <= top ==> CellValue(perlin, x, y, z) == 1
    ensures z > top ==> CellValue(perlin, x, y, z) == 0
  {
  }
}
