/** The up-axis conversion applied to every marker position (markers.py, import_trc). */
module Axes {

  datatype Vec3 = Vec3(x: real, y: real, z: real)

  /** The direction that selects the Z-up conversion; any other string selects Y-up. */
  const ZUp: string := "zup"

  /** The scene location of a raw TRC triple (a, b, c): (a, -c, b) for "zup",
      (a, c, b) for every other direction.  The raw triple is recovered by Unmap. */
  function Remap(direction: string, raw: Vec3): (loc: Vec3)
    ensures Unmap(direction, loc) == raw
  {
    if direction == ZUp then Vec3(raw.x, -raw.z, raw.y)
    else Vec3(raw.x, raw.z, raw.y)
  }

  /** The inverse conversion: (x, y, z) back to (x, z, -y) for "zup", to (x, z, y) otherwise. */
  function Unmap(direction: string, loc: Vec3): Vec3
  {
    if direction == ZUp then Vec3(loc.x, loc.z, -loc.y)
    else Vec3(loc.x, loc.z, loc.y)
  }

  /** Unmap is also a right inverse, so Remap is a bijection for either direction. */
  lemma RemapUnmap(direction: string, loc: Vec3)
    ensures Remap(direction, Unmap(direction, loc)) == loc
  {
  }

  /** The Y-up conversion swaps y and z, so it undoes itself. */
  lemma YUpSelfInverse(direction: string, raw: Vec3)
    requires direction != ZUp
    ensures Remap(direction, Remap(direction, raw)) == raw
  {
  }
}
