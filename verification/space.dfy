/** Points in space, shared by the GeoJSON front end, the flat-array ring
    triangulator and the 3D triangulation. */
module Space {

  /** A point in space (`vec3`): three exact coordinates. */
  datatype Vec3 = Vec3(x: real, y: real, z: real)
}
