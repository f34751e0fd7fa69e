/** Option values, used for "a scan that never updated its landmark". */
module Options {
  datatype Option<+T> = None | Some(value: T)
}

/** The point type of the mesh and the (vertex, index) pair kept per landmark. */
module Geometry {
  /** A mesh vertex: the three coordinates of the source's covariant vector. */
  datatype Vertex = Vertex(x: real, y: real, z: real)

  /** A landmark as the program stores it: the chosen vertex and its index in the mesh. */
  datatype Mark = Mark(vertex: Vertex, index: int)

  /** The value of a zero-initialised global vector. */
  const Origin := Vertex(0.0, 0.0, 0.0)

  /** The value of a zero-initialised landmark (vertex and index globals). */
  const Unset := Mark(Origin, 0)
}
