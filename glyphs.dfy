/** The glyph entity as the bass pattern sees it, and the shapes it refers to. */
module Glyphs {
  import opened Wrappers
  import opened Geometry

  /**
   * The shapes the pattern distinguishes: the dot, the three bass (F) clefs,
   * and every other shape of the classifier, by name.
   */
  datatype Shape = Dot | FClef | FClefOttavaAlta | FClefOttavaBassa | Other(name: string)

  /** The bass-clef shape range. */
  const BassClefs: set<Shape> := {FClef, FClefOttavaAlta, FClefOttavaBassa}

  /** Membership of a possibly unassigned shape in a range: an unassigned shape is in none. */
  predicate InRange(shape: Option<Shape>, range: set<Shape>) {
    shape.Some? && shape.value in range
  }

  /** Identity of a staff within its system. */
  type StaffId = nat

  /**
   * A glyph: identifier, assigned shape (None until evaluated), pitch position
   * relative to its staff, centroid in pixels, and whether a human forced the shape.
   */
  datatype Glyph = Glyph(id: nat, shape: Option<Shape>, pitch: real, centroid: Point, manual: bool)
}
