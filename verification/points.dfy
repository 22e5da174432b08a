/**
 * Point.java: an immutable integer position with four "quadrant" tests
 * used by the interpolator, and its identity-based `equals`.
 */
module Points {

  /** A position on the integer grid of the fingerprint map. Both coordinates
      are final in the source, so a value type captures them exactly; the
      getters getX/getY are the fields `x` and `y`. */
  datatype Point = Point(x: int, y: int) {

    /** quad1st: `p` lies to the upper right of this point, borders included. */
    predicate Quad1st(p: Point) { x <= p.x && y <= p.y }

    /** quad2nd: `p` lies to the upper left of this point, borders included. */
    predicate Quad2nd(p: Point) { x >= p.x && y <= p.y }

    /** quad3rd: `p` lies to the lower left of this point, borders included. */
    predicate Quad3rd(p: Point) { x >= p.x && y >= p.y }

    /** quad4th, as the source writes it: the very same test as quad2nd. */
    predicate Quad4th(p: Point) { x >= p.x && y <= p.y }

    /** `p` passes at least one of the four tests. */
    predicate InSomeQuadrant(p: Point)
    {
      Quad1st(p) || Quad2nd(p) || Quad3rd(p) || Quad4th(p)
    }
  }

  /** quad2nd and quad4th accept exactly the same points. */
  lemma Quad4thIsQuad2nd(c: Point, p: Point)
    ensures c.Quad4th(p) <==> c.Quad2nd(p)
  {
  }

  /** The region no test covers: strictly to the lower right of the centre. */
  lemma UncoveredRegion(c: Point, p: Point)
    ensures !c.InSomeQuadrant(p) <==> p.x > c.x && p.y < c.y
  {
  }

  /** A point passes all four tests with respect to itself. */
  lemma OwnQuadrants(c: Point)
    ensures c.Quad1st(c) && c.Quad2nd(c) && c.Quad3rd(c) && c.Quad4th(c)
  {
  }

  /** What `Point.equals(Object)` can observe about its argument: nothing
      (null), a Point object, or an object of another class. `id` stands
      for the identity of the Java object. */
  datatype Ref = Null | PointObject(id: nat, at: Point) | OtherObject(id: nat)

  /** Object.hashCode as Point inherits it: a function of identity only. */
  function IdentityHash(r: Ref): int
    requires !r.Null?
  {
    r.id
  }

  /** Point.equals: null and other classes are unequal; after that the
      check defers to Object.equals, which compares identities, and the
      final hash comparison can no longer fail. */
  function Equals(self: Ref, that: Ref): (r: bool)
    requires self.PointObject?
    ensures r <==> that.PointObject? && that.id == self.id
  {
    if that.Null? then false
    else if !that.PointObject? then false
    else if self.id != that.id then false
    else IdentityHash(self) == IdentityHash(that)
  }

  /** Two distinct Point objects at the same coordinates are not equal. */
  lemma EqualCoordinatesAreNotEnough(a: Ref, b: Ref)
    requires a.PointObject? && b.PointObject? && a.id != b.id && a.at == b.at
    ensures !Equals(a, b) && !Equals(b, a)
  {
  }
}
