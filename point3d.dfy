/** `Point3D`: a mutable point with 32-bit integer coordinates. */
module Point3DUtil {

  import opened JavaInt
  import opened HostWorld
  import Sphere

  class Point3D {
    var x: int32
    var y: int32
    var z: int32

    constructor (x: int32, y: int32, z: int32)
      ensures this.x == x && this.y == y && this.z == z
    {
      this.x, this.y, this.z := x, y, z;
    }

    /** The no-argument constructor: the origin. */
    constructor Origin()
      ensures x == 0 && y == 0 && z == 0
    {
      x, y, z := 0, 0, 0;
    }

    /** The coordinates as a position value. */
    function Value(): Pos
      reads this
    {
      Pos(x, y, z)
    }

    /** `add`: a new point offset by (dx, dy, dz), with Java's `int` wrap-around;
        the receiver is left as it was. */
    method Add(dx: int32, dy: int32, dz: int32) returns (p: Point3D)
      ensures fresh(p) && unchanged(this)
      ensures p.x == Wrap32(dx + x) && p.y == Wrap32(dy + y) && p.z == Wrap32(dz + z)
      ensures InInt32(x + dx) && InInt32(y + dy) && InInt32(z + dz) ==> p.Value() == Value().Plus(dx, dy, dz)
    {
      p := new Point3D(Wrap32(dx + x), Wrap32(dy + y), Wrap32(dz + z));
    }

    /** `distanceSquared`: 0 for an absent point, otherwise the squared distance.
        The caller keeps the distance small enough for Java's `int` arithmetic. */
    function DistanceSquared(point: Point3D?): (d: int)
      reads this, point
      requires point != null ==> Sphere.SqDistance(Value(), point.Value()) <= MAX_INT
      ensures d >= 0
      ensures point == null ==> d == 0
      ensures point != null ==> d == Sphere.SqDistance(Value(), point.Value())
    {
      if point == null then 0
      else
        var xd, yd, zd := Sphere.Abs(point.x - x), Sphere.Abs(point.y - y), Sphere.Abs(point.z - z);
        Sphere.SquareAbs(point.x - x);
        Sphere.SquareAbs(point.y - y);
        Sphere.SquareAbs(point.z - z);
        xd * xd + yd * yd + zd * zd
    }

    /** `equals`: structural on the three coordinates. */
    function Equals(o: Point3D?): (r: bool)
      reads this, o
      ensures r <==> o != null && Value() == o.Value()
    {
      if this == o then true
      else if o == null then false
      else x == o.x && y == o.y && z == o.z
    }

    /** `hashCode`: 31 * (31 * x + y) + z, each step wrapping like Java's `int`. */
    function HashCode(): (h: int32)
      reads this
      ensures h == Wrap32(961 * x + 31 * y + z)
    {
      var result := x;
      var result := Wrap32(31 * result + y);
      assert (31 * result + z) - (961 * x + 31 * y + z) == 31 * (result - (31 * x + y));
      Wrap32Congruent(31 * result + z, 961 * x + 31 * y + z);
      Wrap32(31 * result + z)
    }

    method SetX(x: int32)
      modifies this
      ensures this.x == x && y == old(y) && z == old(z)
    {
      this.x := x;
    }

    method SetY(y: int32)
      modifies this
      ensures this.y == y && x == old(x) && z == old(z)
    {
      this.y := y;
    }

    method SetZ(z: int32)
      modifies this
      ensures this.z == z && x == old(x) && y == old(y)
    {
      this.z := z;
    }

    /** `set`: all three coordinates at once. */
    method Set(x: int32, y: int32, z: int32)
      modifies this
      ensures Value() == Pos(x, y, z)
    {
      SetX(x);
      SetY(y);
      SetZ(z);
    }
  }

  /** Equal points have equal hash codes. */
  lemma EqualsHashCode(p: Point3D, q: Point3D)
    requires p.Equals(q)
    ensures p.HashCode() == q.HashCode()
  {
  }

  /** The squared distance is symmetric and zero from a point to itself. */
  lemma {:induction false} DistanceSymmetric(a: Pos, b: Pos)
    ensures Sphere.SqDistance(a, b) == Sphere.SqDistance(b, a)
    ensures Sphere.SqDistance(a, a) == 0
  {
    Sphere.SquareAbs(a.x - b.x);
    Sphere.SquareAbs(a.y - b.y);
    Sphere.SquareAbs(a.z - b.z);
  }

  /** The distances the unit tests expect. */
  lemma DistanceExamples()
    ensures Sphere.SqDistance(Pos(1, 1, 1), Pos(2, 2, 2)) == 3
    ensures Sphere.SqDistance(Pos(10, 18, -50), Pos(45, 80, 1)) == 7670
  {
  }
}
