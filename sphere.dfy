/** The shared geometry of every sphere: a strict squared-distance test. */
module Sphere {

  import opened HostWorld

  function Abs(v: int): (a: nat)
    ensures a == v || a == -v
  {
    if v < 0 then -v else v
  }

  function Square(v: int): int { v * v }

  /** `Sphere.inRadius`: is the test point (dx, dy, dz) strictly closer than
      `r` to the centre (sx, sy, sz)? The source takes absolute differences
      before squaring them; the absolute values make no difference. */
  predicate InRadius(sx: int, sy: int, sz: int, dx: int, dy: int, dz: int, r: int): (b: bool)
    ensures b <==> (sx - dx) * (sx - dx) + (sy - dy) * (sy - dy) + (sz - dz) * (sz - dz) < r * r
  {
    var a, b, c := Abs(sx - dx), Abs(sy - dy), Abs(sz - dz);
    a * a + b * b + c * c < r * r
  }

  /** The squared Euclidean distance between centre and test point. */
  function SqDistance(s: Pos, d: Pos): (n: int)
    ensures n >= 0
  {
    Square(s.x - d.x) + Square(s.y - d.y) + Square(s.z - d.z)
  }

  /** `InRadius` on positions. */
  predicate Within(center: Pos, p: Pos, r: int)
  {
    InRadius(center.x, center.y, center.z, p.x, p.y, p.z, r)
  }

  lemma SquareAbs(v: int)
    ensures Abs(v) * Abs(v) == Square(v) == Square(-v)
  {
  }

  /** The test is exactly "squared distance below r squared". */
  lemma {:induction false} WithinIsDistance(center: Pos, p: Pos, r: int)
    ensures Within(center, p, r) <==> SqDistance(center, p) < Square(r)
  {
    SquareAbs(center.x - p.x);
    SquareAbs(center.y - p.y);
    SquareAbs(center.z - p.z);
  }

  /** A point exactly `r` away along an axis is outside: the test is strict. */
  lemma BoundaryExcluded(center: Pos, r: int)
    ensures !Within(center, center.Plus(r, 0, 0), r)
    ensures !Within(center, center.Plus(-r, 0, 0), r)
    ensures !Within(center, center.Plus(0, r, 0), r)
    ensures !Within(center, center.Plus(0, -r, 0), r)
    ensures !Within(center, center.Plus(0, 0, r), r)
    ensures !Within(center, center.Plus(0, 0, -r), r)
  {
  }

  /** Octant symmetry: flipping the sign of any offset component keeps the answer. */
  lemma {:induction false} OctantSymmetry(center: Pos, a: int, b: int, c: int, r: int)
    ensures Within(center, center.Plus(a, b, c), r) == Within(center, center.Plus(-a, b, c), r)
    ensures Within(center, center.Plus(a, b, c), r) == Within(center, center.Plus(a, -b, c), r)
    ensures Within(center, center.Plus(a, b, c), r) == Within(center, center.Plus(a, b, -c), r)
  {
    assert Abs(-a) == Abs(a) && Abs(-b) == Abs(b) && Abs(-c) == Abs(c);
  }

  /** Centre and test point may be swapped. */
  lemma {:induction false} SwapSymmetric(s: Pos, d: Pos, r: int)
    ensures Within(s, d, r) == Within(d, s, r)
  {
    assert Abs(s.x - d.x) == Abs(d.x - s.x);
    assert Abs(s.y - d.y) == Abs(d.y - s.y);
    assert Abs(s.z - d.z) == Abs(d.z - s.z);
  }

  /** Only coordinate differences matter: the test is translation invariant. */
  lemma TranslationInvariant(s: Pos, d: Pos, tx: int, ty: int, tz: int, r: int)
    ensures Within(s.Plus(tx, ty, tz), d.Plus(tx, ty, tz), r) == Within(s, d, r)
  {
  }

  /** The centre itself is inside exactly when the radius is non-zero. */
  lemma {:induction false} CenterInside(center: Pos, r: int)
    ensures Within(center, center, r) <==> r != 0
  {
    if r != 0 {
      assert r * r > 0 by {
        if r < 0 {
          assert r * r == (-r) * (-r);
        }
      }
    }
  }

  /** The radius enters only through its square, so its sign is irrelevant. */
  lemma {:induction false} RadiusSignIrrelevant(s: Pos, d: Pos, r: int)
    ensures Within(s, d, r) == Within(s, d, -r)
  {
    assert r * r == (-r) * (-r);
  }

  /** The fill region (radius r-1) lies inside the whole sphere (radius r). */
  lemma {:induction false} FillInsideSphere(s: Pos, d: Pos, r: int)
    requires r >= 1
    requires Within(s, d, r - 1)
    ensures Within(s, d, r)
  {
    assert (r - 1) * (r - 1) <= r * r by {
      assert r * r == (r - 1) * (r - 1) + 2 * r - 1;
    }
  }

  lemma {:induction false} SquareMonotone(a: nat, b: nat)
    requires a <= b
    ensures a * a <= b * b
  {
    assert a * a <= a * b <= b * b by {
      assert a * b - a * a == a * (b - a);
      assert b * b - a * b == b * (b - a);
    }
  }

  /** Every point inside a sphere of radius r >= 0 has each offset component in
      (-r, r); in particular it lies in the cube [-r, r)^3 around the centre. */
  lemma {:induction false} WithinCube(s: Pos, d: Pos, r: int)
    requires r >= 0
    requires Within(s, d, r)
    ensures -r < d.x - s.x < r && -r < d.y - s.y < r && -r < d.z - s.z < r
  {
    var a, b, c := Abs(s.x - d.x), Abs(s.y - d.y), Abs(s.z - d.z);
    assert a * a >= 0 && b * b >= 0 && c * c >= 0;
    if a >= r {
      SquareMonotone(r, a);
    }
    if b >= r {
      SquareMonotone(r, b);
    }
    if c >= r {
      SquareMonotone(r, c);
    }
  }
}
