/** The older `FilledSphere`: a shell of one material around a fill of another,
    rasterized by a full-cube loop straight into the world. */
module ContestFilledSphere {

  import opened Wrappers
  import opened HostWorld
  import opened Sphere

  datatype FilledSphere = FilledSphere(
    shell: Material,
    fill: Material,
    minRadius: int,
    maxRadius: int,
    percentChance: real,
    withDiamond: bool)

  /** What the constructor guarantees of every sphere it builds. */
  predicate Valid(s: FilledSphere)
  {
    1 <= s.minRadius <= s.maxRadius && 0.0 <= s.percentChance <= 1.0
  }

  /** The full constructor: fails fast on a missing shell or filler, a minimum
      radius below 1, a maximum below the minimum, or a chance outside [0, 1],
      checked in that order. */
  function New(shell: Option<Material>, filler: Option<Material>, minRadius: int, maxRadius: int,
               percentChance: real, withDiamond: bool): (r: Result<FilledSphere>)
    ensures r.Success? <==> shell.Some? && filler.Some? && minRadius >= 1 && maxRadius >= minRadius
                            && 0.0 <= percentChance <= 1.0
    ensures r.Success? ==> Valid(r.value)
    ensures r.Success? ==> r.value == FilledSphere(shell.value, filler.value, minRadius, maxRadius, percentChance, withDiamond)
    ensures shell.None? ==> r == Failure(IllegalArgument("A shell material must be supplied"))
    ensures shell.Some? && filler.None? ==> r == Failure(IllegalArgument("A filler material must be supplied"))
    ensures shell.Some? && filler.Some? && minRadius <= 0 ==>
              r == Failure(IllegalArgument("Minimum radius must be >=1"))
    ensures shell.Some? && filler.Some? && minRadius >= 1 && maxRadius < minRadius ==>
              r == Failure(IllegalArgument("Maximum radius must be larger than or equal to the minimum radius"))
    ensures shell.Some? && filler.Some? && 1 <= minRadius <= maxRadius && !(0.0 <= percentChance <= 1.0) ==>
              r == Failure(IllegalArgument("The percentage chance must be within 0 and 1 inclusive"))
  {
    if shell.None? then Failure(IllegalArgument("A shell material must be supplied"))
    else if filler.None? then Failure(IllegalArgument("A filler material must be supplied"))
    else if minRadius <= 0 then Failure(IllegalArgument("Minimum radius must be >=1"))
    else if maxRadius < minRadius then
      Failure(IllegalArgument("Maximum radius must be larger than or equal to the minimum radius"))
    else if percentChance < 0.0 || percentChance > 1.0 then
      Failure(IllegalArgument("The percentage chance must be within 0 and 1 inclusive"))
    else Success(FilledSphere(shell.value, filler.value, minRadius, maxRadius, percentChance, withDiamond))
  }

  /** Radius 3..7, explicit diamond flag. */
  function NewDefaultRadius(shell: Option<Material>, filler: Option<Material>, percentChance: real,
                            withDiamond: bool): (r: Result<FilledSphere>)
    ensures r.Success? <==> shell.Some? && filler.Some? && 0.0 <= percentChance <= 1.0
    ensures r.Success? ==> r.value.minRadius == 3 && r.value.maxRadius == 7 && r.value.withDiamond == withDiamond
    ensures r.Success? ==> r.value == FilledSphere(shell.value, filler.value, 3, 7, percentChance, withDiamond)
  {
    New(shell, filler, 3, 7, percentChance, withDiamond)
  }

  /** Radius 3..7, no diamond. */
  function NewDefault(shell: Option<Material>, filler: Option<Material>, percentChance: real): (r: Result<FilledSphere>)
    ensures r.Success? <==> shell.Some? && filler.Some? && 0.0 <= percentChance <= 1.0
    ensures r.Success? ==> r.value.minRadius == 3 && r.value.maxRadius == 7 && !r.value.withDiamond
    ensures r.Success? ==> r.value == FilledSphere(shell.value, filler.value, 3, 7, percentChance, false)
  {
    New(shell, filler, 3, 7, percentChance, false)
  }

  /** Explicit radius range, no diamond. */
  function NewWithoutDiamond(shell: Option<Material>, filler: Option<Material>, minRadius: int, maxRadius: int,
                             percentChance: real): (r: Result<FilledSphere>)
    ensures r.Success? <==> shell.Some? && filler.Some? && minRadius >= 1 && maxRadius >= minRadius
                            && 0.0 <= percentChance <= 1.0
    ensures r.Success? ==> !r.value.withDiamond && r.value.minRadius == minRadius && r.value.maxRadius == maxRadius
    ensures r.Success? ==> r.value == FilledSphere(shell.value, filler.value, minRadius, maxRadius, percentChance, false)
  {
    New(shell, filler, minRadius, maxRadius, percentChance, false)
  }

  /** `getPercentChance`: the chance the sphere was built with, which lies in [0, 1]
      for a valid sphere. */
  function GetPercentChance(s: FilledSphere): (c: real)
    ensures c == s.percentChance
    ensures Valid(s) ==> 0.0 <= c <= 1.0
  {
    s.percentChance
  }

  /** The radius for one generation: `minRadius` when the range is a single
      value, otherwise `minRadius + draw` for a draw of `nextInt(maxRadius - minRadius)`. */
  function PickRadius(s: FilledSphere, draw: int): (r: int)
    requires Valid(s)
    requires s.minRadius == s.maxRadius || 0 <= draw < s.maxRadius - s.minRadius
    ensures r >= 1
    ensures s.minRadius == s.maxRadius ==> r == s.minRadius
    ensures s.minRadius < s.maxRadius ==> s.minRadius <= r < s.maxRadius
  {
    if s.maxRadius == s.minRadius then s.maxRadius else draw + s.minRadius
  }

  /** The draw is half-open: every radius in [minRadius, maxRadius) is reachable,
      and maxRadius itself only when the range is a single value. */
  lemma RadiusRange(s: FilledSphere, radius: int)
    requires Valid(s) && s.minRadius < s.maxRadius
    requires s.minRadius <= radius < s.maxRadius
    ensures PickRadius(s, radius - s.minRadius) == radius
  {
  }

  /** The material of a sphere cell at `p` for a sphere of radius `r` around `center`:
      the diamond at the centre if asked for, fill strictly within r-1, shell otherwise. */
  function CellMaterial(s: FilledSphere, center: Pos, r: int, p: Pos): (m: Material)
    ensures m == DiamondBlock || m == s.fill || m == s.shell
    ensures r >= 1 && m != s.shell ==> Within(center, p, r)
  {
    if s.withDiamond && p == center then DiamondBlock
    else if Within(center, p, r - 1) then s.fill
    else s.shell
  }

  /** The cells the loop has visited in y, then z, then x order. */
  predicate Visited(center: Pos, p: Pos, y: int, z: int, x: int)
  {
    var dy, dz, dx := p.y - center.y, p.z - center.z, p.x - center.x;
    dy < y || (dy == y && dz < z) || (dy == y && dz == z && dx < x)
  }

  /** `generate`: draws a radius, then writes every cell of the cube
      [-radius, radius)^3 around the centre that lies strictly inside the
      sphere; it returns the size of the cube. */
  method Generate(s: FilledSphere, world: World, center: Pos, draw: int) returns (w: World, size: Pos)
    requires Valid(s)
    requires s.minRadius == s.maxRadius || 0 <= draw < s.maxRadius - s.minRadius
    ensures var r := PickRadius(s, draw);
      && size == Pos(2 * r, 2 * r, 2 * r)
      && forall p :: BlockAt(w, p) == if Within(center, p, r) then CellMaterial(s, center, r, p) else BlockAt(world, p)
  {
    var radius := if s.maxRadius == s.minRadius then s.maxRadius else draw + s.minRadius;
    var cx, cy, cz := center.x, center.y, center.z;
    CubeCovers(center, radius);
    w := world;
    var y := -radius;
    while y < radius
      invariant -radius <= y <= radius
      invariant forall p :: BlockAt(w, p) == if Within(center, p, radius) && Visited(center, p, y, -radius, -radius)
                                         then CellMaterial(s, center, radius, p) else BlockAt(world, p)
    {
      var z := -radius;
      while z < radius
        invariant -radius <= z <= radius
        invariant forall p :: BlockAt(w, p) == if Within(center, p, radius) && Visited(center, p, y, z, -radius)
                                           then CellMaterial(s, center, radius, p) else BlockAt(world, p)
      {
        var x := -radius;
        while x < radius
          invariant -radius <= x <= radius
          invariant forall p :: BlockAt(w, p) == if Within(center, p, radius) && Visited(center, p, y, z, x)
                                             then CellMaterial(s, center, radius, p) else BlockAt(world, p)
        {
          var px, py, pz := x + cx, y + cy, z + cz;
          if InRadius(cx, cy, cz, px, py, pz, radius) {
            var m := if InRadius(cx, cy, cz, px, py, pz, radius - 1) then s.fill else s.shell;
            if s.withDiamond && y == 0 && z == 0 && x == 0 {
              m := DiamondBlock;
            }
            w := SetType(w, Pos(px, py, pz), m);
          }
          x := x + 1;
        }
        z := z + 1;
      }
      y := y + 1;
    }
    size := Pos(radius * 2, radius * 2, radius * 2);
  }

  lemma CubeCovers(center: Pos, r: int)
    requires r >= 0
    ensures forall p :: Within(center, p, r) ==>
      -r < p.x - center.x < r && -r < p.y - center.y < r && -r < p.z - center.z < r
  {
    forall p | Within(center, p, r)
      ensures -r < p.x - center.x < r && -r < p.y - center.y < r && -r < p.z - center.z < r
    {
      WithinCube(center, p, r);
    }
  }

  /** Shell and fill: a written cell other than a diamond centre gets the fill
      exactly when its squared distance is below (r-1)^2, and the shell exactly
      when it is at least (r-1)^2 (and below r^2). */
  lemma {:induction false} ShellAndFill(s: FilledSphere, center: Pos, r: int, p: Pos)
    requires r >= 1 && Within(center, p, r)
    requires !(s.withDiamond && p == center)
    requires s.fill != s.shell
    ensures CellMaterial(s, center, r, p) == s.fill <==> SqDistance(center, p) < Square(r - 1)
    ensures CellMaterial(s, center, r, p) == s.shell <==> Square(r - 1) <= SqDistance(center, p) < Square(r)
  {
    WithinIsDistance(center, p, r);
    WithinIsDistance(center, p, r - 1);
  }

  /** With the diamond flag the centre cell is a diamond block, whatever its layer. */
  lemma DiamondAtCenter(s: FilledSphere, center: Pos, r: int)
    requires s.withDiamond && r >= 1
    ensures Within(center, center, r) && CellMaterial(s, center, r, center) == DiamondBlock
  {
    CenterInside(center, r);
  }

  /** The written sphere is octant-symmetric: mirroring an offset along any axis
      gives a written cell with the same material. */
  lemma {:induction false} GeneratedSymmetric(s: FilledSphere, center: Pos, r: int, a: int, b: int, c: int)
    ensures Within(center, center.Plus(a, b, c), r) == Within(center, center.Plus(-a, b, c), r)
    ensures Within(center, center.Plus(a, b, c), r) == Within(center, center.Plus(a, -b, c), r)
    ensures Within(center, center.Plus(a, b, c), r) == Within(center, center.Plus(a, b, -c), r)
    ensures CellMaterial(s, center, r, center.Plus(a, b, c)) == CellMaterial(s, center, r, center.Plus(-a, b, c))
    ensures CellMaterial(s, center, r, center.Plus(a, b, c)) == CellMaterial(s, center, r, center.Plus(a, -b, c))
    ensures CellMaterial(s, center, r, center.Plus(a, b, c)) == CellMaterial(s, center, r, center.Plus(a, b, -c))
  {
    OctantSymmetry(center, a, b, c, r);
    OctantSymmetry(center, a, b, c, r - 1);
  }
}
