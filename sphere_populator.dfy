/** `SpherePopulator`: the base of the populators that decorate spheres. It finds a
    sphere in a chunk by scanning the chunk's middle column, measures its radius by
    probing along the six axis directions, runs a subclass hook once per sphere, and
    can cap a sphere with a flat layer of a material. */
module SpherePopulator {

  import opened Wrappers
  import opened HostWorld

  /** A populator's configuration: the chance that it runs on a found sphere. */
  datatype SpherePopulator = SpherePopulator(chance: real)

  /** The constructor: a chance outside [0, 1] is rejected. */
  function New(chance: real): (r: Result<SpherePopulator>)
    ensures r.Success? <==> 0.0 <= chance <= 1.0
    ensures r.Success? ==> r.value.chance == chance
    ensures r.Failure? ==> r.error == IllegalArgument("")
  {
    if chance < 0.0 || chance > 1.0 then Failure(IllegalArgument(""))
    else Success(SpherePopulator(chance))
  }

  /** Every block has the material. */
  predicate AllAre(m: Material, blocks: seq<Material>)
    ensures AllAre(m, blocks) <==> forall i :: 0 <= i < |blocks| ==> blocks[i] == m
  {
    blocks == [] || (blocks[0] == m && AllAre(m, blocks[1..]))
  }

  /** No block has the material. */
  predicate NoneAre(m: Material, blocks: seq<Material>)
    ensures NoneAre(m, blocks) <==> forall i :: 0 <= i < |blocks| ==> blocks[i] != m
  {
    blocks == [] || (blocks[0] != m && NoneAre(m, blocks[1..]))
  }

  /** `allNot`: a scan that stops at the first block with the material. */
  method AllNot(material: Material, blocks: seq<Material>) returns (r: bool)
    ensures r <==> forall i :: 0 <= i < |blocks| ==> blocks[i] != material
  {
    var k := 0;
    while k < |blocks|
      invariant 0 <= k <= |blocks|
      invariant forall i :: 0 <= i < k ==> blocks[i] != material
    {
      if blocks[k] == material {
        return false;
      }
      k := k + 1;
    }
    return true;
  }

  /** `all`: a scan that stops at the first block without the material. */
  method All(material: Material, blocks: seq<Material>) returns (r: bool)
    ensures r <==> forall i :: 0 <= i < |blocks| ==> blocks[i] == material
  {
    var k := 0;
    while k < |blocks|
      invariant 0 <= k <= |blocks|
      invariant forall i :: 0 <= i < k ==> blocks[i] == material
    {
      if blocks[k] != material {
        return false;
      }
      k := k + 1;
    }
    return true;
  }

  /** The block `i` away from `c` in the j-th axis direction, in the source's probe
      order +x, -x, +y, -y, +z, -z. */
  function ProbeAt(w: World, c: Pos, i: int, j: int): Material
  {
    BlockAt(w, if j == 0 then c.Plus(i, 0, 0)
               else if j == 1 then c.Plus(-i, 0, 0)
               else if j == 2 then c.Plus(0, i, 0)
               else if j == 3 then c.Plus(0, -i, 0)
               else if j == 4 then c.Plus(0, 0, i)
               else c.Plus(0, 0, -i))
  }

  /** The six blocks `i` away from `c` along +x, -x, +y, -y, +z, -z. */
  function Probes(w: World, c: Pos, i: int): (probes: seq<Material>)
    ensures |probes| == 6
    ensures forall j :: 0 <= j < 6 ==> probes[j] == ProbeAt(w, c, i, j)
  {
    seq(6, j => ProbeAt(w, c, i, j))
  }

  /** The radius the probing loop reports when it starts at distance `i`: at the first
      distance below 8 where some probe is air, one less than that distance if every
      probe there is air and 0 otherwise; 0 when no probe below 8 is air. */
  function RadiusFrom(w: World, c: Pos, i: nat): (r: int)
    ensures r != 0 ==> i <= r + 1 < 8
    decreases 8 - i
  {
    if i >= 8 then 0
    else if !NoneAre(Air, Probes(w, c, i)) then (if AllAre(Air, Probes(w, c, i)) then i - 1 else 0)
    else RadiusFrom(w, c, i + 1)
  }

  /** `getSphereRadius`. */
  method GetSphereRadius(w: World, location: Option<Pos>) returns (r: int)
    ensures location.None? ==> r == 0
    ensures location.Some? ==> r == RadiusFrom(w, location.value, 0)
  {
    if location.None? {
      return 0;
    }
    var c := location.value;
    var i := 0;
    while i < 8
      invariant 0 <= i <= 8
      invariant RadiusFrom(w, c, 0) == RadiusFrom(w, c, i)
    {
      var blocks := Probes(w, c, i);
      var noAir := AllNot(Air, blocks);
      if !noAir {
        var allAir := All(Air, blocks);
        if allAir {
          return i - 1;
        } else {
          return 0;
        }
      }
      i := i + 1;
    }
    return 0;
  }

  lemma {:induction false} RadiusFromRange(w: World, c: Pos, i: nat)
    ensures var r := RadiusFrom(w, c, i); r == 0 || i - 1 <= r <= 6
    decreases 8 - i
  {
    if i < 8 && NoneAre(Air, Probes(w, c, i)) {
      RadiusFromRange(w, c, i + 1);
    }
  }

  /** The reported radius lies in [-1, 6]. */
  lemma RadiusRange(w: World, c: Pos)
    ensures -1 <= RadiusFrom(w, c, 0) <= 6
  {
    RadiusFromRange(w, c, 0);
  }

  /** The radius is -1 exactly when the centre itself is air (all six probes at
      distance 0 are the centre). */
  lemma RadiusNegativeIffAirCenter(w: World, c: Pos)
    ensures RadiusFrom(w, c, 0) == -1 <==> BlockAt(w, c) == Air
  {
    var b := BlockAt(w, c);
    assert forall j :: 0 <= j < 6 ==> ProbeAt(w, c, 0, j) == b;
    if b != Air {
      assert NoneAre(Air, Probes(w, c, 0));
      RadiusFromRange(w, c, 1);
    } else {
      assert Probes(w, c, 0)[0] == Air;
    }
  }

  /** No probe at any distance in [i, k] is air. */
  predicate SolidUpTo(w: World, c: Pos, i: int, k: int)
  {
    forall j :: i <= j <= k ==> NoneAre(Air, Probes(w, c, j))
  }

  lemma {:induction false} RadiusFromIs(w: World, c: Pos, i: nat, k: int)
    requires 1 <= k <= 6 && i <= k + 1
    ensures RadiusFrom(w, c, i) == k <==> SolidUpTo(w, c, i, k) && AllAre(Air, Probes(w, c, k + 1))
    decreases k + 1 - i
  {
    var probes := Probes(w, c, i);
    if i == k + 1 {
      if AllAre(Air, probes) {
        assert probes[0] == Air;
      } else if NoneAre(Air, probes) {
        RadiusFromRange(w, c, i + 1);
      }
    } else {
      RadiusFromIs(w, c, i + 1, k);
      assert SolidUpTo(w, c, i, k) <==> NoneAre(Air, probes) && SolidUpTo(w, c, i + 1, k);
    }
  }

  /** A positive radius k means: no probe at distance 0..k is air, and every probe at
      distance k + 1 is air; and conversely. */
  lemma RadiusPositive(w: World, c: Pos, k: int)
    requires 1 <= k <= 6
    ensures RadiusFrom(w, c, 0) == k <==> SolidUpTo(w, c, 0, k) && AllAre(Air, Probes(w, c, k + 1))
  {
    RadiusFromIs(w, c, 0, k);
  }

  /** The x of the column a chunk is scanned along (block 8 of the chunk). */
  function ColumnX(chunkX: int): int
  {
    chunkX * 16 + 8
  }

  /** The z of the column a chunk is scanned along. */
  function ColumnZ(chunkZ: int): int
  {
    chunkZ * 16 + 8
  }

  /** A candidate centre is taken when the run below it is at least three blocks and
      its radius is positive. */
  predicate Accepted(w: World, candidate: Pos, streak: nat)
  {
    streak >= 3 && RadiusFrom(w, candidate, 0) > 0
  }

  /** The result of the upward scan of column (x, z) from height `y` with `streak`
      solid blocks just below `y`: at the first air block after a run of at least
      three, the middle of that run is the centre if its radius is positive; any air
      block ends the run. */
  function ScanCenter(w: World, x: int, z: int, y: int, streak: nat, maxHeight: int): (r: Option<Pos>)
    ensures r.Some? ==> r.value.x == x && r.value.z == z && r.value.y < maxHeight - 1
    decreases maxHeight - y
  {
    if y >= maxHeight then None
    else if BlockAt(w, Pos(x, y, z)) == Air then
      var candidate := Pos(x, y - (streak / 2 + 1), z);
      if Accepted(w, candidate, streak) then Some(candidate)
      else ScanCenter(w, x, z, y + 1, 0, maxHeight)
    else ScanCenter(w, x, z, y + 1, streak + 1, maxHeight)
  }

  /** `getSphereCenter`: scans the chunk's column (8, y, 8) from the bottom of the
      world up to `maxHeight`. */
  method GetSphereCenter(w: World, chunkX: int, chunkZ: int, maxHeight: int) returns (center: Option<Pos>)
    ensures center == ScanCenter(w, ColumnX(chunkX), ColumnZ(chunkZ), 0, 0, maxHeight)
  {
    var cx, cz := ColumnX(chunkX), ColumnZ(chunkZ);
    var streak := 0;
    var y := 0;
    while y < maxHeight
      invariant 0 <= y
      invariant ScanCenter(w, cx, cz, 0, 0, maxHeight) == ScanCenter(w, cx, cz, y, streak, maxHeight)
      decreases maxHeight - y
    {
      var block := BlockAt(w, Pos(cx, y, cz));
      if block == Air {
        if streak >= 3 {
          var candidate := Pos(cx, y - (streak / 2 + 1), cz);
          var radius := GetSphereRadius(w, Some(candidate));
          if radius > 0 {
            return Some(candidate);
          }
        }
        streak := 0;
      } else {
        streak := streak + 1;
      }
      y := y + 1;
    }
    return None;
  }

  /** Column (x, z) holds an air block at height `top` with `run` solid blocks right
      below it, the lowest of them at height 0 or above. */
  predicate SolidRunBelow(w: World, x: int, z: int, run: int, top: int)
  {
    && 0 <= top - run
    && BlockAt(w, Pos(x, top, z)) == Air
    && forall k :: top - run <= k < top ==> BlockAt(w, Pos(x, k, z)) != Air
  }

  /** The scan from height `y` finds, if anything, a centre of positive radius in the
      middle of a solid run of at least three blocks; `run` and `top` describe that run. */
  lemma {:induction false} ScanCenterFrom(w: World, x: int, z: int, y: int, streak: nat, maxHeight: int)
    returns (run: int, top: int)
    requires streak <= y
    requires forall k :: y - streak <= k < y ==> BlockAt(w, Pos(x, k, z)) != Air
    ensures var r := ScanCenter(w, x, z, y, streak, maxHeight);
      r.Some? ==>
        && r.value.x == x && r.value.z == z
        && 3 <= run && Accepted(w, r.value, run) && top < maxHeight && SolidRunBelow(w, x, z, run, top)
        && r.value.y == top - (run / 2 + 1)
    decreases maxHeight - y
  {
    run, top := 0, 0;
    if y < maxHeight {
      if BlockAt(w, Pos(x, y, z)) == Air {
        var candidate := Pos(x, y - (streak / 2 + 1), z);
        if Accepted(w, candidate, streak) {
          run, top := streak, y;
          assert SolidRunBelow(w, x, z, streak, y);
          assert ScanCenter(w, x, z, y, streak, maxHeight) == Some(candidate);
        } else {
          run, top := ScanCenterFrom(w, x, z, y + 1, 0, maxHeight);
          assert ScanCenter(w, x, z, y, streak, maxHeight) == ScanCenter(w, x, z, y + 1, 0, maxHeight);
        }
      } else {
        forall k | y + 1 - (streak + 1) <= k < y + 1
          ensures BlockAt(w, Pos(x, k, z)) != Air
        {
        }
        run, top := ScanCenterFrom(w, x, z, y + 1, streak + 1, maxHeight);
        assert ScanCenter(w, x, z, y, streak, maxHeight) == ScanCenter(w, x, z, y + 1, streak + 1, maxHeight);
      }
    }
  }

  /** A found centre lies in the scanned column, has a positive radius, and sits in the
      middle of a run of at least three solid blocks capped by air: it and the blocks
      just above and below it are solid. */
  lemma CenterInsideSolidRun(w: World, chunkX: int, chunkZ: int, maxHeight: int)
    ensures var r := ScanCenter(w, ColumnX(chunkX), ColumnZ(chunkZ), 0, 0, maxHeight);
      r.Some? ==>
        && r.value.x == ColumnX(chunkX) && r.value.z == ColumnZ(chunkZ)
        && RadiusFrom(w, r.value, 0) > 0
        && 1 <= r.value.y < maxHeight - 2
        && BlockAt(w, r.value.Plus(0, -1, 0)) != Air
        && BlockAt(w, r.value) != Air
        && BlockAt(w, r.value.Plus(0, 1, 0)) != Air
  {
    var x, z := ColumnX(chunkX), ColumnZ(chunkZ);
    var run, top := ScanCenterFrom(w, x, z, 0, 0, maxHeight);
    var r := ScanCenter(w, x, z, 0, 0, maxHeight);
    if r.Some? {
      var c := r.value;
      assert c.Plus(0, -1, 0) == Pos(x, c.y - 1, z);
      assert c == Pos(x, c.y, z);
      assert c.Plus(0, 1, 0) == Pos(x, c.y + 1, z);
    }
  }

  /** `populate`: the hook (the subclass's `populate`) runs on the found centre and its
      radius only when a centre is found, the draw is below the chance and the centre
      is not yet marked; the centre is marked only when the hook reports success.
      Marks are the populated-sphere metadata; they only grow, and only by the centre
      found, so a centre already marked is never handed to the hook again. */
  method Populate(p: SpherePopulator, w: World, chunkX: int, chunkZ: int, maxHeight: int, draw: real,
                  marked: set<Pos>, hook: (World, Pos, int) -> (bool, World))
    returns (w': World, marked': set<Pos>, ran: bool)
    ensures var c := ScanCenter(w, ColumnX(chunkX), ColumnZ(chunkZ), 0, 0, maxHeight);
      && (ran <==> c.Some? && draw < p.chance && c.value !in marked)
      && (ran ==> var out := hook(w, c.value, RadiusFrom(w, c.value, 0));
                  w' == out.1 && marked' == if out.0 then marked + {c.value} else marked)
      && (!ran ==> w' == w && marked' == marked)
    ensures marked <= marked'
    ensures forall q :: q in marked' - marked ==>
      ran && Some(q) == ScanCenter(w, ColumnX(chunkX), ColumnZ(chunkZ), 0, 0, maxHeight)
  {
    w', marked', ran := w, marked, false;
    var center := GetSphereCenter(w, chunkX, chunkZ, maxHeight);
    if center.Some? && draw < p.chance {
      if center.value !in marked {
        var radius := GetSphereRadius(w, center);
        var out := hook(w, center.value, radius);
        ran := true;
        w' := out.1;
        if out.0 {
          marked' := marked + {center.value};
        }
      }
    }
  }

  /** Column (x, z) of the 16x16 cap mask, offset by -8 from the centre, is part of the
      sphere's slice through the centre layer. */
  predicate Masked(w: World, c: Pos, x: int, z: int)
  {
    0 <= x < 16 && 0 <= z < 16 && BlockAt(w, c.Plus(x - 8, 0, z - 8)) != Air
  }

  /** Layer `y` above the centre is clear: every masked column is air there. */
  ghost predicate LayerClear(w: World, c: Pos, y: int)
  {
    forall x, z :: Masked(w, c, x, z) ==> BlockAt(w, c.Plus(x - 8, y, z - 8)) == Air
  }

  /** A masked cell in layers 1..last above the centre that was air becomes the cap.
      The cap only fills air, only in masked columns and only above the centre. */
  function Capped(w: World, c: Pos, cap: Material, last: int, p: Pos): (m: Material)
    ensures m != BlockAt(w, p) ==>
      && BlockAt(w, p) == Air && m == cap
      && 1 <= p.y - c.y <= last && -8 <= p.x - c.x < 8 && -8 <= p.z - c.z < 8
      && BlockAt(w, Pos(p.x, c.y, p.z)) != Air
  {
    if 1 <= p.y - c.y <= last && Masked(w, c, p.x - c.x + 8, p.z - c.z + 8) && BlockAt(w, p) == Air
    then cap else BlockAt(w, p)
  }

  /** Columns a pass over one layer (z outer, x inner) has reached before (x, z). */
  predicate Before(a: int, b: int, x: int, z: int)
  {
    b < z || (b == z && a < x)
  }

  /** A cell while layer `y` is being capped, the pass standing at column (x, z). */
  function PassCell(w: World, c: Pos, cap: Material, y: int, x: int, z: int, p: Pos): Material
  {
    if p.y - c.y == y && Before(p.x - c.x + 8, p.z - c.z + 8, x, z)
    then Capped(w, c, cap, y, p) else Capped(w, c, cap, y - 1, p)
  }

  ghost predicate PassSoFar(cur: World, w: World, c: Pos, cap: Material, y: int, x: int, z: int)
  {
    forall p :: BlockAt(cur, p) == PassCell(w, c, cap, y, x, z, p)
  }

  /** Every masked column the pass has reached was air in layer `y`. */
  ghost predicate AirSoFar(w: World, c: Pos, y: int, x: int, z: int)
  {
    forall a, b :: Masked(w, c, a, b) && Before(a, b, x, z) ==> BlockAt(w, c.Plus(a - 8, y, b - 8)) == Air
  }

  /** One column of a capping pass: a masked air cell takes the cap. */
  function CapColumn(cur: World, w: World, c: Pos, cap: Material, y: int, x: int, z: int): World
  {
    var pos := c.Plus(x - 8, y, z - 8);
    if Masked(w, c, x, z) && BlockAt(cur, pos) == Air then SetType(cur, pos, cap) else cur
  }

  lemma PassStart(cur: World, w: World, c: Pos, cap: Material, y: int)
    requires forall p :: BlockAt(cur, p) == Capped(w, c, cap, y - 1, p)
    ensures PassSoFar(cur, w, c, cap, y, 0, 0) && AirSoFar(w, c, y, 0, 0)
  {
  }

  lemma PassStep(cur: World, w: World, c: Pos, cap: Material, y: int, x: int, z: int)
    requires 0 <= x < 16 && 0 <= z < 16 && 1 <= y
    requires PassSoFar(cur, w, c, cap, y, x, z)
    ensures PassSoFar(CapColumn(cur, w, c, cap, y, x, z), w, c, cap, y, x + 1, z)
    ensures BlockAt(cur, c.Plus(x - 8, y, z - 8)) == BlockAt(w, c.Plus(x - 8, y, z - 8))
    ensures AirSoFar(w, c, y, x, z) && (Masked(w, c, x, z) ==> BlockAt(w, c.Plus(x - 8, y, z - 8)) == Air)
      ==> AirSoFar(w, c, y, x + 1, z)
    ensures Masked(w, c, x, z) && BlockAt(w, c.Plus(x - 8, y, z - 8)) != Air ==> !LayerClear(w, c, y)
  {
    var l := c.Plus(x - 8, y, z - 8);
    assert BlockAt(cur, l) == PassCell(w, c, cap, y, x, z, l);
    var cur' := CapColumn(cur, w, c, cap, y, x, z);
    forall p ensures BlockAt(cur', p) == PassCell(w, c, cap, y, x + 1, z, p) {
      if p != l {
        assert BlockAt(cur', p) == BlockAt(cur, p);
        assert BlockAt(cur, p) == PassCell(w, c, cap, y, x, z, p);
      }
    }
  }

  lemma PassRowEnd(cur: World, w: World, c: Pos, cap: Material, y: int, z: int)
    requires PassSoFar(cur, w, c, cap, y, 16, z)
    ensures PassSoFar(cur, w, c, cap, y, 0, z + 1)
    ensures AirSoFar(w, c, y, 16, z) ==> AirSoFar(w, c, y, 0, z + 1)
  {
    forall p ensures PassCell(w, c, cap, y, 16, z, p) == PassCell(w, c, cap, y, 0, z + 1, p) {
      var a := p.x - c.x + 8;
      if p.y - c.y == y && p.z - c.z + 8 == z && Masked(w, c, a, z) {
        assert Before(a, z, 16, z);
      }
    }
  }

  lemma PassEnd(cur: World, w: World, c: Pos, cap: Material, y: int)
    requires PassSoFar(cur, w, c, cap, y, 0, 16)
    ensures forall p :: BlockAt(cur, p) == Capped(w, c, cap, y, p)
    ensures AirSoFar(w, c, y, 0, 16) <==> LayerClear(w, c, y)
  {
    forall p ensures BlockAt(cur, p) == Capped(w, c, cap, y, p) {
      assert BlockAt(cur, p) == PassCell(w, c, cap, y, 0, 16, p);
    }
  }

  /** Above the world's highest block every layer is clear. */
  lemma ClearAbove(w: World, c: Pos, y: int, top: int)
    requires forall p :: p in w ==> p.y <= top
    requires c.y + y > top
    ensures LayerClear(w, c, y)
  {
    forall x, z | Masked(w, c, x, z) ensures BlockAt(w, c.Plus(x - 8, y, z - 8)) == Air {
      assert c.Plus(x - 8, y, z - 8) !in w;
    }
  }

  /** The cap mask records exactly the masked columns. */
  ghost predicate MaskOf(mask: array2<int>, w: World, c: Pos)
    reads mask
  {
    mask.Length0 == 16 && mask.Length1 == 16
    && forall a, b :: 0 <= a < 16 && 0 <= b < 16 ==> mask[a, b] == if Masked(w, c, a, b) then 1 else 0
  }

  /** The mask loop of `capSphere`: 1 where the centre layer is not air. */
  method MapSphere(w: World, c: Pos) returns (mask: array2<int>)
    ensures fresh(mask) && MaskOf(mask, w, c)
  {
    mask := new int[16, 16]((_, _) => 0);
    var x := 0;
    while x < 16
      invariant 0 <= x <= 16
      invariant forall a, b :: 0 <= a < 16 && 0 <= b < 16 ==>
        mask[a, b] == if a < x && Masked(w, c, a, b) then 1 else 0
    {
      var z := 0;
      while z < 16
        invariant 0 <= z <= 16
        invariant forall a, b :: 0 <= a < 16 && 0 <= b < 16 ==>
          mask[a, b] == if Before(b, a, z, x) && Masked(w, c, a, b) then 1 else 0
      {
        if BlockAt(w, c.Plus(x - 8, 0, z - 8)) != Air {
          mask[x, z] := 1;
        }
        z := z + 1;
      }
      x := x + 1;
    }
  }

  /** One pass of the capping loop over layer `y`: the masked air cells of that layer
      take the cap, and the pass reports whether the layer was clear. */
  method CapLayer(mask: array2<int>, cur: World, w: World, c: Pos, cap: Material, y: int)
    returns (cur': World, wasAllCapped: bool)
    requires 1 <= y && MaskOf(mask, w, c)
    requires forall p :: BlockAt(cur, p) == Capped(w, c, cap, y - 1, p)
    ensures forall p :: BlockAt(cur', p) == Capped(w, c, cap, y, p)
    ensures wasAllCapped <==> LayerClear(w, c, y)
  {
    cur' := cur;
    wasAllCapped := true;
    PassStart(cur', w, c, cap, y);
    var z := 0;
    while z < 16
      invariant 0 <= z <= 16
      invariant PassSoFar(cur', w, c, cap, y, 0, z)
      invariant wasAllCapped ==> AirSoFar(w, c, y, 0, z)
      invariant !wasAllCapped ==> !LayerClear(w, c, y)
    {
      var x := 0;
      while x < 16
        invariant 0 <= x <= 16
        invariant PassSoFar(cur', w, c, cap, y, x, z)
        invariant wasAllCapped ==> AirSoFar(w, c, y, x, z)
        invariant !wasAllCapped ==> !LayerClear(w, c, y)
      {
        PassStep(cur', w, c, cap, y, x, z);
        if mask[x, z] == 1 {
          var pos := c.Plus(x - 8, y, z - 8);
          if BlockAt(cur', pos) == Air {
            cur' := SetType(cur', pos, cap);
          } else {
            wasAllCapped := false;
          }
        }
        x := x + 1;
      }
      PassRowEnd(cur', w, c, cap, y, z);
      z := z + 1;
    }
    PassEnd(cur', w, c, cap, y);
  }

  /** `capSphere`: the first layer above the centre in which every column of the
      centre-layer mask is air is the top; the masked air cells of every layer from 1 up
      to the top plus `extraLayers` take the cap, and nothing else changes. */
  method CapSphere(w: World, capMaterial: Option<Material>, extraLayers: int, sphereCenter: Option<Pos>,
                   radius: int)
    returns (r: Result<World>, ghost top: int)
    ensures r.Failure? <==> capMaterial.None? || extraLayers < 0 || sphereCenter.None? || radius < 1
    ensures r.Failure? ==> r.error == IllegalArgument("")
    ensures r.Success? ==>
      && 1 <= top && LayerClear(w, sphereCenter.value, top)
      && (forall k :: 1 <= k < top ==> !LayerClear(w, sphereCenter.value, k))
      && forall p :: BlockAt(r.value, p) == Capped(w, sphereCenter.value, capMaterial.value, top + extraLayers, p)
  {
    top := 0;
    if capMaterial.None? || extraLayers < 0 || sphereCenter.None? || radius < 1 {
      return Failure(IllegalArgument("")), top;
    }
    var cap, c := capMaterial.value, sphereCenter.value;

    var mask := MapSphere(w, c);

    ghost var highest := HeightBound(w);
    ghost var bound := if highest > c.y then highest else c.y;
    var onTop := false;
    var layersLeft := extraLayers;
    var y := 1;
    var cur := w;
    while !onTop || layersLeft > 0
      invariant 1 <= y
      invariant MaskOf(mask, w, c)
      invariant forall p :: BlockAt(cur, p) == Capped(w, c, cap, y - 1, p)
      invariant !onTop ==> (layersLeft == extraLayers && c.y + y <= bound + 1
                            && forall k :: 1 <= k < y ==> !LayerClear(w, c, k))
      invariant onTop ==> (1 <= top < y && LayerClear(w, c, top) && 0 <= layersLeft
                           && y - 1 == top + extraLayers - layersLeft
                           && forall k :: 1 <= k < top ==> !LayerClear(w, c, k))
      decreases (if onTop then 0 else 1), (if onTop then layersLeft else bound + 1 - (c.y + y))
    {
      var wasAllCapped;
      cur, wasAllCapped := CapLayer(mask, cur, w, c, cap, y);
      if c.y + y > bound {
        ClearAbove(w, c, y, bound);
      }
      if onTop {
        layersLeft := layersLeft - 1;
      }
      if wasAllCapped && !onTop {
        top := y;
      }
      if wasAllCapped {
        onTop := true;
      }
      y := y + 1;
    }
    r := Success(cur);
  }

  /** The top layer is squared off: every masked column holds the cap there. */
  lemma CapSquaresTop(w: World, c: Pos, cap: Material, top: int, extraLayers: int, x: int, z: int)
    requires 1 <= top && 0 <= extraLayers && LayerClear(w, c, top) && Masked(w, c, x, z)
    ensures Capped(w, c, cap, top + extraLayers, c.Plus(x - 8, top, z - 8)) == cap
  {
  }
}
