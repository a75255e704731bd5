/** The host world as the generators see it: block positions, materials, and a
    world that maps positions to materials. Cells the map does not hold are air. */
module HostWorld {

  /** An absolute block position (a block location with integer coordinates). */
  datatype Pos = Pos(x: int, y: int, z: int) {
    function Plus(dx: int, dy: int, dz: int): (p: Pos)
      ensures p.x - x == dx && p.y - y == dy && p.z - z == dz
    {
      Pos(x + dx, y + dy, z + dz)
    }
  }

  /** The block materials the core names; every other material is `Other`. */
  datatype Material =
    | Air
    | Dirt
    | Grass
    | Wood
    | Log
    | IronBlock
    | DiamondBlock
    | Stone
    | StationaryLava
    | StationaryWater
    | Other(id: nat)

  type World = map<Pos, Material>

  /** The material of the block at `p`. */
  function BlockAt(w: World, p: Pos): Material
  {
    if p in w then w[p] else Air
  }

  /** `world.getBlockAt(p).setType(m)`: exactly one cell changes. */
  function SetType(w: World, p: Pos, m: Material): (w': World)
    ensures BlockAt(w', p) == m
    ensures forall q :: q != p ==> BlockAt(w', q) == BlockAt(w, q)
  {
    w[p := m]
  }

  /** The host world is finite, so some height bounds every block it stores. */
  lemma {:induction false} HeightBound(w: World) returns (top: int)
    ensures forall p :: p in w ==> p.y <= top
    decreases |w.Keys|
  {
    if w == map[] {
      top := 0;
    } else {
      var q :| q in w;
      var rest := w - {q};
      assert |rest.Keys| < |w.Keys| by {
        assert rest.Keys == w.Keys - {q};
      }
      var t := HeightBound(rest);
      top := if q.y > t then q.y else t;
      forall p | p in w ensures p.y <= top {
        if p != q {
          assert p in rest;
        }
      }
    }
  }
}
