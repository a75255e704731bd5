/** `WorldGenerator`: the chunk generator that writes block ids into the host's
    section arrays (`byte[][]`, one lazily allocated 4096-cell array per
    16-block slice of the column). */
module WorldGenerator {

  import opened JavaInt
  import opened JavaBits
  import opened Wrappers

  const SECTION_SIZE: nat := 4096

  lemma Pow2Facts()
    ensures Pow2(4) == 16 && Pow2(8) == 256
  {
    assert Pow2(2) == 4;
    assert Pow2(4) == 16;
    assert Pow2(6) == 64;
  }

  /** `y >> 4`: the section that holds height `y`. */
  function SectionOf(y: nat): (s: nat)
    ensures s == y / 16
  {
    assert Shr(y, 4) == Shr(y / 2, 3) == Shr(y / 2 / 2, 2) == Shr(y / 2 / 2 / 2, 1) == y / 2 / 2 / 2 / 2;
    Shr(y, 4)
  }

  /** `((y & 0xF) << 8) | (z << 4) | x`: the cell's index inside its section. */
  function SectionIndex(x: nat, y: nat, z: nat): (i: nat)
    requires x < 16 && z < 16
    ensures i == (y % 16) * 256 + z * 16 + x
    ensures i < SECTION_SIZE
  {
    Pow2Facts();
    AndLowMask(y, 4);
    OrDisjoint(y % 16, 8, z * 16);
    assert (y % 16) * 256 + z * 16 == (y % 16 * 16 + z) * Pow2(4);
    OrDisjoint(y % 16 * 16 + z, 4, x);
    Or(Or(Shl(And(y, 0xF), 8), Shl(z, 4)), x)
  }

  /** Within one section, distinct cells have distinct indices. */
  lemma {:induction false} SectionIndexInjective(x1: nat, y1: nat, z1: nat, x2: nat, y2: nat, z2: nat)
    requires x1 < 16 && z1 < 16 && x2 < 16 && z2 < 16
    requires SectionOf(y1) == SectionOf(y2)
    requires SectionIndex(x1, y1, z1) == SectionIndex(x2, y2, z2)
    ensures x1 == x2 && y1 == y2 && z1 == z2
  {
    var r1, r2 := y1 % 16, y2 % 16;
    assert r1 * 256 + z1 * 16 + x1 == r2 * 256 + z2 * 16 + x2;
    assert r1 == r2 by {
      if r1 < r2 {
        assert false;
      } else if r2 < r1 {
        assert false;
      }
    }
    assert z1 == z2 by {
      if z1 < z2 {
        assert false;
      } else if z2 < z1 {
        assert false;
      }
    }
    assert y1 == 16 * (y1 / 16) + r1 && y2 == 16 * (y2 / 16) + r2;
  }

  /** A cell of a written-cells map: any cell never written reads 0. */
  function Lookup(m: map<(int, int, int), int8>, x: int, y: int, z: int): int8
  {
    if (x, y, z) in m then m[(x, y, z)] else 0
  }

  /** A half-open box [sx, dx) x [sy, dy) x [sz, dz). */
  predicate InBox(x: int, y: int, z: int, sx: int, sy: int, sz: int, dx: int, dy: int, dz: int)
  {
    sx <= x < dx && sy <= y < dy && sz <= z < dz
  }

  /** The block sections of one chunk column. */
  class ChunkData {
    const sections: array<array?<int8>>
    ghost var Repr: set<object>
    /** The byte of every cell ever written; any other cell reads as 0. */
    ghost var blocks: map<(int, int, int), int8>

    ghost predicate Valid()
      reads this, Repr
    {
      && sections in Repr
      && (forall s :: 0 <= s < sections.Length && sections[s] != null ==>
            sections[s] in Repr && sections[s].Length == SECTION_SIZE)
      && (forall s, t :: 0 <= s < t < sections.Length && sections[s] != null ==> sections[s] != sections[t])
      && (forall x, y, z :: InChunk(x, y, z) ==>
            Block(x, y, z) == (var section := sections[SectionOf(y)];
                               if section == null then 0 else section[SectionIndex(x, y, z)]))
    }

    /** The byte a cell holds, in terms of the abstract contents. */
    ghost function Block(x: int, y: int, z: int): int8
      reads this
    {
      Lookup(blocks, x, y, z)
    }

    /** The column height the sections cover. */
    function Height(): nat
    {
      16 * sections.Length
    }

    predicate InChunk(x: int, y: int, z: int)
    {
      0 <= x < 16 && 0 <= z < 16 && 0 <= y < Height()
    }

    /** `new byte[maxHeight / 16][]`: every section absent, so every cell reads 0. */
    constructor (maxHeight: nat)
      ensures Valid() && fresh(Repr)
      ensures sections.Length == maxHeight / 16
      ensures forall s :: 0 <= s < sections.Length ==> sections[s] == null
      ensures blocks == map[]
    {
      sections := new array?<int8>[maxHeight / 16](_ => null);
      Repr := {sections};
      blocks := map[];
    }

    /** `getBlock`: the stored byte, or 0 in an absent section. */
    function GetBlock(x: int, y: int, z: int): (b: int8)
      reads this, Repr
      requires Valid() && InChunk(x, y, z)
      ensures b == Block(x, y, z)
    {
      var section := sections[SectionOf(y)];
      if section == null then 0 else section[SectionIndex(x, y, z)]
    }

    /** `setBlock`: allocates the section of height `y` if it is absent and
        stores `(byte) id` in the addressed cell; no other cell changes. */
    method SetBlock(x: int, y: int, z: int, id: int)
      requires Valid() && InChunk(x, y, z)
      modifies this, Repr
      ensures Valid() && fresh(Repr - old(Repr))
      ensures blocks == old(blocks)[(x, y, z) := ToByte(id)]
      ensures sections[SectionOf(y)] != null
      ensures old(sections[SectionOf(y)]) != null ==> sections[SectionOf(y)] == old(sections[SectionOf(y)])
      ensures forall s :: 0 <= s < sections.Length && s != SectionOf(y) ==> sections[s] == old(sections[s])
    {
      var s := SectionOf(y);
      if sections[s] == null {
        var section := new int8[SECTION_SIZE](_ => 0);
        sections[s] := section;
        Repr := Repr + {section};
      }
      sections[s][SectionIndex(x, y, z)] := ToByte(id);
      blocks := blocks[(x, y, z) := ToByte(id)];
      forall a, b, c | InChunk(a, b, c) && (a, b, c) != (x, y, z) && SectionOf(b) == s
        ensures SectionIndex(a, b, c) != SectionIndex(x, y, z)
      {
        if SectionIndex(a, b, c) == SectionIndex(x, y, z) {
          SectionIndexInjective(a, b, c, x, y, z);
        }
      }
    }

    /** `setRange`: writes `(byte) id` into every cell of the half-open box
        [sx, dx) x [sy, dy) x [sz, dz), x outermost, and nothing else. */
    method SetRange(sx: int, sy: int, sz: int, dx: int, dy: int, dz: int, id: int)
      requires Valid()
      requires sx < dx && sy < dy && sz < dz ==>
        0 <= sx && dx <= 16 && 0 <= sz && dz <= 16 && 0 <= sy && dy <= Height()
      modifies this, Repr
      ensures Valid() && fresh(Repr - old(Repr))
      ensures forall a, b, c :: InChunk(a, b, c) ==>
        Block(a, b, c) == if InBox(a, b, c, sx, sy, sz, dx, dy, dz) then ToByte(id) else old(Block(a, b, c))
    {
      var x := sx;
      while x < dx
        invariant Valid() && fresh(Repr - old(Repr))
        invariant sx <= x && (x <= dx || x == sx)
        invariant forall a, b, c :: InChunk(a, b, c) ==>
          Block(a, b, c) == if InBox(a, b, c, sx, sy, sz, x, dy, dz) then ToByte(id) else old(Block(a, b, c))
      {
        var y := sy;
        while y < dy
          invariant Valid() && fresh(Repr - old(Repr))
          invariant sy <= y && (y <= dy || y == sy)
          invariant forall a, b, c :: InChunk(a, b, c) ==>
            Block(a, b, c) == if InBox(a, b, c, sx, sy, sz, x, dy, dz) || InBox(a, b, c, x, sy, sz, x + 1, y, dz)
                                 then ToByte(id) else old(Block(a, b, c))
        {
          var z := sz;
          while z < dz
            invariant Valid() && fresh(Repr - old(Repr))
            invariant sz <= z && (z <= dz || z == sz)
            invariant forall a, b, c :: InChunk(a, b, c) ==>
              Block(a, b, c) == if InBox(a, b, c, sx, sy, sz, x, dy, dz) || InBox(a, b, c, x, sy, sz, x + 1, y, dz)
                                      || InBox(a, b, c, x, y, sz, x + 1, y + 1, z)
                                   then ToByte(id) else old(Block(a, b, c))
          {
            SetBlock(x, y, z, id);
            z := z + 1;
          }
          y := y + 1;
        }
        x := x + 1;
      }
    }
  }

  // Legacy block ids of the host's Material enum.
  const STONE: int := 1
  const DIRT: int := 3
  const BEDROCK: int := 7
  const LOG: int := 17

  /** The height players spawn at. */
  const SPAWN_Y: int := 128

  /** The ids random packs are drawn from, in the source's order (LAPIS_ORE twice). */
  const RANDOM_IDS: seq<int> := [3, 1, 5, 19, 20, 17, 35, 79, 42, 41, 16, 15, 21, 73, 87, 49, 57, 173, 22, 152, 21, 47]

  /** One `setRange` (or single `setBlock`) of the spawn island. */
  datatype Fill = Fill(sx: int, sy: int, sz: int, dx: int, dy: int, dz: int, id: int)

  predicate InFill(f: Fill, x: int, y: int, z: int)
  {
    InBox(x, y, z, f.sx, f.sy, f.sz, f.dx, f.dy, f.dz)
  }

  /** The byte a cell holds after the fills are written in order over `base`. */
  function PaintOver(fills: seq<Fill>, x: int, y: int, z: int, base: int8): int8
  {
    if fills == [] then base
    else if InFill(fills[|fills| - 1], x, y, z) then ToByte(fills[|fills| - 1].id)
    else PaintOver(fills[..|fills| - 1], x, y, z, base)
  }

  /** The spawn island: stone floor, bedrock under it, four log pillars, dirt walls. */
  const ISLAND: seq<Fill> := [
    Fill(8, SPAWN_Y - 4, 8, 11, SPAWN_Y - 3, 11, STONE),
    Fill(9, SPAWN_Y - 4, 9, 10, SPAWN_Y - 3, 10, BEDROCK),
    Fill(7, SPAWN_Y - 4, 7, 8, SPAWN_Y, 8, LOG),
    Fill(7, SPAWN_Y - 4, 11, 8, SPAWN_Y, 12, LOG),
    Fill(11, SPAWN_Y - 4, 7, 12, SPAWN_Y, 8, LOG),
    Fill(11, SPAWN_Y - 4, 11, 12, SPAWN_Y, 12, LOG),
    Fill(8, SPAWN_Y - 4, 7, 11, SPAWN_Y - 1, 8, DIRT),
    Fill(7, SPAWN_Y - 4, 8, 8, SPAWN_Y - 1, 11, DIRT),
    Fill(11, SPAWN_Y - 4, 8, 12, SPAWN_Y - 1, 11, DIRT),
    Fill(8, SPAWN_Y - 4, 11, 11, SPAWN_Y - 1, 12, DIRT)
  ]

  lemma PaintStep(fills: seq<Fill>, k: nat, x: int, y: int, z: int, base: int8)
    requires k < |fills|
    ensures PaintOver(fills[..k + 1], x, y, z, base) ==
      if InFill(fills[k], x, y, z) then ToByte(fills[k].id) else PaintOver(fills[..k], x, y, z, base)
  {
    assert fills[..k + 1][..k] == fills[..k];
  }

  /** Writes one fill of the island. */
  method Paint(chunk: ChunkData, f: Fill)
    requires chunk.Valid()
    requires f.sx < f.dx && f.sy < f.dy && f.sz < f.dz
    requires 0 <= f.sx && f.dx <= 16 && 0 <= f.sz && f.dz <= 16 && 0 <= f.sy && f.dy <= chunk.Height()
    modifies chunk, chunk.Repr
    ensures chunk.Valid() && fresh(chunk.Repr - old(chunk.Repr))
    ensures forall a, b, c :: chunk.InChunk(a, b, c) ==>
      chunk.Block(a, b, c) == if InFill(f, a, b, c) then ToByte(f.id) else old(chunk.Block(a, b, c))
  {
    if f.dx - f.sx == 1 && f.dy - f.sy == 1 && f.dz - f.sz == 1 {
      chunk.SetBlock(f.sx, f.sy, f.sz, f.id);
    } else {
      chunk.SetRange(f.sx, f.sy, f.sz, f.dx, f.dy, f.dz, f.id);
    }
  }

  /** The spawn chunk's island, the fills written in the source's order. */
  method SpawnIsland(chunk: ChunkData)
    requires chunk.Valid() && chunk.Height() >= SPAWN_Y
    modifies chunk, chunk.Repr
    ensures chunk.Valid() && fresh(chunk.Repr - old(chunk.Repr))
    ensures forall a, b, c :: chunk.InChunk(a, b, c) ==>
      chunk.Block(a, b, c) == PaintOver(ISLAND, a, b, c, old(chunk.Block(a, b, c)))
  {
    assert ISLAND[..0] == [];
    Paint(chunk, ISLAND[0]);
    forall a, b, c | chunk.InChunk(a, b, c)
      ensures chunk.Block(a, b, c) == PaintOver(ISLAND[..1], a, b, c, old(chunk.Block(a, b, c)))
    {
      PaintStep(ISLAND, 0, a, b, c, old(chunk.Block(a, b, c)));
    }
    Paint(chunk, ISLAND[1]);
    forall a, b, c | chunk.InChunk(a, b, c)
      ensures chunk.Block(a, b, c) == PaintOver(ISLAND[..2], a, b, c, old(chunk.Block(a, b, c)))
    {
      PaintStep(ISLAND, 1, a, b, c, old(chunk.Block(a, b, c)));
    }
    Paint(chunk, ISLAND[2]);
    forall a, b, c | chunk.InChunk(a, b, c)
      ensures chunk.Block(a, b, c) == PaintOver(ISLAND[..3], a, b, c, old(chunk.Block(a, b, c)))
    {
      PaintStep(ISLAND, 2, a, b, c, old(chunk.Block(a, b, c)));
    }
    Paint(chunk, ISLAND[3]);
    forall a, b, c | chunk.InChunk(a, b, c)
      ensures chunk.Block(a, b, c) == PaintOver(ISLAND[..4], a, b, c, old(chunk.Block(a, b, c)))
    {
      PaintStep(ISLAND, 3, a, b, c, old(chunk.Block(a, b, c)));
    }
    Paint(chunk, ISLAND[4]);
    forall a, b, c | chunk.InChunk(a, b, c)
      ensures chunk.Block(a, b, c) == PaintOver(ISLAND[..5], a, b, c, old(chunk.Block(a, b, c)))
    {
      PaintStep(ISLAND, 4, a, b, c, old(chunk.Block(a, b, c)));
    }
    Paint(chunk, ISLAND[5]);
    forall a, b, c | chunk.InChunk(a, b, c)
      ensures chunk.Block(a, b, c) == PaintOver(ISLAND[..6], a, b, c, old(chunk.Block(a, b, c)))
    {
      PaintStep(ISLAND, 5, a, b, c, old(chunk.Block(a, b, c)));
    }
    Paint(chunk, ISLAND[6]);
    forall a, b, c | chunk.InChunk(a, b, c)
      ensures chunk.Block(a, b, c) == PaintOver(ISLAND[..7], a, b, c, old(chunk.Block(a, b, c)))
    {
      PaintStep(ISLAND, 6, a, b, c, old(chunk.Block(a, b, c)));
    }
    Paint(chunk, ISLAND[7]);
    forall a, b, c | chunk.InChunk(a, b, c)
      ensures chunk.Block(a, b, c) == PaintOver(ISLAND[..8], a, b, c, old(chunk.Block(a, b, c)))
    {
      PaintStep(ISLAND, 7, a, b, c, old(chunk.Block(a, b, c)));
    }
    Paint(chunk, ISLAND[8]);
    forall a, b, c | chunk.InChunk(a, b, c)
      ensures chunk.Block(a, b, c) == PaintOver(ISLAND[..9], a, b, c, old(chunk.Block(a, b, c)))
    {
      PaintStep(ISLAND, 8, a, b, c, old(chunk.Block(a, b, c)));
    }
    Paint(chunk, ISLAND[9]);
    forall a, b, c | chunk.InChunk(a, b, c)
      ensures chunk.Block(a, b, c) == PaintOver(ISLAND[..10], a, b, c, old(chunk.Block(a, b, c)))
    {
      PaintStep(ISLAND, 9, a, b, c, old(chunk.Block(a, b, c)));
    }
    assert ISLAND[..10] == ISLAND;
  }

  /** A corner pillar column of the island. */
  predicate Corner(x: int, z: int)
  {
    (x == 7 || x == 11) && (z == 7 || z == 11)
  }

  /** A wall column: the ring around the 3x3 floor, corners excluded. */
  predicate Wall(x: int, z: int)
  {
    ((x == 7 || x == 11) && 8 <= z < 11) || ((z == 7 || z == 11) && 8 <= x < 11)
  }

  /** The island's shape: a stone floor one layer deep at SPAWN_Y - 4 with bedrock
      at (9, SPAWN_Y - 4, 9), log pillars four high on the corners, dirt walls three
      high around the floor; every other cell keeps what it held. */
  lemma IslandShape(x: int, y: int, z: int, base: int8)
    ensures var r := PaintOver(ISLAND, x, y, z, base);
      && ((x, y, z) == (9, SPAWN_Y - 4, 9) ==> r == BEDROCK)
      && (y == SPAWN_Y - 4 && 8 <= x < 11 && 8 <= z < 11 && (x, z) != (9, 9) ==> r == STONE)
      && (Corner(x, z) && SPAWN_Y - 4 <= y < SPAWN_Y ==> r == LOG)
      && (Wall(x, z) && SPAWN_Y - 4 <= y < SPAWN_Y - 1 ==> r == DIRT)
      && (r != base ==> 7 <= x < 12 && 7 <= z < 12 && SPAWN_Y - 4 <= y < SPAWN_Y)
  {
    PaintStep(ISLAND, 0, x, y, z, base);
    PaintStep(ISLAND, 1, x, y, z, base);
    PaintStep(ISLAND, 2, x, y, z, base);
    PaintStep(ISLAND, 3, x, y, z, base);
    PaintStep(ISLAND, 4, x, y, z, base);
    PaintStep(ISLAND, 5, x, y, z, base);
    PaintStep(ISLAND, 6, x, y, z, base);
    PaintStep(ISLAND, 7, x, y, z, base);
    PaintStep(ISLAND, 8, x, y, z, base);
    PaintStep(ISLAND, 9, x, y, z, base);
    assert ISLAND[..0] == [] && ISLAND[..10] == ISLAND;
  }

  /** Standing on the floor, a player is enclosed: every column of the ring around the
      floor is solid from the floor up for three layers. */
  lemma IslandEnclosed(x: int, y: int, z: int)
    requires Corner(x, z) || Wall(x, z)
    requires SPAWN_Y - 4 <= y < SPAWN_Y - 1
    ensures PaintOver(ISLAND, x, y, z, 0) != 0
  {
    IslandShape(x, y, z, 0);
  }

  /** The draws of one pack: `rx`, `ry` and `rz` as drawn (the pack's lowest layer is
      `ry + 1`) and the eight palette indices in the order the cells are written. */
  datatype PackDraw = PackDraw(rx: nat, ry: nat, rz: nat, picks: seq<nat>)

  /** What `nextInt` can return for a pack in a column of height `maxHeight` drawing
      from a palette of `n` ids. */
  predicate ValidPack(p: PackDraw, maxHeight: int, n: nat)
  {
    && p.rx < 15 && p.ry < maxHeight - 4 && p.rz < 15
    && |p.picks| == 8
    && forall i :: 0 <= i < 8 ==> p.picks[i] < n
  }

  /** The 2x2x2 cube a pack covers. */
  predicate InPack(p: PackDraw, x: int, y: int, z: int)
  {
    p.rx <= x <= p.rx + 1 && p.ry + 1 <= y <= p.ry + 2 && p.rz <= z <= p.rz + 1
  }

  /** The position of a pack cell in the order the cells are written: z fastest, then y,
      then x. */
  function PackSlot(p: PackDraw, x: int, y: int, z: int): int
  {
    4 * (x - p.rx) + 2 * (y - p.ry - 1) + (z - p.rz)
  }

  /** The id a pack writes at one of its cells. */
  function PackId(p: PackDraw, palette: seq<int>, x: int, y: int, z: int): (id: int)
    requires |p.picks| == 8 && (forall i :: 0 <= i < 8 ==> p.picks[i] < |palette|)
    requires InPack(p, x, y, z)
    ensures id in palette
  {
    palette[p.picks[PackSlot(p, x, y, z)]]
  }

  /** The byte a cell holds after the packs are placed in order over `base`. */
  function PacksOver(packs: seq<PackDraw>, palette: seq<int>, maxHeight: int, x: int, y: int, z: int, base: int8): int8
    requires forall k :: 0 <= k < |packs| ==> ValidPack(packs[k], maxHeight, |palette|)
  {
    if packs == [] then base
    else
      var last := packs[|packs| - 1];
      assert ValidPack(last, maxHeight, |palette|);
      if InPack(last, x, y, z) then ToByte(PackId(last, palette, x, y, z))
      else PacksOver(packs[..|packs| - 1], palette, maxHeight, x, y, z, base)
  }

  /** Every pack lies inside the chunk column, clear of the lowest layer and of the
      top three. */
  lemma PackInChunk(p: PackDraw, maxHeight: int, n: nat, x: int, y: int, z: int)
    requires ValidPack(p, maxHeight, n) && InPack(p, x, y, z)
    ensures 0 <= x < 16 && 0 <= z < 16 && 1 <= y <= maxHeight - 3
  {
  }

  /** Palette ids are positive legacy block ids below 256. */
  lemma PaletteRange()
    ensures forall i :: 0 <= i < |RANDOM_IDS| ==> 0 < RANDOM_IDS[i] < 256
  {
  }

  /** For such an id, `(byte) id` is never air and reads back as `id` unsigned
      (COAL_BLOCK and REDSTONE_BLOCK are stored negative). */
  lemma ByteOfId(id: int)
    requires 0 < id < 256
    ensures ToByte(id) != 0 && ToByte(id) % 256 == id
  {
    if 128 <= id {
      assert ToByte(id) == id - 256;
    }
  }

  /** Over an empty column a cell is non-air exactly when some pack covers it, and then
      it holds, read unsigned, a palette id. */
  lemma {:induction false} PacksOverEmpty(packs: seq<PackDraw>, maxHeight: int, x: int, y: int, z: int)
    requires forall k :: 0 <= k < |packs| ==> ValidPack(packs[k], maxHeight, |RANDOM_IDS|)
    ensures var r := PacksOver(packs, RANDOM_IDS, maxHeight, x, y, z, 0);
      && (r != 0 <==> exists k :: 0 <= k < |packs| && InPack(packs[k], x, y, z))
      && (r != 0 ==> r as int % 256 in RANDOM_IDS)
    decreases |packs|
  {
    if packs != [] {
      var last := packs[|packs| - 1];
      var init := packs[..|packs| - 1];
      PacksOverEmpty(init, maxHeight, x, y, z);
      if InPack(last, x, y, z) {
        PaletteRange();
        ByteOfId(PackId(last, RANDOM_IDS, x, y, z));
      } else {
        forall k | 0 <= k < |packs| && InPack(packs[k], x, y, z)
          ensures 0 <= k < |init| && InPack(init[k], x, y, z)
        {
        }
      }
    }
  }

  /** The eight writes of one pack, in the source's order. */
  function PackWrites(p: PackDraw, palette: seq<int>, m: map<(int, int, int), int8>): map<(int, int, int), int8>
    requires |p.picks| == 8 && (forall i :: 0 <= i < 8 ==> p.picks[i] < |palette|)
  {
    var x, y, z := p.rx, p.ry + 1, p.rz;
    m[(x, y, z) := ToByte(palette[p.picks[0]])]
     [(x, y, z + 1) := ToByte(palette[p.picks[1]])]
     [(x, y + 1, z) := ToByte(palette[p.picks[2]])]
     [(x, y + 1, z + 1) := ToByte(palette[p.picks[3]])]
     [(x + 1, y, z) := ToByte(palette[p.picks[4]])]
     [(x + 1, y, z + 1) := ToByte(palette[p.picks[5]])]
     [(x + 1, y + 1, z) := ToByte(palette[p.picks[6]])]
     [(x + 1, y + 1, z + 1) := ToByte(palette[p.picks[7]])]
  }

  /** The eight writes fill exactly the pack's cube, each cell with the id drawn for
      its slot, and leave every other cell as it was. */
  lemma PackWritesCube(p: PackDraw, palette: seq<int>, m: map<(int, int, int), int8>, x: int, y: int, z: int)
    requires |p.picks| == 8 && (forall i :: 0 <= i < 8 ==> p.picks[i] < |palette|)
    ensures Lookup(PackWrites(p, palette, m), x, y, z) ==
      if InPack(p, x, y, z) then ToByte(PackId(p, palette, x, y, z)) else Lookup(m, x, y, z)
  {
  }

  /** Places one pack: the eight `setBlock` calls of the source. */
  method PlacePack(chunk: ChunkData, p: PackDraw, palette: seq<int>)
    requires chunk.Valid() && ValidPack(p, chunk.Height(), |palette|)
    modifies chunk, chunk.Repr
    ensures chunk.Valid() && fresh(chunk.Repr - old(chunk.Repr))
    ensures chunk.blocks == PackWrites(p, palette, old(chunk.blocks))
  {
    var y := p.ry + 1;
    chunk.SetBlock(p.rx, y, p.rz, palette[p.picks[0]]);
    chunk.SetBlock(p.rx, y, p.rz + 1, palette[p.picks[1]]);
    chunk.SetBlock(p.rx, y + 1, p.rz, palette[p.picks[2]]);
    chunk.SetBlock(p.rx, y + 1, p.rz + 1, palette[p.picks[3]]);
    chunk.SetBlock(p.rx + 1, y, p.rz, palette[p.picks[4]]);
    chunk.SetBlock(p.rx + 1, y, p.rz + 1, palette[p.picks[5]]);
    chunk.SetBlock(p.rx + 1, y + 1, p.rz, palette[p.picks[6]]);
    chunk.SetBlock(p.rx + 1, y + 1, p.rz + 1, palette[p.picks[7]]);
  }

  /** The pack loop of a non-spawn chunk. */
  method ScatterPacks(chunk: ChunkData, packs: seq<PackDraw>, palette: seq<int>)
    requires chunk.Valid()
    requires forall k :: 0 <= k < |packs| ==> ValidPack(packs[k], chunk.Height(), |palette|)
    modifies chunk, chunk.Repr
    ensures chunk.Valid() && fresh(chunk.Repr - old(chunk.Repr))
    ensures forall a, b, c :: chunk.InChunk(a, b, c) ==>
      chunk.Block(a, b, c) == PacksOver(packs, palette, chunk.Height(), a, b, c, old(chunk.Block(a, b, c)))
  {
    var pack := 0;
    while pack < |packs|
      invariant 0 <= pack <= |packs|
      invariant chunk.Valid() && fresh(chunk.Repr - old(chunk.Repr))
      invariant forall a, b, c :: chunk.InChunk(a, b, c) ==>
        chunk.Block(a, b, c) == PacksOver(packs[..pack], palette, chunk.Height(), a, b, c, old(chunk.Block(a, b, c)))
    {
      ghost var before := chunk.blocks;
      assert forall a, b, c :: chunk.InChunk(a, b, c) ==>
        Lookup(before, a, b, c) == PacksOver(packs[..pack], palette, chunk.Height(), a, b, c, old(chunk.Block(a, b, c)));
      PlacePack(chunk, packs[pack], palette);
      assert packs[..pack + 1][..pack] == packs[..pack];
      forall a, b, c | chunk.InChunk(a, b, c)
        ensures chunk.Block(a, b, c) == PacksOver(packs[..pack + 1], palette, chunk.Height(), a, b, c, old(chunk.Block(a, b, c)))
      {
        PackWritesCube(packs[pack], palette, before, a, b, c);
      }
      pack := pack + 1;
    }
    assert packs[..|packs|] == packs;
  }

  /** A structure's generated ids, indexed `[y][z][x]`; rows may differ in length. */
  type Template = seq<seq<seq<int>>>

  /** The template has a cell at offset (sx, sy, sz). */
  predicate InTemplate(data: Template, sx: int, sy: int, sz: int)
  {
    0 <= sy < |data| && 0 <= sz < |data[sy]| && 0 <= sx < |data[sy][sz]|
  }

  /** The template fits a chunk column: at most 16 cells along x and z. */
  predicate FitsColumn(data: Template)
  {
    forall sy :: 0 <= sy < |data| ==>
      |data[sy]| <= 16 && forall sz :: 0 <= sz < |data[sy]| ==> |data[sy][sz]| <= 16
  }

  /** The byte a cell holds after the template is copied with its bottom layer at `cy`:
      every template cell, air included, replaces what was there. */
  function TemplateOver(data: Template, cy: int, x: int, y: int, z: int, base: int8): int8
  {
    if InTemplate(data, x, y - cy, z) then ToByte(data[y - cy][z][x]) else base
  }

  /** Copies the template cell for cell, `sy` outermost and `sx` innermost. */
  method CopyTemplate(chunk: ChunkData, data: Template, cy: int)
    requires chunk.Valid() && FitsColumn(data)
    requires 0 <= cy && cy + |data| <= chunk.Height()
    modifies chunk, chunk.Repr
    ensures chunk.Valid() && fresh(chunk.Repr - old(chunk.Repr))
    ensures forall a, b, c :: chunk.InChunk(a, b, c) ==>
      chunk.Block(a, b, c) == TemplateOver(data, cy, a, b, c, old(chunk.Block(a, b, c)))
  {
    var sy := 0;
    while sy < |data|
      invariant 0 <= sy <= |data|
      invariant chunk.Valid() && fresh(chunk.Repr - old(chunk.Repr))
      invariant forall a, b, c :: chunk.InChunk(a, b, c) ==>
        chunk.Block(a, b, c) == if InTemplate(data, a, b - cy, c) && b - cy < sy then ToByte(data[b - cy][c][a]) else old(chunk.Block(a, b, c))
    {
      var zData := data[sy];
      var sz := 0;
      while sz < |zData|
        invariant 0 <= sz <= |zData|
        invariant chunk.Valid() && fresh(chunk.Repr - old(chunk.Repr))
        invariant forall a, b, c :: chunk.InChunk(a, b, c) ==>
          chunk.Block(a, b, c) == if InTemplate(data, a, b - cy, c) && (b - cy < sy || (b - cy == sy && c < sz))
                                  then ToByte(data[b - cy][c][a]) else old(chunk.Block(a, b, c))
      {
        var xData := zData[sz];
        var sx := 0;
        while sx < |xData|
          invariant 0 <= sx <= |xData|
          invariant chunk.Valid() && fresh(chunk.Repr - old(chunk.Repr))
          invariant forall a, b, c :: chunk.InChunk(a, b, c) ==>
            chunk.Block(a, b, c) == if InTemplate(data, a, b - cy, c) && (b - cy < sy || (b - cy == sy && (c < sz || (c == sz && a < sx))))
                                    then ToByte(data[b - cy][c][a]) else old(chunk.Block(a, b, c))
        {
          chunk.SetBlock(sx, sy + cy, sz, xData[sx]);
          sx := sx + 1;
        }
        sz := sz + 1;
      }
      sy := sy + 1;
    }
  }

  /** The random draws of a chunk: the packs in order (their number is
      `nextInt(3 * minPacks) + minPacks`) and the structure's height draw. */
  datatype ChunkDraws = ChunkDraws(packs: seq<PackDraw>, cyDraw: nat)

  /** `maxHeight / 24`: the fewest packs a chunk gets. */
  function MinPacks(maxHeight: nat): nat
  {
    maxHeight / 24
  }

  /** What the source's `nextInt` calls can return. */
  predicate ValidDraws(d: ChunkDraws, maxHeight: nat)
  {
    && MinPacks(maxHeight) <= |d.packs| < 4 * MinPacks(maxHeight)
    && (forall k :: 0 <= k < |d.packs| ==> ValidPack(d.packs[k], maxHeight, |RANDOM_IDS|))
    && d.cyDraw < maxHeight - 64
  }

  /** The height a structure's bottom layer is placed at. */
  function StructureY(d: ChunkDraws): int
  {
    d.cyDraw + 32
  }

  /** A structure template the generator can place: it fits the column and is at
      most 33 layers high, since the highest bottom layer the height draw gives is
      maxHeight - 33. */
  predicate PlaceableTemplate(data: Template)
  {
    FitsColumn(data) && |data| <= 33
  }

  /** The cell a non-spawn chunk ends with: packs over air, then the structure's
      template over them. */
  function ScatteredCell(d: ChunkDraws, structure: Option<Template>, maxHeight: nat, x: int, y: int, z: int): int8
    requires forall k :: 0 <= k < |d.packs| ==> ValidPack(d.packs[k], maxHeight, |RANDOM_IDS|)
  {
    var packed := PacksOver(d.packs, RANDOM_IDS, maxHeight, x, y, z, 0);
    match structure
    case None => packed
    case Some(data) => TemplateOver(data, StructureY(d), x, y, z, packed)
  }

  /** `generateBlockSections`: the spawn chunk (0, 0) gets the island; every other
      chunk gets its packs and then, when a structure was chosen, its template. */
  method GenerateBlockSections(maxHeight: nat, chunkX: int, chunkZ: int, draws: ChunkDraws, structure: Option<Template>)
    returns (chunk: ChunkData)
    requires maxHeight % 16 == 0 && maxHeight >= SPAWN_Y
    requires !(chunkX == 0 && chunkZ == 0) ==> ValidDraws(draws, maxHeight)
    requires structure.Some? ==> PlaceableTemplate(structure.value)
    ensures fresh(chunk) && fresh(chunk.Repr) && chunk.Valid()
    ensures chunk.Height() == maxHeight
    ensures chunkX == 0 && chunkZ == 0 ==>
      forall a, b, c :: chunk.InChunk(a, b, c) ==> chunk.Block(a, b, c) == PaintOver(ISLAND, a, b, c, 0)
    ensures !(chunkX == 0 && chunkZ == 0) ==>
      forall a, b, c :: chunk.InChunk(a, b, c) ==> chunk.Block(a, b, c) == ScatteredCell(draws, structure, maxHeight, a, b, c)
  {
    chunk := new ChunkData(maxHeight);
    var spawnChunk := chunkX == 0 && chunkZ == 0;
    if spawnChunk {
      SpawnIsland(chunk);
    } else {
      ScatterPacks(chunk, draws.packs, RANDOM_IDS);
      if structure.Some? {
        var cy := draws.cyDraw + 32;
        CopyTemplate(chunk, structure.value, cy);
      }
    }
  }

  /** In a non-spawn chunk the structure lies between height 32 and 32 below the top. */
  lemma StructureWithinColumn(d: ChunkDraws, maxHeight: nat, data: Template, x: int, y: int, z: int)
    requires ValidDraws(d, maxHeight) && PlaceableTemplate(data)
    requires InTemplate(data, x, y - StructureY(d), z)
    ensures 0 <= x < 16 && 0 <= z < 16 && 32 <= y < maxHeight
  {
  }

  /** Without a structure, a non-spawn chunk's non-air cells are exactly the cells the
      packs cover, and each holds a palette id. */
  lemma PacksOnly(d: ChunkDraws, maxHeight: nat, x: int, y: int, z: int)
    requires ValidDraws(d, maxHeight)
    ensures var r := ScatteredCell(d, None, maxHeight, x, y, z);
      && (r != 0 <==> exists k :: 0 <= k < |d.packs| && InPack(d.packs[k], x, y, z))
      && (r != 0 ==> r as int % 256 in RANDOM_IDS)
  {
    PacksOverEmpty(d.packs, maxHeight, x, y, z);
  }
}
