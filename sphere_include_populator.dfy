/** `SphereIncludePopulator`: after a chunk is generated, places a randomly chosen
    structure's blocks into the world around a random centre in that chunk. */
module SphereIncludePopulator {

  import opened Wrappers
  import opened HostWorld

  /** A structure's generated materials, indexed `[y][z][x]`; `None` is a null entry,
      which leaves the world's block alone. Rows may differ in length. */
  type MaterialTemplate = seq<seq<seq<Option<Material>>>>

  /** The template entry at offset (sx, sy, sz), or `None` outside the template. */
  function TemplateAt(data: MaterialTemplate, sx: int, sy: int, sz: int): Option<Material>
  {
    if 0 <= sy < |data| && 0 <= sz < |data[sy]| && 0 <= sx < |data[sy][sz]| then data[sy][sz][sx] else None
  }

  /** The random draws of one population: the centre's height draw and its column
      inside the chunk. */
  datatype CenterDraws = CenterDraws(cyDraw: nat, cx: nat, cz: nat)

  /** What `nextInt(maxHeight - 64)` and the two `nextInt(16)` calls can return. */
  predicate ValidDraws(d: CenterDraws, maxHeight: int)
  {
    d.cyDraw < maxHeight - 64 && d.cx < 16 && d.cz < 16
  }

  /** The centre the structure is placed around. */
  function Center(chunkX: int, chunkZ: int, d: CenterDraws): Pos
  {
    Pos(chunkX * 16 + d.cx, d.cyDraw + 32, chunkZ * 16 + d.cz)
  }

  /** The block at `p` once the template is placed with its middle (offset
      `|data| / 2` on every axis) at `center`. A block changes only inside the
      template's box, whose low corner is the centre less the radius on every axis,
      and only where the template's entry is not null. */
  function Placed(world: World, data: MaterialTemplate, center: Pos, p: Pos): (m: Material)
    ensures var r := |data| / 2;
      var e := TemplateAt(data, p.x - center.x + r, p.y - center.y + r, p.z - center.z + r);
      m != BlockAt(world, p) ==>
        && center.x - r <= p.x && center.z - r <= p.z
        && center.y - r <= p.y < center.y - r + |data|
        && e.Some? && m == e.value
  {
    var r := |data| / 2;
    match TemplateAt(data, p.x - center.x + r, p.y - center.y + r, p.z - center.z + r)
    case Some(m) => m
    case None => BlockAt(world, p)
  }

  /** Offsets already visited when the loops stand at (sx, sy, sz): `sy` outermost,
      `sx` innermost. */
  predicate Visited(ox: int, oy: int, oz: int, sx: int, sy: int, sz: int)
  {
    oy < sy || (oy == sy && (oz < sz || (oz == sz && ox < sx)))
  }

  /** The block at `p` once the entries visited so far are placed around `center`. */
  function PlacedCell(world: World, data: MaterialTemplate, center: Pos, sx: int, sy: int, sz: int, p: Pos): Material
  {
    var r := |data| / 2;
    var ox, oy, oz := p.x - center.x + r, p.y - center.y + r, p.z - center.z + r;
    var e := TemplateAt(data, ox, oy, oz);
    if e.Some? && Visited(ox, oy, oz, sx, sy, sz) then e.value else BlockAt(world, p)
  }

  /** `w` is `world` with the template entries visited so far placed around `center`. */
  ghost predicate PlacedSoFar(world: World, w: World, data: MaterialTemplate, center: Pos, sx: int, sy: int, sz: int)
  {
    forall p :: BlockAt(w, p) == PlacedCell(world, data, center, sx, sy, sz, p)
  }

  /** One template entry placed: a null entry changes nothing. */
  function PlaceEntry(w: World, data: MaterialTemplate, center: Pos, sx: int, sy: int, sz: int): World
    requires 0 <= sy < |data| && 0 <= sz < |data[sy]| && 0 <= sx < |data[sy][sz]|
  {
    var r := |data| / 2;
    match data[sy][sz][sx]
    case Some(m) => SetType(w, center.Plus(sx - r, sy - r, sz - r), m)
    case None => w
  }

  lemma PlaceStep(world: World, w: World, data: MaterialTemplate, center: Pos, sx: int, sy: int, sz: int)
    requires PlacedSoFar(world, w, data, center, sx, sy, sz)
    requires 0 <= sy < |data| && 0 <= sz < |data[sy]| && 0 <= sx < |data[sy][sz]|
    ensures PlacedSoFar(world, PlaceEntry(w, data, center, sx, sy, sz), data, center, sx + 1, sy, sz)
  {
    var r := |data| / 2;
    var w' := PlaceEntry(w, data, center, sx, sy, sz);
    var l := center.Plus(sx - r, sy - r, sz - r);
    forall p
      ensures BlockAt(w', p) == PlacedCell(world, data, center, sx + 1, sy, sz, p)
    {
      if p != l {
        assert BlockAt(w', p) == BlockAt(w, p);
      }
    }
  }

  lemma RowDone(world: World, w: World, data: MaterialTemplate, center: Pos, sy: int, sz: int)
    requires 0 <= sy < |data| && 0 <= sz < |data[sy]|
    requires PlacedSoFar(world, w, data, center, |data[sy][sz]|, sy, sz)
    ensures PlacedSoFar(world, w, data, center, 0, sy, sz + 1)
  {
  }

  lemma LayerDone(world: World, w: World, data: MaterialTemplate, center: Pos, sy: int)
    requires 0 <= sy < |data|
    requires PlacedSoFar(world, w, data, center, 0, sy, |data[sy]|)
    ensures PlacedSoFar(world, w, data, center, 0, sy + 1, 0)
  {
  }

  /** `populate`: nothing happens in the spawn chunk (0, 0) or when no structure was
      chosen. Otherwise the height draw `nextInt(maxHeight - 64)` fails fast when the
      world is 64 blocks high or lower; when it succeeds, every non-null template entry
      is set at the centre plus its offset less the radius `|data| / 2`, and every
      other block keeps its material. The result is the new world and the centre used. */
  method Populate(world: World, chunkX: int, chunkZ: int, structure: Option<MaterialTemplate>,
                  maxHeight: int, draws: CenterDraws)
    returns (r: Result<(World, Option<Pos>)>)
    requires structure.Some? && !(chunkX == 0 && chunkZ == 0) && maxHeight > 64 ==> ValidDraws(draws, maxHeight)
    ensures (chunkX == 0 && chunkZ == 0) || structure.None? ==> r == Success((world, None))
    ensures !(chunkX == 0 && chunkZ == 0) && structure.Some? && maxHeight <= 64 ==>
      r == Failure(IllegalArgument("bound must be positive"))
    ensures !(chunkX == 0 && chunkZ == 0) && structure.Some? && maxHeight > 64 ==>
      && r.Success? && r.value.1 == Some(Center(chunkX, chunkZ, draws))
      && forall p :: BlockAt(r.value.0, p) == Placed(world, structure.value, r.value.1.value, p)
  {
    if chunkX == 0 && chunkZ == 0 {
      return Success((world, None));
    }
    if structure.None? {
      return Success((world, None));
    }
    if maxHeight - 32 - 32 <= 0 {
      return Failure(IllegalArgument("bound must be positive"));
    }
    var cy := draws.cyDraw + 32;
    var data: MaterialTemplate := structure.value;
    var radius := |data| / 2;
    var c := Pos(chunkX * 16 + draws.cx, cy, chunkZ * 16 + draws.cz);
    var w := world;
    var sy := 0;
    while sy < |data|
      invariant 0 <= sy <= |data|
      invariant PlacedSoFar(world, w, data, c, 0, sy, 0)
    {
      var zData := data[sy];
      var sz := 0;
      while sz < |zData|
        invariant 0 <= sz <= |zData|
        invariant PlacedSoFar(world, w, data, c, 0, sy, sz)
      {
        var xData := zData[sz];
        var sx := 0;
        while sx < |xData|
          invariant 0 <= sx <= |xData|
          invariant PlacedSoFar(world, w, data, c, sx, sy, sz)
        {
          ghost var before := w;
          var entry := xData[sx];
          if entry.Some? {
            var l := c.Plus(sx - radius, sy - radius, sz - radius);
            w := SetType(w, l, entry.value);
          }
          PlaceStep(world, before, data, c, sx, sy, sz);
          sx := sx + 1;
        }
        RowDone(world, w, data, c, sy, sz);
        sz := sz + 1;
      }
      LayerDone(world, w, data, c, sy);
      sy := sy + 1;
    }
    r := Success((w, Some(c)));
  }

  /** The centre lies in the populated chunk (block x and z floor-divided by 16 give the
      chunk) and at least 32 blocks from the bottom and the top of the world. */
  lemma CenterInChunk(chunkX: int, chunkZ: int, d: CenterDraws, maxHeight: int)
    requires ValidDraws(d, maxHeight)
    ensures var c := Center(chunkX, chunkZ, d);
      c.x / 16 == chunkX && c.z / 16 == chunkZ && 32 <= c.y < maxHeight - 32
  {
    var c := Center(chunkX, chunkZ, d);
    assert c.x == chunkX * 16 + d.cx;
    assert c.z == chunkZ * 16 + d.cz;
  }

  /** The centre block takes the entry in the middle of the template, when there is
      one. */
  lemma CenterGetsMiddle(world: World, data: MaterialTemplate, center: Pos)
    ensures var r := |data| / 2;
      Placed(world, data, center, center) ==
        if TemplateAt(data, r, r, r).Some? then TemplateAt(data, r, r, r).value else BlockAt(world, center)
  {
  }
}
