/** The newer `FilledSphere`: the shell/fill choice made one cell at a time by
    the sphere rasterizer's `setBlock` hook. */
module FilledSphere {

  import opened Wrappers
  import opened HostWorld
  import opened Sphere
  import ContestFilledSphere

  datatype FilledSphere = FilledSphere(
    shell: Material,
    fill: Material,
    minRadius: int,
    maxRadius: int,
    percentChance: real,
    withDiamond: bool)

  /** The full constructor: fails fast on a missing shell, then on a missing
      filler. The radius range and the chance go to the base class, whose
      checks are not part of this model. */
  function New(shell: Option<Material>, filler: Option<Material>, minRadius: int, maxRadius: int,
               percentChance: real, withDiamond: bool): (r: Result<FilledSphere>)
    ensures r.Success? <==> shell.Some? && filler.Some?
    ensures shell.None? ==> r == Failure(IllegalArgument("A shell material must be supplied"))
    ensures shell.Some? && filler.None? ==> r == Failure(IllegalArgument("A filler material must be supplied"))
    ensures r.Success? ==> r.value == FilledSphere(shell.value, filler.value, minRadius, maxRadius, percentChance, withDiamond)
  {
    if shell.None? then Failure(IllegalArgument("A shell material must be supplied"))
    else if filler.None? then Failure(IllegalArgument("A filler material must be supplied"))
    else Success(FilledSphere(shell.value, filler.value, minRadius, maxRadius, percentChance, withDiamond))
  }

  /** Radius 3..7, explicit diamond flag. */
  function NewDefaultRadius(shell: Option<Material>, filler: Option<Material>, percentChance: real,
                            withDiamond: bool): (r: Result<FilledSphere>)
    ensures r.Success? <==> shell.Some? && filler.Some?
    ensures r.Success? ==> r.value.minRadius == 3 && r.value.maxRadius == 7 && r.value.withDiamond == withDiamond
    ensures r.Success? ==> r.value == FilledSphere(shell.value, filler.value, 3, 7, percentChance, withDiamond)
  {
    New(shell, filler, 3, 7, percentChance, withDiamond)
  }

  /** Radius 3..7, no diamond. */
  function NewDefault(shell: Option<Material>, filler: Option<Material>, percentChance: real): (r: Result<FilledSphere>)
    ensures r.Success? <==> shell.Some? && filler.Some?
    ensures r.Success? ==> r.value.minRadius == 3 && r.value.maxRadius == 7 && !r.value.withDiamond
    ensures r.Success? ==> r.value == FilledSphere(shell.value, filler.value, 3, 7, percentChance, false)
  {
    New(shell, filler, 3, 7, percentChance, false)
  }

  /** Explicit radius range, no diamond. */
  function NewWithoutDiamond(shell: Option<Material>, filler: Option<Material>, minRadius: int, maxRadius: int,
                             percentChance: real): (r: Result<FilledSphere>)
    ensures r.Success? <==> shell.Some? && filler.Some?
    ensures r.Success? ==> !r.value.withDiamond && r.value.minRadius == minRadius && r.value.maxRadius == maxRadius
    ensures r.Success? ==> r.value == FilledSphere(shell.value, filler.value, minRadius, maxRadius, percentChance, false)
  {
    New(shell, filler, minRadius, maxRadius, percentChance, false)
  }

  /** The material `setBlock` chooses for `block`: one of the diamond, the fill and the
      shell, and a block that is neither shell nor the centre's diamond lies inside
      the sphere. */
  function MaterialFor(s: FilledSphere, block: Pos, center: Pos, radius: int, isCenter: bool): (m: Material)
    ensures m == DiamondBlock || m == s.fill || m == s.shell
    ensures radius >= 1 && m != s.shell && !(isCenter && s.withDiamond) ==> Within(center, block, radius)
  {
    if isCenter && s.withDiamond then DiamondBlock
    else if Within(center, block, radius - 1) then s.fill
    else s.shell
  }

  /** The diamond overrides the layer material exactly when the hook is told the
      block is the centre and the sphere asks for a diamond. */
  lemma DiamondOverride(s: FilledSphere, block: Pos, center: Pos, radius: int, isCenter: bool)
    requires s.fill != DiamondBlock && s.shell != DiamondBlock
    ensures MaterialFor(s, block, center, radius, isCenter) == DiamondBlock <==> isCenter && s.withDiamond
    ensures !(isCenter && s.withDiamond) ==>
      (MaterialFor(s, block, center, radius, isCenter) == s.fill <==> Within(center, block, radius - 1) || s.fill == s.shell)
  {
  }

  /** `setBlock`: writes the chosen material at the block's position and nowhere else. */
  function SetBlock(s: FilledSphere, block: Pos, center: Pos, radius: int, isCenter: bool,
                    world: World): (w': World)
    ensures BlockAt(w', block) == MaterialFor(s, block, center, radius, isCenter)
    ensures forall q :: q != block ==> BlockAt(w', q) == BlockAt(world, q)
  {
    SetType(world, block, MaterialFor(s, block, center, radius, isCenter))
  }

  /** Both versions of the class compose a cell alike: the newer hook, told
      whether the block is the centre, picks what the older full-cube loop writes. */
  lemma {:induction false} AgreesWithContestVersion(s: FilledSphere, center: Pos, r: int, p: Pos)
    ensures MaterialFor(s, p, center, r, p == center)
         == ContestFilledSphere.CellMaterial(
              ContestFilledSphere.FilledSphere(s.shell, s.fill, s.minRadius, s.maxRadius, s.percentChance, s.withDiamond),
              center, r, p)
  {
  }
}
