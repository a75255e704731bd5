/** `RawMaterialSphere`: a sphere of one material, optionally with a diamond
    block at its centre. */
module RawMaterialSphere {

  import opened Wrappers
  import opened HostWorld

  datatype RawMaterialSphere = RawMaterialSphere(
    materialId: Material,
    minRadius: int,
    maxRadius: int,
    percentChance: real,
    withDiamond: bool)

  /** The full constructor. A missing material (Java `null`) is rejected; the
      radius range and the chance are handed to the base class, whose checks
      are not part of this model. */
  function New(material: Option<Material>, minRadius: int, maxRadius: int, percentChance: real,
               withDiamond: bool): (r: Result<RawMaterialSphere>)
    ensures r.Failure? <==> material.None?
    ensures r.Success? ==> r.value.materialId == material.value && r.value.withDiamond == withDiamond
    ensures r.Success? ==> r.value.minRadius == minRadius && r.value.maxRadius == maxRadius
    ensures r.Success? ==> r.value.percentChance == percentChance
  {
    if material.None? then Failure(IllegalArgument("A material must be supplied"))
    else Success(RawMaterialSphere(material.value, minRadius, maxRadius, percentChance, withDiamond))
  }

  /** Constructor without the diamond flag: no diamond. */
  function NewWithoutDiamond(material: Option<Material>, minRadius: int, maxRadius: int,
                             percentChance: real): (r: Result<RawMaterialSphere>)
    ensures r.Failure? <==> material.None?
    ensures r.Success? ==> !r.value.withDiamond && r.value.minRadius == minRadius && r.value.maxRadius == maxRadius
    ensures r.Success? ==> r.value == RawMaterialSphere(material.value, minRadius, maxRadius, percentChance, false)
  {
    New(material, minRadius, maxRadius, percentChance, false)
  }

  /** Constructor with the default radius range 3..7 and no diamond. */
  function NewDefaultRadius(material: Option<Material>, percentChance: real): (r: Result<RawMaterialSphere>)
    ensures r.Failure? <==> material.None?
    ensures r.Success? ==> r.value.minRadius == 3 && r.value.maxRadius == 7 && !r.value.withDiamond
    ensures r.Success? ==> r.value.percentChance == percentChance
    ensures r.Success? ==> r.value == RawMaterialSphere(material.value, 3, 7, percentChance, false)
  {
    NewWithoutDiamond(material, 3, 7, percentChance)
  }

  /** Constructor with the default radius range 3..7 and an explicit diamond flag. */
  function NewDefaultRadiusWithDiamond(material: Option<Material>, percentChance: real,
                                       withDiamond: bool): (r: Result<RawMaterialSphere>)
    ensures r.Failure? <==> material.None?
    ensures r.Success? ==> r.value.minRadius == 3 && r.value.maxRadius == 7 && r.value.withDiamond == withDiamond
    ensures r.Success? ==> r.value == RawMaterialSphere(material.value, 3, 7, percentChance, withDiamond)
  {
    New(material, 3, 7, percentChance, withDiamond)
  }

  /** The material a sphere cell receives. */
  function MaterialFor(s: RawMaterialSphere, isCenter: bool): (m: Material)
    ensures m == DiamondBlock || m == s.materialId
    ensures m != s.materialId ==> isCenter
  {
    if isCenter && s.withDiamond then DiamondBlock else s.materialId
  }

  /** The diamond appears exactly at the centre of a sphere that asks for one;
      every other cell gets the sphere's material. */
  lemma MaterialChoice(s: RawMaterialSphere, isCenter: bool)
    ensures s.materialId != DiamondBlock ==> (MaterialFor(s, isCenter) == DiamondBlock <==> isCenter && s.withDiamond)
    ensures !s.withDiamond ==> MaterialFor(s, isCenter) == s.materialId
    ensures !isCenter ==> MaterialFor(s, isCenter) == s.materialId
  {
  }

  /** `setBlock`: writes the chosen material at the block's position and nowhere else. */
  function SetBlock(s: RawMaterialSphere, block: Pos, center: Pos, radius: int, isCenter: bool,
                    world: World): (w': World)
    ensures BlockAt(w', block) == (if isCenter && s.withDiamond then DiamondBlock else s.materialId)
    ensures forall q :: q != block ==> BlockAt(w', q) == BlockAt(world, q)
  {
    SetType(world, block, MaterialFor(s, isCenter))
  }
}
