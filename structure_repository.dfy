/** The newer `StructureRepository`: a fixed catalog of raw and filled spheres
    with a selection that can be restricted to some structure classes. */
module StructureRepository {

  import opened Wrappers
  import opened HostWorld
  import opened Selection
  import RawMaterialSphere
  import FilledSphere

  datatype Structure =
    | Raw(raw: RawMaterialSphere.RawMaterialSphere)
    | Filled(filled: FilledSphere.FilledSphere)

  /** `getPercentChance`. */
  function PercentChance(s: Structure): real
  {
    match s
    case Raw(r) => r.percentChance
    case Filled(f) => f.percentChance
  }

  /** The classes a caller may name in the type filter. */
  datatype StructureClass = StructureType | SphereType | RawMaterialSphereType | FilledSphereType

  /** `Class.isInstance`: both sphere kinds are spheres and structures. */
  predicate IsInstance(c: StructureClass, s: Structure)
  {
    match c
    case StructureType => true
    case SphereType => true
    case RawMaterialSphereType => s.Raw?
    case FilledSphereType => s.Filled?
  }

  /** Some listed class matches the structure. */
  predicate AnyInstance(types: seq<StructureClass>, s: Structure)
  {
    exists i :: 0 <= i < |types| && IsInstance(types[i], s)
  }

  /** A missing (`null`) or empty filter admits every kind. */
  predicate AllKinds(types: Option<seq<StructureClass>>)
  {
    types.None? || |types.value| == 0
  }

  predicate Admits(types: Option<seq<StructureClass>>, s: Structure)
  {
    AllKinds(types) || AnyInstance(types.value, s)
  }

  /** The candidates for a draw, in catalog order. */
  function Candidates(entries: seq<Structure>, choice: real, types: Option<seq<StructureClass>>): (c: seq<Structure>)
    ensures |c| <= |entries|
  {
    if |entries| == 0 then []
    else
      var e := entries[|entries| - 1];
      Candidates(entries[..|entries| - 1], choice, types)
        + (if Eligible(PercentChance(e), choice) && Admits(types, e) then [e] else [])
  }

  /** An entry is a candidate exactly when its chance admits the draw and its
      kind passes the filter. */
  lemma {:induction false} CandidateMembership(entries: seq<Structure>, choice: real,
                                               types: Option<seq<StructureClass>>, s: Structure)
    ensures s in Candidates(entries, choice, types)
        <==> s in entries && Eligible(PercentChance(s), choice) && Admits(types, s)
  {
    if |entries| > 0 {
      var init := entries[..|entries| - 1];
      CandidateMembership(init, choice, types, s);
      assert entries == init + [entries[|entries| - 1]];
    }
  }

  /** Candidates keep catalog order: selecting from two consecutive parts of a
      catalog gives the two parts' candidates one after the other. */
  lemma {:induction false} CandidatesAppend(a: seq<Structure>, b: seq<Structure>, choice: real,
                                            types: Option<seq<StructureClass>>)
    ensures Candidates(a + b, choice, types) == Candidates(a, choice, types) + Candidates(b, choice, types)
  {
    if |b| == 0 {
      assert a + b == a;
    } else {
      var init := b[..|b| - 1];
      CandidatesAppend(a, init, choice, types);
      assert (a + b)[..|a + b| - 1] == a + init;
    }
  }

  /** `is`: a linear search for a listed class that matches. */
  method Is(s: Structure, types: seq<StructureClass>) returns (r: bool)
    ensures r <==> AnyInstance(types, s)
  {
    var k := 0;
    while k < |types|
      invariant 0 <= k <= |types|
      invariant forall i :: 0 <= i < k ==> !IsInstance(types[i], s)
    {
      if IsInstance(types[k], s) {
        return true;
      }
      k := k + 1;
    }
    return false;
  }

  /** The static catalog. */
  const STRUCTURES: seq<Structure> := [
    Raw(RawMaterialSphere.New(Some(Dirt), 6, 6, 0.15, true).value),
    Raw(RawMaterialSphere.New(Some(Grass), 6, 6, 0.15, true).value),
    Raw(RawMaterialSphere.New(Some(Wood), 6, 6, 0.05, true).value),
    Raw(RawMaterialSphere.New(Some(Log), 6, 6, 0.05, true).value),
    Raw(RawMaterialSphere.NewDefaultRadiusWithDiamond(Some(IronBlock), 0.05, true).value),
    Raw(RawMaterialSphere.NewDefaultRadiusWithDiamond(Some(DiamondBlock), 0.02, true).value),
    Raw(RawMaterialSphere.New(Some(Stone), 6, 6, 0.10, true).value),
    Filled(FilledSphere.New(Some(Stone), Some(StationaryLava), 6, 6, 0.10, true).value),
    Filled(FilledSphere.New(Some(Stone), Some(StationaryWater), 6, 6, 0.10, true).value),
    Filled(FilledSphere.New(Some(Dirt), Some(StationaryLava), 6, 6, 0.10, true).value),
    Filled(FilledSphere.New(Some(Dirt), Some(StationaryWater), 6, 6, 0.10, true).value),
    Filled(FilledSphere.New(Some(DiamondBlock), Some(StationaryLava), 6, 6, 0.10, true).value),
    Filled(FilledSphere.New(Some(DiamondBlock), Some(StationaryWater), 6, 6, 0.10, true).value)
  ]

  /** The catalog holds 13 entries, every one with a chance in [0, 1] and a diamond core. */
  lemma CatalogShape()
    ensures |STRUCTURES| == 13
    ensures forall s :: s in STRUCTURES ==> 0.0 <= PercentChance(s) <= 1.0
    ensures forall s :: s in STRUCTURES ==> (s.Raw? ==> s.raw.withDiamond) && (s.Filled? ==> s.filled.withDiamond)
  {
  }

  /** One more entry of the catalog adds it to the candidates exactly when it qualifies. */
  lemma CandidatesStep(entries: seq<Structure>, k: int, choice: real, types: Option<seq<StructureClass>>)
    requires 0 <= k < |entries|
    ensures Candidates(entries[..k + 1], choice, types) == Candidates(entries[..k], choice, types)
      + (if Eligible(PercentChance(entries[k]), choice) && Admits(types, entries[k]) then [entries[k]] else [])
  {
    assert entries[..k + 1][..k] == entries[..k];
  }

  /** The filtering loop of `getRandomStructure`: walks the catalog in order and
      keeps each entry whose chance admits the draw and whose kind passes the filter. */
  method FilterCandidates(entries: seq<Structure>, choice: real, types: Option<seq<StructureClass>>)
      returns (choices: seq<Structure>)
    ensures choices == Candidates(entries, choice, types)
  {
    var all := types.None? || |types.value| == 0;
    choices := [];
    var k := 0;
    while k < |entries|
      invariant 0 <= k <= |entries|
      invariant choices == Candidates(entries[..k], choice, types)
    {
      var struct := entries[k];
      var admitted := all;
      if !admitted {
        admitted := Is(struct, types.value);
      }
      if PercentChance(struct) >= 0.0 && PercentChance(struct) <= 1.0 && choice <= PercentChance(struct) && admitted {
        choices := choices + [struct];
      }
      CandidatesStep(entries, k, choice, types);
      k := k + 1;
    }
    assert entries[..k] == entries;
  }

  /** `getRandomStructure`: fails fast without a random source; otherwise the
      candidate at the drawn index, or nothing when no entry qualifies. */
  method GetRandomStructure(random: Option<Draws>, types: Option<seq<StructureClass>>)
      returns (r: Result<Option<Structure>>)
    requires random.Some? ==> ValidDraws(random.value, |Candidates(STRUCTURES, random.value.choice, types)|)
    ensures random.None? <==> r.Failure?
    ensures random.Some? ==>
      var choices := Candidates(STRUCTURES, random.value.choice, types);
      && (r.value.None? <==> |choices| == 0)
      && (r.value.Some? ==> r.value.value == choices[random.value.pick])
    ensures r.Success? && r.value.Some? ==>
      && r.value.value in STRUCTURES
      && Eligible(PercentChance(r.value.value), random.value.choice)
      && Admits(types, r.value.value)
  {
    if random.None? {
      return Failure(IllegalArgument(""));
    }
    var choice := random.value.choice;
    var choices := FilterCandidates(STRUCTURES, choice, types);
    if |choices| > 0 {
      var picked := choices[random.value.pick];
      CandidateMembership(STRUCTURES, choice, types, picked);
      return Success(Some(picked));
    }
    return Success(None);
  }

  /** A structure with chance 1 whose kind passes the filter is always a candidate. */
  lemma {:induction false} CertainEntryQualifies(entries: seq<Structure>, choice: real,
                                                 types: Option<seq<StructureClass>>, s: Structure)
    requires s in entries && PercentChance(s) == 1.0 && Admits(types, s)
    requires 0.0 <= choice < 1.0
    ensures s in Candidates(entries, choice, types)
  {
    CandidateMembership(entries, choice, types, s);
  }

  /** When every entry has chance 0, a positive draw leaves no candidate. */
  lemma {:induction false} AllZeroGivesNone(entries: seq<Structure>, choice: real, types: Option<seq<StructureClass>>)
    requires forall s :: s in entries ==> PercentChance(s) == 0.0
    requires choice > 0.0
    ensures Candidates(entries, choice, types) == []
  {
    if |Candidates(entries, choice, types)| > 0 {
      var s := Candidates(entries, choice, types)[0];
      CandidateMembership(entries, choice, types, s);
      assert false;
    }
  }

  /** No candidates come from entries that all fail the rule. */
  lemma {:induction false} NoEntryQualifies(entries: seq<Structure>, choice: real, types: Option<seq<StructureClass>>)
    requires forall i :: 0 <= i < |entries| ==> !(Eligible(PercentChance(entries[i]), choice) && Admits(types, entries[i]))
    ensures Candidates(entries, choice, types) == []
  {
    if |entries| > 0 {
      NoEntryQualifies(entries[..|entries| - 1], choice, types);
    }
  }

  /** Entries that all pass the rule are all candidates, in order. */
  lemma {:induction false} EveryEntryQualifies(entries: seq<Structure>, choice: real, types: Option<seq<StructureClass>>)
    requires forall i :: 0 <= i < |entries| ==> Eligible(PercentChance(entries[i]), choice) && Admits(types, entries[i])
    ensures Candidates(entries, choice, types) == entries
  {
    if |entries| > 0 {
      EveryEntryQualifies(entries[..|entries| - 1], choice, types);
      assert entries == entries[..|entries| - 1] + [entries[|entries| - 1]];
    }
  }

  /** Restricting to filled spheres leaves only the six filled catalog entries,
      each admitted by draws up to 0.10. */
  lemma {:induction false} FilledOnlyCandidates(choice: real)
    requires 0.0 <= choice <= 0.10
    ensures Candidates(STRUCTURES, choice, Some([FilledSphereType])) == STRUCTURES[7..]
  {
    var filter := Some([FilledSphereType]);
    forall i | 7 <= i < 13 ensures Admits(filter, STRUCTURES[i]) {
      assert IsInstance(filter.value[0], STRUCTURES[i]);
    }
    NoEntryQualifies(STRUCTURES[..7], choice, filter);
    EveryEntryQualifies(STRUCTURES[7..], choice, filter);
    CandidatesAppend(STRUCTURES[..7], STRUCTURES[7..], choice, filter);
    assert STRUCTURES[..7] + STRUCTURES[7..] == STRUCTURES;
  }
}
