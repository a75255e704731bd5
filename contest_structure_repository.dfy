/** The older `StructureRepository`: six raw-material spheres and an unfiltered
    threshold selection. */
module ContestStructureRepository {

  import opened Wrappers
  import opened HostWorld
  import opened Selection
  import opened RawMaterialSphere

  /** The static catalog, every entry built with the two-argument constructor. */
  const STRUCTURES: seq<RawMaterialSphere> := [
    NewDefaultRadius(Some(Dirt), 0.25).value,
    NewDefaultRadius(Some(Wood), 0.05).value,
    NewDefaultRadius(Some(Log), 0.05).value,
    NewDefaultRadius(Some(IronBlock), 0.05).value,
    NewDefaultRadius(Some(DiamondBlock), 0.02).value,
    NewDefaultRadius(Some(Stone), 0.10).value
  ]

  /** Every catalog entry uses radius 3..7 and no diamond; the largest chance is 0.25. */
  lemma CatalogShape()
    ensures |STRUCTURES| == 6
    ensures forall s :: s in STRUCTURES ==> s.minRadius == 3 && s.maxRadius == 7 && !s.withDiamond
    ensures forall s :: s in STRUCTURES ==> 0.0 <= s.percentChance <= 0.25
  {
  }

  /** The candidates for a draw, in catalog order. */
  function Candidates(entries: seq<RawMaterialSphere>, choice: real): (c: seq<RawMaterialSphere>)
    ensures |c| <= |entries|
  {
    if |entries| == 0 then []
    else
      var e := entries[|entries| - 1];
      Candidates(entries[..|entries| - 1], choice) + (if Eligible(e.percentChance, choice) then [e] else [])
  }

  /** An entry is a candidate exactly when its chance admits the draw. */
  lemma {:induction false} CandidateMembership(entries: seq<RawMaterialSphere>, choice: real, s: RawMaterialSphere)
    ensures s in Candidates(entries, choice) <==> s in entries && Eligible(s.percentChance, choice)
  {
    if |entries| > 0 {
      var init := entries[..|entries| - 1];
      CandidateMembership(init, choice, s);
      assert entries == init + [entries[|entries| - 1]];
    }
  }

  /** Candidates keep catalog order. */
  lemma {:induction false} CandidatesAppend(a: seq<RawMaterialSphere>, b: seq<RawMaterialSphere>, choice: real)
    ensures Candidates(a + b, choice) == Candidates(a, choice) + Candidates(b, choice)
  {
    if |b| == 0 {
      assert a + b == a;
    } else {
      var init := b[..|b| - 1];
      CandidatesAppend(a, init, choice);
      assert (a + b)[..|a + b| - 1] == a + init;
    }
  }

  /** `getRandomStructure`: fails fast without a random source; otherwise the
      candidate at the drawn index, or nothing when no entry qualifies. */
  method GetRandomStructure(random: Option<Draws>) returns (r: Result<Option<RawMaterialSphere>>)
    requires random.Some? ==> ValidDraws(random.value, |Candidates(STRUCTURES, random.value.choice)|)
    ensures random.None? <==> r.Failure?
    ensures random.None? ==> r.error == IllegalArgument("Must supply a random")
    ensures random.Some? ==>
      var choices := Candidates(STRUCTURES, random.value.choice);
      && (r.value.None? <==> |choices| == 0)
      && (r.value.Some? ==> r.value.value == choices[random.value.pick])
    ensures r.Success? && r.value.Some? ==>
      r.value.value in STRUCTURES && Eligible(r.value.value.percentChance, random.value.choice)
  {
    if random.None? {
      return Failure(IllegalArgument("Must supply a random"));
    }
    var choice := random.value.choice;
    var choices: seq<RawMaterialSphere> := [];
    var k := 0;
    while k < |STRUCTURES|
      invariant 0 <= k <= |STRUCTURES|
      invariant choices == Candidates(STRUCTURES[..k], choice)
    {
      var struct := STRUCTURES[k];
      if struct.percentChance >= 0.0 && struct.percentChance <= 1.0 && choice <= struct.percentChance {
        choices := choices + [struct];
      }
      assert STRUCTURES[..k + 1][..k] == STRUCTURES[..k];
      k := k + 1;
    }
    assert STRUCTURES[..k] == STRUCTURES;
    if |choices| > 0 {
      var picked := choices[random.value.pick];
      CandidateMembership(STRUCTURES, choice, picked);
      return Success(Some(picked));
    }
    return Success(None);
  }

  /** Any draw above 0.25 leaves the catalog without candidates, so the
      selection returns nothing. */
  lemma {:induction false} HighDrawGivesNone(choice: real)
    requires choice > 0.25
    ensures Candidates(STRUCTURES, choice) == []
  {
    CatalogShape();
    if |Candidates(STRUCTURES, choice)| > 0 {
      var s := Candidates(STRUCTURES, choice)[0];
      CandidateMembership(STRUCTURES, choice, s);
      assert false;
    }
  }

  /** Entries that all admit the draw are all candidates, in order. */
  lemma {:induction false} EveryEntryQualifies(entries: seq<RawMaterialSphere>, choice: real)
    requires forall i :: 0 <= i < |entries| ==> Eligible(entries[i].percentChance, choice)
    ensures Candidates(entries, choice) == entries
  {
    if |entries| > 0 {
      EveryEntryQualifies(entries[..|entries| - 1], choice);
      assert entries == entries[..|entries| - 1] + [entries[|entries| - 1]];
    }
  }

  /** A draw of at most 0.02 admits the whole catalog. */
  lemma {:induction false} LowDrawAdmitsAll(choice: real)
    requires choice <= 0.02
    ensures Candidates(STRUCTURES, choice) == STRUCTURES
  {
    EveryEntryQualifies(STRUCTURES, choice);
  }
}
