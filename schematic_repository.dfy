/** `SchematicRepository`: a process-wide table from schematic to spawn chance,
    plus a call counter that takes part in the selection. */
module SchematicRepository {

  import opened Wrappers
  import opened JavaInt
  import opened Selection

  /** `order` lists every registered schematic exactly once: the table's
      iteration order, which the host's hash table decides. */
  predicate IterationOrder<S>(order: seq<S>, chances: map<S, real>)
  {
    && (forall k :: 0 <= k < |order| ==> order[k] in chances)
    && (forall s :: s in chances ==> s in order)
    && (forall j, k :: 0 <= j < k < |order| ==> order[j] != order[k])
  }

  /** The schematics admitted by the draw `chosen` while the counter is `i`,
      in iteration order. */
  function Candidates<S>(order: seq<S>, chances: map<S, real>, chosen: real, i: int): (c: seq<S>)
    requires forall k :: 0 <= k < |order| ==> order[k] in chances
    ensures |c| <= |order|
  {
    if |order| == 0 then []
    else
      var s := order[|order| - 1];
      Candidates(order[..|order| - 1], chances, chosen, i) + (if chosen <= chances[s] || i < 0 then [s] else [])
  }

  /** A schematic is a candidate exactly when it is listed and either the draw
      is within its chance or the counter is negative. */
  lemma {:induction false} CandidateMembership<S>(order: seq<S>, chances: map<S, real>, chosen: real, i: int, s: S)
    requires forall k :: 0 <= k < |order| ==> order[k] in chances
    ensures s in Candidates(order, chances, chosen, i) <==> s in order && (chosen <= chances[s] || i < 0)
  {
    if |order| > 0 {
      var init := order[..|order| - 1];
      CandidateMembership(init, chances, chosen, i, s);
      assert order == init + [order[|order| - 1]];
    }
  }

  /** With a negative counter every registered schematic is a candidate, in order. */
  lemma {:induction false} NegativeCounterAdmitsAll<S>(order: seq<S>, chances: map<S, real>, chosen: real, i: int)
    requires forall k :: 0 <= k < |order| ==> order[k] in chances
    requires i < 0
    ensures Candidates(order, chances, chosen, i) == order
  {
    if |order| > 0 {
      NegativeCounterAdmitsAll(order[..|order| - 1], chances, chosen, i);
      assert order == order[..|order| - 1] + [order[|order| - 1]];
    }
  }

  /** While the counter is not negative, the stored chances (all in [0, 1]) make
      the rule the shared threshold rule. */
  lemma {:induction false} NonNegativeCounterIsThreshold<S>(order: seq<S>, chances: map<S, real>, chosen: real,
                                                            i: int, s: S)
    requires IterationOrder(order, chances)
    requires forall t :: t in chances ==> 0.0 <= chances[t] <= 1.0
    requires i >= 0
    ensures s in Candidates(order, chances, chosen, i) <==> s in chances && Eligible(chances[s], chosen)
  {
    CandidateMembership(order, chances, chosen, i, s);
  }

  /** The counter is a Java `int`: one call after it reaches the largest value
      it wraps to the smallest, and every later call admits every schematic
      until it climbs back to 0. */
  lemma CounterStep(i: int32)
    ensures i < MAX_INT ==> Wrap32(i + 1) == i + 1
    ensures i == MAX_INT ==> Wrap32(i + 1) == MIN_INT < 0
  {
  }

  class SchematicRepository<S(==)> {
    var schematics: map<S, real>
    var i: int32

    /** `register` is the only writer, so every stored chance lies in [0, 1]. */
    ghost predicate Valid()
      reads this
    {
      forall s :: s in schematics ==> 0.0 <= schematics[s] <= 1.0
    }

    /** The static initial state: no schematics, counter 0. */
    constructor ()
      ensures Valid() && schematics == map[] && i == 0
    {
      schematics := map[];
      i := 0;
    }

    /** `register`: rejects a missing schematic and a chance outside [0, 1];
        otherwise stores the chance, replacing any earlier one for the same
        schematic. */
    method Register(schematic: Option<S>, chance: real) returns (r: Result<()>)
      requires Valid()
      modifies this
      ensures Valid() && i == old(i)
      ensures r.Success? <==> schematic.Some? && 0.0 <= chance <= 1.0
      ensures r.Failure? ==> schematics == old(schematics)
      ensures r.Success? ==> schematics == old(schematics)[schematic.value := chance]
      ensures r.Success? ==> schematics.Keys == old(schematics).Keys + {schematic.value}
      ensures r.Success? && schematic.value in old(schematics) ==> |schematics| == |old(schematics)|
    {
      if schematic.None? || chance < 0.0 || chance > 1.0 {
        return Failure(IllegalArgument(""));
      }
      schematics := schematics[schematic.value := chance];
      assert schematic.value in old(schematics) ==> schematics.Keys == old(schematics).Keys;
      return Success(());
    }

    /** `getRandomSchematic`: one draw, the candidates in iteration order, the
        counter bumped by one (wrapping), then the candidate at the second draw.
        A missing random source fails on the first draw, before the counter moves. */
    method GetRandomSchematic(random: Option<Draws>, order: seq<S>) returns (r: Result<Option<S>>)
      requires IterationOrder(order, schematics)
      requires random.Some? ==> ValidDraws(random.value, |Candidates(order, schematics, random.value.choice, i)|)
      modifies this
      ensures schematics == old(schematics)
      ensures random.None? ==> r == Failure(NullPointer) && i == old(i)
      ensures random.Some? ==> r.Success? && i == Wrap32(old(i) + 1)
      ensures random.Some? ==>
        var choices := Candidates(order, schematics, random.value.choice, old(i));
        && (r.value.None? <==> |choices| == 0)
        && (r.value.Some? ==> r.value.value == choices[random.value.pick])
    {
      if random.None? {
        return Failure(NullPointer);
      }
      var chosen := random.value.choice;
      var schematicList: seq<S> := [];
      var k := 0;
      while k < |order|
        invariant 0 <= k <= |order|
        invariant schematicList == Candidates(order[..k], schematics, chosen, i)
      {
        var entry := order[k];
        if chosen <= schematics[entry] || i < 0 {
          schematicList := schematicList + [entry];
        }
        assert order[..k + 1][..k] == order[..k];
        k := k + 1;
      }
      assert order[..k] == order;
      i := Wrap32(i + 1);
      if |schematicList| > 0 {
        return Success(Some(schematicList[random.value.pick]));
      }
      return Success(None);
    }
  }
}
