/**
 * A beach: it owns an ordered collection of crabs (new crabs always go at the
 * end), a counter kept equal to the collection's length, and one clan index.
 * The clan index refers to crabs by name only; a member name may match no crab,
 * one crab or several crabs of the beach.
 */
module Beaches {
  import opened Wrappers
  import opened Crabs
  import opened Clans

  /** Which of the two clan ids given to GetWinnerClan has no members. */
  datatype WinnerError = Id1DoesNotExist | Id2DoesNotExist

  /** The crabs named `name`, in collection order. */
  function CrabsNamed(crabs: seq<Crab>, name: string): seq<Crab>
  {
    if crabs == [] then []
    else
      var last := crabs[|crabs| - 1];
      CrabsNamed(crabs[..|crabs| - 1], name) + (if last.name == name then [last] else [])
  }

  /** Filtering distributes over concatenation, so the matches keep their collection order. */
  lemma {:induction false} CrabsNamedAppend(xs: seq<Crab>, ys: seq<Crab>, name: string)
    ensures CrabsNamed(xs + ys, name) == CrabsNamed(xs, name) + CrabsNamed(ys, name)
  {
    if ys == [] {
      assert xs + ys == xs;
    } else {
      var init := ys[..|ys| - 1];
      assert (xs + ys)[..|xs + ys| - 1] == xs + init;
      CrabsNamedAppend(xs, init, name);
    }
  }

  /** A crab is among the matches exactly when it is on the beach and carries the name. */
  lemma {:induction false} CrabsNamedMembers(crabs: seq<Crab>, name: string, c: Crab)
    ensures c in CrabsNamed(crabs, name) <==> c in crabs && c.name == name
  {
    if crabs != [] {
      var init := crabs[..|crabs| - 1];
      CrabsNamedMembers(init, name, c);
      assert crabs == init + [crabs[|crabs| - 1]];
    }
  }

  /** There are no matches exactly when no crab carries the name. */
  lemma {:induction false} CrabsNamedEmpty(crabs: seq<Crab>, name: string)
    ensures CrabsNamed(crabs, name) == [] <==> forall k :: 0 <= k < |crabs| ==> crabs[k].name != name
  {
    if crabs != [] {
      var init := crabs[..|crabs| - 1];
      CrabsNamedEmpty(init, name);
      assert forall k :: 0 <= k < |init| ==> init[k] == crabs[k];
    }
  }

  /** Every name resolves to at least one crab, so indexing the first match cannot fail. */
  predicate Resolvable(crabs: seq<Crab>, names: seq<string>)
  {
    forall name :: name in names ==> CrabsNamed(crabs, name) != []
  }

  /** The first crab named `name`: the one a clan member's speed is read from. */
  function FirstNamed(crabs: seq<Crab>, name: string): Crab
    requires CrabsNamed(crabs, name) != []
  {
    CrabsNamed(crabs, name)[0]
  }

  /** FirstNamed is the lowest-index crab carrying the name. */
  lemma {:induction false} FirstNamedIsEarliest(crabs: seq<Crab>, name: string)
    requires CrabsNamed(crabs, name) != []
    ensures exists k :: 0 <= k < |crabs| && crabs[k] == FirstNamed(crabs, name) && crabs[k].name == name
                        && forall j :: 0 <= j < k ==> crabs[j].name != name
  {
    var init := crabs[..|crabs| - 1];
    if CrabsNamed(init, name) == [] {
      CrabsNamedEmpty(init, name);
      var k := |crabs| - 1;
      assert crabs[k] == FirstNamed(crabs, name);
      assert forall j :: 0 <= j < k ==> crabs[j] == init[j];
    } else {
      FirstNamedIsEarliest(init, name);
      var k :| 0 <= k < |init| && init[k] == FirstNamed(init, name) && init[k].name == name
                && forall j :: 0 <= j < k ==> init[j].name != name;
      assert crabs[k] == init[k];
      assert forall j :: 0 <= j < k ==> crabs[j] == init[j];
    }
  }

  /** The sum of the speeds of the first crab matching each name. */
  function SpeedSum(crabs: seq<Crab>, names: seq<string>): nat
    requires Resolvable(crabs, names)
  {
    if names == [] then 0
    else SpeedSum(crabs, names[..|names| - 1]) + FirstNamed(crabs, names[|names| - 1]).speed
  }

  /** A clan's speed: the floor of the mean speed of its members. */
  function AverageSpeed(crabs: seq<Crab>, names: seq<string>): nat
    requires |names| > 0 && Resolvable(crabs, names)
  {
    SpeedSum(crabs, names) / |names|
  }

  /** The summed speed of the members is bounded by their number times any bound on speeds. */
  lemma {:induction false} SpeedSumAtMost(crabs: seq<Crab>, names: seq<string>, top: nat)
    requires Resolvable(crabs, names)
    requires forall k :: 0 <= k < |crabs| ==> crabs[k].speed <= top
    ensures SpeedSum(crabs, names) <= |names| * top
  {
    if names != [] {
      var init := names[..|names| - 1];
      var name := names[|names| - 1];
      assert forall n :: n in init ==> n in names;
      SpeedSumAtMost(crabs, init, top);
      var first := FirstNamed(crabs, name);
      CrabsNamedMembers(crabs, name, first);
      var k :| 0 <= k < |crabs| && crabs[k] == first;
      assert SpeedSum(crabs, names) == SpeedSum(crabs, init) + first.speed;
      MultiplySuccessor(|init|, top);
    }
  }

  /** Arithmetic step for SpeedSumAtMost: one more member adds one more bound. */
  lemma MultiplySuccessor(n: nat, top: nat)
    ensures (n + 1) * top == n * top + top
  {
  }

  /** Arithmetic step for AverageSpeedAtMost: floor division by n undoes a bound of n times top. */
  lemma DivideAtMost(sum: nat, n: nat, top: nat)
    requires n > 0 && sum <= n * top
    ensures sum / n <= top
  {
  }

  /** No clan is faster on average than the fastest crab of the beach. */
  lemma {:induction false} AverageSpeedAtMost(crabs: seq<Crab>, names: seq<string>, top: nat)
    requires |names| > 0 && Resolvable(crabs, names)
    requires forall k :: 0 <= k < |crabs| ==> crabs[k].speed <= top
    ensures AverageSpeed(crabs, names) <= top
  {
    SpeedSumAtMost(crabs, names, top);
    DivideAtMost(SpeedSum(crabs, names), |names|, top);
  }

  /**
   * The outcome of a competition between clans `id1` and `id2`, whose member
   * lists are `names1` and `names2`: an error for the first id without members,
   * id1 first; otherwise the id with the strictly greater average speed, None on a tie.
   */
  function Winner(crabs: seq<Crab>, id1: string, names1: seq<string>, id2: string, names2: seq<string>)
    : Result<Option<string>, WinnerError>
    requires Resolvable(crabs, names1)
    requires |names1| > 0 ==> Resolvable(crabs, names2)
  {
    if |names1| == 0 then Err(Id1DoesNotExist)
    else if |names2| == 0 then Err(Id2DoesNotExist)
    else
      var average1, average2 := AverageSpeed(crabs, names1), AverageSpeed(crabs, names2);
      if average1 > average2 then Ok(Some(id1))
      else if average1 < average2 then Ok(Some(id2))
      else Ok(None)
  }

  /** Between two valid clans the outcome does not depend on which one is named first. */
  lemma {:induction false} WinnerIsSymmetric(crabs: seq<Crab>, id1: string, names1: seq<string>, id2: string, names2: seq<string>)
    requires |names1| > 0 && Resolvable(crabs, names1)
    requires |names2| > 0 && Resolvable(crabs, names2)
    ensures Winner(crabs, id1, names1, id2, names2) == Winner(crabs, id2, names2, id1, names1)
  {
  }

  /** A valid clan against itself is a tie. */
  lemma {:induction false} WinnerAgainstItselfTies(crabs: seq<Crab>, id: string, names: seq<string>)
    requires |names| > 0 && Resolvable(crabs, names)
    ensures Winner(crabs, id, names, id, names) == Ok(None)
  {
  }

  /** The clan map after the beach is asked to put `crabName` into `clanId`: unchanged when the name is in any clan. */
  function Admit(clans: ClanMap, clanId: string, crabName: string): ClanMap
  {
    if HasMember(clans, crabName) then clans else WithMember(clans, clanId, crabName)
  }

  /** The guard keeps every name in at most one clan. */
  lemma {:induction false} AdmitKeepsAtMostOneClan(clans: ClanMap, clanId: string, crabName: string)
    requires AtMostOneClan(clans)
    ensures AtMostOneClan(Admit(clans, clanId, crabName))
  {
    if !HasMember(clans, crabName) {
      WithFreshMemberAtMostOneClan(clans, clanId, crabName);
    }
  }

  /** A name admitted to one clan is refused by every later clan, the same one included. */
  lemma {:induction false} AdmitOnlyOnce(clans: ClanMap, first: string, second: string, crabName: string)
    requires !HasMember(clans, crabName)
    ensures HasMember(Admit(clans, first, crabName), crabName)
    ensures Admit(Admit(clans, first, crabName), second, crabName) == WithMember(clans, first, crabName)
  {
    var admitted := Admit(clans, first, crabName);
    assert admitted[first][|admitted[first]| - 1] == crabName;
  }

  /** The crab at index `k` is a fastest crab and no earlier crab is as fast. */
  ghost predicate IsFirstFastest(crabs: seq<Crab>, k: int)
  {
    && 0 <= k < |crabs|
    && (forall j :: 0 <= j < |crabs| ==> crabs[j].speed <= crabs[k].speed)
    && (forall j :: 0 <= j < k ==> crabs[j].speed < crabs[k].speed)
  }

  class Beach {
    var size: nat
    var crabCollection: seq<Crab>
    const clanSystem: ClanSystem

    /** The counter matches the collection; every clan is non-empty and every name is in at most one clan. */
    ghost predicate Valid()
      reads this, clanSystem
    {
      && size == |crabCollection|
      && clanSystem.Valid()
      && AtMostOneClan(clanSystem.clans)
    }

    constructor ()
      ensures Valid() && fresh(clanSystem)
      ensures crabCollection == [] && clanSystem.clans == map[]
    {
      size := 0;
      crabCollection := [];
      clanSystem := new ClanSystem();
    }

    /** The number of crabs on the beach, read from the counter. */
    function Size(): (count: nat)
      reads this, clanSystem
      requires Valid()
      ensures count == |crabCollection|
    {
      size
    }

    /** Takes `crab` and puts it at the end of the collection. */
    method AddCrab(crab: Crab)
      requires Valid()
      modifies this
      ensures Valid()
      ensures crabCollection == old(crabCollection) + [crab]
      ensures size == old(size) + 1
      ensures GetCrab(old(size)) == crab
      ensures forall k :: 0 <= k < old(size) ==> GetCrab(k) == old(GetCrab(k))
    {
      crabCollection := crabCollection + [crab];
      size := size + 1;
    }

    /** The crab at `index`; an index past the end is a fault, hence a precondition. */
    function GetCrab(index: nat): (crab: Crab)
      reads this
      requires index < |crabCollection|
      ensures crab in crabCollection && crab == crabCollection[index]
    {
      crabCollection[index]
    }

    /** The crabs in collection order: the k-th one is GetCrab(k). */
    function Crabs(): (crabs: seq<Crab>)
      reads this
      ensures |crabs| == |crabCollection|
      ensures forall k :: 0 <= k < |crabs| ==> crabs[k] == GetCrab(k)
    {
      crabCollection
    }

    /**
     * Scans for the fastest crab, starting from a best speed of 0 and replacing
     * the best only by a strictly faster crab. So the answer is None exactly
     * when every crab has speed 0 (the empty beach included), and otherwise the
     * earliest crab of maximal speed. The ghost `bestIndex` is the position of
     * that crab, standing for the reference the source returns.
     */
    method GetFastestCrab() returns (bestCrab: Option<Crab>, ghost bestIndex: nat)
      ensures bestCrab.None? <==> forall k :: 0 <= k < |crabCollection| ==> crabCollection[k].speed == 0
      ensures bestCrab.Some? ==> IsFirstFastest(crabCollection, bestIndex) && bestCrab.value == crabCollection[bestIndex]
    {
      bestCrab := None;
      var highestSpeed: nat := 0;
      bestIndex := 0;
      for i := 0 to |crabCollection|
        invariant forall j :: 0 <= j < i ==> crabCollection[j].speed <= highestSpeed
        invariant bestCrab.None? ==> highestSpeed == 0
        invariant bestCrab.Some? ==>
          && bestIndex < i
          && bestCrab.value == crabCollection[bestIndex]
          && highestSpeed == crabCollection[bestIndex].speed > 0
          && forall j :: 0 <= j < bestIndex ==> crabCollection[j].speed < highestSpeed
      {
        var crab := crabCollection[i];
        if crab.speed > highestSpeed {
          bestCrab := Some(crab);
          highestSpeed := crab.speed;
          bestIndex := i;
        }
      }
    }

    /** The crabs named `name`, in collection order; empty when none is. */
    method FindCrabsByName(name: string) returns (crabVec: seq<Crab>)
      ensures crabVec == CrabsNamed(crabCollection, name)
    {
      crabVec := [];
      for i := 0 to |crabCollection|
        invariant crabVec == CrabsNamed(crabCollection[..i], name)
      {
        assert crabCollection[..i + 1][..i] == crabCollection[..i];
        var crab := crabCollection[i];
        if crab.name == name {
          crabVec := crabVec + [crab];
        }
      }
      assert crabCollection[..|crabCollection|] == crabCollection;
    }

    /** Appends the offspring of the crabs at `i` and `j` (possibly the same crab); an index past the end is a fault. */
    method BreedCrabs(i: nat, j: nat, name: string, breed: Breeder)
      requires Valid()
      requires i < |crabCollection| && j < |crabCollection|
      modifies this
      ensures Valid()
      ensures crabCollection == old(crabCollection) + [breed(old(crabCollection)[i], old(crabCollection)[j], name)]
      ensures size == old(size) + 1
    {
      var newCrab := breed(GetCrab(i), GetCrab(j), name);
      AddCrab(newCrab);
    }

    /** The beach's clan index, which keeps every name in at most one clan. */
    function GetClanSystem(): (clanIndex: ClanSystem)
      reads this, clanSystem
      requires Valid()
      ensures clanIndex == clanSystem
      ensures clanIndex.Valid() && AtMostOneClan(clanIndex.clans)
    {
      clanSystem
    }

    /** Puts `crabName` into `clanId` unless the name already belongs to some clan, in which case nothing changes. */
    method AddMemberToClan(clanId: string, crabName: string)
      requires Valid()
      modifies clanSystem
      ensures Valid()
      ensures clanSystem.clans == Admit(old(clanSystem.clans), clanId, crabName)
    {
      var alreadyContains := HasMember(clanSystem.clans, crabName);
      AdmitKeepsAtMostOneClan(clanSystem.clans, clanId, crabName);
      if !alreadyContains {
        clanSystem.AddClanMember(clanId, crabName);
      }
    }

    /** The sum of the speeds of the first crab matching each of `names`, accumulated in order. */
    method SumMemberSpeeds(names: seq<string>) returns (sum: nat)
      requires Resolvable(crabCollection, names)
      ensures sum == SpeedSum(crabCollection, names)
    {
      sum := 0;
      for i := 0 to |names|
        invariant Resolvable(crabCollection, names[..i])
        invariant sum == SpeedSum(crabCollection, names[..i])
      {
        assert names[..i + 1][..i] == names[..i];
        var matches := FindCrabsByName(names[i]);
        sum := sum + matches[0].speed;
      }
      assert names[..|names|] == names;
    }

    /**
     * Compares the floor-average speeds of clans `id1` and `id2`, each member's
     * speed read from the first crab of that name. A member name that matches no
     * crab is a fault; `id2`'s names are only looked up once `id1` proved valid.
     */
    method GetWinnerClan(id1: string, id2: string) returns (winner: Result<Option<string>, WinnerError>)
      requires Resolvable(crabCollection, clanSystem.GetClanMemberNames(id1))
      requires clanSystem.GetClanMemberCount(id1) > 0 ==> Resolvable(crabCollection, clanSystem.GetClanMemberNames(id2))
      ensures winner == Winner(crabCollection, id1, clanSystem.GetClanMemberNames(id1), id2, clanSystem.GetClanMemberNames(id2))
    {
      var namesOne := clanSystem.GetClanMemberNames(id1);
      var namesTwo := clanSystem.GetClanMemberNames(id2);
      var averageOne := SumMemberSpeeds(namesOne);
      var countOne := clanSystem.GetClanMemberCount(id1);
      if countOne == 0 {
        return Err(Id1DoesNotExist);
      }
      averageOne := averageOne / countOne;
      var averageTwo := SumMemberSpeeds(namesTwo);
      var countTwo := clanSystem.GetClanMemberCount(id2);
      if countTwo == 0 {
        return Err(Id2DoesNotExist);
      }
      averageTwo := averageTwo / countTwo;
      if averageOne > averageTwo {
        return Ok(Some(id1));
      }
      if averageOne < averageTwo {
        return Ok(Some(id2));
      }
      return Ok(None);
    }
  }
}
