/**
 * The clan index of a beach: a map from clan id to the ordered list of the
 * names of its members. It stores names only; it neither owns nor indexes crabs.
 */
module Clans {
  import opened Wrappers

  type ClanMap = map<string, seq<string>>

  /** The map after `crabName` is pushed onto `clanId`'s list, the list being created empty when absent. */
  function WithMember(clans: ClanMap, clanId: string, crabName: string): ClanMap
  {
    clans[clanId := (if clanId in clans then clans[clanId] else []) + [crabName]]
  }

  /** `crabName` occurs in the list of some clan. */
  predicate HasMember(clans: ClanMap, crabName: string)
  {
    exists clanId :: clanId in clans && crabName in clans[clanId]
  }

  /** Every clan has at least one member. */
  ghost predicate EveryClanNonEmpty(clans: ClanMap)
  {
    forall clanId :: clanId in clans ==> |clans[clanId]| > 0
  }

  /** Each name occurs at most once across all member lists (so in at most one clan). */
  ghost predicate AtMostOneClan(clans: ClanMap)
  {
    forall a, b, i, j ::
      a in clans && b in clans && 0 <= i < |clans[a]| && 0 <= j < |clans[b]| && clans[a][i] == clans[b][j]
      ==> a == b && i == j
  }

  /**
   * `clanId` has strictly more members than every other clan, and at least one.
   * A clan with no members never wins, since the scan starts from a count of 0.
   */
  ghost predicate IsLargest(clans: ClanMap, clanId: string)
  {
    && clanId in clans
    && |clans[clanId]| > 0
    && forall other :: other in clans && other != clanId ==> |clans[other]| < |clans[clanId]|
  }

  lemma {:induction false} WithMemberLookup(clans: ClanMap, clanId: string, crabName: string, id: string)
    ensures id in WithMember(clans, clanId, crabName) <==> id in clans || id == clanId
    ensures id == clanId ==> WithMember(clans, clanId, crabName)[id] == (if id in clans then clans[id] else []) + [crabName]
    ensures id != clanId && id in clans ==> WithMember(clans, clanId, crabName)[id] == clans[id]
  {
  }

  /** The number of clans grows by one exactly when the id was new. */
  lemma {:induction false} WithMemberCount(clans: ClanMap, clanId: string, crabName: string)
    ensures |WithMember(clans, clanId, crabName)| == |clans| + (if clanId in clans then 0 else 1)
  {
  }

  /** Adding a member never leaves a clan empty. */
  lemma {:induction false} WithMemberNonEmpty(clans: ClanMap, clanId: string, crabName: string)
    requires EveryClanNonEmpty(clans)
    ensures EveryClanNonEmpty(WithMember(clans, clanId, crabName))
  {
  }

  /** Pushing a name that is in no clan keeps every name in at most one clan. */
  lemma {:induction false} WithFreshMemberAtMostOneClan(clans: ClanMap, clanId: string, crabName: string)
    requires AtMostOneClan(clans)
    requires !HasMember(clans, crabName)
    ensures AtMostOneClan(WithMember(clans, clanId, crabName))
  {
  }

  /** There is at most one largest clan, so the answer is determined by the map alone. */
  lemma {:induction false} LargestIsUnique(clans: ClanMap, a: string, b: string)
    requires IsLargest(clans, a) && IsLargest(clans, b)
    ensures a == b
  {
  }

  class ClanSystem {
    var clans: ClanMap

    /** Clans only come into being through AddClanMember, which never leaves one empty. */
    ghost predicate Valid()
      reads this
    {
      EveryClanNonEmpty(clans)
    }

    constructor ()
      ensures Valid() && clans == map[]
    {
      clans := map[];
    }

    /** Appends `crabName` to `clanId`'s list, creating the list when the id is new; no duplicate check. */
    method AddClanMember(clanId: string, crabName: string)
      modifies this
      ensures clans == WithMember(old(clans), clanId, crabName)
      ensures GetClanMemberNames(clanId) == old(GetClanMemberNames(clanId)) + [crabName]
      ensures forall id :: id != clanId ==> GetClanMemberNames(id) == old(GetClanMemberNames(id))
      ensures GetClanCount() == old(GetClanCount()) + (if clanId in old(clans) then 0 else 1)
      ensures old(Valid()) ==> Valid()
    {
      var entry := if clanId in clans then clans[clanId] else [];
      ghost var before := clans;
      clans := clans[clanId := entry + [crabName]];
      if EveryClanNonEmpty(before) {
        WithMemberNonEmpty(before, clanId, crabName);
      }
    }

    /** The member names of `clanId`: a copy of its list when the id is known, the empty list otherwise. */
    function GetClanMemberNames(clanId: string): (names: seq<string>)
      reads this
      ensures clanId !in clans ==> names == []
      ensures forall name :: name in names ==> HasMember(clans, name)
      ensures clanId in clans ==> names == clans[clanId]
    {
      match clanId in clans
      case true => clans[clanId]
      case false => []
    }

    /** The number of clans in existence. */
    function GetClanCount(): (count: nat)
      reads this
      ensures count == |clans.Keys|
      ensures count == 0 <==> clans == map[]
    {
      |clans|
    }

    /** The number of members of `clanId`, 0 for an unknown id. */
    function GetClanMemberCount(clanId: string): (count: nat)
      reads this
      ensures count == |GetClanMemberNames(clanId)|
      ensures clanId !in clans ==> count == 0
      ensures Valid() ==> (count > 0 <==> clanId in clans)
    {
      match clanId in clans
      case true => |clans[clanId]|
      case false => 0
    }

    /**
     * The id of the clan with strictly the most members, None when there is no
     * clan or the maximum is shared. The map is visited in an arbitrary order;
     * whatever the order, the answer is the same.
     */
    method GetLargestClanId() returns (largestClanId: Option<string>)
      ensures largestClanId.Some? ==> IsLargest(clans, largestClanId.value)
      ensures largestClanId.None? ==> forall id :: !IsLargest(clans, id)
    {
      var largest: nat := 0;
      largestClanId := None;
      var unvisited := clans.Keys;
      ghost var visited: set<string> := {};
      while unvisited != {}
        invariant unvisited + visited == clans.Keys && unvisited !! visited
        invariant forall id :: id in visited ==> |clans[id]| <= largest
        invariant largestClanId.Some? ==>
          && largestClanId.value in visited
          && |clans[largestClanId.value]| == largest > 0
          && forall id :: id in visited && id != largestClanId.value ==> |clans[id]| < largest
        invariant largestClanId.None? ==>
          largest == 0 || exists a, b :: a in visited && b in visited && a != b && |clans[a]| == largest == |clans[b]|
        decreases unvisited
      {
        var id :| id in unvisited;
        var members := clans[id];
        if |members| > largest {
          largest := |members|;
          largestClanId := Some(id);
        } else if |members| == largest {
          if largestClanId.Some? {
            assert largestClanId.value != id;
          }
          largestClanId := None;
        }
        unvisited := unvisited - {id};
        visited := visited + {id};
      }
      assert visited == clans.Keys;
    }
  }
}
