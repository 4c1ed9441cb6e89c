/**
 * The second planner (6_additional_picks_2.py): fixed tables of the used and the new euro
 * pairs, and a loop drawing for each new pair five main numbers that no existing pick
 * sharing a euro number with it contains. Its picks are numbered 19..24.
 */
module AdditionalPicksSecond {
  import opened Wrappers
  import opened Sequences
  import opened AdditionalPicks
  import RandomSource

  /** existing_euro_pairs: a set literal that lists six of its pairs twice. */
  const ExistingEuroPairs: set<seq<int>> := {
    [2, 10], [1, 12], [4, 8], [6, 7], [3, 5], [9, 11],
    [4, 8], [3, 5], [1, 12], [6, 7], [9, 11], [2, 10],
    [8, 12], [2, 6], [9, 10], [4, 5], [7, 11], [1, 3] }

  /** unique_existing: the same pairs written once each. */
  const UniqueExisting: set<seq<int>> := {
    [1, 3], [1, 12], [2, 6], [2, 10], [3, 5], [4, 5], [4, 8], [6, 7], [7, 11], [8, 12], [9, 10], [9, 11] }

  /** new_euro_pairs. */
  const NewEuroPairs: seq<seq<int>> := [[1, 2], [3, 4], [5, 6], [7, 8], [9, 12], [10, 11]]

  /** The message of the ValueError `random.sample` raises when the pool is too small. */
  const SampleError := "Sample larger than population or is negative"

  /** unique_existing is the duplicate-free form of existing_euro_pairs. */
  lemma UniqueExistingIsDeduplicated()
    ensures ExistingEuroPairs == UniqueExisting
  {
  }

  /** The fixed new pairs are an answer the first planner could give: six distinct unused pairs covering 1..12. */
  lemma NewEuroPairsValid()
    ensures NewPairsOk(UniqueExisting, NewEuroPairs)
  {
    NewEuroPairsCandidates();
    NewEuroPairsUnused();
    NewEuroPairsCover();
    NewEuroPairsDistinct();
  }

  lemma NewEuroPairsDistinct()
    ensures NoDup(NewEuroPairs)
  {
  }

  lemma NewEuroPairsCandidates()
    ensures forall i :: 0 <= i < |NewEuroPairs| ==> NewEuroPairs[i] in AllPairs() && AllIn(NewEuroPairs[i], 1, 12)
  {
    var pairs := NewEuroPairs;
    forall i | 0 <= i < |pairs| ensures pairs[i] in AllPairs() && AllIn(pairs[i], 1, 12) {
      AllPairsMember(pairs[i]);
    }
  }

  lemma NewEuroPairsUnused()
    ensures forall i :: 0 <= i < |NewEuroPairs| ==> NewEuroPairs[i] !in UniqueExisting
  {
  }

  lemma NewEuroPairsCover()
    ensures CoversAll(NewEuroPairs)
  {
    var pairs := NewEuroPairs;
    forall x | 1 <= x <= 12 ensures x in EuroUnion(pairs) {
      if x <= 2 {
        InEuroUnion(pairs, 0, x);
      } else if x <= 4 {
        InEuroUnion(pairs, 1, x);
      } else if x <= 6 {
        InEuroUnion(pairs, 2, x);
      } else if x <= 8 {
        InEuroUnion(pairs, 3, x);
      } else if x == 9 || x == 12 {
        InEuroUnion(pairs, 4, x);
      } else {
        InEuroUnion(pairs, 5, x);
      }
    }
    assert forall i :: 0 <= i < |pairs| ==> AllIn(pairs[i], 1, 12);
    CoversAllMeans(pairs);
  }

  lemma InEuroUnion(pairs: seq<seq<int>>, i: int, x: int)
    requires 0 <= i < |pairs| && x in pairs[i]
    ensures x in EuroUnion(pairs)
  {
    EuroUnionMembers(pairs, x);
  }

  /** The two euro numbers of an existing pick, `(pick['euro'][0], pick['euro'][1])`. */
  function PickEuros(pick: PlannedPick): seq<int>
    requires |pick.euro| >= 2
  {
    [pick.euro[0], pick.euro[1]]
  }

  /** Every pick has at least two euro numbers, as the script's indexing demands. */
  predicate HasEuroPair(picks: seq<PlannedPick>) {
    forall k :: 0 <= k < |picks| ==> |picks[k].euro| >= 2
  }

  /** The main numbers of the picks whose euro pair contains either number of euroPair. */
  function ForbiddenFor(euroPair: seq<int>, picks: seq<PlannedPick>): set<int>
    requires |euroPair| == 2 && HasEuroPair(picks)
  {
    if picks == [] then {}
    else
      var last := picks[|picks| - 1];
      var pickEuros := PickEuros(last);
      ForbiddenFor(euroPair, picks[..|picks| - 1])
        + if euroPair[0] in pickEuros || euroPair[1] in pickEuros then Elements(last.main) else {}
  }

  /** get_forbidden_mains: the loop over the existing picks. */
  method GetForbiddenMains(euroPair: seq<int>, existingPicks: seq<PlannedPick>) returns (forbidden: set<int>)
    requires |euroPair| == 2 && HasEuroPair(existingPicks)
    ensures forbidden == ForbiddenFor(euroPair, existingPicks)
  {
    forbidden := {};
    for i := 0 to |existingPicks|
      invariant forbidden == ForbiddenFor(euroPair, existingPicks[..i])
    {
      var pick := existingPicks[i];
      var pickEuros := [pick.euro[0], pick.euro[1]];
      assert existingPicks[..i + 1][..i] == existingPicks[..i];
      if euroPair[0] in pickEuros || euroPair[1] in pickEuros {
        forbidden := forbidden + Elements(pick.main);
      }
    }
    assert existingPicks[..|existingPicks|] == existingPicks;
  }

  /** For picks with exactly two euro numbers, the second planner forbids what the first one does. */
  lemma {:induction false} ForbiddenForAgrees(euroPair: seq<int>, picks: seq<PlannedPick>)
    requires |euroPair| == 2 && forall k :: 0 <= k < |picks| ==> |picks[k].euro| == 2
    ensures ForbiddenFor(euroPair, picks) == ForbiddenMains(picks, euroPair)
  {
    if picks != [] {
      var init := picks[..|picks| - 1];
      var last := picks[|picks| - 1];
      ForbiddenForAgrees(euroPair, init);
      assert last.euro == PickEuros(last);
      SharesPair(last.euro, euroPair);
    }
  }

  /** Two pairs share a number exactly when one of the first pair's numbers is in the second. */
  lemma SharesPair(a: seq<int>, pair: seq<int>)
    requires |a| == 2 && |pair| == 2
    ensures Shares(a, pair) <==> pair[0] in a || pair[1] in a
  {
    if Shares(a, pair) {
      var y :| y in a && y in pair;
      assert pair == [pair[0], pair[1]];
      assert y == pair[0] || y == pair[1];
    }
    if pair[0] in a || pair[1] in a {
      var y := if pair[0] in a then pair[0] else pair[1];
      assert y in a && y in pair;
    }
  }

  /**
   * The loop of the script: for the i-th pair of NewEuroPairs, the pick numbered 19 + i with 5
   * sorted main numbers sampled from 1..50 without the forbidden ones and the pair as its
   * euro numbers; the sample's ValueError when fewer than 5 main numbers remain.
   */
  method GenerateAdditionalPicks(existingPicks: seq<PlannedPick>) returns (r: Result<seq<PlannedPick>, string>)
    requires HasEuroPair(existingPicks)
    ensures r.Ok? ==> |r.value| == |NewEuroPairs|
    ensures r.Ok? ==> forall i :: 0 <= i < |r.value| ==> DrawnFor(existingPicks, r.value[i], NewEuroPairs[i], 19 + i)
    ensures r.Err? ==> exists i :: 0 <= i < |NewEuroPairs| && |MainPool(ForbiddenFor(NewEuroPairs[i], existingPicks))| < 5
  {
    r := DrawPicks(existingPicks, NewEuroPairs, 19);
  }

  /** The loop over the given pairs, numbering the picks from first. */
  method DrawPicks(existingPicks: seq<PlannedPick>, pairs: seq<seq<int>>, first: int) returns (r: Result<seq<PlannedPick>, string>)
    requires HasEuroPair(existingPicks) && forall i :: 0 <= i < |pairs| ==> |pairs[i]| == 2
    ensures r.Ok? ==> |r.value| == |pairs|
    ensures r.Ok? ==> forall i :: 0 <= i < |r.value| ==> DrawnFor(existingPicks, r.value[i], pairs[i], first + i)
    ensures r.Err? ==> exists i :: 0 <= i < |pairs| && |MainPool(ForbiddenFor(pairs[i], existingPicks))| < 5
  {
    var additionalPicks: seq<PlannedPick> := [];
    for i := 0 to |pairs|
      invariant |additionalPicks| == i
      invariant forall k :: 0 <= k < i ==> DrawnFor(existingPicks, additionalPicks[k], pairs[k], first + k)
    {
      var euroPair := pairs[i];
      var forbiddenMains := GetForbiddenMains(euroPair, existingPicks);
      var availableMains := MainPool(forbiddenMains);
      if |availableMains| < 5 {
        return Err(SampleError);
      }
      var sample := RandomSource.Sample(availableMains, 5);
      var mainNumbers := SortAsc(sample);
      var pick := PlannedPick(first + i, mainNumbers, euroPair);
      SampledMains(existingPicks, euroPair, first + i, sample, pick);
      var before := additionalPicks;
      additionalPicks := additionalPicks + [pick];
      assert forall k :: 0 <= k < i ==> additionalPicks[k] == before[k];
    }
    return Ok(additionalPicks);
  }

  /**
   * The pick the loop makes for a pair: its number, the pair as its euro numbers, and five
   * sorted main numbers of 1..50 of which none is forbidden for the pair.
   */
  predicate DrawnFor(existingPicks: seq<PlannedPick>, pick: PlannedPick, pair: seq<int>, number: int)
    requires HasEuroPair(existingPicks) && |pair| == 2
  {
    pick.number == number && pick.euro == pair
    && |pick.main| == 5 && Ascending(pick.main) && AllIn(pick.main, 1, 50)
    && Elements(pick.main) * ForbiddenFor(pair, existingPicks) == {}
  }

  /** Five sorted numbers sampled from the pool of a pair make the pick DrawnFor promises. */
  lemma SampledMains(existingPicks: seq<PlannedPick>, pair: seq<int>, number: int, sample: seq<int>, pick: PlannedPick)
    requires HasEuroPair(existingPicks) && |pair| == 2
    requires |sample| == 5 && NoDup(sample)
    requires multiset(sample) <= multiset(MainPool(ForbiddenFor(pair, existingPicks)))
    requires pick == PlannedPick(number, SortAsc(sample), pair)
    ensures DrawnFor(existingPicks, pick, pair, number)
  {
    var forbidden := ForbiddenFor(pair, existingPicks);
    var mainNumbers := SortAsc(sample);
    SortAscDistinct(sample);
    assert |mainNumbers| == |multiset(mainNumbers)| == |multiset(sample)| == 5;
    SubMultisetMembers(sample, MainPool(forbidden));
    forall k | 0 <= k < 5 ensures 1 <= mainNumbers[k] <= 50 && mainNumbers[k] !in forbidden {
      assert mainNumbers[k] in sample;
    }
    assert Elements(mainNumbers) * forbidden == {};
  }

  /** The closing check `len(all_euros_used) == 12` over the new picks' euro numbers. */
  method AllEurosCovered(additionalPicks: seq<PlannedPick>) returns (covered: bool)
    ensures covered <==> CoversAllEuros(additionalPicks)
  {
    var allEurosUsed := UnionOf(EuroLists(additionalPicks));
    covered := |allEurosUsed| == 12;
  }

  /** Picks carrying the fixed new pairs pass that check. */
  lemma FixedPairsCovered(additionalPicks: seq<PlannedPick>)
    requires |additionalPicks| == |NewEuroPairs|
    requires forall i :: 0 <= i < |additionalPicks| ==> additionalPicks[i].euro == NewEuroPairs[i]
    ensures CoversAllEuros(additionalPicks)
  {
    NewEuroPairsValid();
    assert EuroLists(additionalPicks) == NewEuroPairs;
  }
}
