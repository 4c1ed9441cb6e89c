/**
 * The planner for six additional picks (6_additional_picks.py). Given the existing picks it
 * chooses six new euro pairs that none of them uses and that together hold every euro
 * number 1..12, then draws for each new pair five main numbers that no existing pick
 * sharing a euro number with it contains; finally it checks those three constraints.
 */
module AdditionalPicks {
  import opened Wrappers
  import opened Sequences
  import opened Combinatorics
  import opened Text
  import RandomSource

  /** A pick of the planning scripts: its number, its main numbers and its euro numbers. */
  datatype PlannedPick = PlannedPick(number: int, main: seq<int>, euro: seq<int>)

  /** parse_existing_picks: the 18 picks already played. */
  function ExistingPicks(): seq<PlannedPick> {
    [ PlannedPick(1, [14, 21, 32, 39, 48], [2, 10]),
      PlannedPick(2, [7, 13, 16, 47, 50], [1, 12]),
      PlannedPick(3, [8, 10, 23, 27, 39], [4, 8]),
      PlannedPick(4, [17, 20, 33, 36, 48], [6, 7]),
      PlannedPick(5, [11, 28, 32, 35, 36], [3, 5]),
      PlannedPick(6, [12, 25, 40, 43, 44], [9, 11]),
      PlannedPick(7, [1, 29, 30, 49, 50], [4, 8]),
      PlannedPick(8, [3, 19, 22, 40, 42], [3, 5]),
      PlannedPick(9, [31, 33, 37, 45, 49], [1, 12]),
      PlannedPick(10, [2, 4, 9, 26, 44], [6, 7]),
      PlannedPick(11, [18, 34, 41, 43, 46], [9, 11]),
      PlannedPick(12, [5, 6, 15, 24, 38], [2, 10]),
      PlannedPick(13, [17, 22, 36, 40, 43], [8, 12]),
      PlannedPick(14, [3, 7, 8, 18, 23], [2, 6]),
      PlannedPick(15, [3, 7, 13, 31, 33], [9, 10]),
      PlannedPick(16, [4, 12, 16, 26, 45], [4, 5]),
      PlannedPick(17, [8, 21, 28, 39, 45], [7, 11]),
      PlannedPick(18, [8, 18, 21, 25, 43], [1, 3]) ]
  }

  /** The attempts of the random search for covering pairs. */
  const MaxPairAttempts := 10000

  // ---------------------------------------------------------------------------------
  // Used pairs and forbidden main numbers

  /** The euro pairs the picks use, each as its sorted tuple `tuple(sorted(euro_numbers))`. */
  function UsedPairs(picks: seq<PlannedPick>): set<seq<int>> {
    if picks == [] then {}
    else UsedPairs(picks[..|picks| - 1]) + {SortAsc(picks[|picks| - 1].euro)}
  }

  /** A pair is used exactly when it is the sorted euro list of some pick. */
  lemma UsedPairsMembers(picks: seq<PlannedPick>, pair: seq<int>)
    ensures pair in UsedPairs(picks) <==> exists i :: 0 <= i < |picks| && pair == SortAsc(picks[i].euro)
  {
    if pair in UsedPairs(picks) {
      UsedPairFrom(picks, pair);
    }
    if exists i :: 0 <= i < |picks| && pair == SortAsc(picks[i].euro) {
      var i :| 0 <= i < |picks| && pair == SortAsc(picks[i].euro);
      UsedPairOf(picks, i);
    }
  }

  lemma {:induction false} UsedPairOf(picks: seq<PlannedPick>, i: int)
    requires 0 <= i < |picks|
    ensures SortAsc(picks[i].euro) in UsedPairs(picks)
  {
    var init := picks[..|picks| - 1];
    if i < |init| {
      UsedPairOf(init, i);
      assert init[i] == picks[i];
    }
  }

  lemma {:induction false} UsedPairFrom(picks: seq<PlannedPick>, pair: seq<int>)
    requires pair in UsedPairs(picks)
    ensures exists i :: 0 <= i < |picks| && pair == SortAsc(picks[i].euro)
  {
    var init := picks[..|picks| - 1];
    if pair in UsedPairs(init) {
      UsedPairFrom(init, pair);
      var i :| 0 <= i < |init| && pair == SortAsc(init[i].euro);
      assert picks[i] == init[i];
    } else {
      assert pair == SortAsc(picks[|picks| - 1].euro);
    }
  }

  /** get_used_euro_pairs: the loop adding each pick's sorted euro tuple to a set. */
  method GetUsedEuroPairs(existingPicks: seq<PlannedPick>) returns (usedPairs: set<seq<int>>)
    ensures usedPairs == UsedPairs(existingPicks)
  {
    usedPairs := {};
    for i := 0 to |existingPicks|
      invariant usedPairs == UsedPairs(existingPicks[..i])
    {
      assert existingPicks[..i + 1][..i] == existingPicks[..i];
      usedPairs := usedPairs + {SortAsc(existingPicks[i].euro)};
    }
    assert existingPicks[..|existingPicks|] == existingPicks;
  }

  /** The two lists have a number in common. */
  predicate Shares(a: seq<int>, b: seq<int>) {
    exists y :: y in a && y in b
  }

  /** Shares is the script's test `set(a) & set(b)` (a non-empty intersection). */
  lemma SharesIntersection(a: seq<int>, b: seq<int>)
    ensures Shares(a, b) <==> Elements(a) * Elements(b) != {}
  {
    if Shares(a, b) {
      var y :| y in a && y in b;
      assert y in Elements(a) * Elements(b);
    }
    if !Shares(a, b) {
      forall y ensures y !in Elements(a) * Elements(b) {
        assert !(y in a && y in b);
      }
      assert Elements(a) * Elements(b) == {};
    }
  }

  /**
   * The main numbers a new pick with euro numbers newEuro may not use: the main numbers of
   * the existing picks that share a euro number with newEuro.
   */
  function ForbiddenMains(picks: seq<PlannedPick>, newEuro: seq<int>): set<int> {
    if picks == [] then {}
    else
      var last := picks[|picks| - 1];
      ForbiddenMains(picks[..|picks| - 1], newEuro) + if Shares(last.euro, newEuro) then Elements(last.main) else {}
  }

  /** x is forbidden exactly when some existing pick shares a euro number with newEuro and has x among its mains. */
  lemma {:induction false} ForbiddenMainsMembers(picks: seq<PlannedPick>, newEuro: seq<int>, x: int)
    ensures x in ForbiddenMains(picks, newEuro) <==>
      exists i :: 0 <= i < |picks| && x in picks[i].main && Shares(picks[i].euro, newEuro)
  {
    if picks != [] {
      var init := picks[..|picks| - 1];
      ForbiddenMainsMembers(init, newEuro, x);
      if exists i :: 0 <= i < |picks| && x in picks[i].main && Shares(picks[i].euro, newEuro) {
        var i :| 0 <= i < |picks| && x in picks[i].main && Shares(picks[i].euro, newEuro);
        if i < |init| {
          assert init[i] == picks[i];
        }
      }
      if x in ForbiddenMains(init, newEuro) {
        var i :| 0 <= i < |init| && x in init[i].main && Shares(init[i].euro, newEuro);
        assert picks[i] == init[i];
      }
    }
  }

  /** get_forbidden_main_numbers: the loop over the existing picks collecting those main numbers. */
  method GetForbiddenMainNumbers(existingPicks: seq<PlannedPick>, newEuroNumbers: seq<int>)
    returns (forbiddenNumbers: set<int>)
    ensures forbiddenNumbers == ForbiddenMains(existingPicks, newEuroNumbers)
  {
    forbiddenNumbers := {};
    var newEuroSet := Elements(newEuroNumbers);
    for i := 0 to |existingPicks|
      invariant forbiddenNumbers == ForbiddenMains(existingPicks[..i], newEuroNumbers)
    {
      var pick := existingPicks[i];
      assert existingPicks[..i + 1][..i] == existingPicks[..i];
      SharesIntersection(pick.euro, newEuroNumbers);
      if newEuroSet * Elements(pick.euro) != {} {
        forbiddenNumbers := forbiddenNumbers + Elements(pick.main);
      }
    }
    assert existingPicks[..|existingPicks|] == existingPicks;
  }

  // ---------------------------------------------------------------------------------
  // Euro pairs

  /** `list(combinations(range(1, 13), 2))`. */
  function AllPairs(): seq<seq<int>> {
    Combinations(Range(1, 12), 2)
  }

  /** The candidate pairs are exactly the pairs a < b of 1..12. */
  lemma AllPairsMember(p: seq<int>)
    ensures p in AllPairs() <==> |p| == 2 && 1 <= p[0] < p[1] <= 12
  {
    if p in AllPairs() {
      PairShape(Range(1, 12), 1, 12, p);
    } else if |p| == 2 && 1 <= p[0] < p[1] <= 12 {
      PairListed(Range(1, 12), 1, 12, p);
    }
  }

  /** Every strictly increasing pair of numbers of lo..hi is a 2-combination of lo..hi. */
  lemma PairListed(r: seq<int>, lo: int, hi: int, p: seq<int>)
    requires r == Range(lo, hi) && |p| == 2 && lo <= p[0] < p[1] <= hi
    ensures p in Combinations(r, 2)
  {
    RangeContains(lo, hi);
    CombinationsComplete(r, p);
  }

  /** A 2-combination of lo..hi is a strictly increasing pair of numbers of lo..hi. */
  lemma PairShape(r: seq<int>, lo: int, hi: int, p: seq<int>)
    requires r == Range(lo, hi) && p in Combinations(r, 2)
    ensures |p| == 2 && lo <= p[0] < p[1] <= hi
  {
    RangeContains(lo, hi);
    CombinationsMembers(r, 2, p);
    CombinationsAscending(r, 2, p);
    assert p[0] in multiset(r) && p[1] in multiset(r);
  }

  /** Each candidate pair is listed once, and there are 66 of them. */
  lemma AllPairsCount()
    ensures NoDup(AllPairs()) && |AllPairs()| == 66
  {
    var r := Range(1, 12);
    assert NoDup(r);
    CombinationsNoDup(r, 2);
    CombinationsCount(r, 2);
    PairCount(12);
  }

  /** Distinct positions give distinct selections when s has no duplicates. */
  lemma {:induction false} CombinationsNoDup<T>(s: seq<T>, k: nat)
    requires NoDup(s)
    ensures NoDup(Combinations(s, k))
    decreases |s|
  {
    if k > 0 && s != [] {
      var tail := s[1..];
      assert NoDup(tail);
      CombinationsNoDup(tail, k - 1);
      CombinationsNoDup(tail, k);
      PrependNoDup(s[0], Combinations(tail, k - 1));
      HeadNotInRest(s[0], tail, k);
      NoDupAppend(Prepend(s[0], Combinations(tail, k - 1)), Combinations(tail, k));
    }
  }

  lemma PrependNoDup<T>(x: T, cs: seq<seq<T>>)
    requires NoDup(cs)
    ensures NoDup(Prepend(x, cs))
  {
    var p := Prepend(x, cs);
    forall i, j | 0 <= i < j < |p| ensures p[i] != p[j] {
      assert p[i] == [x] + cs[i] && p[j] == [x] + cs[j];
      assert p[i][1..] == cs[i] && p[j][1..] == cs[j];
    }
  }

  /** The selections starting with x differ from those of a tail without x. */
  lemma HeadNotInRest<T>(x: T, tail: seq<T>, k: nat)
    requires x !in tail && k > 0
    ensures forall c :: c in Prepend(x, Combinations(tail, k - 1)) ==> c !in Combinations(tail, k)
  {
    forall c | c in Combinations(tail, k) ensures |c| > 0 && c[0] in tail {
      CombinationsMembers(tail, k, c);
      assert c[0] in multiset(c);
    }
    var cs := Combinations(tail, k - 1);
    forall c | c in Prepend(x, cs) ensures |c| > 0 && c[0] == x {
      var i :| 0 <= i < |cs| && Prepend(x, cs)[i] == c;
      assert Prepend(x, cs)[i] == [x] + cs[i];
    }
  }

  /** `[pair for pair in pairs if pair not in used]`. */
  function Unused(pairs: seq<seq<int>>, used: set<seq<int>>): (r: seq<seq<int>>)
    ensures forall p :: p in r <==> p in pairs && p !in used
    ensures NoDup(pairs) ==> NoDup(r)
  {
    if pairs == [] then []
    else if pairs[0] in used then Unused(pairs[1..], used)
    else [pairs[0]] + Unused(pairs[1..], used)
  }

  /** available_pairs: the candidate pairs not yet used. */
  function AvailablePairs(used: set<seq<int>>): seq<seq<int>> {
    Unused(AllPairs(), used)
  }

  /** All euro numbers of a list of pairs: `used_euros.update(pair)` for each pair. */
  function EuroUnion(pairs: seq<seq<int>>): set<int> {
    if pairs == [] then {} else EuroUnion(pairs[..|pairs| - 1]) + Elements(pairs[|pairs| - 1])
  }

  /** x is in the union exactly when some pair holds it. */
  lemma {:induction false} EuroUnionMembers(pairs: seq<seq<int>>, x: int)
    ensures x in EuroUnion(pairs) <==> exists i :: 0 <= i < |pairs| && x in pairs[i]
  {
    if pairs != [] {
      var init := pairs[..|pairs| - 1];
      EuroUnionMembers(init, x);
      if exists i :: 0 <= i < |pairs| && x in pairs[i] {
        var i :| 0 <= i < |pairs| && x in pairs[i];
        if i < |init| {
          assert init[i] == pairs[i];
        }
      }
      if x in EuroUnion(init) {
        var i :| 0 <= i < |init| && x in init[i];
        assert pairs[i] == init[i];
      }
    }
  }

  /** The covering test `len(used_euros) == 12`. */
  predicate CoversAll(pairs: seq<seq<int>>) {
    |EuroUnion(pairs)| == 12
  }

  /** The loop `for pair in pairs: used_euros.update(pair)`. */
  method UnionOf(pairs: seq<seq<int>>) returns (usedEuros: set<int>)
    ensures usedEuros == EuroUnion(pairs)
  {
    usedEuros := {};
    for i := 0 to |pairs|
      invariant usedEuros == EuroUnion(pairs[..i])
    {
      assert pairs[..i + 1][..i] == pairs[..i];
      usedEuros := usedEuros + Elements(pairs[i]);
    }
    assert pairs[..|pairs|] == pairs;
  }

  /** For pairs of 1..12, holding 12 distinct numbers means holding every number of 1..12. */
  lemma CoversAllMeans(pairs: seq<seq<int>>)
    requires forall i :: 0 <= i < |pairs| ==> AllIn(pairs[i], 1, 12)
    ensures CoversAll(pairs) <==> forall x :: 1 <= x <= 12 ==> x in EuroUnion(pairs)
  {
    var all := Elements(Range(1, 12));
    RangeContains(1, 12);
    RangeCard(1, 12);
    forall x | x in EuroUnion(pairs) ensures x in all {
      EuroUnionMembers(pairs, x);
      var i :| 0 <= i < |pairs| && x in pairs[i];
      var j :| 0 <= j < |pairs[i]| && pairs[i][j] == x;
    }
    if CoversAll(pairs) {
      SubsetSameCard(EuroUnion(pairs), all);
    }
    if forall x :: 1 <= x <= 12 ==> x in EuroUnion(pairs) {
      assert EuroUnion(pairs) == all;
    }
  }

  /** n pairs hold at most 2n numbers. */
  lemma {:induction false} UnionCard(pairs: seq<seq<int>>)
    requires forall i :: 0 <= i < |pairs| ==> |pairs[i]| == 2
    ensures |EuroUnion(pairs)| <= 2 * |pairs|
  {
    if pairs != [] {
      var init := pairs[..|pairs| - 1];
      UnionCard(init);
      ElementsCard(pairs[|pairs| - 1]);
    }
  }

  /** Dropping the pair at position j: the union is the union of the rest and that pair. */
  lemma UnionSplit(pairs: seq<seq<int>>, j: int)
    requires 0 <= j < |pairs|
    ensures EuroUnion(pairs) == EuroUnion(pairs[..j] + pairs[j + 1..]) + Elements(pairs[j])
  {
    var rest := pairs[..j] + pairs[j + 1..];
    forall x | x in EuroUnion(pairs) ensures x in EuroUnion(rest) + Elements(pairs[j]) {
      UnionSplitFrom(pairs, j, x);
    }
    forall x | x in EuroUnion(rest) ensures x in EuroUnion(pairs) {
      UnionSplitTo(pairs, j, x);
    }
  }

  lemma UnionSplitFrom(pairs: seq<seq<int>>, j: int, x: int)
    requires 0 <= j < |pairs| && x in EuroUnion(pairs)
    ensures x in EuroUnion(pairs[..j] + pairs[j + 1..]) || x in pairs[j]
  {
    var rest := pairs[..j] + pairs[j + 1..];
    EuroUnionMembers(pairs, x);
    EuroUnionMembers(rest, x);
    var i :| 0 <= i < |pairs| && x in pairs[i];
    if i < j {
      assert rest[i] == pairs[i];
    } else if i > j {
      assert rest[i - 1] == pairs[i];
    }
  }

  lemma UnionSplitTo(pairs: seq<seq<int>>, j: int, x: int)
    requires 0 <= j < |pairs| && x in EuroUnion(pairs[..j] + pairs[j + 1..])
    ensures x in EuroUnion(pairs)
  {
    var rest := pairs[..j] + pairs[j + 1..];
    EuroUnionMembers(pairs, x);
    EuroUnionMembers(rest, x);
    var i :| 0 <= i < |rest| && x in rest[i];
    if i < j {
      assert rest[i] == pairs[i];
    } else {
      assert rest[i] == pairs[i + 1];
    }
  }

  /** Six pairs covering twelve numbers are pairwise disjoint: each euro number is in exactly one pair. */
  lemma CoverDisjoint(pairs: seq<seq<int>>)
    requires |pairs| == 6 && CoversAll(pairs)
    requires forall i :: 0 <= i < |pairs| ==> |pairs[i]| == 2
    ensures forall i, j, x :: 0 <= i < j < |pairs| && x in pairs[i] ==> x !in pairs[j]
  {
    forall i, j, x | 0 <= i < j < |pairs| && x in pairs[i] && x in pairs[j] ensures false {
      SharedShrinks(pairs, i, j, x);
    }
  }

  /** A number two of the pairs share keeps the union below 2n. */
  lemma SharedShrinks(pairs: seq<seq<int>>, i: int, j: int, x: int)
    requires 0 <= i < j < |pairs| && x in pairs[i] && x in pairs[j]
    requires forall k :: 0 <= k < |pairs| ==> |pairs[k]| == 2
    ensures |EuroUnion(pairs)| < 2 * |pairs|
  {
    var rest := pairs[..j] + pairs[j + 1..];
    UnionSplit(pairs, j);
    assert rest[i] == pairs[i];
    EuroUnionMembers(rest, x);
    UnionCard(rest);
    var b := Elements(pairs[j]);
    ElementsCard(pairs[j]);
    assert EuroUnion(pairs) == EuroUnion(rest) + (b - {x});
    assert |b - {x}| == |b| - 1;
  }

  /** The systematic phase finds the combination at position j when it is the first covering one. */
  predicate FirstCovering(cs: seq<seq<seq<int>>>, j: int) {
    0 <= j < |cs| && CoversAll(cs[j]) && forall k :: 0 <= k < j ==> !CoversAll(cs[k])
  }

  /** The systematic phase of generate_new_euro_pairs: the first covering 6-combination, in itertools order. */
  method SystematicSearch(availablePairs: seq<seq<int>>) returns (r: Option<seq<seq<int>>>)
    ensures r.Some? ==> exists j :: FirstCovering(Combinations(availablePairs, 6), j) && Combinations(availablePairs, 6)[j] == r.value
    ensures r.None? ==> forall c :: c in Combinations(availablePairs, 6) ==> !CoversAll(c)
  {
    var combos := Combinations(availablePairs, 6);
    for j := 0 to |combos|
      invariant forall k :: 0 <= k < j ==> !CoversAll(combos[k])
    {
      var usedEuros := UnionOf(combos[j]);
      if |usedEuros| == 12 {
        assert FirstCovering(combos, j);
        return Some(combos[j]);
      }
    }
    return None;
  }

  /** Six distinct candidate pairs, none of them used, holding all 12 euro numbers. */
  predicate NewPairsOk(usedPairs: set<seq<int>>, pairs: seq<seq<int>>) {
    |pairs| == 6 && NoDup(pairs) && CoversAll(pairs)
    && forall i :: 0 <= i < |pairs| ==> pairs[i] in AllPairs() && pairs[i] !in usedPairs
  }

  /**
   * generate_new_euro_pairs(used_pairs): up to MaxPairAttempts random draws of 6 available
   * pairs, kept when they hold 12 euro numbers, then the systematic search; an error when
   * fewer than 6 pairs are available or no combination covers 1..12.
   */
  method GenerateNewEuroPairs(usedPairs: set<seq<int>>) returns (r: Result<seq<seq<int>>, string>)
    ensures r.Ok? ==> NewPairsOk(usedPairs, r.value)
    ensures r.Err? ==>
      (|AvailablePairs(usedPairs)| < 6 || forall c :: c in Combinations(AvailablePairs(usedPairs), 6) ==> !CoversAll(c))
  {
    var availablePairs := AvailablePairs(usedPairs);
    for attempt := 0 to MaxPairAttempts {
      if |availablePairs| < 6 {
        return Err("Not enough available pairs");
      }
      var candidatePairs := RandomSource.Sample(availablePairs, 6);
      var usedEuros := UnionOf(candidatePairs);
      if |usedEuros| == 12 {
        AvailableChoice(usedPairs, candidatePairs);
        return Ok(candidatePairs);
      }
    }
    var found := SystematicSearch(availablePairs);
    if found.Some? {
      CombinationsMembers(availablePairs, 6, found.value);
      AvailableChoice(usedPairs, found.value);
      return Ok(found.value);
    }
    return Err("Could not find 6 euro pairs that use all 12 numbers");
  }

  /** Six covering pairs taken from distinct positions of the available pairs are a valid choice. */
  lemma AvailableChoice(usedPairs: set<seq<int>>, pairs: seq<seq<int>>)
    requires |pairs| == 6 && CoversAll(pairs)
    requires multiset(pairs) <= multiset(AvailablePairs(usedPairs))
    ensures NewPairsOk(usedPairs, pairs)
  {
    var availablePairs := AvailablePairs(usedPairs);
    AllPairsCount();
    RandomSource.NoDupMultiset(pairs, availablePairs);
    SubMultisetMembers(pairs, availablePairs);
  }

  // ---------------------------------------------------------------------------------
  // New picks

  /** `[num for num in range(1, 51) if num not in forbidden]`. */
  function MainPool(forbidden: set<int>): (r: seq<int>)
    ensures Ascending(r)
    ensures forall x :: x in r <==> 1 <= x <= 50 && x !in forbidden
  {
    RangeContains(1, 50);
    KeepAllowed(Range(1, 50), forbidden)
  }

  function KeepAllowed(s: seq<int>, forbidden: set<int>): (r: seq<int>)
    requires Ascending(s)
    ensures Ascending(r)
    ensures forall x :: x in r <==> x in s && x !in forbidden
  {
    if s == [] then []
    else if s[0] in forbidden then KeepAllowed(s[1..], forbidden)
    else
      var rest := KeepAllowed(s[1..], forbidden);
      var r := [s[0]] + rest;
      assert forall i :: 0 <= i < |rest| ==> s[0] < rest[i] by {
        forall i | 0 <= i < |rest| ensures s[0] < rest[i] {
          assert rest[i] in s[1..];
        }
      }
      assert forall i :: 1 <= i < |r| ==> r[i] == rest[i - 1];
      r
  }

  /** The euro lists of the picks, in order. */
  function EuroLists(picks: seq<PlannedPick>): (r: seq<seq<int>>)
    ensures |r| == |picks| && forall i :: 0 <= i < |picks| ==> r[i] == picks[i].euro
  {
    seq(|picks|, i requires 0 <= i < |picks| => picks[i].euro)
  }

  /** Constraint 1: no new pick uses the euro pair of an existing pick. */
  predicate PairsDiffer(existingPicks: seq<PlannedPick>, newPicks: seq<PlannedPick>) {
    UsedPairs(existingPicks) * UsedPairs(newPicks) == {}
  }

  /** Constraint 2: the new picks hold all 12 euro numbers. */
  predicate CoversAllEuros(newPicks: seq<PlannedPick>) {
    CoversAll(EuroLists(newPicks))
  }

  /** Constraint 3 for one new pick: none of its main numbers is forbidden for its euro numbers. */
  predicate MainsAvoid(existingPicks: seq<PlannedPick>, pick: PlannedPick) {
    Elements(pick.main) * ForbiddenMains(existingPicks, pick.euro) == {}
  }

  /** The three constraints of the planner. */
  predicate ConstraintsMet(existingPicks: seq<PlannedPick>, newPicks: seq<PlannedPick>) {
    PairsDiffer(existingPicks, newPicks) && CoversAllEuros(newPicks)
    && forall i :: 0 <= i < |newPicks| ==> MainsAvoid(existingPicks, newPicks[i])
  }

  /** The pick numbered pickNumber for euroPair: 5 increasing main numbers of 1..50, none forbidden. */
  predicate PickFor(existingPicks: seq<PlannedPick>, pick: PlannedPick, pickNumber: int, euroPair: seq<int>) {
    pick.number == pickNumber && pick.euro == euroPair
    && |pick.main| == 5 && Ascending(pick.main) && AllIn(pick.main, 1, 50)
    && MainsAvoid(existingPicks, pick)
  }

  /** Each pick is the one numbered 13 + i for the i-th pair. */
  predicate PicksFor(existingPicks: seq<PlannedPick>, picks: seq<PlannedPick>, pairs: seq<seq<int>>) {
    |picks| <= |pairs| && forall k :: 0 <= k < |picks| ==> PickFor(existingPicks, picks[k], 13 + k, pairs[k])
  }

  lemma PicksForAppend(existingPicks: seq<PlannedPick>, picks: seq<PlannedPick>, pairs: seq<seq<int>>, pick: PlannedPick)
    requires PicksFor(existingPicks, picks, pairs) && |picks| < |pairs|
    requires PickFor(existingPicks, pick, 13 + |picks|, pairs[|picks|])
    ensures PicksFor(existingPicks, picks + [pick], pairs)
  {
    var next := picks + [pick];
    assert forall k :: 0 <= k < |picks| ==> next[k] == picks[k];
  }

  /**
   * The body of the loop of generate_6_additional_picks for one new euro pair: the pick
   * numbered pickNumber with 5 sorted main numbers sampled from 1..50 without the forbidden
   * ones, or the error when fewer than 5 remain.
   */
  method PickForPair(existingPicks: seq<PlannedPick>, euroPair: seq<int>, pickNumber: int)
    returns (r: Result<PlannedPick, string>)
    ensures r.Err? <==> |MainPool(ForbiddenMains(existingPicks, euroPair))| < 5
    ensures r.Ok? ==> PickFor(existingPicks, r.value, pickNumber, euroPair)
  {
    var forbiddenNumbers := GetForbiddenMainNumbers(existingPicks, euroPair);
    var availableNumbers := MainPool(forbiddenNumbers);
    if |availableNumbers| < 5 {
      return Err("Not enough available main numbers for pick " + IntToString(pickNumber)
        + ". Need 5, have " + IntToString(|availableNumbers|));
    }
    var sample := RandomSource.Sample(availableNumbers, 5);
    var mainNumbers := SortAsc(sample);
    SortAscDistinct(sample);
    assert |mainNumbers| == |multiset(mainNumbers)| == |multiset(sample)| == 5;
    SubMultisetMembers(sample, availableNumbers);
    forall i | 0 <= i < 5 ensures 1 <= mainNumbers[i] <= 50 && mainNumbers[i] !in forbiddenNumbers {
      assert mainNumbers[i] in sample;
    }
    assert Elements(mainNumbers) * forbiddenNumbers == {};
    r := Ok(PlannedPick(pickNumber, mainNumbers, euroPair));
  }

  /** generate_new_euro_pairs raises: fewer than 6 pairs are unused, or no 6 of them hold all 12 euro numbers. */
  predicate PairsUnavailable(usedPairs: set<seq<int>>) {
    |AvailablePairs(usedPairs)| < 6 || forall c :: c in Combinations(AvailablePairs(usedPairs), 6) ==> !CoversAll(c)
  }

  /** Some unused candidate pair leaves fewer than 5 main numbers, so random.sample would raise for it. */
  predicate MainsRunOut(existingPicks: seq<PlannedPick>, usedPairs: set<seq<int>>) {
    exists p :: p in AllPairs() && p !in usedPairs && |MainPool(ForbiddenMains(existingPicks, p))| < 5
  }

  /**
   * generate_6_additional_picks: new euro pairs, then for the i-th pair the pick numbered
   * 13 + i; an error only when the pairs cannot be found or some unused pair leaves fewer
   * than 5 main numbers, so the planner succeeds whenever a covering choice exists and every
   * unused pair leaves at least 5.
   */
  method GenerateSixAdditionalPicks(existingPicks: seq<PlannedPick>) returns (r: Result<seq<PlannedPick>, string>)
    ensures r.Ok? ==> AdditionalPicksOk(existingPicks, r.value)
    ensures r.Err? ==> PairsUnavailable(UsedPairs(existingPicks)) || MainsRunOut(existingPicks, UsedPairs(existingPicks))
  {
    var usedEuroPairs := GetUsedEuroPairs(existingPicks);
    var pairs := GenerateNewEuroPairs(usedEuroPairs);
    if pairs.Err? {
      return Err(pairs.error);
    }
    var newEuroPairs := pairs.value;
    var newPicks: seq<PlannedPick> := [];
    for i := 0 to |newEuroPairs|
      invariant |newPicks| == i
      invariant PicksFor(existingPicks, newPicks, newEuroPairs)
    {
      var pick := PickForPair(existingPicks, newEuroPairs[i], 13 + i);
      if pick.Err? {
        assert newEuroPairs[i] in AllPairs() && newEuroPairs[i] !in usedEuroPairs;
        return Err(pick.error);
      }
      PicksForAppend(existingPicks, newPicks, newEuroPairs, pick.value);
      newPicks := newPicks + [pick.value];
    }
    NewPicksMeet(existingPicks, newPicks, newEuroPairs);
    return Ok(newPicks);
  }

  /**
   * What the planner promises of its six new picks: numbered 13..18, each with 5 increasing
   * main numbers of 1..50 and a pair a < b of 1..12, meeting all three constraints.
   */
  predicate AdditionalPicksOk(existingPicks: seq<PlannedPick>, newPicks: seq<PlannedPick>) {
    |newPicks| == 6
    && (forall i :: 0 <= i < |newPicks| ==>
      newPicks[i].number == 13 + i
      && |newPicks[i].main| == 5 && Ascending(newPicks[i].main) && AllIn(newPicks[i].main, 1, 50)
      && |newPicks[i].euro| == 2 && 1 <= newPicks[i].euro[0] < newPicks[i].euro[1] <= 12)
    && ConstraintsMet(existingPicks, newPicks)
  }

  /** Picks made for six valid new pairs meet all three constraints. */
  lemma NewPicksMeet(existingPicks: seq<PlannedPick>, newPicks: seq<PlannedPick>, pairs: seq<seq<int>>)
    requires NewPairsOk(UsedPairs(existingPicks), pairs)
    requires PicksFor(existingPicks, newPicks, pairs) && |newPicks| == |pairs|
    ensures AdditionalPicksOk(existingPicks, newPicks)
  {
    forall i | 0 <= i < |pairs| ensures |pairs[i]| == 2 && 1 <= pairs[i][0] < pairs[i][1] <= 12 {
      AllPairsMember(pairs[i]);
    }
    NewPairsFresh(existingPicks, newPicks, pairs);
  }

  /** Picks carrying increasing pairs that the existing picks do not use meet constraints 1 and 2 when the pairs cover. */
  lemma NewPairsFresh(existingPicks: seq<PlannedPick>, newPicks: seq<PlannedPick>, pairs: seq<seq<int>>)
    requires |newPicks| == |pairs| && CoversAll(pairs)
    requires forall i :: 0 <= i < |pairs| ==> newPicks[i].euro == pairs[i]
    requires forall i :: 0 <= i < |pairs| ==> |pairs[i]| == 2 && pairs[i][0] < pairs[i][1]
    requires forall i :: 0 <= i < |pairs| ==> pairs[i] !in UsedPairs(existingPicks)
    ensures PairsDiffer(existingPicks, newPicks) && CoversAllEuros(newPicks)
  {
    assert EuroLists(newPicks) == pairs;
    forall p | p in UsedPairs(newPicks) ensures p !in UsedPairs(existingPicks) {
      UsedPairsMembers(newPicks, p);
      var k :| 0 <= k < |newPicks| && p == SortAsc(newPicks[k].euro);
      PairSorted(pairs[k]);
    }
  }

  /** A pair in increasing order is its own sorted tuple. */
  lemma PairSorted(p: seq<int>)
    requires |p| == 2 && p[0] < p[1]
    ensures SortAsc(p) == p
  {
    assert NonDecreasing(p);
    SortAscOfSorted(p);
  }

  // ---------------------------------------------------------------------------------
  // Constraint verification

  /** What verify_constraints reports: each constraint, constraint 3 per new pick, and the overall verdict. */
  datatype ConstraintReport = ConstraintReport(
    pairsDiffer: bool, coversAll: bool, mainsAvoid: seq<bool>, allConstraintsMet: bool)

  /**
   * verify_constraints with the overall verdict covering all three constraints (the script's
   * own verdict covers only the third; see BannerIgnoresEuroConstraints).
   */
  method VerifyConstraints(existingPicks: seq<PlannedPick>, newPicks: seq<PlannedPick>)
    returns (report: ConstraintReport)
    ensures report.pairsDiffer <==> PairsDiffer(existingPicks, newPicks)
    ensures report.coversAll <==> CoversAllEuros(newPicks)
    ensures report.mainsAvoid == MainsChecks(existingPicks, newPicks)
    ensures report.allConstraintsMet <==> ConstraintsMet(existingPicks, newPicks)
  {
    var existingEuroPairs := GetUsedEuroPairs(existingPicks);
    var newEuroPairs := GetUsedEuroPairs(newPicks);
    var overlap := existingEuroPairs * newEuroPairs;
    var pairsDiffer := overlap == {};
    var allEurosInNew := UnionOf(EuroLists(newPicks));
    var coversAll := |allEurosInNew| == 12;
    var mainsAvoid, mainsMet := CheckEachPick(existingPicks, newPicks);
    report := ConstraintReport(pairsDiffer, coversAll, mainsAvoid, pairsDiffer && coversAll && mainsMet);
  }

  /** The loop of verify_constraints over the new picks: constraint 3 for each, and whether all meet it. */
  method CheckEachPick(existingPicks: seq<PlannedPick>, newPicks: seq<PlannedPick>)
    returns (mainsAvoid: seq<bool>, mainsMet: bool)
    ensures mainsAvoid == MainsChecks(existingPicks, newPicks)
    ensures mainsMet <==> forall i :: 0 <= i < |newPicks| ==> MainsAvoid(existingPicks, newPicks[i])
  {
    mainsMet := true;
    mainsAvoid := [];
    for i := 0 to |newPicks|
      invariant mainsAvoid == MainsChecks(existingPicks, newPicks[..i])
      invariant mainsMet <==> false !in mainsAvoid
    {
      var constraintMet := CheckMains(existingPicks, newPicks[i]);
      assert newPicks[..i + 1][..i] == newPicks[..i];
      mainsAvoid := mainsAvoid + [constraintMet];
      if !constraintMet {
        mainsMet := false;
      }
    }
    assert newPicks[..|newPicks|] == newPicks;
    MainsChecksMeans(existingPicks, newPicks);
  }

  /** Constraint 3 pick by pick, as the script reports it. */
  function MainsChecks(existingPicks: seq<PlannedPick>, newPicks: seq<PlannedPick>): seq<bool> {
    if newPicks == [] then []
    else MainsChecks(existingPicks, newPicks[..|newPicks| - 1]) + [MainsAvoid(existingPicks, newPicks[|newPicks| - 1])]
  }

  /** The i-th report entry is constraint 3 for the i-th new pick; all are true exactly when every pick meets it. */
  lemma {:induction false} MainsChecksMeans(existingPicks: seq<PlannedPick>, newPicks: seq<PlannedPick>)
    ensures |MainsChecks(existingPicks, newPicks)| == |newPicks|
    ensures forall i :: 0 <= i < |newPicks| ==> (MainsChecks(existingPicks, newPicks)[i] <==> MainsAvoid(existingPicks, newPicks[i]))
    ensures false !in MainsChecks(existingPicks, newPicks) <==> forall i :: 0 <= i < |newPicks| ==> MainsAvoid(existingPicks, newPicks[i])
  {
    if newPicks != [] {
      var init := newPicks[..|newPicks| - 1];
      MainsChecksMeans(existingPicks, init);
      var checks := MainsChecks(existingPicks, newPicks);
      assert forall i :: 0 <= i < |init| ==> checks[i] == MainsChecks(existingPicks, init)[i] && newPicks[i] == init[i];
      if false in checks {
        var i :| 0 <= i < |checks| && !checks[i];
      }
    }
  }

  /** Constraint 3 for one new pick: the forbidden main numbers it holds are none. */
  method CheckMains(existingPicks: seq<PlannedPick>, pick: PlannedPick) returns (constraintMet: bool)
    ensures constraintMet <==> MainsAvoid(existingPicks, pick)
  {
    var forbiddenNumbers := GetForbiddenMainNumbers(existingPicks, pick.euro);
    var violations := Elements(pick.main) * forbiddenNumbers;
    constraintMet := violations == {};
  }

  /** The flag the script's final banner reads: it is cleared only by constraint 3. */
  predicate BannerAsWritten(existingPicks: seq<PlannedPick>, newPicks: seq<PlannedPick>) {
    forall i :: 0 <= i < |newPicks| ==> MainsAvoid(existingPicks, newPicks[i])
  }

  /**
   * A new pick that reuses an existing euro pair, and with it covers only 2 euro numbers,
   * still gets the banner "all constraints satisfied".
   */
  lemma BannerIgnoresEuroConstraints()
    ensures var existing := [PlannedPick(1, [1, 2, 3, 4, 5], [1, 2])];
      var added := [PlannedPick(13, [6, 7, 8, 9, 10], [1, 2])];
      BannerAsWritten(existing, added) && !ConstraintsMet(existing, added)
  {
    var existing := [PlannedPick(1, [1, 2, 3, 4, 5], [1, 2])];
    var added := [PlannedPick(13, [6, 7, 8, 9, 10], [1, 2])];
    ReusedPairAvoidsMains(existing, added);
    ReusedPairShared(existing, added);
  }

  lemma ReusedPairAvoidsMains(existing: seq<PlannedPick>, added: seq<PlannedPick>)
    requires existing == [PlannedPick(1, [1, 2, 3, 4, 5], [1, 2])]
    requires added == [PlannedPick(13, [6, 7, 8, 9, 10], [1, 2])]
    ensures BannerAsWritten(existing, added)
  {
    assert ForbiddenMains(existing, [1, 2]) <= {1, 2, 3, 4, 5};
    assert Elements(added[0].main) == {6, 7, 8, 9, 10};
    assert MainsAvoid(existing, added[0]);
  }

  lemma ReusedPairShared(existing: seq<PlannedPick>, added: seq<PlannedPick>)
    requires existing == [PlannedPick(1, [1, 2, 3, 4, 5], [1, 2])]
    requires added == [PlannedPick(13, [6, 7, 8, 9, 10], [1, 2])]
    ensures !PairsDiffer(existing, added)
  {
    SortAscOfSorted([1, 2]);
    assert [1, 2] in UsedPairs(existing) * UsedPairs(added);
  }
}
