# Eurojackpot pick generators and draw analyses, modelled in Dafny

This project models the computational core of a Eurojackpot dashboard. A Eurojackpot pick holds
five main numbers out of 1..50 and two euro numbers out of 1..12. In earlier years the euro
numbers ran over 1..8, and later over 1..10.

The model covers four groups of code.

- **The pick generators of the web page.**
  - The random pick generator draws its main numbers either freely or one per decade
    (1-10, ..., 41-50).
  - The custom pick generator completes the numbers a user presets, optionally spreading the
    missing main numbers over the decades no preset occupies.
  - The shared `BaseGenerator` state keeps the list of generated picks and exports them as text.
  - The drawing routine `generateRandomNumbers` and the adjacency test `hasConsecutive` appear in
    three files with the same body. They are modelled once (`PickEngine`), together with the
    number parser `parseNumbers` (`NumberInput`).
- **The two offline planners for additional picks.**
  - They compute the euro pairs already used and the main numbers that shared euro numbers
    forbid.
  - They find six new euro pairs that together hold every euro number 1..12.
  - They draw main numbers that avoid the forbidden ones, and they verify the result.
- **The analysis scripts over the table of past draws.**
  - Frequency counters over 1..n, with the most and the least frequent number.
  - The hot/cold/neutral split and the validation of its output.
  - The even/odd pattern counts, against the hypergeometric distribution and its convolution
    with the euro-number table.
  - The sum distributions: theoretical ones over every combination, and empirical ones over the
    draws.
- **The sums chart of the web page.** This covers the main and euro sums of a record, the
  time-frame filter, the empirical distribution and the integer statistics.

Each script or page file in the source becomes one module. Code that the source writes as loops
over mutable state is modelled as methods with loop invariants; the generator objects become
classes whose fields the methods update. Each such method is proved against a specification
function, and the lemmas state what that function promises.

The table of draws is a sequence of rows. Each row holds a date and `Option<int>` cells, where
`None` stands for pandas' NaN. Randomness (`Math.random`, `random.sample`) is an oracle, in
module `RandomSource`: each draw promises only the range or the pool it comes from. Floating-point
ratios are exact `real` values.

## Model

| member | source | states |
|---|---|---|
| RandomSource.NextInt | js/modules/number-generator/number-generator.js:184 | `Math.floor(Math.random() * (max - min + 1)) + min` yields some integer of min..max |
| RandomSource.NextIntAvoiding | js/modules/number-generator/number-generator.js:194-199 | a retry loop that keeps drawing until a value outside the held and excluded numbers comes up ends with such a value of min..max |
| RandomSource.Sample | 6_additional_picks.py:165 | `random.sample(pool, k)` returns k elements taken from distinct positions of the pool; on a duplicate-free pool they are distinct |
| PickEngine.HasConsecutive | js/modules/number-generator/number-generator.js:204-212 | the sort-and-scan of hasConsecutive returns true exactly when some x and x + 1 both occur in the list, whatever its order |
| PickEngine.NoStepNoConsecutive | js/modules/number-generator/number-generator.js:205-211 | when no two neighbours of the sorted copy differ by one, the list holds no x, x + 1 pair (the false answer of hasConsecutive is sound) |
| PickEngine.SortedStep | js/modules/number-generator/number-generator.js:205-211 | a sorted list holding x and x + 1 has two neighbours one apart (the true answer of hasConsecutive is complete) |
| PickEngine.ConsecutiveOrderFree | js/modules/number-generator/number-generator.js:205 | holding a consecutive pair depends only on the values, so sorting a copy first changes nothing |
| PickEngine.DrawnPermutation | js/modules/number-generator/number-generator.js:201 | sorting a draw keeps it a valid draw: distinct, in range, none excluded |
| PickEngine.AttemptPhase | js/modules/number-generator/number-generator.js:183-192 | the bounded attempt loop keeps only new, non-excluded numbers of min..max, never more than count, and with avoidConsecutive set never a consecutive pair |
| PickEngine.FallbackPhase | js/modules/number-generator/number-generator.js:194-199 | the fallback loop extends what the attempt loop kept, unchanged, to exactly count valid numbers |
| PickEngine.GenerateRandomNumbers | js/modules/number-generator/number-generator.js:178-202 | count distinct numbers of min..max, none from excludeNumbers, in ascending order |
| PickEngine.FullRangeAvailable | js/modules/number-generator/random-pick.js:88 | with nothing excluded, min..max offers max - min + 1 numbers, so the 5-of-50 and 2-of-12 draws can finish |
| PickEngine.AvailableCard | js/modules/number-generator/custom-pick.js:116-117 | excluding k preset numbers still leaves at least max - min + 1 - k numbers to draw from |
| PickEngine.DecadeOf | js/modules/number-generator/random-pick.js:93 | every main number of 1..50 lies in exactly the decade ranges 1-10, ..., 41-50 that the balanced draw walks |
| PickEngine.OnePerDecadeAscending | js/modules/number-generator/random-pick.js:92-150 | one number per decade, in decade order, is an ascending, duplicate-free pick of 1..50 |
| PickEngine.DecadeDraw | js/modules/number-generator/random-pick.js:97-122 | the per-decade do-while ends after exactly one attempt with a number of that decade not yet held; its redraw and avoidConsecutive checks never fire |
| PickEngine.GenerateBalancedMain | js/modules/number-generator/random-pick.js:92-150 | generateBalancedMain returns one number from each of 1-10, 11-20, 21-30, 31-40, 41-50, ascending and distinct; the top-up loop has nothing to add |
| PickEngine.BalancedAllowsConsecutive | js/modules/number-generator/random-pick.js:101-116 | balanced mode can return 10 and 11 together although avoidConsecutive is on |
| PickEngine.Candidates | js/modules/number-generator/random-pick.js:200-202 | the filter keeps exactly the input numbers of the decade that were not picked before |
| PickEngine.PickPerDecade | js/modules/number-generator/random-pick.js:198-207 | the first pass of balanceMainNumbers takes at most one input number per decade, in decade order, and hits a decade exactly when the input does |
| PickEngine.PickInDecade | js/modules/number-generator/random-pick.js:199-206 | one decade step adds at most one input number of that decade and leaves the other decades as they were |
| PickEngine.WithoutSplit | js/modules/number-generator/random-pick.js:209-210 | the first-pass picks and the leftovers together are part of the input, and all of it when the input is duplicate-free |
| PickEngine.BalanceMainNumbers | js/modules/number-generator/random-pick.js:193-216 | at most five numbers, sorted, all from the input; every decade (1-10, ..., 41-50) the input reaches is reached by the result; for a duplicate-free input, distinct and min(5, input length) of them |
| PickEngine.DecadesCarry | js/modules/number-generator/random-pick.js:193-216 | the first-pass picks keep their decades once moved into the final, sorted result |
| NumberInput.DigitValue | js/modules/number-generator/number-generator.js:218 | a character is a digit of base 10 or 16 with a value below the base, or none |
| NumberInput.LeadingDigits | js/modules/number-generator/number-generator.js:218 | parseInt reads the longest run of digits at the front and stops at the first non-digit |
| NumberInput.ParseIntRoundTrip | js/modules/number-generator/number-generator.js:218 | `parseInt` reads back every integer exactly as a template literal or `join` renders it |
| NumberInput.ParseNatural | js/modules/number-generator/number-generator.js:218 | the round trip for non-negative numbers |
| NumberInput.ParseNegative | js/modules/number-generator/number-generator.js:218 | the round trip for negative numbers, through the leading minus |
| NumberInput.ParseSigned | js/modules/number-generator/number-generator.js:218 | after leading blanks, a `-` negates the magnitude parsed after it and a `+` keeps it |
| NumberInput.MagnitudeOfNat | js/modules/number-generator/number-generator.js:218 | the decimal digits of a natural number parse to that number |
| NumberInput.DigitsOfNat | js/modules/number-generator/number-generator.js:218 | rendered digits are all decimal digits and denote the number rendered |
| NumberInput.LeadingDigitsAll | js/modules/number-generator/number-generator.js:218 | a text made only of digits is read in full |
| NumberInput.IndexOf | js/modules/number-generator/number-generator.js:221 | the first position at which a value occurs |
| NumberInput.Dedup | js/modules/number-generator/number-generator.js:221 | `[...new Set(numbers)]` is duplicate-free and holds exactly the values of its input |
| NumberInput.DedupOrder | js/modules/number-generator/number-generator.js:221 | a Set spread keeps values in the order of their first occurrence |
| NumberInput.DedupNoDup | js/modules/number-generator/number-generator.js:221 | a duplicate-free list passes through the Set spread unchanged |
| NumberInput.DedupAllIn | js/modules/number-generator/number-generator.js:221 | removing duplicates keeps every value in min..max |
| NumberInput.FieldValues | js/modules/number-generator/number-generator.js:217-218 | one parse result per comma field |
| NumberInput.Kept | js/modules/number-generator/number-generator.js:219 | the NaN and range filter keeps only numbers of min..max |
| NumberInput.KeptMembers | js/modules/number-generator/number-generator.js:219 | a number survives the filter exactly when it lies in min..max and some field parses to it |
| NumberInput.KeptAll | js/modules/number-generator/number-generator.js:219 | the filter keeps a list of in-range numbers whole and in order |
| NumberInput.ParseNumbers | js/modules/number-generator/number-generator.js:214-222 | parseNumbers returns [] on blank input, and always a duplicate-free list of numbers of min..max |
| NumberInput.ParseNumbersMembers | js/modules/number-generator/number-generator.js:214-222 | on non-blank input a number is returned exactly when it lies in min..max and some comma field parses to it |
| NumberInput.ParseNumbersOrder | js/modules/number-generator/number-generator.js:217-221 | numbers come out in the order in which the fields first name them |
| NumberInput.NumberField | js/modules/number-generator/number-generator.js:218 | a rendered number, alone or after the blank `join(', ')` adds, is a field that parses to that number |
| NumberInput.TrimSolid | js/modules/number-generator/number-generator.js:218 | trimming leaves a text that starts and ends with a non-blank character unchanged |
| NumberInput.TrimBlanked | js/modules/number-generator/number-generator.js:218 | trimming removes the blank that `join(', ')` puts before a number |
| NumberInput.SplitJoinedNumbers | js/modules/number-generator/number-generator.js:217 | splitting an exported number list at commas gives one field per number |
| NumberInput.FieldValuesOfNumbers | js/modules/number-generator/number-generator.js:217-218 | each field of an exported number list parses to its number |
| NumberInput.NumberFieldAt | js/modules/number-generator/number-generator.js:218 | field i of an exported number list parses to number i |
| NumberInput.ParseJoinedNumbers | js/modules/number-generator/number-generator.js:214-222 | round trip with the export format: parseNumbers reads a duplicate-free list of numbers of min..max back from its `join(', ')` rendering |
| Text.TrimStart | js/modules/number-generator/number-generator.js:215 | drops exactly the leading whitespace: a suffix of the input, starting with a non-blank character or empty |
| Text.TrimEnd | js/modules/number-generator/number-generator.js:215 | drops exactly the trailing whitespace: a prefix of the input, ending with a non-blank character or empty |
| Text.Trim | js/modules/number-generator/number-generator.js:215 | `trim()` is empty exactly when the input is all whitespace, which is the `!input.trim()` test |
| Text.Split | js/modules/number-generator/number-generator.js:217 | `split(',')` gives at least one field, and no field holds a comma |
| Text.JoinSplit | js/modules/number-generator/number-generator.js:217 | joining the fields again with the separator restores the text |
| Text.SplitJoin | js/modules/number-generator/number-generator.js:159-161 | splitting a join of separator-free fields gives the fields back |
| Text.NatToString | js/modules/number-generator/number-generator.js:156 | a natural number renders as decimal digits without leading zeros |
| Text.IntToString | js/modules/number-generator/number-generator.js:159 | a number renders as an optional minus and decimal digits |
| Text.NumberFields | js/modules/number-generator/number-generator.js:159 | the comma fields of `join(', ')`: the first number, then each of the others after one blank |
| Text.BlankFields | js/modules/number-generator/number-generator.js:159 | each number after the blank that follows a comma |
| Text.JoinNumbersFields | js/modules/number-generator/number-generator.js:159 | `join(', ')` is a comma join of those fields |
| PickExport.Lines | js/modules/number-generator/number-generator.js:158-162 | one export line per pick |
| PickExport.ExportBody | js/modules/number-generator/number-generator.js:158-162 | the forEach that appends pick lines builds the body, which splits into exactly one line per pick, numbered from 1, plus the empty tail after the last newline |
| PickExport.JoinNumbersOneLine | js/modules/number-generator/number-generator.js:159-160 | a joined number list holds no newline |
| PickExport.PickLineOneLine | js/modules/number-generator/number-generator.js:161 | a `Pick i: Main: ... \| Euro: ...` line holds no newline |
| PickExport.LinesFromAt | js/modules/number-generator/number-generator.js:161 | line i of the body is the line of pick i, numbered from the first index |
| PickExport.BodyJoin | js/modules/number-generator/number-generator.js:158-162 | the body is the pick lines joined by newlines, with a final newline |
| PickExport.BodyLines | js/modules/number-generator/number-generator.js:158-162 | read back line by line, the body gives one line per pick, in order |
| PickExport.FirstIndex | js/modules/number-generator/number-generator.js:154 | the first position of a character, or the length when it does not occur |
| PickExport.ReplaceFirst | js/modules/number-generator/number-generator.js:154 | `replace('-', ' ')` with a string pattern changes only the first occurrence |
| NumberGenerator.BaseGenerator.constructor | js/modules/number-generator/number-generator.js:99-102 | a new generator has its type and no picks |
| NumberGenerator.BaseGenerator.DisplayResults | js/modules/number-generator/number-generator.js:123-124 | displaying picks makes them the generated picks |
| NumberGenerator.BaseGenerator.ExportResults | js/modules/number-generator/number-generator.js:151-162 | nothing is exported exactly when there are no picks; otherwise the header (title, time, count, empty line) followed by one line per pick |
| RandomPick.RandomPickGenerator.constructor | js/modules/number-generator/random-pick.js:2-11 | no picks; count 1, avoidConsecutive on, balanceRanges off |
| RandomPick.RandomPickGenerator.SetCount | js/modules/number-generator/random-pick.js:51-56 | the count handler sets count and nothing else |
| RandomPick.RandomPickGenerator.SetAvoidConsecutive | js/modules/number-generator/random-pick.js:58-62 | the checkbox handler sets avoidConsecutive and nothing else |
| RandomPick.RandomPickGenerator.SetBalanceRanges | js/modules/number-generator/random-pick.js:64-68 | the checkbox handler sets balanceRanges and nothing else |
| RandomPick.RandomPickGenerator.GenerateRandomMain | js/modules/number-generator/random-pick.js:83-90 | five distinct ascending numbers of 1..50, one per decade in balanced mode |
| RandomPick.RandomPickGenerator.GenerateRandomEuro | js/modules/number-generator/random-pick.js:152-154 | two distinct ascending numbers of 1..12 |
| RandomPick.RandomPickGenerator.Generate | js/modules/number-generator/random-pick.js:71-81 | count valid picks (none when count is not positive), balanced when balanceRanges is set; settings unchanged |
| RandomPick.RandomPickGenerator.DisplayResults | js/modules/number-generator/random-pick.js:218-220 | displaying picks makes them the generated picks and keeps the settings |
| RandomPick.RandomPickGenerator.ExportResults | js/modules/number-generator/random-pick.js:250-262 | nothing exported without picks; otherwise the header with the settings line, then one line per pick |
| CustomPick.Take | js/modules/number-generator/custom-pick.js:61-68 | `slice(0, n)`: the first min(n, length) elements |
| CustomPick.TakeKeeps | js/modules/number-generator/custom-pick.js:61-68 | a prefix of a duplicate-free in-range list is duplicate-free and in range |
| CustomPick.FreeDecades | js/modules/number-generator/custom-pick.js:128-137 | the decades that hold no preset number, ascending, each listed once |
| CustomPick.FreeFrom | js/modules/number-generator/custom-pick.js:135-137 | the free decades from a given one upwards, ascending |
| CustomPick.DecadeIndex | js/modules/number-generator/custom-pick.js:130 | `Math.floor((num - 1) / 10)` is the decade index of num |
| CustomPick.FreeDecadeEmpty | js/modules/number-generator/custom-pick.js:128-137 | a free decade contains no preset number |
| CustomPick.FreeDecadeDraw | js/modules/number-generator/custom-pick.js:149-155 | the per-decade do-while ends after one attempt with a number of that free decade that is neither preset nor drawn |
| CustomPick.FreeDecadePhase | js/modules/number-generator/custom-pick.js:142-160 | the first phase draws one number in each of the first min(needed, free) free decades, valid and in decade order |
| CustomPick.GenerateBalancedRemaining | js/modules/number-generator/custom-pick.js:124-171 | exactly needed valid numbers outside the presets, the first ones in the free decades in order |
| CustomPick.CustomPickGenerator.constructor | js/modules/number-generator/custom-pick.js:2-12 | no picks, count 1, no presets, balanceRanges off |
| CustomPick.CustomPickGenerator.SetCount | js/modules/number-generator/custom-pick.js:53-57 | the count handler sets count and nothing else |
| CustomPick.CustomPickGenerator.SetBalanceRanges | js/modules/number-generator/custom-pick.js:73-77 | the checkbox handler sets balanceRanges and nothing else |
| CustomPick.CustomPickGenerator.OnMainInput | js/modules/number-generator/custom-pick.js:59-64 | the main presets become the first five numbers parsed from the input within 1..50 |
| CustomPick.CustomPickGenerator.OnEuroInput | js/modules/number-generator/custom-pick.js:66-71 | the euro presets become the first two numbers parsed from the input within 1..12 |
| CustomPick.CustomPickGenerator.GenerateCustomMain | js/modules/number-generator/custom-pick.js:106-122 | five distinct ascending numbers of 1..50 that include every main preset |
| CustomPick.CustomPickGenerator.GenerateCustomEuro | js/modules/number-generator/custom-pick.js:173-183 | two distinct ascending numbers of 1..12 that include every euro preset |
| CustomPick.CustomPickGenerator.Generate | js/modules/number-generator/custom-pick.js:90-104 | count picks (none when count is not positive), each completing the presets; settings and presets unchanged |
| CustomPick.CustomPickGenerator.DisplayResults | js/modules/number-generator/custom-pick.js:222-224 | displaying picks makes them the generated picks and keeps settings and presets |
| CustomPick.CustomPickGenerator.ExportResults | js/modules/number-generator/custom-pick.js:256-268 | nothing exported without picks; otherwise the header with the balance-ranges settings line, then one line per pick |
| AdditionalPicks.UsedPairsMembers | 6_additional_picks.py:41-47 | a pair is used exactly when it is the sorted euro pair of some existing pick |
| AdditionalPicks.UsedPairOf | 6_additional_picks.py:44-46 | every pick's sorted euro pair is among the used pairs |
| AdditionalPicks.UsedPairFrom | 6_additional_picks.py:44-46 | every used pair comes from some pick |
| AdditionalPicks.GetUsedEuroPairs | 6_additional_picks.py:41-47 | the loop that adds `tuple(sorted(euro_numbers))` of each pick collects exactly the used pairs |
| AdditionalPicks.SharesIntersection | 6_additional_picks.py:62 | two euro lists overlap exactly when the intersection of their sets is non-empty |
| AdditionalPicks.ForbiddenMainsMembers | 6_additional_picks.py:49-67 | a main number is forbidden exactly when some existing pick holds it and shares a euro number with the new pair |
| AdditionalPicks.GetForbiddenMainNumbers | 6_additional_picks.py:49-67 | the loop collects exactly those forbidden main numbers |
| AdditionalPicks.AllPairsMember | 6_additional_picks.py:76 | `combinations(range(1, 13), 2)` holds exactly the pairs a < b of 1..12 |
| AdditionalPicks.PairListed | 6_additional_picks.py:76 | every increasing pair of a range is one of its 2-combinations |
| AdditionalPicks.PairShape | 6_additional_picks.py:76 | every 2-combination of a range is an increasing pair of it |
| AdditionalPicks.AllPairsCount | 6_additional_picks.py:76 | the 66 candidate pairs are distinct |
| AdditionalPicks.CombinationsNoDup | 6_additional_picks.py:76-105 | `combinations` of a duplicate-free list yields no combination twice |
| AdditionalPicks.Unused | 6_additional_picks.py:79 | the filter keeps exactly the candidate pairs that are not used, without duplicates when the candidates have none |
| AdditionalPicks.EuroUnionMembers | 6_additional_picks.py:94-96 | a euro number is in the union exactly when some chosen pair holds it |
| AdditionalPicks.UnionOf | 6_additional_picks.py:94-96 | the `update` loop computes that union |
| AdditionalPicks.CoversAllMeans | 6_additional_picks.py:98 | for pairs of 1..12, `len(used_euros) == 12` holds exactly when every euro number 1..12 is used |
| AdditionalPicks.UnionCard | 6_additional_picks.py:94-98 | n pairs cover at most 2n euro numbers |
| AdditionalPicks.CoverDisjoint | 6_additional_picks.py:73 | six pairs that cover all 12 numbers use each number exactly once: no two pairs share one |
| AdditionalPicks.SharedShrinks | 6_additional_picks.py:94-98 | two pairs that share a number cover fewer than 2n numbers |
| AdditionalPicks.UnionSplit | 6_additional_picks.py:94-96 | the union is the union of the other pairs plus the elements of one pair |
| AdditionalPicks.SystematicSearch | 6_additional_picks.py:105-110 | returns the first covering 6-combination in `combinations` order, or none when no 6-combination covers 1..12 |
| AdditionalPicks.GenerateNewEuroPairs | 6_additional_picks.py:69-112 | on success six distinct, unused, increasing pairs of 1..12 covering all 12 numbers; an error only when fewer than 6 pairs are available or no 6 of them cover 1..12 |
| AdditionalPicks.AvailableChoice | 6_additional_picks.py:91-105 | six covering pairs from distinct positions of the available list are a valid choice |
| AdditionalPicks.MainPool | 6_additional_picks.py:156 | the available main numbers are exactly 1..50 without the forbidden ones, ascending |
| AdditionalPicks.KeepAllowed | 6_additional_picks.py:156 | the filter keeps exactly the allowed values, in order |
| AdditionalPicks.EuroLists | 6_additional_picks.py:209-210 | the euro lists of the new picks, in order |
| AdditionalPicks.PicksForAppend | 6_additional_picks.py:149-172 | appending the pick for the next pair keeps every pick the one made for its pair |
| AdditionalPicks.PickForPair | 6_additional_picks.py:152-171 | an error exactly when fewer than 5 main numbers are allowed; otherwise pick 13 + i with 5 sorted allowed main numbers of 1..50 and the pair |
| AdditionalPicks.GenerateSixAdditionalPicks | 6_additional_picks.py:114-178 | on success six picks numbered 13..18, each with 5 increasing main numbers of 1..50 and an increasing euro pair of 1..12, meeting all three constraints; it fails only when fewer than 6 pairs are unused, when no 6 unused pairs hold all 12 euro numbers, or when some unused pair leaves fewer than 5 main numbers, so it succeeds whenever a covering choice exists and every unused pair leaves at least 5 |
| AdditionalPicks.NewPicksMeet | 6_additional_picks.py:3-7 | picks made for six valid new pairs meet all three constraints |
| AdditionalPicks.NewPairsFresh | 6_additional_picks.py:5-6 | new picks that carry six unused covering pairs meet constraints 1 and 2 |
| AdditionalPicks.PairSorted | 6_additional_picks.py:197 | sorting an increasing pair leaves it unchanged |
| AdditionalPicks.VerifyConstraints | 6_additional_picks.py:186-252 | reports constraint 1 (no pair reused), constraint 2 (all 12 euro numbers), constraint 3 for every pick, and an overall verdict that holds exactly when all three hold |
| AdditionalPicks.CheckEachPick | 6_additional_picks.py:220-245 | the loop records constraint 3 for each new pick, and all are met exactly when every pick meets it |
| AdditionalPicks.MainsChecksMeans | 6_additional_picks.py:220-245 | entry i is constraint 3 for pick i; no entry is false exactly when every pick meets it |
| AdditionalPicks.CheckMains | 6_additional_picks.py:223-241 | a pick meets constraint 3 exactly when none of its main numbers is forbidden for its euro numbers |
| AdditionalPicks.BannerIgnoresEuroConstraints | 6_additional_picks.py:218-251 | the script's final banner flag can be set although constraints 1 and 2 fail: a pick reusing an existing pair passes it |
| AdditionalPicks.ReusedPairAvoidsMains | 6_additional_picks.py:218-245 | in that example the banner flag stays set |
| AdditionalPicks.ReusedPairShared | 6_additional_picks.py:192-200 | in that example constraint 1 fails |
| AdditionalPicksSecond.UniqueExistingIsDeduplicated | 6_additional_picks_2.py:2-9 | the hand-written unique_existing is exactly the set existing_euro_pairs already is |
| AdditionalPicksSecond.NewEuroPairsValid | 6_additional_picks_2.py:9-15 | the fixed new pairs are six distinct increasing pairs of 1..12, none of them already used, covering all 12 euro numbers |
| AdditionalPicksSecond.NewEuroPairsDistinct | 6_additional_picks_2.py:15 | no new pair is listed twice |
| AdditionalPicksSecond.NewEuroPairsCandidates | 6_additional_picks_2.py:15 | every new pair is an increasing pair of 1..12 |
| AdditionalPicksSecond.NewEuroPairsUnused | 6_additional_picks_2.py:9-15 | no new pair is among the existing ones |
| AdditionalPicksSecond.NewEuroPairsCover | 6_additional_picks_2.py:11-15 | the new pairs use every euro number 1..12 |
| AdditionalPicksSecond.InEuroUnion | 6_additional_picks_2.py:77-79 | a number of one pair is in the union of the pairs |
| AdditionalPicksSecond.GetForbiddenMains | 6_additional_picks_2.py:21-29 | collects the main numbers of every existing pick whose two euro numbers include either number of the pair |
| AdditionalPicksSecond.ForbiddenForAgrees | 6_additional_picks_2.py:21-29 | for picks of two euro numbers this is the same forbidden set as in the first planner |
| AdditionalPicksSecond.SharesPair | 6_additional_picks_2.py:27 | the test `euro_pair[0] in pick_euros or euro_pair[1] in pick_euros` is the same as sharing a euro number |
| AdditionalPicksSecond.GenerateAdditionalPicks | 6_additional_picks_2.py:53-67 | on success one pick per fixed pair, numbered from 19, each with 5 sorted main numbers of 1..50 none of which is forbidden for its pair; `random.sample`'s error only when some pair leaves fewer than 5 main numbers |
| AdditionalPicksSecond.DrawPicks | 6_additional_picks_2.py:56-67 | the loop over any list of pairs, with the same promise |
| AdditionalPicksSecond.SampledMains | 6_additional_picks_2.py:57-61 | five sorted numbers sampled from the allowed pool make a pick whose main numbers avoid the forbidden ones |
| AdditionalPicksSecond.AllEurosCovered | 6_additional_picks_2.py:76-82 | the closing check `len(all_euros_used) == 12` holds exactly when the picks' euro numbers cover 1..12 |
| AdditionalPicksSecond.FixedPairsCovered | 6_additional_picks_2.py:76-82 | picks carrying the fixed new pairs always pass that check |
| HotCold.SortDescending | Data_Analysis/structured_pick_generator/generate_hot_cold_numbers.py:51 | `sort_values(..., ascending=False)` returns a permutation of the rows in non-increasing frequency order |
| HotCold.InsertDescending | Data_Analysis/structured_pick_generator/generate_hot_cold_numbers.py:51 | inserting a row into a descending list keeps it descending and adds exactly that row |
| HotCold.SortByNumber | Data_Analysis/structured_pick_generator/generate_hot_cold_numbers.py:82-86 | `sorted(..., key=number)` returns a permutation ordered by number |
| HotCold.InsertByNumber | Data_Analysis/structured_pick_generator/generate_hot_cold_numbers.py:82-86 | inserting a row into a list ordered by number keeps it ordered and adds exactly that row |
| HotCold.Head | Data_Analysis/structured_pick_generator/generate_hot_cold_numbers.py:54 | `head(k)` has min(k, length) rows |
| HotCold.Tail | Data_Analysis/structured_pick_generator/generate_hot_cold_numbers.py:63 | `tail(k)` has min(k, length) rows |
| HotCold.Neutral | Data_Analysis/structured_pick_generator/generate_hot_cold_numbers.py:72-73 | the neutral rows are exactly the rows whose number is neither hot nor cold |
| HotCold.CategorizeNumbers | Data_Analysis/structured_pick_generator/generate_hot_cold_numbers.py:36-86 | the categories are those of some descending-frequency arrangement of the rows: hot its first rows, cold its last rows, neutral the rest, each sorted by number |
| HotCold.NumbersPermutation | Data_Analysis/structured_pick_generator/generate_hot_cold_numbers.py:51-86 | rearranging rows rearranges their numbers |
| HotCold.NumbersSameMembers | Data_Analysis/structured_pick_generator/generate_hot_cold_numbers.py:82-86 | rearranging rows keeps the set of numbers |
| HotCold.NeutralNoDup | Data_Analysis/structured_pick_generator/generate_hot_cold_numbers.py:73 | filtering keeps numbers distinct |
| HotCold.NeutralNumbers | Data_Analysis/structured_pick_generator/generate_hot_cold_numbers.py:72-73 | the neutral numbers are all numbers minus the hot and cold ones |
| HotCold.SortByNumberRows | Data_Analysis/structured_pick_generator/generate_hot_cold_numbers.py:82-86 | sorting by number keeps the rows and their numbers |
| HotCold.HotPosition | Data_Analysis/structured_pick_generator/generate_hot_cold_numbers.py:54-83 | a hot row comes from the first hotCount positions of the frequency order |
| HotCold.ColdPosition | Data_Analysis/structured_pick_generator/generate_hot_cold_numbers.py:63-84 | a cold row comes from the last coldCount positions |
| HotCold.NeutralPosition | Data_Analysis/structured_pick_generator/generate_hot_cold_numbers.py:72-85 | a neutral row lies between the hot and the cold positions |
| HotCold.FrequencyOrder | Data_Analysis/structured_pick_generator/generate_hot_cold_numbers.py:50-79 | no neutral number is more frequent than a hot one or less frequent than a cold one, and when hot and cold do not overlap no cold number is more frequent than a hot one |
| HotCold.HotColdDistinct | Data_Analysis/structured_pick_generator/generate_hot_cold_numbers.py:54-69 | with distinct numbers and hot + cold <= rows, there are exactly hotCount hot and coldCount cold numbers, all distinct |
| HotCold.HeadTailDistinct | Data_Analysis/structured_pick_generator/generate_hot_cold_numbers.py:54-63 | the head and the tail do not overlap when hot + cold <= rows |
| HotCold.HeadTailNumbers | Data_Analysis/structured_pick_generator/generate_hot_cold_numbers.py:54-63 | hot and cold numbers are numbers of the table |
| HotCold.RearrangedPair | Data_Analysis/structured_pick_generator/generate_hot_cold_numbers.py:82-84 | sorting hot and cold by number keeps their sizes, distinctness and numbers |
| HotCold.RearrangedNumbers | Data_Analysis/structured_pick_generator/generate_hot_cold_numbers.py:82-86 | a rearrangement of rows with distinct numbers has the same distinct numbers |
| HotCold.Partition | Data_Analysis/structured_pick_generator/generate_hot_cold_numbers.py:36-86 | hot, cold and neutral together list every number of the table exactly once, with hotCount hot and coldCount cold ones |
| HotCold.SplitNumbers | Data_Analysis/structured_pick_generator/generate_hot_cold_numbers.py:72-73 | the excluded numbers followed by the rest list every number once |
| HotCold.ValidateOutput | Data_Analysis/structured_pick_generator/generate_hot_cold_numbers.py:216-293 | validate_output raises (at `min` of an empty list) exactly when the main check passes and there are no euro numbers |
| HotCold.DuplicateCheckRedundant | Data_Analysis/structured_pick_generator/generate_hot_cold_numbers.py:236-260 | once the sorted numbers are a run, the duplicate check cannot fail |
| HotCold.SortedIsRun | Data_Analysis/structured_pick_generator/generate_hot_cold_numbers.py:234-252 | `sorted(xs) == list(range(lo, hi + 1))` holds exactly when xs holds each of lo..hi once and nothing else |
| HotCold.ValidateOutputMeaning | Data_Analysis/structured_pick_generator/generate_hot_cold_numbers.py:216-293 | validation succeeds exactly when the main numbers are 1..50 once each, the euro numbers are one unbroken run of distinct numbers, and there are 10 hot, 10 cold, 3 hot euro and 3 cold euro numbers |
| HotCold.RunLength | Data_Analysis/structured_pick_generator/generate_hot_cold_numbers.py:150-151 | a table holding each of lo..hi once has hi - lo + 1 rows |
| HotCold.CategoriesOfRun | Data_Analysis/structured_pick_generator/generate_hot_cold_numbers.py:36-86 | categorising a table of each of lo..hi once yields each of lo..hi once, with the requested hot and cold counts |
| HotCold.MainCategoriesOfRun | Data_Analysis/structured_pick_generator/generate_hot_cold_numbers.py:138 | the main categories of a table of 1..50 hold each of 1..50 once, 10 hot and 10 cold |
| HotCold.EuroCategoriesOfRun | Data_Analysis/structured_pick_generator/generate_hot_cold_numbers.py:142 | the euro categories of a table of lo..hi with at least 6 rows form an unbroken run, 3 hot and 3 cold |
| HotCold.GeneratedDataValidates | Data_Analysis/structured_pick_generator/generate_hot_cold_numbers.py:297-306 | what generate_hot_cold_json produces from a main table of 1..50 and a euro table of at least 6 consecutive numbers always passes validate_output |
| EvenOdd.CountEven | Data_Analysis/Even_Odd_Analysis/generate_even_odd_csv.py:6-8 | count_even_numbers counts at most one per number |
| EvenOdd.CountEvenPositions | Data_Analysis/Even_Odd_Analysis/generate_even_odd_csv.py:6-8 | the count is the number of positions holding an even number (a missing value is not even) |
| EvenOdd.CountEvenAppend | Data_Analysis/Even_Odd_Analysis/generate_even_odd_csv.py:173-183 | counting over the seven combined columns is counting over the main and the euro columns and adding |
| EvenOdd.CountEvenBounds | Data_Analysis/Even_Odd_Analysis/generate_even_odd_csv.py:6-8 | the count is the length exactly when every value is even, and 0 exactly when none is |
| EvenOdd.Hypergeometric | Data_Analysis/Even_Odd_Analysis/generate_even_odd_csv.py:10-27 | never negative, and 0 exactly in the out-of-bounds cases the function tests first |
| EvenOdd.HypergeometricRatio | Data_Analysis/Even_Odd_Analysis/generate_even_odd_csv.py:18-27 | whenever the draw fits in the pool the value is C(nEven, kEven) C(nOdd, kOdd) / C(nTotal, kDraw); the bounds test is only a shortcut |
| EvenOdd.HypergeometricMirror | Data_Analysis/Even_Odd_Analysis/generate_even_odd_csv.py:18-27 | swapping the roles of even and odd mirrors the distribution |
| EvenOdd.HypergeometricTable | Data_Analysis/Even_Odd_Analysis/generate_even_odd_csv.py:63-67 | the theoretical table has exactly the keys 0..kDraw, each mapped to its hypergeometric probability |
| EvenOdd.HypergeometricPartialSum | Data_Analysis/Even_Odd_Analysis/generate_even_odd_csv.py:63-67 | the first m probabilities add up to the first m terms of Vandermonde's sum over C(nTotal, kDraw) |
| EvenOdd.HypergeometricSum | Data_Analysis/Even_Odd_Analysis/generate_even_odd_csv.py:63-67 | the theoretical probabilities of 0..kDraw even numbers add up to 1 |
| EvenOdd.HypergeometricTableSymmetric | Data_Analysis/Even_Odd_Analysis/generate_even_odd_csv.py:63-67 | with half the pool even, P(k even) = P(kDraw - k even) |
| EvenOdd.MainTableSum | Data_Analysis/Even_Odd_Analysis/generate_even_odd_csv.py:145-153 | the main-number table (5 of 1..50, 25 even) adds up to 1 |
| EvenOdd.MainTableSymmetric | Data_Analysis/Even_Odd_Analysis/generate_even_odd_csv.py:145-153 | the main-number table is symmetric: P(k even) = P(5 - k even) |
| EvenOdd.EuroTableAsWritten | Data_Analysis/Even_Odd_Analysis/generate_even_odd_csv.py:29-38 | the hard-coded euro table 1/4, 1/2, 1/4 has keys 0..2 and adds up to 1 |
| EvenOdd.EuroTable | Data_Analysis/Even_Odd_Analysis/generate_even_odd_csv.py:29-38 | the euro table for 2 numbers drawn without replacement from 1..m has keys 0..2 and adds up to 1 |
| EvenOdd.EuroTableAsWrittenDiffers | Data_Analysis/Even_Odd_Analysis/generate_even_odd_csv.py:29-38 | for every even pool size m (8, 10, 12) the exact probability of no even euro number is (m - 2) / (4 (m - 1)), below the hard-coded 1/4 |
| EvenOdd.NoEvenRatio | Data_Analysis/Even_Odd_Analysis/generate_even_odd_csv.py:24-27 | C(h, 2) / C(2h, 2) = (2h - 2) / (4 (2h - 1)) |
| EvenOdd.EuroTableTwelve | Data_Analysis/Even_Odd_Analysis/generate_even_odd_csv.py:29-38 | over 1..12 the exact probability of no even euro number is 5/22, not 0.25 |
| EvenOdd.ConvolutionTable | Data_Analysis/Even_Odd_Analysis/generate_even_odd_csv.py:108-117 | the combined table has exactly the totals 0..na + nb - 2 |
| EvenOdd.Combine | Data_Analysis/Even_Odd_Analysis/generate_even_odd_csv.py:108-119 | the nested loop adds a[m] b[e] into entry m + e for every pair, which yields the convolution of the two tables |
| EvenOdd.AddRow | Data_Analysis/Even_Odd_Analysis/generate_even_odd_csv.py:110-117 | the inner loop adds row m's contributions to the entries m..m + nb - 1 and touches no other key |
| EvenOdd.ConvolutionTableSum | Data_Analysis/Even_Odd_Analysis/generate_even_odd_csv.py:107-119 | the combined table adds up to the product of the sums of the two tables |
| EvenOdd.ConvolutionTableSumOne | Data_Analysis/Even_Odd_Analysis/generate_even_odd_csv.py:107-119 | combined with a table that adds up to 1, the other table's total is kept |
| EvenOdd.HypergeometricCombinedSum | Data_Analysis/Even_Odd_Analysis/generate_even_odd_csv.py:94-119 | the combined main and euro table adds up to whatever the euro table adds up to (so to 1 with a proper euro table) |
| EvenOdd.HypergeometricProbabilities | Data_Analysis/Even_Odd_Analysis/generate_even_odd_csv.py:63-67 | the loop fills the hypergeometric table |
| EvenOdd.CombinedTheoreticalProbabilities | Data_Analysis/Even_Odd_Analysis/generate_even_odd_csv.py:94-119 | the combined theoretical table is the convolution of the main table and the euro table |
| EvenOdd.EvenCounts | Data_Analysis/Even_Odd_Analysis/generate_even_odd_csv.py:47-51 | one even count per row |
| EvenOdd.EvenOddPatterns | Data_Analysis/Even_Odd_Analysis/generate_even_odd_csv.py:53-92 | fails (division by zero) exactly when there are no rows; otherwise row k, for k = 0..width, holds k, the number of draws with k even numbers and the theoretical probability of k |
| EvenOdd.PatternRowAt | Data_Analysis/Even_Odd_Analysis/generate_even_odd_csv.py:69-79 | row k's relative frequency is its absolute frequency divided by the number of draws |
| EvenOdd.CountEvenPerDraw | Data_Analysis/Even_Odd_Analysis/generate_even_odd_csv.py:47-51 | the loop computes the even count of every row |
| EvenOdd.AnalyzeEvenOddPatterns | Data_Analysis/Even_Odd_Analysis/generate_even_odd_csv.py:40-92 | the analysis yields those pattern rows |
| EvenOdd.PatternsTotal | Data_Analysis/Even_Odd_Analysis/generate_even_odd_csv.py:69-79 | the absolute frequencies add up to the number of draws |
| EvenOdd.PatternsRelativeSum | Data_Analysis/Even_Odd_Analysis/generate_even_odd_csv.py:69-79 | the relative frequencies add up to 1 |
| EvenOdd.CombinedEvenCounts | Data_Analysis/Even_Odd_Analysis/generate_even_odd_csv.py:178-183 | the combined even count of a draw is its main count plus its euro count |
| EvenOdd.EvenOddRun | Data_Analysis/Even_Odd_Analysis/generate_even_odd_csv.py:121-209 | the run fails with "division by zero" exactly when there are no draws; otherwise three tables: 6 rows for the main numbers, 3 for the euro numbers and 8 for all seven, row k holding the number of draws with k even numbers and the theoretical value from the main table, the euro table and their convolution |
| EvenOdd.RunEvenOddJobs | Data_Analysis/Even_Odd_Analysis/generate_even_odd_csv.py:141-209 | the three jobs run in order against the 5-of-50 table and the given euro table, stopping at the first failure, compute that run |
| EvenOdd.AnalyzeEvenOdd | Data_Analysis/Even_Odd_Analysis/generate_even_odd_csv.py:141-209 | main as written: the run with the 5-of-50 main table and the hard-coded 1/4, 1/2, 1/4 euro table, for the euro and the combined jobs alike |
| EvenOdd.AnalyzeEvenOddCorrected | Data_Analysis/Even_Odd_Analysis/generate_even_odd_csv.py:141-209 | the same run with the exact 2-of-12 euro table in place of the hard-coded one |
| EvenOdd.RunsDifferInTheory | Data_Analysis/Even_Odd_Analysis/generate_even_odd_csv.py:29-38 | on any non-empty table the two runs count the same euro patterns, but the theoretical value for no even euro number is 0.25 as written and 5/22 corrected |
| SumAnalysis.MainNumberSums | Data_Analysis/Sum_Number_Analysis/sum_number_analysis.py:29-32 | one sum per draw |
| SumAnalysis.MainNumberSumsMeaning | Data_Analysis/Sum_Number_Analysis/sum_number_analysis.py:29-32 | a complete row sums to Z1 + ... + Z5, and a row with every number missing sums to 0, as `sum(axis=1)` skips NaN |
| SumAnalysis.EuroSums | Data_Analysis/Sum_Number_Analysis/sum_number_analysis.py:37 | one euro sum per draw |
| SumAnalysis.Masked | Data_Analysis/Sum_Number_Analysis/sum_number_analysis.py:44-52 | `df.loc[mask, column]` keeps at most the entries of the column |
| SumAnalysis.MaskedEuroSums | Data_Analysis/Sum_Number_Analysis/sum_number_analysis.py:37-52 | masking the euro-sum column by a period is the same as summing the euro numbers of that period's draws |
| SumAnalysis.EuroSumsAppend | Data_Analysis/Sum_Number_Analysis/sum_number_analysis.py:37 | the euro-sum column is computed row by row |
| SumAnalysis.DrawingFrame.constructor | Data_Analysis/Sum_Number_Analysis/sum_number_analysis.py:14-27 | a frame holds the draws and has no euro_sum column yet |
| SumAnalysis.DrawingFrame.CalculateEuroNumberSums | Data_Analysis/Sum_Number_Analysis/sum_number_analysis.py:34-54 | adds the euro_sum column (EZ1 + EZ2 of every row) to the frame and returns its entries in 2012-03-23..2014-10-03, 2014-10-10..2022-03-18 and from 2022-03-25 on |
| SumAnalysis.PeriodSumsSize | Data_Analysis/Sum_Number_Analysis/sum_number_analysis.py:43-52 | no draw is counted in two periods |
| SumAnalysis.EmpiricalDistribution | Data_Analysis/Sum_Number_Analysis/sum_number_analysis.py:135-144 | one row per distinct sum |
| SumAnalysis.EmpiricalDistributionSound | Data_Analysis/Sum_Number_Analysis/sum_number_analysis.py:135-144 | `value_counts().sort_index()` lists each distinct sum once, ascending, with its number of occurrences; the frequencies add up to len(data) and the probabilities to 1 |
| SumAnalysis.ComboSums | Data_Analysis/Sum_Number_Analysis/sum_number_analysis.py:69 | one sum per combination |
| SumAnalysis.SumRows | Data_Analysis/Sum_Number_Analysis/sum_number_analysis.py:81-82 | one row per distinct sum |
| SumAnalysis.SumRowsSound | Data_Analysis/Sum_Number_Analysis/sum_number_analysis.py:81-82 | `np.unique(..., return_counts=True)` lists every sum once, ascending, with its count; counts add up to the number of sums and probabilities to 1 |
| SumAnalysis.TheoreticalSumDistribution | Data_Analysis/Sum_Number_Analysis/sum_number_analysis.py:56-133 | fails (at `min` of an empty list) exactly when there is no combination |
| SumAnalysis.CombosCount | Data_Analysis/Sum_Number_Analysis/sum_number_analysis.py:62-63 | there are C(n, k) combinations, so the distribution fails exactly when k > n |
| SumAnalysis.MainCombosCount | Data_Analysis/Sum_Number_Analysis/sum_number_analysis.py:62-63 | there are 2118760 main-number combinations |
| SumAnalysis.EuroCombosCount | Data_Analysis/Sum_Number_Analysis/sum_number_analysis.py:104-105 | there are m (m - 1) / 2 euro pairs |
| SumAnalysis.ComboShape | Data_Analysis/Sum_Number_Analysis/sum_number_analysis.py:62-63 | every combination is strictly increasing and lies in 1..n |
| SumAnalysis.AscendingSumAtLeast | Data_Analysis/Sum_Number_Analysis/sum_number_analysis.py:72-74 | k increasing numbers of at least lo sum to at least lo + ... + (lo + k - 1) |
| SumAnalysis.AscendingSumAtMost | Data_Analysis/Sum_Number_Analysis/sum_number_analysis.py:73-75 | k increasing numbers of at most hi sum to at most (hi - k + 1) + ... + hi |
| SumAnalysis.RangeSum | Data_Analysis/Sum_Number_Analysis/sum_number_analysis.py:74-75 | `sum(range(lo, hi + 1))` is (hi - lo + 1)(lo + hi) / 2 |
| SumAnalysis.RunIsCombo | Data_Analysis/Sum_Number_Analysis/sum_number_analysis.py:63 | a run of consecutive numbers inside 1..n is one of the combinations |
| SumAnalysis.ComboSumBounds | Data_Analysis/Sum_Number_Analysis/sum_number_analysis.py:72-75 | every combination's sum lies between the two extreme sums |
| SumAnalysis.SumBounds | Data_Analysis/Sum_Number_Analysis/sum_number_analysis.py:72-75 | the sums of k of 1..n lie between 1 + ... + k and (n - k + 1) + ... + n, and both ends are attained |
| SumAnalysis.TopRun | Data_Analysis/Sum_Number_Analysis/sum_number_analysis.py:75 | the top run (n - k + 1)..n is a combination with the largest sum |
| SumAnalysis.MainSumBounds | Data_Analysis/Sum_Number_Analysis/sum_number_analysis.py:72-75 | the expected minimum 15 and maximum 240 the script checks hold for every main combination |
| SumAnalysis.EuroSumBounds | Data_Analysis/Sum_Number_Analysis/sum_number_analysis.py:114-117 | the expected minimum 3 and maximum 2m - 1 hold for every euro pair, and both are attained |
| SumAnalysis.TheoreticalSumDistributionSound | Data_Analysis/Sum_Number_Analysis/sum_number_analysis.py:56-133 | with k <= n the distribution exists, every combination's sum has a row, each row counts the combinations with that sum, and the counts add up to C(n, k) |
| SumsChart.ParsedSum | js/modules/sums/sums.js:63-66 | `parseInt(a) + parseInt(b) + ...` is a number exactly when every field is one, and then it is their sum |
| SumsChart.RecordSums | js/modules/sums/sums.js:62-66 | a record with five main and two euro numbers gets mainSum Z1 + ... + Z5 and euroSum EZ1 + EZ2 |
| SumsChart.RecordMissingMain | js/modules/sums/sums.js:63 | one missing main number makes mainSum NaN |
| SumsChart.YearsBack | js/modules/sums/sums.js:88-101 | '1year', '2years', '3years' go back 1 to 3 years; every other time frame keeps all data |
| SumsChart.StartDate | js/modules/sums/sums.js:90-96 | the start date is the same day and month, the given number of years earlier (29 February rolls over) |
| SumsChart.Since | js/modules/sums/sums.js:103 | the filter keeps exactly the records dated on or after the start |
| SumsChart.SinceAppend | js/modules/sums/sums.js:103 | the filter works record by record and keeps their order |
| SumsChart.FilterDataByTimeFrame | js/modules/sums/sums.js:82-104 | empty data and 'max' or unknown time frames are returned unchanged; otherwise exactly the records since the start date |
| SumsChart.LongerTimeFrameKeepsMore | js/modules/sums/sums.js:82-104 | a longer time frame keeps every record a shorter one keeps |
| SumsChart.InsertBySum | js/modules/sums/sums.js:120 | inserting a point into a list sorted by sum keeps it sorted and adds exactly that point |
| SumsChart.SortBySum | js/modules/sums/sums.js:120 | `sort((a, b) => a.sum - b.sum)` yields a permutation sorted by sum |
| SumsChart.CreateEmpiricalDistributionFromData | js/modules/sums/sums.js:107-121 | the counting object turned into points and sorted by sum gives one point per distinct sum, ascending, valued by its number of occurrences |
| SumsChart.SortedHistogram | js/modules/sums/sums.js:115-120 | any arrangement of those points, once sorted by sum, is that histogram |
| SumsChart.CalculateStatistics | js/modules/sums/sums.js:124-146 | all zero for no data; otherwise min and max are the smallest and largest sums present, and the total is the sum of the values, added left to right, for frequency data and the number of points for probability data |
| SumsChart.SameMinMax | js/modules/sums/sums.js:142-143 | min and max depend only on the set of sums |
| SumsChart.EmpiricalStatistics | js/modules/sums/sums.js:107-146 | for an empirical distribution, min and max are the smallest and largest sum drawn and the total is the number of records |
| SumsChart.HistogramPointsSums | js/modules/sums/sums.js:115-120 | the points' sums are the distinct sums, ascending |
| SumsChart.HistogramPointsValueSum | js/modules/sums/sums.js:133-144 | the points' values add up to the number of records |
| SumsChart.Round | js/modules/sums/sums.js:179 | `Math.round` gives an integer within one half of its argument |
| SumsChart.DrawsShownUndercount | js/modules/sums/sums.js:172-179 | as written, the draw count shown (the empirical total over 5 or 2, rounded) is below the number of charted records whenever there are at least two |
| SumsChart.RoundQuotientBelow | js/modules/sums/sums.js:179 | rounding n / p with p >= 2 gives less than n once n >= 2 |
| SumsChart.TenMainRecordsShownAsTwo | js/modules/sums/sums.js:172-179 | ten records on the main chart are shown as 2 draws |
| SumsChart.DrawsShown | js/modules/sums/sums.js:172-179 | the corrected draw count, the empirical total itself, is the number of records |
| Frequency.Frequencies | Data_Analysis/Number_Frequency_Analysis/frequency_analysis_main_numbers.py:14 | the counter has exactly the keys 1..n |
| Frequency.CountFrequencies | Data_Analysis/Number_Frequency_Analysis/frequency_analysis_main_numbers.py:13-25 | the counting loops leave, for every number 1..n, how often it occurs among the present cells of the named columns, and a total equal to the number of in-range values; missing cells, out-of-range values and absent columns are skipped |
| Frequency.CountColumn | Data_Analysis/Number_Frequency_Analysis/frequency_analysis_main_numbers_2.py:39-44 | the inner loop over one column adds that column's present in-range values to the counter and the total |
| Frequency.CountTable | Data_Analysis/Number_Frequency_Analysis/frequency_analysis_main_numbers_2.py:50-59 | one bin per number 1..n |
| Frequency.CountTableTotal | Data_Analysis/Number_Frequency_Analysis/frequency_analysis_main_numbers_2.py:36-59 | the counts of the numbers 1..n add up to the running total |
| Frequency.CompleteColumnsTotal | Data_Analysis/Number_Frequency_Analysis/frequency_analysis_main_numbers_2.py:39-44 | when every named column is there with one valid cell per row, the total is the number of columns times the number of rows |
| Frequency.MainTotalExpected | Data_Analysis/Number_Frequency_Analysis/frequency_analysis_main_numbers_2.py:39-44 | a complete table of valid draws counts five main numbers per draw |
| Frequency.MissingColumns | Data_Analysis/Number_Frequency_Analysis/frequency_analysis_main_numbers_2.py:26-31 | lists exactly the required columns the frame lacks |
| Frequency.FrequencyRows | Data_Analysis/Number_Frequency_Analysis/frequency_analysis_main_numbers_2.py:50-59 | one result row per number 1..n |
| Frequency.AnalyzeMainNumberFrequencies | Data_Analysis/Number_Frequency_Analysis/frequency_analysis_main_numbers_2.py:6-59 | returns nothing exactly when one of Z1..Z5 is missing; otherwise one row per number 1..50 with its count and its relative frequency |
| Frequency.ResultRows | Data_Analysis/Number_Frequency_Analysis/frequency_analysis_main_numbers_2.py:50-59 | the results loop builds the rows for 1..n in order, each with the number, its count and count / total (0 when the total is 0) |
| Frequency.FrequencyRowsTotal | Data_Analysis/Number_Frequency_Analysis/frequency_analysis_main_numbers_2.py:50-59 | the rows list 1..n in order and their absolute frequencies add up to the total counted |
| Frequency.FrequencyRowsRelative | Data_Analysis/Number_Frequency_Analysis/frequency_analysis_main_numbers_2.py:50-59 | the relative frequencies add up to 1 when anything was counted, and are all 0 otherwise |
| Frequency.FirstMax | Data_Analysis/Number_Frequency_Analysis/frequency_analysis_main_numbers.py:52 | the position of the first largest count: no count is larger and every earlier count is smaller |
| Frequency.FirstMin | Data_Analysis/Number_Frequency_Analysis/frequency_analysis_main_numbers.py:53 | the position of the first smallest count: no count is smaller and every earlier count is larger |
| Frequency.CountList | Data_Analysis/Number_Frequency_Analysis/frequency_analysis_main_numbers.py:56-57 | the counts listed in key order, one per number 1..n |
| Frequency.CounterExtremes | Data_Analysis/Number_Frequency_Analysis/frequency_analysis_main_numbers.py:52-53 | the numbers picked by max and min are the first most and the first least frequent numbers in 1..n |
| Frequency.CounterMax | Data_Analysis/Number_Frequency_Analysis/frequency_analysis_main_numbers.py:52 | max over the counter's items picks the first number with the largest count |
| Frequency.CounterMin | Data_Analysis/Number_Frequency_Analysis/frequency_analysis_main_numbers.py:53 | min over the counter's items picks the first number with the smallest count |
| Frequency.NumberAnalysis | Data_Analysis/Number_Frequency_Analysis/frequency_analysis_main_numbers.py:7-111 | fails exactly when there is no number to count or nothing was counted (division by zero); otherwise the counter is the frequencies of 1..n and the most and least frequent numbers are the first ones with the largest and smallest count |
| Frequency.Extremes | Data_Analysis/Number_Frequency_Analysis/frequency_analysis_main_numbers.py:51-53 | the first most frequent and the first least frequent number, both in 1..n |
| Frequency.AnalyzeNumbers | Data_Analysis/Number_Frequency_Analysis/frequency_analysis_main_numbers.py:13-53 | the counting loops followed by the analysis compute that analysis of the named columns |
| Frequency.AnalyzeCounter | Data_Analysis/Number_Frequency_Analysis/frequency_analysis_main_numbers.py:27-53 | after the counting loops, the failures, the two counters and the extremes are those of the analysis |
| Frequency.CounterValuesOf | Data_Analysis/Number_Frequency_Analysis/frequency_analysis_main_numbers.py:56-57 | the counter's values in key order are the counts of 1..n |
| Frequency.NumberAnalysisOk | Data_Analysis/Number_Frequency_Analysis/frequency_analysis_main_numbers.py:29-53 | a successful analysis holds the counter, count / total per number and the extremes |
| Frequency.ExtremesOf | Data_Analysis/Number_Frequency_Analysis/frequency_analysis_main_numbers.py:52-53 | the extremes are the first maximum and the first minimum of the counts in key order |
| Frequency.AnalyzeMainNumbers | Data_Analysis/Number_Frequency_Analysis/frequency_analysis_main_numbers.py:7-111 | analyze_main_numbers counts the numbers 1..50 of Z1..Z5 |
| Frequency.AnalyzeEuroNumbers | Data_Analysis/Number_Frequency_Analysis/frequency_analysis_main_numbers.py:113-223 | analyze_euro_numbers counts the numbers 1..max_euro of EZ1 and EZ2 |
| Frequency.NumberAnalysisRelative | Data_Analysis/Number_Frequency_Analysis/frequency_analysis_main_numbers.py:29-30 | the relative frequencies of a successful analysis are count / total and add up to 1 |
| Frequency.BarColors | Data_Analysis/Number_Frequency_Analysis/frequency_analysis_main_numbers.py:174-181 | red exactly for the most frequent number, green exactly for the least frequent one when it is not also the most frequent, the normal colour for every other number |
| Frequency.PeriodResult | Data_Analysis/Number_Frequency_Analysis/frequency_analysis_main_numbers.py:263-276 | a period with no rows adds nothing; one with rows adds its number and analysis, or fails exactly when that analysis fails |
| Frequency.RunAnalysis | Data_Analysis/Number_Frequency_Analysis/frequency_analysis_main_numbers.py:225-276 | the run fails exactly when the main-number analysis or the analysis of a period with draws fails, and then with the error of the first failure in the order main, period 1, 2, 3; a finished run holds the main-number analysis of every draw |
| Frequency.RunReportsPeriods | Data_Analysis/Number_Frequency_Analysis/frequency_analysis_main_numbers.py:261-276 | a finished run holds one entry exactly for each period with draws, in period order, each the analysis of that period's euro numbers with 1..8, 1..10 or 1..12 |
| Frequency.JoinedPeriods | Data_Analysis/Number_Frequency_Analysis/frequency_analysis_main_numbers.py:261-276 | the periods' parts joined in order hold one entry per analysed period, in order, each that period's analysis |
| Frequency.PeriodsInOrder | Data_Analysis/Number_Frequency_Analysis/frequency_analysis_main_numbers.py:261-276 | joining three parts, each empty or holding its own period, yields strictly increasing period numbers, one entry per non-empty part |
| Frequency.AnalyzeAll | Data_Analysis/Number_Frequency_Analysis/frequency_analysis_main_numbers.py:225-276 | main computes that run: main numbers first, then the three `if len(interval_df) > 0` blocks, stopping at the first error |
| Frequency.AnalyzePeriod | Data_Analysis/Number_Frequency_Analysis/frequency_analysis_main_numbers.py:263-276 | one `if len(interval_df) > 0` block computes that period's part |
| Frequency.PeriodsDisjoint | Data_Analysis/Number_Frequency_Analysis/frequency_analysis_main_numbers.py:241-250 | no draw falls into two of the three euro-number periods |
| Draws.DateLeTotal | Data_Analysis/Sum_Number_Analysis/sum_number_analysis.py:43-51 | the date comparison the period masks use is a total order on calendar days |
| Draws.DateLeTransitive | Data_Analysis/Sum_Number_Analysis/sum_number_analysis.py:43-51 | the date comparison is transitive |
| Draws.EuroPeriodsDisjoint | Data_Analysis/Sum_Number_Analysis/sum_number_analysis.py:42-51 | no day lies in two of the periods 2012-03-23..2014-10-03, 2014-10-10..2022-03-18 and 2022-03-25 on |
| Draws.InPeriod | Data_Analysis/Sum_Number_Analysis/sum_number_analysis.py:43-52 | the mask keeps exactly the rows dated inside the window, and no more rows than the table has |
| Draws.InPeriodAppend | Data_Analysis/Sum_Number_Analysis/sum_number_analysis.py:44 | masking keeps the table order |
| Draws.EuroPeriodsCount | Data_Analysis/Sum_Number_Analysis/sum_number_analysis.py:43-52 | the three periods together hold at most as many rows as the table |
| Draws.Present | Data_Analysis/Number_Frequency_Analysis/frequency_analysis_main_numbers.py:22-23 | the cells that pass `pd.notna`, in order: exactly the numbers present |
| Draws.PresentComplete | Data_Analysis/Number_Frequency_Analysis/frequency_analysis_main_numbers.py:22-23 | with no cell missing, every cell's number is visited in order |
| Draws.PresentAppend | Data_Analysis/Number_Frequency_Analysis/frequency_analysis_main_numbers.py:20-25 | visiting two runs of cells visits the first and then the second |
| Draws.RowSumOfFive | Data_Analysis/Sum_Number_Analysis/sum_number_analysis.py:29-32 | a complete row sums to Z1 + Z2 + Z3 + Z4 + Z5 |
| Draws.RowSumOfTwo | Data_Analysis/Sum_Number_Analysis/sum_number_analysis.py:37 | a complete row sums to EZ1 + EZ2 |
| Tally.Count | Data_Analysis/Sum_Number_Analysis/sum_number_analysis.py:137 | the count of a value is its multiplicity |
| Tally.Distinct | Data_Analysis/Sum_Number_Analysis/sum_number_analysis.py:137 | the distinct values, strictly ascending, exactly those of the input |
| Tally.HistogramBins | Data_Analysis/Sum_Number_Analysis/sum_number_analysis.py:137 | the table lists the distinct values ascending, each with its multiplicity, at least 1 |
| Tally.HistogramTotal | Data_Analysis/Sum_Number_Analysis/sum_number_analysis.py:137-138 | the counts of the table add up to the number of values tallied |
| Tally.HistogramProbabilities | Data_Analysis/Sum_Number_Analysis/sum_number_analysis.py:138 | the relative frequencies of a non-empty tally add up to 1 |
| Tally.ProbabilitiesSum | Data_Analysis/Sum_Number_Analysis/sum_number_analysis.py:138 | count / n over the bins adds up to the total count / n |
| Combinatorics.MainCombinationCount | Data_Analysis/Sum_Number_Analysis/sum_number_analysis.py:66 | C(50, 5) is 50 * 49 * 48 * 47 * 46 / 120 = 2118760 |
| Combinatorics.PairCount | Data_Analysis/Sum_Number_Analysis/sum_number_analysis.py:108 | C(m, 2) is m (m - 1) / 2 |
| Combinatorics.BinomialPositive | Data_Analysis/Even_Odd_Analysis/generate_even_odd_csv.py:18-22 | C(n, k) is positive exactly when 0 <= k <= n |
| Combinatorics.CombinationsCount | Data_Analysis/Sum_Number_Analysis/sum_number_analysis.py:63-65 | itertools.combinations of a list of n elements yields C(n, k) combinations |
| Combinatorics.CombinationsMembers | Data_Analysis/Sum_Number_Analysis/sum_number_analysis.py:63 | each combination has k elements taken from different positions of the input |
| Combinatorics.CombinationsAscending | Data_Analysis/Sum_Number_Analysis/sum_number_analysis.py:63 | the combinations of an increasing list are increasing |
| Combinatorics.CombinationsComplete | Data_Analysis/Sum_Number_Analysis/sum_number_analysis.py:63 | every increasing selection from an increasing list is one of its combinations |
| Combinatorics.Vandermonde | Data_Analysis/Even_Odd_Analysis/generate_even_odd_csv.py:24-27 | the sum over i of C(a, i) C(b, k - i) is C(a + b, k), which makes the hypergeometric table add up to 1 |

## Left out

- **User interface and I/O.** Chart rendering, DOM access, event wiring and HTML strings are not modelled. Neither are `fetch`, CSV/JSON reading and writing, matplotlib output or console printing.
- **Module loading.** The `NumberGeneratorModule` loader and js/main.js are not part of this model.
- **The structured pick generator.** js/modules/number-generator/structured-pick.js is not part of this model. Its generate button is a stub, and the rest is visualisation.
- **The download step of `exportResults`.** The Blob/anchor download is not modelled. The clock reading and `toLocaleString` enter the export header as a string parameter.
- **Randomness.** Only the range or pool of each draw is modelled, never its distribution.
  - `NextIntAvoiding` stands for a retry loop whose rejected draws change nothing. Such a loop ends only with probability one; the model returns the value it ends with.
- **Floating point.** The mean of `calculateStatistics` (`toFixed`), weighted means and axis scaling are not modelled. Relative frequencies and probabilities are exact rationals, so float rounding is not modelled.
- **Dates and the clock.** Dates are (year, month, day) triples compared chronologically. "Now" is a parameter of the time-frame filter. The time-zone effect of js/modules/sums/sums.js:60-103 is not modelled: a record's date string parses as UTC midnight, while the start date is built at local midnight. West of UTC the source therefore drops a record dated on the start day itself, which the model keeps.
- **Tie order of the pandas sort.** `sort_values` with `ascending=False` uses an unspecified order among equal frequencies. `HotCold.SortDescending` promises only a permutation in descending order, and the hot and cold lists are stated for every such order.
- **The count selector.** Its handler stores `parseInt` of the selected option. The model takes the value as an integer and does not model a NaN count.
- **`parseInt`.** It is modelled for decimal and `0x` hexadecimal text, which is what a call without radix accepts. Fields such as "1e3" or "Infinity" are not modelled beyond their leading digits.
- SumsChart.CreateEmpiricalDistributionFromData: takes the sums as integers, so a record whose mainSum or euroSum is NaN (a missing number, see `SumsChart.RecordMissingMain`) is outside the model. The function counts such sums under the key "NaN", turns that key back into a NaN sum, and sorts with a comparator that returns NaN for it, an order JavaScript leaves unspecified (js/modules/sums/sums.js:107-121).
- PickEngine.GenerateRandomNumbers: requires that `count` numbers of the range remain outside the exclusion list. Without that the source's fallback loop never ends, so no error path exists to model.
- PickEngine.GenerateBalancedMain: the top-up loop after the decade loop is not modelled. The method proves the decade loop already leaves five numbers, so the top-up loop never runs.
- AdditionalPicksSecond.GenerateAdditionalPicks: takes the existing picks as a parameter, in place of the script's literal list of 18 picks. It requires each of them to carry at least two euro numbers (`HasEuroPair`), because the script indexes both.
- AdditionalPicks.ExistingPicks: the table of the 18 existing picks is a constant without its own contract. The lemmas about the planner hold for every table of picks.
- EvenOdd.CombinedTheoreticalProbabilities: takes the pool sizes and the euro table as parameters, instead of the script's fixed 50/25/5 and the euro table.
- EvenOdd.AnalyzeEvenOdd: the theoretical euro table is the same for every row, like the script, which ignores the euro ranges 1..8 and 1..10 of the earlier draws.

## Findings

| source | as written | input that shows it | evidently intended | confidence | as-written member | corrected member |
|---|---|---|---|---|---|---|
| 6_additional_picks.py:216-252 | the closing banner reports `all_constraints_met`, but only the main-number check can clear that flag; a repeated euro pair or an uncovered euro number still prints "ALL CONSTRAINTS SATISFIED" | existing pick 1 with mains 1..5 and euro pair (1, 2); new pick 13 with mains 6..10 and the same euro pair (1, 2) | the verdict covers all three constraints: new pairs unused, all 12 euro numbers covered, mains avoid the forbidden numbers | not executed | AdditionalPicks.BannerIgnoresEuroConstraints | AdditionalPicks.VerifyConstraints |
| Data_Analysis/Even_Odd_Analysis/generate_even_odd_csv.py:29-38 | the euro table is fixed at P(0 even) = 1/4, P(1 even) = 1/2, P(2 even) = 1/4, as if the two euro numbers were drawn independently | two distinct euro numbers from 1..12: P(no even) = C(6, 2) / C(12, 2) = 15/66 = 5/22, below 1/4 (likewise 3/14 for 1..8 and 2/9 for 1..10) | the hypergeometric probabilities of drawing 2 of 1..m without replacement, as for the main numbers | not executed | EvenOdd.EuroTableAsWrittenDiffers | EvenOdd.EuroTable |
| js/modules/sums/sums.js:172-179 | the draw count shown is `Math.round(empStats.total / 5)` on the main chart and `Math.round(empStats.total / 2)` on the euro charts (sums.js:364), as if the total counted numbers | ten records in the time frame: the empirical total is 10 (one sum per record), and the main chart shows 2 draws | the total itself, which already counts one sum per draw | not executed | SumsChart.DrawsShownUndercount | SumsChart.DrawsShown |
