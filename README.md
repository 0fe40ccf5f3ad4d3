# Pokémon tournament — a verified model of the simulation engine

The model covers two pages of the Pokémon tournament web application.

**The tournament page** (`pages/tournament.tsx`) does four things:

- It reads the creature catalogue.
- It builds 32 teams of 6 (`generateTeams`). Creatures with stats and positive health are kept and shuffled with Fisher–Yates. The result is cut into contiguous slices of 6, each member at full health.
- It runs a single-elimination tournament (`simulateTournament`). Each round pairs neighbours (0 with 1, 2 with 3, …) and plays the matches in order. The winner is read back from the last line of the battle log, restored to full health and sent on in match order. This repeats until one team is left.
- Each match is a battle (`simulateBattle`), a turn loop over copies of the two rosters. Each turn:
  - picks a living member on each side;
  - lets the faster one strike first, with a coin deciding equal speeds;
  - applies `max(1, ⌊atk × (crit ? 1.5 : 1)⌋)`, then `max(1, ⌊d × (1 − def/100)⌋)`;
  - floors health at 0 and logs a knockout;
  - lets a surviving defender strike back.

  The loop stops when a side has no living member or after 9999 turns. At that ceiling, team 1 wins only with strictly more summed health. `getRoundLabel` titles the bracket columns.

**The catalogue page** (`pages/index.tsx`) has two parts:

- The list under the search box (`filteredPokemons`). The placeholder "MissingNo." is dropped. An entry is kept when its lower-cased name contains the lower-cased search term, and its first type matches the selected type if one is selected.
- The type selector (`allTypes`): the distinct first-type names in the order they first appear.

## Design

- **Randomness.** `Math.random()` is replaced by a draw stream `rng: nat -> real` with values in [0, 1), plus a cursor. Every operation takes the index of its first unread draw and returns the index after its last. The order of the draws is exactly the source's:
  - the shuffle reads one draw per step, from the last index down to 1;
  - each turn reads the two picks, then the coin (only when speeds are equal, because `||`/`&&` short-circuit), then the opener's critical roll, then the counter's critical roll (only when the defender survives).

  With the stream fixed, the whole run is a function of the catalogue.
- **Imperative code stays imperative.** Each loop of the source is a method with a loop, proved equal to a function:
  - the Fisher–Yates shuffle works in place on an `array` (`TeamFactory.Shuffle`);
  - the team-building loop is `TeamFactory.GenerateTeams`;
  - the turn loop is `Combat.Fighting`/`Combat.SimulateBattle`;
  - the pairing loop is `Bracket.PairUp`;
  - the match loop is `Bracket.PlayRound`;
  - the health reset is `Bracket.RestoreHealth`;
  - the round loop is `Knockout.SimulateTournament`;
  - the `Set` loop is `Pokedex.AllTypes`.

  The properties are proved about those functions.
- **Teams and members are values.** `simulateBattle` copies the rosters (`map(p => ({...p}))`), so the input teams are left unchanged. This holds by construction in the model.
- **The referee.** The bracket is stated for any battle engine `play: (Team, Team, nat) -> BattleReport` that logs at least one line per battle (`Bracket.Sound`). `Bracket.Simulates(play, rng)` pins such an engine to `simulateBattle` on the stream `rng` for every pair of ready teams.
  - The methods that run battles call `Combat.SimulateBattle` itself. They take `play` as a ghost parameter only, to state their result.
  - `Bracket.EngineSimulates` shows such an engine exists.
  - `TournamentPage.PageRunAgrees` shows the page does not depend on which one is chosen.
- **Damage** is computed in exact integer arithmetic: `(atk * 3) / 2` for a critical hit and `(d * (100 - def)) / 100` for the mitigation. These use floor division, which is also right for negative values. `Combat.DamageIsExact` proves this equals the formula as the source writes it, over exact reals.
- **`toLowerCase`** is a parameter `lower: string -> string`. Nothing is assumed about it except where a lemma states it (`lower("") == ""`).

## Model

| member | source | states |
|---|---|---|
| Text.NatToString | pokemon-tournament/pages/tournament.tsx:200 | the decimal rendering of a team number is a non-empty string of digits |
| Text.NatToStringInjective | pokemon-tournament/pages/tournament.tsx:200 | distinct numbers render as distinct strings, so `Équipe ${i + 1}` names differ |
| Text.IntToString | pokemon-tournament/pages/tournament.tsx:35 | the rendering of `${round}` is non-empty and starts with '-' exactly when the number is negative |
| Text.IntToStringInjective | pokemon-tournament/pages/tournament.tsx:35 | distinct round numbers render differently |
| Text.SplitHead | pokemon-tournament/pages/tournament.tsx:251 | `split(sep)[0]` is a prefix of the string that ends at the first occurrence of the separator, or the whole string when there is none |
| Text.SplitHeadAtBoundary | pokemon-tournament/pages/tournament.tsx:251 | when the separator first occurs right after `p`, splitting gives back `p` |
| Seqs.Filter | pokemon-tournament/pages/index.tsx:109-121 | `filter` keeps exactly the elements passing the test: nothing else, and none of them lost; each passing value occurs exactly as often as in the input and a failing one not at all |
| Seqs.FilterIsSubsequence | pokemon-tournament/pages/index.tsx:109-121 | a filtered list is an order-preserving subsequence of its input |
| Seqs.FilterKeepsAll | pokemon-tournament/pages/index.tsx:111-121 | a filter every element passes returns the list unchanged |
| Seqs.FilterFilter | pokemon-tournament/pages/index.tsx:109-121 | two chained filters equal one filter on the conjunction |
| Seqs.Distinct | pokemon-tournament/pages/index.tsx:126-132 | the set read back has no duplicates and holds exactly the inserted elements |
| Seqs.DistinctFirstOccurrenceOrder | pokemon-tournament/pages/index.tsx:126-132 | the set is read back in order of first insertion |
| Random.Pick | pokemon-tournament/pages/tournament.tsx:191 | `Math.floor(draw * n)` is an index below n |
| Random.ScaleIsProduct | pokemon-tournament/pages/tournament.tsx:191 | the scaled draw is the product `draw * n` |
| Random.PickReaches | pokemon-tournament/pages/tournament.tsx:191 | every index below n is the pick of some draw, so the draw stream can make every choice the generator could |
| Pokedata.Healed | pokemon-tournament/pages/tournament.tsx:255-257 | the reset keeps the creature, leaves the member at full health, and changes nothing on a member already at full health |
| TeamFactory.ValidPokemons | pokemon-tournament/pages/tournament.tsx:180 | every kept creature has stats with positive health; every such creature of the input is kept, and nothing else; each eligible entry is kept as often as it occurs, so the 192 threshold counts every eligible entry of the catalogue |
| TeamFactory.Swap | pokemon-tournament/pages/tournament.tsx:192 | the destructuring swap exchanges positions i and j and leaves every other position as it was |
| TeamFactory.SwapPermutes | pokemon-tournament/pages/tournament.tsx:192 | a swap permutes the sequence |
| TeamFactory.FisherYatesFrom | pokemon-tournament/pages/tournament.tsx:190-193 | the Fisher–Yates loop from index `i` down to 1, keeping the length; `TeamFactory.FisherYatesPermutes` shows it permutes |
| TeamFactory.Shuffled | pokemon-tournament/pages/tournament.tsx:189-193 | the whole shuffle of a copy, keeping the length; `TeamFactory.ShuffledPool` states the permutation |
| TeamFactory.FisherYatesPermutes | pokemon-tournament/pages/tournament.tsx:189-193 | whatever the draws, the Fisher–Yates loop returns a permutation of its input |
| TeamFactory.SwapInPlace | pokemon-tournament/pages/tournament.tsx:192 | the array afterwards is the swapped old contents |
| TeamFactory.Shuffle | pokemon-tournament/pages/tournament.tsx:189-193 | the in-place loop leaves the array as the Fisher–Yates function of its old contents, having read length − 1 draws |
| TeamFactory.ShuffledPool | pokemon-tournament/pages/tournament.tsx:189-193 | the shuffled pool has the same multiset and length as the eligible creatures, so every entry is eligible |
| TeamFactory.TeamName | pokemon-tournament/pages/tournament.tsx:200 | `Équipe ${n}`; `TeamFactory.TeamNamesDistinct` and `TournamentPage.TeamNameHasNoR` state its properties |
| TeamFactory.TeamNamesDistinct | pokemon-tournament/pages/tournament.tsx:200 | two teams get the same name only when they have the same number |
| TeamFactory.Muster | pokemon-tournament/pages/tournament.tsx:196-199 | member k of a slice is creature k, a fighter at full health, so alive |
| TeamFactory.TeamAt | pokemon-tournament/pages/tournament.tsx:196-200 | team `i + 1` with name `Équipe ${i + 1}` and the mustered slice `[6i, 6i + 6)`; `TeamFactory.FormTeamsLayout` states the layout |
| TeamFactory.FormTeamsUpTo | pokemon-tournament/pages/tournament.tsx:195-201 | the build loop after n passes: n teams, team i + 1 pushed on pass i; `TeamFactory.FormTeamsUpToAt` and `FormTeamsPrefix` state what each holds |
| TeamFactory.FormTeams | pokemon-tournament/pages/tournament.tsx:194-201 | the 32 teams of the build loop; `TeamFactory.FormTeamsUpToAt`, `FormTeamsPrefix` and `FormTeamsLayout` state their contents |
| TeamFactory.FormTeamsUpToAt | pokemon-tournament/pages/tournament.tsx:195-201 | pass i of the loop builds team i from slice `[6i, 6i + 6)`, and later passes leave it alone |
| TeamFactory.FormTeamsPrefix | pokemon-tournament/pages/tournament.tsx:195-201 | the first n teams together hold exactly the first 6n shuffled entries, in order: the slices are contiguous and disjoint |
| TeamFactory.FormTeamsLayout | pokemon-tournament/pages/tournament.tsx:194-201 | the 32 teams: ids 1..32, names `Équipe 1`..`Équipe 32`, six members each, member k of team i the entry 6i + k, eligible and at full health |
| TeamFactory.GenerateTeams | pokemon-tournament/pages/tournament.tsx:180-201 | with fewer than 192 eligible creatures, no team and no draw; otherwise the 32 teams cut from the shuffled pool, with length − 1 draws read |
| TeamFactory.GeneratedTeams | pokemon-tournament/pages/tournament.tsx:180-200 | the generated teams are laid out as above, and their rosters are the first 192 entries of a permutation of the eligible creatures (a sub-multiset of them) |
| Combat.OpeningText | pokemon-tournament/pages/tournament.tsx:288 | the highlighted match-up line `⚔️ team1 affronte team2 ⚔️` that opens every battle log (`Combat.BattleOutcome`) |
| Combat.AttackText | pokemon-tournament/pages/tournament.tsx:329-331 | the attack line: attacker, its team, defender, the `Coup critique!` mark on a critical blow, and the damage |
| Combat.KoText | pokemon-tournament/pages/tournament.tsx:344 | the `est K.O. !` line, logged for the defender after the blow and for the attacker after the counter (line 371); `Combat.ExchangeOutcome` places the KO events |
| Combat.CounterText | pokemon-tournament/pages/tournament.tsx:366 | the counter-attack line with the counter damage |
| Combat.CeilingText | pokemon-tournament/pages/tournament.tsx:383 | the turn-limit line naming the team that wins on health; `Combat.BattleAtCeiling` and `Combat.BattleDecided` say exactly when it is logged |
| Combat.WinnerText | pokemon-tournament/pages/tournament.tsx:389 | the last line of every battle, which the bracket parses at lines 250-251; `Bracket.WinnerNameRecovers` states when the name reads back |
| Combat.MemberRecordOf | pokemon-tournament/pages/tournament.tsx:395-400 | a member's record in `battleData`: pokedex id, name, base health or null without stats, and the health at the end; `Combat.RecordedHealthInRange` bounds it |
| Combat.TeamRecordOf | pokemon-tournament/pages/tournament.tsx:391-411 | a team's record in `battleData`: id, name and one member record per roster member, as many as the roster holds |
| Combat.Damage | pokemon-tournament/pages/tournament.tsx:316-318 | every blow and counter-blow does at least 1 damage, whatever the attack and defence (defence ≥ 100 included) |
| Combat.DamageIsExact | pokemon-tournament/pages/tournament.tsx:316-318 | the integer formula equals the source's formula with 1.5 and 1 − def/100, over exact reals, for all inputs |
| Combat.Hit | pokemon-tournament/pages/tournament.tsx:319 | health after a blow is ≥ 0, strictly lower than a positive health before it, and 0 exactly when the damage reaches the health |
| Combat.Initiative | pokemon-tournament/pages/tournament.tsx:307-309 | side 1 goes first iff strictly faster, or equally fast with a coin draw below 0.5; the coin is drawn only on a tie |
| Combat.Living | pokemon-tournament/pages/tournament.tsx:303-304 | the living list holds only members with positive health, and is non-empty exactly when some member lives (`some`) |
| Combat.Alive | pokemon-tournament/pages/tournament.tsx:298-299 | `some(p => p.currentHp > 0)`: some member has positive health; `Combat.Living` is non-empty exactly when it holds |
| Combat.Ongoing | pokemon-tournament/pages/tournament.tsx:297-300 | the `while` condition: both sides have a living member and the turn count is below 9999; `Combat.Resolve` ends with it false |
| Combat.LivingInOrder | pokemon-tournament/pages/tournament.tsx:303-304 | the living list keeps roster order |
| Combat.LivingComplete | pokemon-tournament/pages/tournament.tsx:303-306 | every living member is listed; with `Combat.ChooseReaches` the pick can land on any of them |
| Combat.TotalHp | pokemon-tournament/pages/tournament.tsx:379-380 | the `reduce` summing every member's `currentHp`; `Combat.TotalHpUpdate` tracks one member's change and `Combat.TotalHpNonNegative` bounds it below by 0 |
| Combat.TotalHpUpdate | pokemon-tournament/pages/tournament.tsx:379-380 | replacing one member changes the sum by exactly that member's change in health |
| Combat.TotalHpNonNegative | pokemon-tournament/pages/tournament.tsx:379-380 | with no negative health in the roster the sum is non-negative |
| Combat.Exchange | pokemon-tournament/pages/tournament.tsx:316-372 | the blow, the KO check with its `continue`, and the counter-attack; `Combat.ExchangeOutcome` states what it does |
| Combat.ExchangeOutcome | pokemon-tournament/pages/tournament.tsx:314-374 | the defender loses health, floored at 0; the attacker keeps or loses health; not both fall. On a knockout, an attack then a KO at 0, no counter and no draw. Otherwise a counter by the defender, one draw, and a second KO exactly when the attacker reaches 0 |
| Combat.Clash | pokemon-tournament/pages/tournament.tsx:309-372 | the exchange with side 1 or side 2 striking first, writing the two combatants back to their rosters and the turn count up by one; `Combat.ClashOutcome` states the rest |
| Combat.ClashOutcome | pokemon-tournament/pages/tournament.tsx:310-374 | only the two combatants change, both rosters are worn down, one combatant still stands, and logs and events only grow with well-formed events |
| Combat.Choose | pokemon-tournament/pages/tournament.tsx:303-315 | the two picked members are alive and are the living members at `floor(draw × |alive|)` for the first and second draws of the turn; the opener is decided as in `firstGoesP1`; the critical roll is the draw after the picks and the coin |
| Combat.ChooseReaches | pokemon-tournament/pages/tournament.tsx:303-306 | the draw `j / |alive|` makes the turn pick the `j`-th living member, on either side |
| Combat.ChooseAnyLiving | pokemon-tournament/pages/tournament.tsx:303-306 | every living member of either roster has a position among the living, so some pair of draws picks it |
| Combat.Turn | pokemon-tournament/pages/tournament.tsx:302-372 | one pass of the loop body raises the turn count by one; `Combat.TurnOutcome` and `Combat.TurnLowersHp` state what else it does |
| Combat.TurnOutcome | pokemon-tournament/pages/tournament.tsx:302-375 | a turn wears both rosters down, keeps every member a fighter, leaves some member alive, reads at least three draws and only extends the logs |
| Combat.Resolve | pokemon-tournament/pages/tournament.tsx:297-375 | the turn loop terminates with its condition false, within 9999 turns, the rosters worn down (a knocked-out member never changes again), a survivor if there was one, and well-formed events |
| Combat.Battle | pokemon-tournament/pages/tournament.tsx:389 | every battle log has a last line to read the winner from |
| Combat.Opening | pokemon-tournament/pages/tournament.tsx:284-292 | the loop starts on the two rosters as they are, turn 0, with the `affronte` line as the only log; `Combat.BattleWithoutTurns` states the battle that ends there |
| Combat.Verdict | pokemon-tournament/pages/tournament.tsx:377-387 | the winner: at the ceiling team 1 exactly with strictly more summed health, otherwise the side still alive; `Combat.BattleAtCeiling` and `Combat.BattleDecided` state both cases |
| Combat.BattleOutcome | pokemon-tournament/pages/tournament.tsx:281-415 | a battle stops within the ceiling and only wears the rosters down. Its events are well formed. Its log opens with the match-up line and closes with the winner line. The summary names the same winner twice and records every member |
| Combat.TurnLowersHp | pokemon-tournament/pages/tournament.tsx:302-318 | every turn strictly lowers the summed health of the two rosters: the defender loses at least 1 point and the attacker gains none |
| Combat.ResolveWithinHp | pokemon-tournament/pages/tournament.tsx:297-375 | with no negative health in play, the loop plays at most as many further turns as the summed health of both rosters |
| Combat.BattleEndsByKnockout | pokemon-tournament/pages/tournament.tsx:297-389 | two rosters with non-negative health, one of them alive, whose summed health is below the turn ceiling never reach the ceiling: exactly one side stands, it wins, and no ceiling line is logged |
| Combat.BattleDecided | pokemon-tournament/pages/tournament.tsx:386-389 | below the ceiling exactly one side has a living member, that side wins, and no ceiling line is logged |
| Combat.BattleAtCeiling | pokemon-tournament/pages/tournament.tsx:377-389 | at the ceiling team 1 wins iff its summed health is strictly greater (ties go to team 2), and the ceiling line precedes the winner line |
| Combat.BattleWithoutTurns | pokemon-tournament/pages/tournament.tsx:297-388 | when a side starts with nobody alive, no turn is played and no draw is read; team 1 wins iff it has a living member |
| Combat.RecordedHealthInRange | pokemon-tournament/pages/tournament.tsx:391-411 | every recorded remaining health lies between 0 and the recorded starting health |
| Combat.Strike | pokemon-tournament/pages/tournament.tsx:314-374 | the blow, KO check (`continue`) and counter code compute `Combat.Exchange` |
| Combat.ChooseCombatants | pokemon-tournament/pages/tournament.tsx:303-315 | the draws at the top of the loop body compute `Combat.Choose` |
| Combat.PlayTurn | pokemon-tournament/pages/tournament.tsx:302-375 | one pass of the loop body computes one turn |
| Combat.Fighting | pokemon-tournament/pages/tournament.tsx:284-375 | the `while` loop on the copied rosters computes `Combat.Resolve` from `Combat.Opening` |
| Combat.SimulateBattle | pokemon-tournament/pages/tournament.tsx:281-417 | `simulateBattle` returns the battle's log, hands on its summary, and reads the draws `Combat.Battle` reads |
| Bracket.RoundLabel | pokemon-tournament/pages/tournament.tsx:22-37 | `getRoundLabel`: a non-empty title that starts with 'R' exactly for the `Round ${n}` fallback outside rounds 1 to 5 |
| Bracket.RoundLabelsDistinct | pokemon-tournament/pages/tournament.tsx:22-37 | distinct round numbers get distinct titles |
| Bracket.RoundLabelNamesStage | pokemon-tournament/pages/tournament.tsx:22-37 | round r of a 32-team bracket, with 2^(5−r) matches, is titled with that stage's name (1/16, 1/8, quarter, semi, final) |
| Bracket.Pairings | pokemon-tournament/pages/tournament.tsx:236-240 | a field of 2n teams gives n matches |
| Bracket.PairingsPositions | pokemon-tournament/pages/tournament.tsx:236-240 | match k pairs teams 2k and 2k + 1, undecided |
| Bracket.PairUp | pokemon-tournament/pages/tournament.tsx:236-240 | the pairing loop builds those matches |
| Bracket.WinnerName | pokemon-tournament/pages/tournament.tsx:250-251 | the name read off the last log line is a prefix of that line |
| Bracket.WinnerNameRecovers | pokemon-tournament/pages/tournament.tsx:250-251 | splitting the winner line on " remporte " gives the name back iff the separator does not start inside the name |
| Bracket.NameWithoutRRecovers | pokemon-tournament/pages/tournament.tsx:250-251 | a name without the letter r is always read back intact |
| Bracket.MatchWinner | pokemon-tournament/pages/tournament.tsx:250-252 | the bracket's winner is always one of the two teams of the match |
| Bracket.MatchWinnerIsBattleWinner | pokemon-tournament/pages/tournament.tsx:248-252 | with distinct, readable names, the team the bracket advances is the team `simulateBattle` declared the winner |
| Bracket.Restored | pokemon-tournament/pages/tournament.tsx:254-257 | the reset keeps id, name and creatures, sets each member to that member with `currentHp` reset to its base health and nothing else changed, leaves every member at full health, and leaves a healthy team unchanged |
| Bracket.RestoreHealth | pokemon-tournament/pages/tournament.tsx:254-257 | the `forEach` reset computes that restoration |
| Bracket.Engine | pokemon-tournament/pages/tournament.tsx:248 | `simulateBattle` on the stream as the referee the bracket calls; `Bracket.EngineSimulates` shows it is sound and simulates the stream |
| Bracket.EngineSimulates | pokemon-tournament/pages/tournament.tsx:248 | `simulateBattle` on a stream is a referee that logs every battle and simulates that stream |
| Bracket.PlayMatches | pokemon-tournament/pages/tournament.tsx:245-263 | a round of n matches yields n decided matches and n winners |
| Bracket.PlayMatchesOutcome | pokemon-tournament/pages/tournament.tsx:245-263 | each match keeps its two teams and records as winner the team sent on, which is one of the two, ready for the next round |
| Bracket.PlayMatchesAgree | pokemon-tournament/pages/tournament.tsx:245-263 | two referees that both simulate the stream play a round of ready matches identically |
| Bracket.PlayMatchesPrefix | pokemon-tournament/pages/tournament.tsx:245-263 | match k is decided by the battle that starts where the first k battles stopped reading draws, and its log lines follow theirs |
| Bracket.RoundFollowsBattles | pokemon-tournament/pages/tournament.tsx:245-261 | with distinct readable names, the k-th team sent on is the winner `simulateBattle` declares in match k |
| Bracket.PlayMatch | pokemon-tournament/pages/tournament.tsx:248-257 | one pass of the match loop returns the battle's log and cursor and the winner read back, restored |
| Bracket.PlayRound | pokemon-tournament/pages/tournament.tsx:245-263 | the match loop records each winner in its match, and produces the next round's list and the log of `Bracket.PlayMatches` |
| Knockout.RoundHeader | pokemon-tournament/pages/tournament.tsx:232 | the highlighted `--- ROUND n ---` line; `Knockout.FinishLog` and `Knockout.PlayTournamentRound` place it |
| Knockout.ChampionLine | pokemon-tournament/pages/tournament.tsx:270-274 | the highlighted trophy line naming the champion; `Knockout.FinishLog` shows the log ends with it |
| Knockout.Finish | pokemon-tournament/pages/tournament.tsx:225-275 | the round loop as a function: each round pairs, plays and sends on its winners until one team is left; `Knockout.FinishShape`, `FinishChampion`, `FinishEnds`, `FinishDecided` and `FinishChained` state its result |
| Knockout.RoundCount | pokemon-tournament/pages/tournament.tsx:230 | a field of 2^d teams plays d rounds |
| Knockout.RoundAdvances | pokemon-tournament/pages/tournament.tsx:234-265 | one round halves the field. Match k pairs teams 2k and 2k + 1 and is won by the k-th team sent on. That team is one of the two, and ready |
| Knockout.Advancers | pokemon-tournament/pages/tournament.tsx:245-265 | every team that advances is a team of the round |
| Knockout.FinishShape | pokemon-tournament/pages/tournament.tsx:230-266 | a field of 2^d teams produces d bracket columns, numbered on from the first round |
| Knockout.FinishLog | pokemon-tournament/pages/tournament.tsx:269-274 | the log ends with the trophy line naming the champion |
| Knockout.FinishChampion | pokemon-tournament/pages/tournament.tsx:230-270 | the champion is one of the starting teams; a single team plays no round |
| Knockout.FinishEnds | pokemon-tournament/pages/tournament.tsx:234-270 | the first column pairs the field by position, and the last column is a single match won by the champion |
| Knockout.FinishAgrees | pokemon-tournament/pages/tournament.tsx:230-266 | two referees that both simulate the stream run the same tournament on ready teams |
| Knockout.FinishDecided | pokemon-tournament/pages/tournament.tsx:245-261 | every match in the bracket is won by one of its two teams |
| Knockout.FinishChained | pokemon-tournament/pages/tournament.tsx:236-265 | each column is played by the winners of the previous column, in match order |
| Knockout.AdvancersDistinguished | pokemon-tournament/pages/tournament.tsx:252-265 | winners of a round of teams with distinct readable names again have distinct readable names |
| Knockout.FinishSeparable | pokemon-tournament/pages/tournament.tsx:248-252 | on such a field every match is between two distinct readable names, so every winner read back is the battle's winner |
| Knockout.PlayTournamentRound | pokemon-tournament/pages/tournament.tsx:232-266 | one pass of the round loop halves the field with ready winners; its column and logs, then the run from the next round, make up the whole run |
| Knockout.SimulateTournament | pokemon-tournament/pages/tournament.tsx:225-275 | the round loop produces exactly the bracket, champion, log and cursor of `Knockout.Finish` |
| Knockout.ThirtyTwoTeamBracket | pokemon-tournament/pages/tournament.tsx:230-266 | 32 teams give five columns numbered 1–5 with 16, 8, 4, 2 and 1 matches, each titled with its stage's name |
| Pokedex.Includes | pokemon-tournament/pages/index.tsx:112-114 | `s.includes(term)`: the term occurs at some position of the string |
| Pokedex.Listed | pokemon-tournament/pages/index.tsx:110 | the first filter: the name is not `MissingNo.` |
| Pokedex.MatchesName | pokemon-tournament/pages/index.tsx:112-114 | the lower-cased name contains the lower-cased search term |
| Pokedex.MatchesType | pokemon-tournament/pages/index.tsx:115-119 | with no type selected every entry passes; otherwise the lower-cased first type equals the lower-cased selection |
| Pokedex.Shown | pokemon-tournament/pages/index.tsx:111-121 | the second filter: both tests hold; `Pokedex.FilteredPokemonsExactly` shows exactly these entries are listed |
| Pokedex.FilteredPokemons | pokemon-tournament/pages/index.tsx:107-122 | with absent data the list is empty. No entry is "MissingNo.". Every entry matches the name and the type. With a type selected, every entry's first type is that type, lower-cased |
| Pokedex.FilteredPokemonsExactly | pokemon-tournament/pages/index.tsx:109-121 | the list is an order-preserving subsequence of the data, equal to one filter on both tests, and holds a creature iff the data holds it and it passes both tests |
| Pokedex.EmptyQueryListsAll | pokemon-tournament/pages/index.tsx:112-120 | with an empty search and no type, every entry but the placeholder is listed, in order |
| Pokedex.HasFirstType | pokemon-tournament/pages/index.tsx:128 | `pokemon.types && pokemon.types[0]?.name`: a first type with a non-empty name; `Pokedex.FirstTypes` adds exactly these |
| Pokedex.FirstTypes | pokemon-tournament/pages/index.tsx:127-131 | the names added to the set are exactly the non-empty first-type names of the data |
| Pokedex.AllTypes | pokemon-tournament/pages/index.tsx:125-133 | the `forEach` over the set yields the distinct first-type names in insertion order, or nothing when the data is absent |
| Pokedex.AllTypesContents | pokemon-tournament/pages/index.tsx:126-132 | the selector has no duplicates, holds exactly the first-type names of the data, and lists them by first occurrence |
| TournamentPage.TeamNameHasNoR | pokemon-tournament/pages/tournament.tsx:200 | team names contain no letter r |
| TournamentPage.NamedInOrderDistinguished | pokemon-tournament/pages/tournament.tsx:200 | teams named `Équipe 1`, `Équipe 2`, … have distinct names that read back intact from the winner line |
| TournamentPage.GeneratedTeamsReady | pokemon-tournament/pages/tournament.tsx:194-201 | the 32 generated teams are ready to fight and named in order |
| TournamentPage.Contest | pokemon-tournament/pages/tournament.tsx:225-275 | the page after `simulateTournament` on 32 ready teams: the teams, the bracket, the champion and the log of `Knockout.Finish`; `TournamentPage.ContestOutcome` states it is crowned |
| TournamentPage.Built | pokemon-tournament/pages/tournament.tsx:179-205 | `generateTeams` then the tournament: the shortage line alone, or the contest whose battles read after the shuffle's draws; `TournamentPage.PageTooFewPokemons` and `TournamentPage.PageCrowned` state both cases |
| TournamentPage.PageRun | pokemon-tournament/pages/tournament.tsx:163-175 | `fetchPokemons`: the load-error line alone on a failed request, otherwise `Built`; `TournamentPage.PageLoadFailure` and `TournamentPage.PageRunAgrees` state it |
| TournamentPage.RunContest | pokemon-tournament/pages/tournament.tsx:225-275 | the tournament on the generated teams yields the page `TournamentPage.Contest` |
| TournamentPage.GenerateTeamsAndPlay | pokemon-tournament/pages/tournament.tsx:179-205 | `generateTeams` yields the shortage page or the tournament on the teams it built. Battles read the stream after the shuffle's draws |
| TournamentPage.RunPage | pokemon-tournament/pages/tournament.tsx:163-174 | `fetchPokemons` yields the load-error page when the response is missing, and otherwise the page of the catalogue |
| TournamentPage.ContestOutcome | pokemon-tournament/pages/tournament.tsx:225-275 | on 32 ready teams with distinct readable names, the page is crowned. The bracket is staged, decided and chained. The champion is one of the 32 and wins the final. The log ends naming it |
| TournamentPage.PageLoadFailure | pokemon-tournament/pages/tournament.tsx:169-173 | a failed request builds nothing and logs the load error |
| TournamentPage.PageTooFewPokemons | pokemon-tournament/pages/tournament.tsx:181-187 | fewer than 192 eligible creatures builds nothing and logs the shortage |
| TournamentPage.NamedContestCrowned | pokemon-tournament/pages/tournament.tsx:225-275 | the tournament on 32 ready teams named in order is crowned |
| TournamentPage.GeneratedPage | pokemon-tournament/pages/tournament.tsx:179-204 | with enough creatures, the page is the tournament on 32 ready teams named in order |
| TournamentPage.PageCrowned | pokemon-tournament/pages/tournament.tsx:163-276 | a catalogue with at least 192 eligible creatures always ends with a crowned page and a single champion |
| TournamentPage.PageRunAgrees | pokemon-tournament/pages/tournament.tsx:163-276 | the page is fixed by the response and the draw stream, whichever simulating referee is used |
| TournamentPage.BuiltAgrees | pokemon-tournament/pages/tournament.tsx:179-205 | on one catalogue and draw stream, any two referees that play `simulateBattle` on that stream give the same page after `generateTeams` |

## Left out

- React state setters, `useEffect`, the `setTimeout` pacing and the `status` flag: the model gives the final page (teams, bracket, champion, log) instead of its intermediate renders.
- The bracket snapshots `setTournamentBracket([...bracket])` taken during a round: only the final bracket is modelled.
- `fetch` and `res.json()`: the catalogue response is an input. `None` stands for a failed request, an error status and an undecodable body alike.
- `recordBattle` (a fire-and-forget POST): the summary it would send is computed (`BattleSummary`) and nothing is sent.
- The `react-brackets` mapping and all JSX rendering, `components/MusicPlayer.tsx`, `_app.tsx`, `pages/api/*`, `lib/dbConnect.ts` and `models/*`: presentation, persistence or schema declarations with no logic in the core.
- `Math.random` itself: replaced by the injected draw stream.
- Combat.Damage: computed in exact integer arithmetic. The critical step `⌊atk × 1.5⌋` agrees with IEEE doubles: 1.5 is exact in binary. The mitigation step `⌊d × (1 − def/100)⌋` can differ, because `def/100` is rounded in binary and the product can fall just below an integer. Then the source's result is one less than the model's. Examples: d = 10 with def = 80 gives 1 in doubles and 2 here; d = 100 with def = 90 gives 9 in doubles and 10 here.
- `toLowerCase`: a parameter with no assumed behaviour (no Unicode case mapping).
- Log lines carry only their text and highlight flag. The display-only `team1`/`team2`/`pokemon1`/`pokemon2` tags are dropped.
- The winner-reset aliasing: the source mutates the winning team object, which the finished bracket entries also point to. The model only ever sees teams at full health, and proves the reset is the identity on them (`Bracket.Restored`), so aliasing changes nothing observable.
- No class. Members, teams and matches are values: `simulateBattle` copies the rosters, and the only shared-object mutation (the reset above) is the identity. The in-place shuffle keeps an `array`.
- Fields whose size is not a power of two: `simulateTournament` is modelled only for fields that halve down to one team. `generateTeams` always builds 32.
- Bracket.Engine: a referee must be total, so teams without stats, which the page never builds, get the battle of two empty teams. This value is never used.
- TournamentPage.RunPage: the ghost referee parameter is constrained by `Simulates`. The page is stated for every referee pinned to `simulateBattle` on the stream, and `TournamentPage.PageRunAgrees` shows they all give the same page.
- The log starts empty. The source appends to whatever the log held when the page mounted, which is the empty initial state.
