# A verified model of the rules engine of a roll-and-write town builder

The game is played on a 5 x 5 sheet of plots. Each turn, dice are rolled.
Two of them pick a plot (a location pair). The remaining two decide which
building may go on that plot, either as single values or as their sum:
Cottage, Farm, Quarry, Windmill, Market, Springhouse, Town Hall,
University, Almshouse or Guild. Population sits on a 4 x 4 lattice of
nodes between the plots. Before scoring, an activation phase moves people
from the nodes onto neighbouring buildings as workers. A building that
cannot be staffed is forfeited for scoring.

This project models the rules module (`app/rules.js`) and the state
changes of the sheet (`app/app.js`) that the rules depend on. The modules
are:

- `Board`: building codes, the rule table, plots, grids, neighbours, counts.
- `Dice`: die values and location pairs. The choice of which dice go to
  the location and which to building.
- `BuildOptions`: the building options a pair of build dice offers, and the
  caps the board puts on them.
- `Population`: vagrants and placing population on a node.
- `Activation`: which buildings have their worker requirement met.
- `Guilds`: contiguous groups (flood fill), edge and centre counts, and
  the guild bonus.
- `Scoring`: the per-plot score and the whole-board score breakdown.
- `Pestilence`: the section chosen by a dice sum and its target plots.
- `Game`: a `class` over the sheet (an `array2` of plots and of population
  nodes). It covers placing a building, the Springhouse boost, entering the
  activation phase, the automatic activation forfeit and moving one worker.

Points where the code's behaviour is easy to misread:

- A Springhouse's base score is 0 in the rule table (`app/rules.js:85`), so
  its score is minus one per orthogonally adjacent forfeited plot and never
  positive (`Scoring.SpringhousesNeverGain`).
- The Guild cap is exactly "fewer than two guilds": the restriction of build
  options also asks for fewer than four guild types built
  (`app/rules.js:208`), but that cannot bind while at most two guilds stand
  (`BuildOptions.GuildAllowedByCount`).
- Building labels are strings that the code upper-cases. The model keeps
  them as a datatype: one of the four guild types, or the building's own
  code.

## Model

| member | source | states |
|---|---|---|
| Board.RuleOf | app/rules.js:79-90 | requirements and base scores are non-negative; the advanced category is exactly Town Hall, University, Almshouse and Guild, and the special one exactly Cottage and Springhouse |
| Board.OrthNeighbors | app/rules.js:630-637 | a position is listed exactly when it is in range and orthogonally next to (r, c); at most four are |
| Board.NodesForCell | app/app.js:1165-1180 | a node is listed exactly when it is in range and one of the four corners of plot (r, c); at most four, none twice |
| Board.InFlat | app/app.js:846 | the flattened board holds a code exactly when some plot of the grid holds it |
| Board.SumAtNonNegative | app/rules.js:437-453 | the population around a plot is non-negative when every node is |
| Board.PopAround | app/rules.js:437-453 | with no population grid, or for a plot none of whose corner nodes lies on the grid, the population around it is 0 |
| Board.PopAroundNonNegative | app/rules.js:437-453 | when no node holds a negative count, no plot has a negative population around it |
| Board.CountWithCode | app/rules.js:461-465 | the count of neighbours holding a code is at most the number of neighbours, positive exactly when one holds it, and equal to it exactly when all do |
| Board.AnyWithCode | app/rules.js:455-459 | some neighbour holds the code exactly when the count of such neighbours is positive |
| Board.RowColHasShared | app/rules.js:467-472 | the row and column scans find a code exactly when some other plot sharing a row or a column with (r, c) holds it |
| Board.CountForfeitedAt | app/rules.js:622-624 | the count of forfeited neighbours is at most the number of neighbours, positive exactly when one is forfeited, and equal to it exactly when all are |
| Dice.PossibleValues | app/rules.js:71-76 | at most two values; none exactly when a single-faced die is unresolved; a resolved single die yields its value |
| Dice.Ordered | app/rules.js:4-20 | a location pair is stored smaller value first and holds the two values given |
| Dice.UniqueLocationPairs | app/rules.js:4-20 | the pairs are sorted strictly increasing (so no duplicates), each smaller first, and a pair is listed exactly when it can be read off two distinct dice, one value from each |
| Dice.SortPairs | app/rules.js:17-19 | the output is strictly increasing and holds exactly the input set |
| Dice.LeastPair | app/rules.js:17-19 | a non-empty set of pairs has a least element under the lexicographic order |
| Dice.AllPairsDrawn | app/rules.js:5-16 | the pairs the nested loops collect are exactly the pairs drawn from two distinct dice |
| Dice.CollectPairs | app/rules.js:5-16 | the nested loops over die pairs collect every pair drawn from two distinct dice, smaller value first |
| Dice.FilterAvailablePairs | app/rules.js:56-69 | a pair [a, b] is kept exactly when it was offered and plot (a-1, b-1) or plot (b-1, a-1) is on the board and neither built nor forfeited; a sorted list stays sorted |
| Dice.FullBoardLeavesNoPairs | app/rules.js:56-69 | on a full board no location pair survives |
| Dice.AvailableLocationPairs | app/rules.js:686-688 | a pair is offered exactly when it is drawn from the dice and its plot is open; sorted; none on a full board |
| Dice.ValuelessDieIgnored | app/rules.js:5-16 | a die that can take no value changes no location pair |
| Dice.Candidates | app/rules.js:25-41 | every (die, die, value, value) choice matching the location is listed once, in loop order, and only those |
| Dice.PickPreferred | app/rules.js:43-44 | the chosen candidate has no candidate preferred to it, and every earlier one is strictly worse (a stable sort's head) |
| Dice.FirstPreferredIsBest | app/rules.js:43-44 | that choice is the best candidate over all candidates, not just the listed ones |
| Dice.ComputeBuildDice | app/rules.js:24-54 | with no matching candidate the first two dice build and none is a location die; otherwise the location dice are the best candidate's dice resolved to its values, and the build dice are the first two of the others |
| Dice.OfferedPairHasCandidate | app/rules.js:24-54 | every location pair drawn from the dice has a candidate, so the fallback branch is never taken for an offered pair |
| BuildOptions.CodeOfValue | app/rules.js:99-110 | a value names a building exactly when it is 1 to 10 |
| BuildOptions.CodeValueRoundTrip | app/rules.js:99-110 | the value table and the code table are inverse |
| BuildOptions.ValuesForBuild | app/rules.js:112-117 | a die with no value contributes one empty slot; otherwise exactly its possible values |
| BuildOptions.ProductMembers | app/rules.js:119-131 | the enumeration lists a combination exactly when it takes one listed value per die |
| BuildOptions.Dfs | app/rules.js:120-131 | the depth-first search appends, under the given prefix, the full product of the remaining dice's values |
| BuildOptions.EnumerationComplete | app/rules.js:120-131 | the search started at the first die yields exactly the product |
| BuildOptions.AddNewMembers | app/rules.js:142-178 | adding options by key keeps exactly the old and new options and keeps them free of duplicates |
| BuildOptions.OptionsOfMembers | app/rules.js:133-179 | the options collected over all combinations are exactly those some combination offers, without duplicates |
| BuildOptions.ComboOptionsMembers | app/rules.js:134-178 | a combination offers a building for die 1, for die 2 and for a sum of at most 10; each die-sourced option carries the other die's value as population gain, a sum option none |
| BuildOptions.BuildingOptionsFromDice | app/rules.js:98-182 | the options have no duplicates, and an option is listed exactly when a choice of one value per build die offers it |
| BuildOptions.OptionOffered | app/rules.js:98-182 | membership in the collected options is the same as being offered by some choice of values |
| BuildOptions.BuildingOptions | app/rules.js:92-95 | building options for plain values are those offered by dice resolved to those values, without duplicates |
| BuildOptions.FourAndOne | app/rules.js:92-182 | values 4 and 1 offer a Windmill from die 1 with gain 1, a Cottage from die 2 with gain 4 and a Market from the sum |
| BuildOptions.OncePerGameInMembers | app/rules.js:195-199 | a code is recorded as built exactly when it is once-per-game and some plot holds it |
| BuildOptions.GuildLabelsBounded | app/rules.js:200-203 | there are no more guild types on the board than guilds |
| BuildOptions.GuildAllowedByCount | app/rules.js:205-209 | a Guild is allowed exactly when fewer than two stand; a once-per-game building exactly when none stands |
| BuildOptions.ScanBoard | app/rules.js:194-204 | the scan records the built once-per-game codes, the guild types and the number of guilds |
| BuildOptions.RestrictBuildOptionsForBoard | app/rules.js:189-211 | an option is kept exactly when it was offered and the board allows its code; order is kept |
| BuildOptions.KeepAllowed | app/rules.js:206-210 | the filtering pass keeps, in order, exactly the options whose code the scanned counts allow |
| Population.CalcVagrants | app/rules.js:184-186 | vagrants are never negative and are either none or the population beyond housing |
| Population.NoVagrantsWhenHoused | app/rules.js:184-186 | there are no vagrants exactly when population is at most housing |
| Population.AllocatePopulationToNode | app/rules.js:214-227 | placed is between 0 and the cap; an off-board or already-used node changes nothing; otherwise only that node changes, to what was placed |
| Population.AllocationConserves | app/rules.js:214-227 | the grid's total grows by exactly what was placed |
| Population.NodeUsedOnce | app/rules.js:219-221 | a node that received population cannot receive any again |
| Activation.EffectiveRequirement | app/rules.js:240-242 | the Springhouse boost lowers the requirement, never below 0 and never above the rule's requirement |
| Activation.ActivationMapOf | app/rules.js:229-257 | the activation map has exactly the board's plots as keys |
| Activation.ComputeActivationMap | app/rules.js:229-257 | the row-major scan computes that map: each built, unforfeited plot is active when its workers, or without workers its adjacent population, meet its effective requirement |
| Activation.ActiveIsBuilt | app/rules.js:236-238 | only a plot on the board, built and forfeited in neither way, is active |
| Activation.NoRequirementAlwaysActive | app/rules.js:240-245 | a standing Cottage or Springhouse is always active |
| Activation.BoostKeepsActive | app/rules.js:240-253 | a larger Springhouse boost never deactivates a building |
| Activation.MoreWorkersKeepActive | app/rules.js:247-249 | more workers on a plot never deactivate it |
| Guilds.ConnectedSym | app/rules.js:555-573 | being joined by a walk of matching active plots is symmetric |
| Guilds.ConnectedTrans | app/rules.js:555-573 | and transitive |
| Guilds.GroupSame | app/rules.js:555-573 | plots of one group have the same group |
| Guilds.GroupOfUnmatched | app/rules.js:555-573 | a plot that does not match has an empty group |
| Guilds.ClosedHoldsGroup | app/rules.js:555-573 | a set closed under matching neighbours that holds a plot holds its whole group |
| Guilds.PushNeighbors | app/rules.js:562-570 | the matching unvisited neighbours are pushed and marked, once each |
| Guilds.Flood | app/rules.js:555-573 | the flood marks exactly the start's group as visited and returns its size |
| Guilds.FloodEnds | app/rules.js:559-572 | when the stack empties, the expanded set is the whole group |
| Guilds.MaxContiguous | app/rules.js:537-553 | the result bounds every group of matching active plots and is attained by one, or is 0 when there is none |
| Guilds.EdgeCount | app/rules.js:575-587 | the count is the number of matching active plots on the border |
| Guilds.CenterCount | app/rules.js:589-597 | the count is the number of matching active plots off the border |
| Guilds.GuildTarget | app/rules.js:599-605 | a target exists exactly for a guild-type label, and is Farm, Quarry, Windmill or Market |
| Guilds.MeetsGuildCondition | app/rules.js:607-620 | the result holds exactly when the guild type's condition holds on the board |
| Guilds.GuildBonuses | app/rules.js:518-535 | the bonus is 15 for each active, standing Guild whose condition holds |
| Guilds.GuildBonusAt | app/rules.js:518-535 | one Guild earns exactly when it qualifies |
| Scoring.UniPoints | app/rules.js:510-516 | points are at most 15, zero exactly for no advanced buildings, and 15 from four on |
| Scoring.UniPointsMonotone | app/rules.js:510-516 | more advanced buildings never give fewer points |
| Scoring.AdvancedCodesMembers | app/rules.js:500-508 | a code is counted exactly when it is advanced and on the board, so at most four are |
| Scoring.CountAdvanced | app/rules.js:500-508 | the scan counts the distinct advanced codes on the board |
| Scoring.UniqueBasicsMembers | app/rules.js:474-498 | a code is among the Town Hall's basics exactly when it is not advanced and an active plot of its row or column holds it; at most six are |
| Scoring.UniqueBasicsRowCol | app/rules.js:474-498 | the scan collects exactly those basics |
| Scoring.BuildingPoints | app/rules.js:391-434 | points per active building: Farm 3 or 5, Quarry 3 or 4, Windmill 3 to 7, Springhouse -4 to 0, Town Hall 5 to 17, University 0 to 15, Cottage, Almshouse and Guild 0 |
| Scoring.TownHallPoints | app/rules.js:321-327 | a Town Hall scores between 5 and 17: its base and 2 per distinct basic building, of which there are at most six |
| Scoring.UniversityPoints | app/rules.js:329-334 | a University scores between 0 and 15 |
| Scoring.ScoreAt | app/rules.js:384-435 | a plot scores only if it is on the board, built, forfeited in neither way and active; a Guild scores 0 or 15, and a standing one scores 15 exactly when it qualifies |
| Scoring.ScoreBuildingAt | app/rules.js:384-435 | the single-plot score, under the activation given or else the board's own |
| Scoring.TallyIsScoreSum | app/rules.js:284-348 | for every building but the Guild, the scan's running total is the sum of the single-plot scores, under any activation (the board's own among them) that activates only standing buildings |
| Scoring.GuildsAreScoreSum | app/rules.js:350 | 15 per qualifying Guild is the sum of the Guilds' single-plot scores, under any activation that activates only standing buildings |
| Scoring.SpringhousesNeverGain | app/rules.js:313-320 | the Springhouse entry is never positive |
| Scoring.CottageScore | app/rules.js:377-382 | two points per Cottage, capped by two points per four people; with non-negative population at most half of it |
| Scoring.VagrantTerm | app/rules.js:352-360 | the penalty is minus the vagrants; an active Almshouse relieves up to 12 of it and never makes it positive |
| Scoring.AddPlot | app/rules.js:284-348 | adding a plot keeps each building entry equal to the scan's running total |
| Scoring.ComputeScore | app/rules.js:259-375 | population, housing, forfeits and cottages are as counted; each building entry is the sum of the single-plot scores of that building; vagrants are the relieved penalty; the total adds every entry |
| Pestilence.CellSections | app/rules.js:648-656 | a plot is in the Centre exactly when its row and column are both 1 to 3, in the Forest exactly in the first two rows, the Marsh the last two, the Mountains the first two columns and the Sea the last two; with four or more rows the Forest and the Marsh never share a plot, and likewise the Mountains and the Sea with four or more columns |
| Pestilence.FiveByFiveCovered | app/rules.js:648-656 | every plot of the 5 x 5 sheet is in some section, and none is in both the Forest and the Marsh |
| Pestilence.SectionForSum | app/rules.js:658-661 | a section is chosen exactly for sums 2 to 10, and the sum is assigned to it |
| Pestilence.SectionOfAssignedSum | app/rules.js:640-661 | a sum assigned to a section chooses that section |
| Pestilence.NumberedSum | app/rules.js:664-668 | with faces of 1 to 5 the sum is between 0 and 5 per die, and it is 0 with no numbered die |
| Pestilence.NumberedSumSingle | app/rules.js:664-668 | a single die adds its resolved number (0 when it has none) if its label starts with N, and nothing otherwise |
| Pestilence.NumberedSumAppend | app/rules.js:665-668 | the sum of a concatenation is the sum of the sums of its parts |
| Pestilence.NumberedSumIsFilterReduce | app/rules.js:664-668 | the sum equals the filter of the N-labelled dice followed by the reduction adding each one's resolved number or 0 |
| Pestilence.ComputePestilenceInfo | app/rules.js:663-683 | the section is the one for the numbered dice's sum; the targets are exactly the plots of that section that are neither built nor forfeited, in row-major order, and there are none without a section |
| Game.NewLabel | app/app.js:868-874 | a Guild gets the chosen guild type, or plain G for any other choice; any other building its own code |
| Game.PlacementMatchesOptions | app/app.js:838-867 | placing by hand passes exactly when the plot is open, a Guild has a chosen type, and the board's caps on build options allow the code |
| Game.SpringOptions | app/app.js:933-941 | a neighbour is offered exactly when it is built, not forfeited and still short of workers after its boost |
| Game.Boosted | app/app.js:960-962 | the new boost is the smaller of one more than the old boost and the building's requirement (at least 0) |
| Game.BoostLowersRequirement | app/app.js:960-962 | boosting a building that needs it lowers its effective requirement by exactly one |
| Game.ForfeitCell | app/app.js:1806-1832 | only the activation-forfeit flag changes; unbuilt and forfeited plots are untouched |
| Game.TrialForfeit | app/app.js:1815-1830 | during the phase a building is flagged exactly when its nodes hold less than it still needs |
| Game.FinalForfeitIsInactivity | app/app.js:1815-1830 | when the phase is finished a building is flagged exactly when the activation map would call it inactive |
| Game.AllocationNeed | app/app.js:1778-1781 | with a non-negative boost, the need is the effective requirement |
| Game.Game.constructor | app/app.js:200-206 | a new game has the 5 x 5 sheet with every plot empty, the 4 x 4 nodes empty, no activation grids, no guild choice, no pending Springhouse and no activation phase; those three start as in the state object at app/app.js:47-49, which the reset does not touch |
| Game.Game.NodesForCell | app/app.js:1165-1180 | the nodes listed are exactly the in-range corners of the plot |
| Game.Game.AdjacentCells | app/app.js:1752-1759 | the plots listed are exactly the in-range orthogonal neighbours |
| Game.Game.IsBoardFull | app/app.js:1093-1095 | the board is full exactly when every plot is built or forfeited |
| Game.Game.PlaceBuilding | app/app.js:838-930 | a building is placed exactly when the placement checks pass; only that plot changes, to the code and its label; the guild choice is used up; a Springhouse then looks for a target |
| Game.Game.CheckPlacement | app/app.js:839-866 | the checks pass exactly when the plot is open, a Town Hall, University or Almshouse is not yet on the board, and a Guild has a chosen type, fewer than two Guilds stand and some type is unused |
| Game.Game.HandleSpringhouseTargeting | app/app.js:932-950 | a choice is pending exactly when some neighbour may be boosted, and it offers exactly those neighbours |
| Game.Game.ApplySpringhouseBoost | app/app.js:952-972 | a built, unforfeited target gets one more boost, capped, and the choice ends; any other target changes nothing |
| Game.Game.EnterActivationMode | app/app.js:1042-1062 | the available population becomes a copy of the nodes, all allocations 0 (so every plot is within its need), every activation-forfeit flag is recomputed from scratch; nothing happens while the phase runs |
| Game.Game.ClearActivationForfeits | app/app.js:1051-1052 | every plot loses its activation-forfeit flag and nothing else about it changes |
| Game.Game.CopyGrid | app/app.js:1047 | the copy is a fresh array with the same entries |
| Game.Game.AutoForfeitUnfillable | app/app.js:1800-1834 | every plot's flag is set as its workers and its nodes' population decide; before the phase nothing changes |
| Game.Game.ForfeitStep | app/app.js:1806-1831 | one plot is decided as the auto-forfeit rule says |
| Game.Game.AllocateWorkersFromPop | app/app.js:1760-1798 | one worker moves exactly when the building stands, the node has people and touches it, and the building is short; then the node loses one and the plot gains one; when the plot's old allocation is not negative (as it is whenever every plot is within its need) the people in play are conserved; and when every plot held between 0 and its need before, every plot still does |
| Game.Game.Transfer | app/app.js:1788-1790 | one person moves from the node to the plot, a negative allocation first counting as 0; only those two entries change, and the total is conserved when the plot's old allocation is not negative |

## Left out

- Rendering, the log, the score overlay, buttons, local storage and all
  other page code of `app/app.js` are not part of this model.
- Dice rolling is not modelled. Dice enter as values, and the choice of
  location pair and building option enters as parameters.
- Turn sequencing is not modelled: automatic advance, the next roll, locked
  dice snapshots and the pending-roll flags.
- Game.Game.PlaceBuilding: does not model the population gain handed to
  population placement, the housing track (+4 per Cottage), or the dice
  locking that follows a placement. These update page state outside the
  sheet.
- Game.Game.ApplySpringhouseBoost: it does not check that the target is among
  the offered options, as in the code. The score overlay it refreshes is
  not modelled.
- Game.Game.AllocateWorkersFromPop: the remembered node selection
  (`activationSelection`) and the "activated" log line are left out.
- Game.AllocationNeed: the boost is taken off without clamping it at 0, as
  in the code, unlike the activation map.
- Population.AllocatePopulationToNode: the cap is an explicit parameter.
  The code's default of 5 is a JavaScript default argument.
- Label strings are the four guild types or a building's code. Arbitrary
  strings, upper-casing and trimming are left out.
- Boards are rectangular, with every plot present. Ragged arrays, missing
  plots and non-array inputs, which the code guards against, are excluded
  by the `IsRect` precondition.
- Dice carry a face (single or split), an optional resolved value and a
  label. The display choices of a die are not modelled.
- Terrain layout, display names and the sheet's hit boxes carry no rule
  and are left out.
- Numbers from the page (`Number(x) || 0`) are taken as integers. Text,
  `NaN` and floating point are not modelled.
