# MekHQ campaign kernels in Dafny

This project models four small parts of MekHQ, a campaign manager for BattleTech, and proves properties of each model.

- **Ranged planet selector** (`RangedPlanetSelector`). It picks a planet of origin near the campaign's current system at random. Planets are weighted by population and distance, through a cumulative-weight lookup table (a `TreeMap<Double, Planet>`). The table is cached per faction and rebuilt when the date advances or the campaign moves. The TreeMap is an ascending sequence of (key, planet) pairs. The random draw `nextDouble(lastKey)` is a sample `u` in [0, 1) scaled by the largest key, and the floating-point weight formula is a `Weigher` fixed when the selector is constructed.
- **Story arc** (`StoryArc`). The insertion-ordered story-event map is a sequence with distinct ids. The model covers:
  - the four event handlers, each of which starts or completes at most the first matching story event;
  - lookup by id, the starting event and the custom string variables;
  - the "last key and last value win" rule of `parseCustomStringVariable`;
  - the token replacement of narrative text, whose order matters because `@commander` is a prefix of `@commanderRank`.
- **Astech-shortage nag** (`InsufficientAstechTimeNagDialog.checkNag`). This is int arithmetic with explicit 32-bit wrap-around: a filtered sum, an optional overtime addition, a comparison and a ceiling division.
- **Map settings dialog helpers** (`EditMapSettingsDialog`). The model covers:
  - the minimap zoom rule;
  - the backslash-to-slash rewrite;
  - the board-list entry derived from a `.board` file name;
  - the de-duplicating thumbnail queue of `ImageLoader`;
  - the initial board size;
  - the values `done()` records.

Files:
- `wrappers.dfy`: Option.
- `text.dfy`: Java `trim`, `lastIndexOf`, `endsWith` and a literal replace-all.
- `weight_table.dfy`: the TreeMap operations the selector uses.
- `ranged_planet_selector.dfy`, `story_arc.dfy`, `astech_nag.dfy`, `edit_map_settings.dfy`: one file per source class.

A cache that is invalidated by date and system suggests that a stale table is never read once either changes. The code does not guarantee that. Rebuilding one faction's table resets `cachedDate` and `cachedSystem` but keeps every other faction's table (RangedPlanetSelector.java:190-196). A later selection for such a faction then reuses a table built for the old date or system. The model follows the code: `CreateLookupMap` ensures that every other faction's cached table is kept unchanged and that no rebuild is due for it at the new date and system, so the next selection for it draws from the old table.

The cache holds the system itself, not a snapshot of it, so the system test asks only whether the campaign is in the same system. The model caches the system's id: at an earlier date in the same system the cache is reused even when that system's factions or populations differ at that date.

The lookup is also meant to always succeed. For a non-negative distance scale, the code fails in one case: some planet qualified, but every weight was zero (populations of 1, since log10 of 1 is 0). Then `lastKey()` is 0.0 and `nextDouble(0.0)` throws. `Pick` returns None for that case, and `PickFailsOnlyOnZeroTotal` characterises it.

## Model

| member | source | states |
|---|---|---|
| `WeightTable.Put` | MekHQ/src/mekhq/campaign/universe/selectors/planetSelectors/RangedPlanetSelector.java:172 | TreeMap.put keeps the keys strictly ascending and the table non-empty; the first key is the smaller of the new key and the old first key |
| `WeightTable.PutContents` | MekHQ/src/mekhq/campaign/universe/selectors/planetSelectors/RangedPlanetSelector.java:170-179 | after a put the table holds exactly the new entry and the old entries with other keys (an equal key is overwritten) |
| `WeightTable.PutAppends` | MekHQ/src/mekhq/campaign/universe/selectors/planetSelectors/RangedPlanetSelector.java:177-179 | a key above every key already present is appended at the end |
| `WeightTable.PutOverwritesLast` | MekHQ/src/mekhq/campaign/universe/selectors/planetSelectors/RangedPlanetSelector.java:177-179 | a key equal to the last key replaces the last entry's value (a zero weight overwrites the previous planet) |
| `WeightTable.CeilingIndex` | MekHQ/src/mekhq/campaign/universe/selectors/planetSelectors/RangedPlanetSelector.java:141 | the index of the first key at or above x: every earlier key is below x |
| `WeightTable.Ceiling` | MekHQ/src/mekhq/campaign/universe/selectors/planetSelectors/RangedPlanetSelector.java:141 | ceilingEntry is absent exactly when the table is empty or x is above the last key; otherwise it is an entry with key at or above x and the least such key |
| `WeightTable.LastKey` | MekHQ/src/mekhq/campaign/universe/selectors/planetSelectors/RangedPlanetSelector.java:140 | lastKey: the key of the last entry, the largest one in an ascending table |
| `WeightTable.Draw` | MekHQ/src/mekhq/campaign/universe/selectors/planetSelectors/RangedPlanetSelector.java:140 | nextDouble(bound) with a positive bound lies in [0, bound) |
| `WeightTable.Pick` | MekHQ/src/mekhq/campaign/universe/selectors/planetSelectors/RangedPlanetSelector.java:139-141 | the draw succeeds exactly when the last key is positive, and then returns the planet of `Ceiling`'s entry for the drawn value |
| `RangedPlanetSelection.Formula` | MekHQ/src/mekhq/campaign/universe/selectors/planetSelectors/RangedPlanetSelector.java:171 | the weight 100 * log10(pop) / (1 + distance * scale) of lines 171 and 178, with log10 a parameter; a zero divisor (possible only at a negative scale) gives 0 here, where Java's double division gives an infinity or NaN |
| `RangedPlanetSelection.FormulaNonNegative` | MekHQ/src/mekhq/campaign/universe/selectors/planetSelectors/RangedPlanetSelector.java:171 | for a non-negative distance scale, 100 * log10(pop) / (1 + distance * scale) is never negative for a populated planet at a non-negative distance, so the non-negative-weight lemmas apply to the code's formula |
| `RangedPlanetSelection.FormulaNegativeAtNegativeScale` | MekHQ/src/mekhq/campaign/universe/selectors/planetSelectors/RangedPlanetSelector.java:109-112 | setDistanceScale accepts a negative scale, and at scale -2 the formula is negative at distance 1, so those lemmas do not apply then |
| `RangedPlanetSelection.Eligible` | MekHQ/src/mekhq/campaign/universe/selectors/planetSelectors/RangedPlanetSelector.java:166 | a mercenary faction may come from any system, any other faction only from a system whose faction set at the date holds it |
| `RangedPlanetSelection.Candidates` | MekHQ/src/mekhq/campaign/universe/selectors/planetSelectors/RangedPlanetSelector.java:167-182 | only the primary planet without extra randomness, all the system's planets with it |
| `RangedPlanetSelection.Populated` | MekHQ/src/mekhq/campaign/universe/selectors/planetSelectors/RangedPlanetSelector.java:170 | the population at the date is known and positive |
| `RangedPlanetSelection.VisitPlanets` | MekHQ/src/mekhq/campaign/universe/selectors/planetSelectors/RangedPlanetSelector.java:175-181 | the planet loop: each populated candidate in turn adds its weight to the total and is put under the new total |
| `RangedPlanetSelection.VisitSystem` | MekHQ/src/mekhq/campaign/universe/selectors/planetSelectors/RangedPlanetSelector.java:165-183 | one system: its candidates are visited only when the faction may come from it |
| `RangedPlanetSelection.Visit` | MekHQ/src/mekhq/campaign/universe/selectors/planetSelectors/RangedPlanetSelector.java:170-172 | weighing one populated planet keeps the table ascending |
| `RangedPlanetSelection.Tabulate` | MekHQ/src/mekhq/campaign/universe/selectors/planetSelectors/RangedPlanetSelector.java:164-184 | the loop over the nearby systems yields an ascending table |
| `RangedPlanetSelection.LookupTable` | MekHQ/src/mekhq/campaign/universe/selectors/planetSelectors/RangedPlanetSelector.java:155-188 | the table createLookupMap builds is never empty and ascending |
| `RangedPlanetSelection.VisitPlanetsEmpty` | MekHQ/src/mekhq/campaign/universe/selectors/planetSelectors/RangedPlanetSelector.java:175-181 | the loop over a system's planets leaves the table empty exactly when it was empty and no planet is populated |
| `RangedPlanetSelection.TabulateEmpty` | MekHQ/src/mekhq/campaign/universe/selectors/planetSelectors/RangedPlanetSelector.java:164-186 | the table stays empty exactly when no nearby system the faction may come from has a populated candidate |
| `RangedPlanetSelection.Fallback` | MekHQ/src/mekhq/campaign/universe/selectors/planetSelectors/RangedPlanetSelector.java:186-188 | with no qualifying candidate the table is exactly 1.0 -> the current system's primary planet; otherwise the tabulated table is used |
| `RangedPlanetSelection.VisitPlanetsMembers` | MekHQ/src/mekhq/campaign/universe/selectors/planetSelectors/RangedPlanetSelector.java:175-181 | each entry added by a system's planet loop is a populated planet of that system |
| `RangedPlanetSelection.TabulateMembers` | MekHQ/src/mekhq/campaign/universe/selectors/planetSelectors/RangedPlanetSelector.java:164-184 | every tabulated planet is populated and a candidate of a nearby system the faction may come from (MERC: any; other: listed in the system's faction set) |
| `RangedPlanetSelection.LookupTableMembers` | MekHQ/src/mekhq/campaign/universe/selectors/planetSelectors/RangedPlanetSelector.java:166-188 | every entry is the fallback (only when nothing qualified) or a populated planet of an eligible nearby system, its primary unless extraRandom holds |
| `RangedPlanetSelection.VisitAtEnd` | MekHQ/src/mekhq/campaign/universe/selectors/planetSelectors/RangedPlanetSelector.java:170-179 | under non-negative weights one visit appends the planet under the new running total, or overwrites the last entry when the weight is zero; the last key stays equal to the total |
| `RangedPlanetSelection.VisitPlanetsConsistent` | MekHQ/src/mekhq/campaign/universe/selectors/planetSelectors/RangedPlanetSelector.java:175-181 | the planet loop keeps the last key equal to the non-negative running total |
| `RangedPlanetSelection.TabulateConsistent` | MekHQ/src/mekhq/campaign/universe/selectors/planetSelectors/RangedPlanetSelector.java:161-184 | after the whole loop the last key is the non-negative total weight (zero when the table is empty) |
| `RangedPlanetSelection.VisitPlanetsComplete` | MekHQ/src/mekhq/campaign/universe/selectors/planetSelectors/RangedPlanetSelector.java:175-181 | under positive weights the planet loop only extends the table and every populated planet ends up in it |
| `RangedPlanetSelection.TabulateExtends` | MekHQ/src/mekhq/campaign/universe/selectors/planetSelectors/RangedPlanetSelector.java:164-184 | under positive weights each system only extends the table built so far |
| `RangedPlanetSelection.TabulateComplete` | MekHQ/src/mekhq/campaign/universe/selectors/planetSelectors/RangedPlanetSelector.java:164-184 | under positive weights every populated candidate of every eligible nearby system appears in the table |
| `RangedPlanetSelection.PickFailsOnlyOnZeroTotal` | MekHQ/src/mekhq/campaign/universe/selectors/planetSelectors/RangedPlanetSelector.java:139-140 | the draw fails exactly when some candidate qualified but the total weight is zero |
| `RangedPlanetSelection.SelectionQualifies` | MekHQ/src/mekhq/campaign/universe/selectors/planetSelectors/RangedPlanetSelector.java:139-141 | a successful draw returns the fallback planet or a populated candidate of an eligible nearby system |
| `RangedPlanetSelection.BuildTable` | MekHQ/src/mekhq/campaign/universe/selectors/planetSelectors/RangedPlanetSelector.java:155-188 | createLookupMap's nested loops compute exactly LookupTable |
| `RangedPlanetSelection.AddSystem` | MekHQ/src/mekhq/campaign/universe/selectors/planetSelectors/RangedPlanetSelector.java:165-183 | one pass of the loop body (eligibility test, primary-only or all-planets branch) computes exactly VisitSystem |
| `RangedPlanetSelection.AddPlanet` | MekHQ/src/mekhq/campaign/universe/selectors/planetSelectors/RangedPlanetSelector.java:169-180 | the statements for one planet, shared by both branches, are proved equal to `Visit`: a populated planet adds its weight and is put under the new total, any other changes nothing |
| `RangedPlanetSelection.RangedPlanetSelector.constructor` | MekHQ/src/mekhq/campaign/universe/selectors/planetSelectors/RangedPlanetSelector.java:49-91 | a new selector has distance scale 0.6, the given range, extraRandom flag and weight formula, and an empty cache |
| `RangedPlanetSelection.RangedPlanetSelector.ClearCache` | MekHQ/src/mekhq/campaign/universe/selectors/planetSelectors/RangedPlanetSelector.java:148-153 | the cached date, system and tables are all reset |
| `RangedPlanetSelection.RangedPlanetSelector.NeedsRebuild` | MekHQ/src/mekhq/campaign/universe/selectors/planetSelectors/RangedPlanetSelector.java:132-135 | a rebuild is due when nothing is cached, the faction has no table, the cached system id is not the current system's, or the date is after the cached date |
| `RangedPlanetSelection.RangedPlanetSelector.SetDistanceScale` | MekHQ/src/mekhq/campaign/universe/selectors/planetSelectors/RangedPlanetSelector.java:109-112 | the scale is set and the whole cache is reset |
| `RangedPlanetSelection.RangedPlanetSelector.CreateLookupMap` | MekHQ/src/mekhq/campaign/universe/selectors/planetSelectors/RangedPlanetSelector.java:155-197 | records the date and system id, puts the faction's new table into the cache map (created if absent), keeps every other faction's table and leaves no rebuild due for it at this date and system |
| `RangedPlanetSelection.RangedPlanetSelector.SelectPlanet` | MekHQ/src/mekhq/campaign/universe/selectors/planetSelectors/RangedPlanetSelector.java:131-142 | rebuilds exactly when the cache is empty, lacks the faction, the campaign is in another system (by id) or the date is later, else changes nothing; afterwards no rebuild is due for this or any earlier date in the same system, whatever that system's factions and populations are then; the result is the draw from the faction's cached table |
| `RangedPlanetSelection.RangedPlanetSelector.SelectCampaignPlanet` | MekHQ/src/mekhq/campaign/universe/selectors/planetSelectors/RangedPlanetSelector.java:126-128 | selection for the campaign's own faction, with SelectPlanet's rebuild rule: a rebuild exactly when the cache is empty, lacks the faction, the system id differs or the date is later; afterwards no rebuild is due for any earlier date in the same system |
| `StoryArcs.Started` | MekHQ/src/mekhq/campaign/storyarc/StoryArc.java:217 | startEvent marks the event as started once more and changes nothing else |
| `StoryArcs.Completed` | MekHQ/src/mekhq/campaign/storyarc/StoryArc.java:188 | completeEvent marks the event as completed once more and changes nothing else |
| `StoryArcs.Matches` | MekHQ/src/mekhq/campaign/storyarc/StoryArc.java:169-233 | the handlers' per-event tests: a scenario event of the scenario id (169), an active travel event to the arrival system (199-200), a date-reached event with a non-null date equal to the new date (216), a person-killed event of the person (233) |
| `StoryArcs.FirstMatch` | MekHQ/src/mekhq/campaign/storyarc/StoryArc.java:165-175 | the position found is a match with no match before it; none is found only when nothing matches |
| `StoryArcs.Handle` | MekHQ/src/mekhq/campaign/storyarc/StoryArc.java:196-206 | the shared handler loop: the first event matching the query gets the mark when it is active or activity is not required; nothing else changes |
| `StoryArcs.ScenarioResolved` | MekHQ/src/mekhq/campaign/storyarc/StoryArc.java:184-190 | the scenario handler: completes the first scenario event of the id when it is active |
| `StoryArcs.TransitCompleted` | MekHQ/src/mekhq/campaign/storyarc/StoryArc.java:193-207 | the transit handler: completes the first active travel event to the system |
| `StoryArcs.NewDay` | MekHQ/src/mekhq/campaign/storyarc/StoryArc.java:210-223 | the new-day handler: starts the first date-reached event with the date |
| `StoryArcs.PersonChanged` | MekHQ/src/mekhq/campaign/storyarc/StoryArc.java:226-241 | the person handler: starts the first person-killed event of a present, dead person |
| `StoryArcs.HandleEffect` | MekHQ/src/mekhq/campaign/storyarc/StoryArc.java:184-241 | a handler changes only the first match (when it qualifies), by exactly its mark |
| `StoryArcs.HandleKeepsIdentity` | MekHQ/src/mekhq/campaign/storyarc/StoryArc.java:184-241 | ids, kinds and active flags of all events survive every handler |
| `StoryArcs.ScenarioResolvedEffect` | MekHQ/src/mekhq/campaign/storyarc/StoryArc.java:184-190 | scenario resolution completes the first event of the scenario if it is active, and nothing else changes |
| `StoryArcs.InactiveScenarioBlocks` | MekHQ/src/mekhq/campaign/storyarc/StoryArc.java:186-189 | an inactive first event of the scenario blocks any later active one: nothing changes |
| `StoryArcs.TransitCompletedEffect` | MekHQ/src/mekhq/campaign/storyarc/StoryArc.java:193-207 | transit completion completes the first active travel event to the system, passing over inactive ones |
| `StoryArcs.NewDayEffect` | MekHQ/src/mekhq/campaign/storyarc/StoryArc.java:210-223 | a new day starts the first date-reached event for the date, active or not; an event without a date is never touched |
| `StoryArcs.PersonChangedEffect` | MekHQ/src/mekhq/campaign/storyarc/StoryArc.java:226-241 | nothing happens unless the person is present and dead; then the first person-killed event about them is started |
| `StoryArcs.IndexOf` | MekHQ/src/mekhq/campaign/storyarc/StoryArc.java:134 | the position found holds the id; none is found only when no event has it |
| `StoryArcs.PutEvent` | MekHQ/src/mekhq/campaign/storyarc/StoryArc.java:348 | LinkedHashMap.put: replaces the event with the same id in place, or appends the event |
| `StoryArcs.PutEventLookup` | MekHQ/src/mekhq/campaign/storyarc/StoryArc.java:348 | after a put the id finds the new event, other ids find what they found before, and ids stay distinct |
| `StoryArcs.BeginEvents` | MekHQ/src/mekhq/campaign/storyarc/StoryArc.java:154-157 | begin: fails for a null or unknown starting id, else starts the starting event |
| `StoryArcs.BeginEffect` | MekHQ/src/mekhq/campaign/storyarc/StoryArc.java:154-157 | begin fails exactly when the starting id is null or unknown; otherwise only the event with that id is started |
| `StoryArcs.LastText` | MekHQ/src/mekhq/campaign/storyarc/StoryArc.java:396-398 | the trimmed text of the last node with the name, null when there is none |
| `StoryArcs.LastNamed` | MekHQ/src/mekhq/campaign/storyarc/StoryArc.java:393-399 | the position of the last node with the name, -1 only when there is none |
| `StoryArcs.ParsedVariable` | MekHQ/src/mekhq/campaign/storyarc/StoryArc.java:389-407 | a variable is defined exactly when both a key node and a value node occur |
| `StoryArcs.ReplacementTokens` | MekHQ/src/mekhq/campaign/storyarc/StoryArc.java:523-537 | "@commanderRank" then "@commander", mapped to the commander's rank name and full title, or to "rank(?)" and "commander(?)" without a commander |
| `StoryArcs.ApplyReplacements` | MekHQ/src/mekhq/campaign/storyarc/StoryArc.java:550-554 | each token in insertion order is replaced in the text produced by the previous ones |
| `StoryArcs.PlainTextUnchanged` | MekHQ/src/mekhq/campaign/storyarc/StoryArc.java:544-557 | text without '@' is returned unchanged |
| `StoryArcs.RankTokenBecomesRank` | MekHQ/src/mekhq/campaign/storyarc/StoryArc.java:523-557 | "@commanderRank" becomes the rank name ("rank(?)" with no commander), not the title followed by "Rank" |
| `StoryArcs.CommanderTokenBecomesTitle` | MekHQ/src/mekhq/campaign/storyarc/StoryArc.java:523-557 | "@commander" becomes the full title ("commander(?)" with no commander) |
| `StoryArcs.WrongOrderBreaksRankToken` | MekHQ/src/mekhq/campaign/storyarc/StoryArc.java:530-531 | replacing "@commander" first would turn "@commanderRank" into "commander(?)Rank" |
| `StoryArcs.ReplaceTokens` | MekHQ/src/mekhq/campaign/storyarc/StoryArc.java:544-557 | the loop applies the two replacements in their insertion order |
| `StoryArcs.ScanVariableNodes` | MekHQ/src/mekhq/campaign/storyarc/StoryArc.java:393-399 | the loop keeps the trimmed text of the last "key" node and of the last "value" node |
| `StoryArcs.StoryArc.constructor` | MekHQ/src/mekhq/campaign/storyarc/StoryArc.java:88-93 | a new arc has startNew set and no events, personalities or variables |
| `StoryArcs.StoryArc.GetStoryEvent` | MekHQ/src/mekhq/campaign/storyarc/StoryArc.java:130-135 | null for a null id; otherwise the stored event with that id, null only when none has it |
| `StoryArcs.StoryArc.PutStoryEvent` | MekHQ/src/mekhq/campaign/storyarc/StoryArc.java:348 | the map put of a parsed event: ids stay distinct and the id now finds the event |
| `StoryArcs.StoryArc.AddCustomStringVariable` | MekHQ/src/mekhq/campaign/storyarc/StoryArc.java:146-148 | the variable map is updated at the key |
| `StoryArcs.StoryArc.GetCustomStringVariable` | MekHQ/src/mekhq/campaign/storyarc/StoryArc.java:150-152 | the value stored under the key, null when absent |
| `StoryArcs.StoryArc.Begin` | MekHQ/src/mekhq/campaign/storyarc/StoryArc.java:154-157 | starts the starting event, failing when it is missing |
| `StoryArcs.StoryArc.FindStoryEventByScenarioId` | MekHQ/src/mekhq/campaign/storyarc/StoryArc.java:165-175 | the loop returns the first scenario event of the scenario |
| `StoryArcs.StoryArc.HandleScenarioResolved` | MekHQ/src/mekhq/campaign/storyarc/StoryArc.java:184-190 | the events become ScenarioResolved of the old events |
| `StoryArcs.StoryArc.HandleTransitComplete` | MekHQ/src/mekhq/campaign/storyarc/StoryArc.java:193-207 | the events become TransitCompleted of the old events |
| `StoryArcs.StoryArc.HandleNewDay` | MekHQ/src/mekhq/campaign/storyarc/StoryArc.java:210-223 | the events become NewDay of the old events |
| `StoryArcs.StoryArc.HandlePersonChanged` | MekHQ/src/mekhq/campaign/storyarc/StoryArc.java:226-241 | the events become PersonChanged of the old events |
| `StoryArcs.StoryArc.ParseCustomStringVariable` | MekHQ/src/mekhq/campaign/storyarc/StoryArc.java:389-407 | adds the last trimmed key with the last trimmed value only when both occur |
| `Text.Trim` | MekHQ/src/mekhq/campaign/storyarc/StoryArc.java:396-398 | String.trim leaves no character at or below ' ' at either end |
| `Text.TrimIsSlice` | MekHQ/src/mekhq/campaign/storyarc/StoryArc.java:396-398 | String.trim removes only characters at or below ' ', and only from the ends |
| `Text.EndsWith` | MekHQ/src/mekhq/gui/dialog/EditMapSettingsDialog.java:339 | endsWith: the last characters of the text are the suffix |
| `Text.LastIndexOf` | MekHQ/src/mekhq/gui/dialog/EditMapSettingsDialog.java:341 | lastIndexOf is -1 exactly when the character is absent; otherwise it is the last occurrence |
| `Text.ReplaceAll` | MekHQ/src/mekhq/campaign/storyarc/StoryArc.java:553 | leftmost, non-overlapping literal replacement of every occurrence of the pattern |
| `Text.ReplaceAllWithoutLead` | MekHQ/src/mekhq/campaign/storyarc/StoryArc.java:553 | a text without the token's first character is not changed by replacing the token |
| `Text.ReplaceAllLeading` | MekHQ/src/mekhq/campaign/storyarc/StoryArc.java:553 | a token at the start of the text is replaced and the rest is processed after it |
| `AstechNag.Wrap32` | MekHQ/src/mekhq/gui/dialog/InsufficientAstechTimeNagDialog.java:42-48 | int arithmetic: the result is congruent to the exact value modulo 2^32 and equals it when it fits |
| `AstechNag.WrapAdd` | MekHQ/src/mekhq/gui/dialog/InsufficientAstechTimeNagDialog.java:44 | summing wrapped values and wrapping again is wrapping the exact sum |
| `AstechNag.NeedIsWrappedMinutes` | MekHQ/src/mekhq/gui/dialog/InsufficientAstechTimeNagDialog.java:42-44 | the stream's int sum is 6 times the exact maintenance time of the qualifying units, wrapped |
| `AstechNag.NeedIsMinutesInRange` | MekHQ/src/mekhq/gui/dialog/InsufficientAstechTimeNagDialog.java:42-44 | without overflow the sum is exactly 6 times the qualifying units' maintenance time |
| `AstechNag.OtherUnitsAddNothing` | MekHQ/src/mekhq/gui/dialog/InsufficientAstechTimeNagDialog.java:43 | an unmaintained, absent or self-crewed unit contributes nothing |
| `AstechNag.NeedsAstechs` | MekHQ/src/mekhq/gui/dialog/InsufficientAstechTimeNagDialog.java:43 | the stream filter: the unit is maintained, present and not self-crewed |
| `AstechNag.Need` | MekHQ/src/mekhq/gui/dialog/InsufficientAstechTimeNagDialog.java:42-44 | the int stream sum: six times each maintained, present, not self-crewed unit's maintenance time, wrapped at every step |
| `AstechNag.Available` | MekHQ/src/mekhq/gui/dialog/InsufficientAstechTimeNagDialog.java:46-49 | the astech pool minutes, plus the overtime minutes when overtime is allowed, in int arithmetic |
| `AstechNag.CeilDiv` | MekHQ/src/mekhq/gui/dialog/InsufficientAstechTimeNagDialog.java:52 | the ceiling of d / divisor for a positive divisor |
| `AstechNag.CeilDivIsLeast` | MekHQ/src/mekhq/gui/dialog/InsufficientAstechTimeNagDialog.java:52 | the ceiling of d / divisor is the least count of divisors covering d, at least 1 for positive d |
| `AstechNag.CheckNag` | MekHQ/src/mekhq/gui/dialog/InsufficientAstechTimeNagDialog.java:37-58 | no nag without maintenance checking; otherwise a nag exactly when the available minutes (pool plus overtime when allowed) are fewer than the needed ones |
| `AstechNag.AstechsNeededIsLeast` | MekHQ/src/mekhq/gui/dialog/InsufficientAstechTimeNagDialog.java:51-54 | the nag names the fewest astechs whose support time covers the shortfall, at least one |
| `EditMapSettings.BandZoom` | MekHQ/src/mekhq/gui/dialog/EditMapSettingsDialog.java:447-460 | the band zoom lies in [0, 4] |
| `EditMapSettings.ZoomFor` | MekHQ/src/mekhq/gui/dialog/EditMapSettingsDialog.java:447-471 | the zoom lies in [0, 6]; a narrow board (width below 25) gets its band's zoom when that is at least 3 and exactly 3 otherwise; a wide one gets its band's zoom |
| `EditMapSettings.MinimapZoom` | MekHQ/src/mekhq/gui/dialog/EditMapSettingsDialog.java:447-471 | the step-by-step ifs compute ZoomFor and stay in [0, 6] |
| `EditMapSettings.WideBoardBands` | MekHQ/src/mekhq/gui/dialog/EditMapSettingsDialog.java:449-460 | on a wide board zoom 2, 1 and 0 correspond exactly to larger edges 21-30, 31-40 and above 40 |
| `EditMapSettings.BackToForwardSlash` | MekHQ/src/mekhq/gui/dialog/EditMapSettingsDialog.java:312-314 | same length, each backslash becomes a slash, every other character is kept, no backslash remains |
| `EditMapSettings.BackToForwardSlashIsReplace` | MekHQ/src/mekhq/gui/dialog/EditMapSettingsDialog.java:313 | the rewrite equals the literal replace-all of the one-backslash string by "/" |
| `EditMapSettings.BackToForwardSlashIdempotent` | MekHQ/src/mekhq/gui/dialog/EditMapSettingsDialog.java:312-314 | rewriting twice is rewriting once; a path without backslashes is unchanged |
| `EditMapSettings.BoardEntry` | MekHQ/src/mekhq/gui/dialog/EditMapSettingsDialog.java:339-342 | a file whose name ends in ".board" and whose board fits is listed as the base path, the separator and the name up to its last '.'; any other file is not listed |
| `EditMapSettings.BoardEntryStem` | MekHQ/src/mekhq/gui/dialog/EditMapSettingsDialog.java:339-342 | a .board file of the right size is listed as base path, separator and the name without ".board"; of another size it is not listed |
| `EditMapSettings.OtherFilesSkipped` | MekHQ/src/mekhq/gui/dialog/EditMapSettingsDialog.java:339 | a file not ending in ".board" is never listed |
| `EditMapSettings.Enqueue` | MekHQ/src/mekhq/gui/dialog/EditMapSettingsDialog.java:417-425 | the loader's add: a name already queued is not queued again, a new one goes to the end |
| `EditMapSettings.EnqueueKeepsDistinct` | MekHQ/src/mekhq/gui/dialog/EditMapSettingsDialog.java:417-425 | the queue stays free of duplicates, gains exactly the name, and adding it again changes nothing |
| `EditMapSettings.ImageLoader.constructor` | MekHQ/src/mekhq/gui/dialog/EditMapSettingsDialog.java:415 | the queue starts empty |
| `EditMapSettings.ImageLoader.Add` | MekHQ/src/mekhq/gui/dialog/EditMapSettingsDialog.java:417-425 | a queued name is not queued again; a new name is appended; no duplicates |
| `EditMapSettings.ImageLoader.Poll` | MekHQ/src/mekhq/gui/dialog/EditMapSettingsDialog.java:492 | the oldest name is removed and returned; nothing when the queue is empty |
| `EditMapSettings.InitialBoardSize` | MekHQ/src/mekhq/gui/dialog/EditMapSettingsDialog.java:139-144 | the given size exactly when both edges are positive, otherwise the 16x17 default; both edges always positive |
| `EditMapSettings.SelectedValue` | MekHQ/src/mekhq/gui/dialog/EditMapSettingsDialog.java:276 | getSelectedValue: the selected entry, null exactly when nothing is selected |
| `EditMapSettings.ChosenMap` | MekHQ/src/mekhq/gui/dialog/EditMapSettingsDialog.java:275-284 | the fixed board in fixed mode; in generator mode null for the leading "None" entry, else the selected generator |
| `EditMapSettings.ChosenSize` | MekHQ/src/mekhq/gui/dialog/EditMapSettingsDialog.java:275-286 | the size box's board in fixed mode, the non-negative spinner values otherwise |
| `EditMapSettings.EditMapSettingsDialog.constructor` | MekHQ/src/mekhq/gui/dialog/EditMapSettingsDialog.java:64-72 | the dialog starts from the given settings |
| `EditMapSettings.EditMapSettingsDialog.Done` | MekHQ/src/mekhq/gui/dialog/EditMapSettingsDialog.java:272-289 | board type and fixed flag from the widgets, map and size per ChosenMap and ChosenSize |

## Left out

- The floating-point weight `100 * log10(pop) / (1 + distance * scale)` is the selector's `weigher`, a function fixed at construction; `Formula` writes it out with log10 as a parameter. The draw `nextDouble(lastKey)` is `u * lastKey` in exact reals. Double rounding is not modelled.
- RangedPlanetSelection.TabulateComplete: it assumes every populated planet weighs more than zero. The real formula gives a population of 1 the weight 0, and such a planet can be overwritten by the next one (see VisitAtEnd).
- The star map (`Systems.getNearbySystems` with the selector's `range`, `getDistanceTo`, `getFactionSet`, `getPopulation`) is a snapshot in the `Campaign` value. Faction equality is value equality. The cache compares systems by id (`PlanetarySystem`'s own code is not part of this model), so a system at another date is the same system.
- `AbstractPlanetSelector`'s own `clearCache` (the super call) is not part of this model.
- StoryEvent.startEvent and completeEvent are counters on the chosen event. Their own effects, including any change of the active flag, are not part of this model.
- XML: writing, `parseFromXML`, `parseStoryEvents` (only its map put is `PutStoryEvent`), `parsePersonalities`, and loading arcs from files and directories. These are I/O.
- `getPersonality` is left out: it calls `Personality.updatePersonalityFromCampaign`, whose code is not part of this model. `begin`'s `MekHQ.registerHandler` is left out too.
- The handlers receive the scenario id, the arrival system's id, the new date and the changed person directly, instead of the bus event objects. The senior commander is a parameter of `ReplaceTokens`.
- The static `replacementTokens` map is rebuilt by a function. Its keys are always the same two, in the same insertion order.
- `replaceAll` is a literal, leftmost, non-overlapping replacement. Regular-expression syntax in keys, and a dollar sign or backslash in replacement values, are not modelled.
- RangedPlanetSelection.NonNegativeAt: the lemmas about totals and the draw (`VisitAtEnd`, `VisitPlanetsConsistent`, `TabulateConsistent`, `PickFailsOnlyOnZeroTotal`) assume the weigher is non-negative at the scale in use for every populated planet at a non-negative distance, and that star-map distances are non-negative (`DistancesNonNegative`). The code's formula meets this for a non-negative scale (`FormulaNonNegative`), including the default 0.6. `setDistanceScale` accepts any double, and at a negative scale the formula can be negative (`FormulaNegativeAtNegativeScale`), infinite or NaN; nothing is promised about the table then.
- RangedPlanetSelection.PositiveAt: the completeness lemmas (`VisitPlanetsComplete`, `TabulateExtends`, `TabulateComplete`) assume a strictly positive weight, which the code's formula does not give a population of 1.
- AstechNag.AstechsNeededIsLeast: it assumes the available minutes are non-negative. With a negative pool, `need - available` can wrap around, and the ceiling division then yields a non-positive count.
- The double division in `Math.ceil((need - available) / (double) SUPPORT_TIME)` is integer ceiling division. `Person.PRIMARY_ROLE_SUPPORT_TIME` is a positive parameter. The nag text (`setDescription`) is left out.
- Swing: widget construction, `changeBoardType`, `changeMapType`, `refreshBoardList`, `BoardNameRenderer` and `cancel`. `InitialBoardSize` is the size the dialog asks the size box to select. Whether the box holds that size is not modelled.
- The board scan: directory recursion, `File.separator` (a parameter), `Board.boardIsSize` (the `fitsSize` parameter) and the sort of the result.
- The image loader's threading: the SwingWorker loop, the poll timeout, the `synchronized` blocks, and thumbnail loading and drawing in `prepareImage`. Only its queue and its zoom rule are modelled.
