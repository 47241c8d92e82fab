# World Cup 2022 charts, modelled in Dafny

This project models the chart components of an Angular and D3
data-visualisation site about Morocco's run at the 2022 World Cup. The
model covers:

- **Horizontal pictogram** (`PictogramData`, `PictogramClean`, `PictogramOrder`,
  `PictogramTop5`, `PictogramToggle`, `PictogramComponent`):
  - `loadPlayers` turns each team's semicolon-separated file into player objects.
  - `loadChampionships` collects the five best-ranked clubs of each of five
    European championships.
  - `cleanPos`, `cleanAge` and `cleanClub` rewrite the player objects in place.
  - `orderPlayers` moves players of a top-5 club first.
  - `countClub` counts the players of a top-5 club.
  - The toggle and wheel listener switch the layout between the club order and
    the age order.
- **Grouped bar chart** (`MultiBarData`, `MultiBarChart`):
  - `ngOnInit` adds a sum to every country.
  - Bars, patterns and growth delays come from the country data.
  - The highlight and unhighlight functions change opacity, value labels and
    the weight of the legend text when the pointer moves over a bar, a
    country label or a legend item.
- **Back-to-back chart** (`BackToBack`):
  - goals scored and conceded per country, sorted by goal difference;
  - the goal axis ticks;
  - the bar hover handlers.
- **Wins-and-losses chart** (`WinsAndLosses`):
  - the country-to-phase index the CSV subscription builds;
  - `extractPhases`.
- **Possession charts** (`PossessionChart`, `PossessionHistogramme`,
  `PossessionTopFour`):
  - the zip and sort of the possession records;
  - the axis ticks;
  - the bar hover handlers;
  - the intersection-observer lifecycle.
- **Touches waffle charts** (`TouchesWaffle`, `TouchesHover`):
  - `drawWaffle` expands each country's counts into one square per touch;
  - the squares are laid out on a grid and coloured;
  - the square, legend and svg pointer handlers keep `previousGroup` in step
    with the highlighted squares.

Six modules model JavaScript itself rather than a component:

- `Wrappers`: `Option`, standing for `undefined` or a thrown error.
- `Seqs`: `map`, `forEach`, and a filter-then-`attr`.
- `JsString`: `split`, `join`, `trim`, `parseInt`, `toUpperCase` and `indexOf`.
- `JsObject` and `JsSet`: objects with insertion-ordered keys, and sets
  (or arrays grown with an `includes` guard).
- `StableSort`: `Array.prototype.sort`, which is stable, with a numeric
  comparator.
- `Style`: the font weight of a text element.

State the components update in place is modelled as classes whose methods
say what the new state is. The state is a player map, an svg's opacities,
or a chart's `data`. Each method's new state is given by a pure function,
and the lemmas state what the source promises about those functions.

Things outside the program are parameters:

- The HTTP requests are a parameter `fetch`: the file's text, or `None` when
  the request fails.
- The CSV parser's output is the rows it delivers.
- `sanitize` (Unicode NFD normalisation and a regular expression) is a
  parameter of type `string -> string`.
- `COUNTRY_COLOR_SCALE` is a parameter `colorOf`.

## Model

Paths are relative to the repository root. Abbreviations used in the
states column: "at rest" means nothing is dimmed or emphasised.

| member | source | states |
|---|---|---|
| PictogramData.Prop | client/src/app/components/horizontal-pictogram/horizontal-pictogram.component.ts:118 | A property read is defined only for a key the player object has. |
| PictogramData.CleanCells | client/src/app/components/horizontal-pictogram/horizontal-pictogram.component.ts:114 | One cleaned cell per `;`-separated piece of the row, cell `i` being piece `i` with its first `\r` removed and then trimmed. |
| PictogramData.NonBlank | client/src/app/components/horizontal-pictogram/horizontal-pictogram.component.ts:109 | The kept lines are exactly the lines that are not all white space, and there are no more of them than lines. |
| PictogramData.LastIndexBeforeSpec | client/src/app/components/horizontal-pictogram/horizontal-pictogram.component.ts:117-119 | The index found is a column holding the key, with no later column before `k` holding it, or -1 when no column before `k` holds it. |
| PictogramData.FillUpToGet | client/src/app/components/horizontal-pictogram/horizontal-pictogram.component.ts:117-119 | After the first `k` header writes, a key holds the cell of the LAST column with that header, so a repeated header keeps its last cell. |
| PictogramData.RecordFields | client/src/app/components/horizontal-pictogram/horizontal-pictogram.component.ts:116-120 | A player object holds the country under `Country`, overriding any column of that name, and under every other key the cell of the last column with that header. |
| PictogramData.FillUpToKeys | client/src/app/components/horizontal-pictogram/horizontal-pictogram.component.ts:117-119 | The keys after `k` writes are the distinct headers among the first `k`, in first-seen order. |
| PictogramData.RecordKeys | client/src/app/components/horizontal-pictogram/horizontal-pictogram.component.ts:116-120 | A player object's keys are the distinct headers, then `Country` if it is not a header, with no key twice. |
| PictogramData.PlayersAt | client/src/app/components/horizontal-pictogram/horizontal-pictogram.component.ts:113-122 | An indexing step for the proofs about the rosters: there is one player per line after the header row, and player `i` is built from line `i`. It only unfolds `Players`. |
| PictogramData.NonBlankEmpty | client/src/app/components/horizontal-pictogram/horizontal-pictogram.component.ts:109 | Filtering leaves nothing if and only if every line is blank. |
| PictogramData.RosterNone | client/src/app/components/horizontal-pictogram/horizontal-pictogram.component.ts:109-110 | A team file throws (no header row to split) if and only if every line of it is blank. |
| PictogramData.Loaded | client/src/app/components/horizontal-pictogram/horizontal-pictogram.component.ts:104-126 | The number of countries that load before the first failure is at most the number of countries. |
| PictogramData.LoadFromKeys | client/src/app/components/horizontal-pictogram/horizontal-pictogram.component.ts:104-126 | Since one `try` wraps the whole loop, loading adds exactly the countries before the first failure to `playerData`'s keys, in order. |
| PictogramData.LoadFromKeysFresh | client/src/app/components/horizontal-pictogram/horizontal-pictogram.component.ts:105-111 | With distinct countries that are new to the map, the keys gain exactly the loaded prefix of the countries, appended. |
| PictogramData.LoadFromGet | client/src/app/components/horizontal-pictogram/horizontal-pictogram.component.ts:105-122 | Each country loaded before the first failure holds exactly the players its own file yields. |
| PictogramData.LoadFromKeeps | client/src/app/components/horizontal-pictogram/horizontal-pictogram.component.ts:105-122 | Loading other countries leaves a country's entry unchanged. |
| PictogramClean.PositionName | client/src/app/components/horizontal-pictogram/horizontal-pictogram.component.ts:149-154 | A code with no comma is never turned into a name with a comma. |
| PictogramClean.PositionNames | client/src/app/components/horizontal-pictogram/horizontal-pictogram.component.ts:159-160 | One name per code, name `i` being the spelled-out form of trimmed code `i` (or the trimmed code itself). |
| PictogramClean.BuildPositions | client/src/app/components/horizontal-pictogram/horizontal-pictogram.component.ts:158-163 | The loop and the slice compute the expanded position string. |
| PictogramClean.TerminateNames | client/src/app/components/horizontal-pictogram/horizontal-pictogram.component.ts:158-162 | The loop appends every name followed by a comma. |
| PictogramClean.TerminatedJoin | client/src/app/components/horizontal-pictogram/horizontal-pictogram.component.ts:159-163 | The comma-terminated names are the names joined by commas plus one final comma, which is the comma the slice removes. |
| PictogramClean.ExpandPositionsParts | client/src/app/components/horizontal-pictogram/horizontal-pictogram.component.ts:158-163 | Splitting the new `Pos` on commas gives back exactly the spelled-out names of the old codes, in order. |
| PictogramClean.CleanPosRecordSpec | client/src/app/components/horizontal-pictogram/horizontal-pictogram.component.ts:157-164 | `cleanPos` throws exactly on a player whose `Pos` is not a string; otherwise it rewrites `Pos` and no other key. |
| PictogramClean.AgeUpdateSpec | client/src/app/components/horizontal-pictogram/horizontal-pictogram.component.ts:134-143 | An age is rewritten exactly when both halves of its `-` split parse as integers; `AgeInYear` is then years + days/365. |
| PictogramClean.CleanAgeRecordSpec | client/src/app/components/horizontal-pictogram/horizontal-pictogram.component.ts:133-144 | `cleanAge` throws exactly on a player whose `Age` is not a string. An unparsable age leaves the player unchanged. A parsable one changes only `Age` and `AgeInYear`. |
| PictogramClean.AgeWellFormed | client/src/app/components/horizontal-pictogram/horizontal-pictogram.component.ts:134-142 | Every age written `<years>-<days>` in decimal is rewritten, with `AgeInYear` = years + days/365. |
| PictogramClean.AgeUpdateOf | client/src/app/components/horizontal-pictogram/horizontal-pictogram.component.ts:134-142 | An age whose two halves parse to `years` and `days` gets `AgeInYear` = years + days/365. |
| PictogramClean.ClubCountryNoDot | client/src/app/components/horizontal-pictogram/horizontal-pictogram.component.ts:180-185 | A club prefix without a `.` gives an empty club country. |
| PictogramClean.ClubCountryAfterDot | client/src/app/components/horizontal-pictogram/horizontal-pictogram.component.ts:180-185 | After a non-empty dot-free prefix and a `.`, the club country is the next `.`-separated piece upper-cased. |
| PictogramClean.CleanClubRecordSpec | client/src/app/components/horizontal-pictogram/horizontal-pictogram.component.ts:176-190 | `cleanClub` throws exactly when `Club` is not a string or has no non-breaking space. Otherwise it sets `Club`, `ClubCountry` and `ClubInTop5` (club name in `top5Data`) and nothing else. |
| PictogramClean.UpdatePlayersSpec | client/src/app/components/horizontal-pictogram/horizontal-pictogram.component.ts:157-164 | The in-place `forEach` keeps the roster's length. It completes exactly when the rewrite succeeds on every player. Players before the first throw are rewritten and later ones are untouched. |
| PictogramClean.UpdateRostersSpec | client/src/app/components/horizontal-pictogram/horizontal-pictogram.component.ts:156-165 | The nested `forEach` keeps every country in its place and completes exactly when every country's traversal completes; when it completes, every player is rewritten. |
| PictogramOrder.OrderPlayers | client/src/app/components/horizontal-pictogram/horizontal-pictogram.component.ts:255-264 | The countries keep their order, and each one's players are reordered by the sort. |
| PictogramOrder.CountIn | client/src/app/components/horizontal-pictogram/horizontal-pictogram.component.ts:460 | `countIn` never exceeds the roster size. |
| PictogramOrder.CountInWithKey | client/src/app/components/horizontal-pictogram/horizontal-pictogram.component.ts:460 | `countIn` is the number of players whose sort key is 1 (`ClubInTop5` true). |
| PictogramOrder.CountClubSum | client/src/app/components/horizontal-pictogram/horizontal-pictogram.component.ts:457-463 | `countIn` and `countOut` are non-negative and add up to `countTot`, the roster size. |
| PictogramOrder.CountInvariant | client/src/app/components/horizontal-pictogram/horizontal-pictogram.component.ts:255-264 | Ordering a roster leaves all three counts of `countClub` unchanged. |
| PictogramOrder.SortedFlags | client/src/app/components/horizontal-pictogram/horizontal-pictogram.component.ts:257-262 | In a roster sorted by the 0/1 flag, a player has the flag if and only if its index is below `countIn`. |
| PictogramOrder.OrderRosterSpec | client/src/app/components/horizontal-pictogram/horizontal-pictogram.component.ts:257-262 | The sort is a permutation. Player `i` afterwards is in a top-5 club if and only if `i < countIn`. The top-5 players, and the others, keep their relative order. This holds for names that do not convert to a number, where the name comparison is `NaN` and counts as equal; numeric-looking names are outside the model (see "Left out"). |
| PictogramOrder.OrderRosterTopFirst | client/src/app/components/horizontal-pictogram/horizontal-pictogram.component.ts:257-262 | After ordering, every top-5 player comes before every other player. |
| PictogramOrder.OrderPlayersSpec | client/src/app/components/horizontal-pictogram/horizontal-pictogram.component.ts:255-264 | `orderPlayers` keeps the countries and is idempotent. |
| PictogramToggle.WheelDuringTransition | client/src/app/components/horizontal-pictogram/horizontal-pictogram.component.ts:351-367 | While a circle transition runs, a wheel event changes nothing. |
| PictogramToggle.WheelSpec | client/src/app/components/horizontal-pictogram/horizontal-pictogram.component.ts:349-369 | With no transition running, a wheel event flips the toggle exactly when it scrolls against the current direction. On a flip it starts the matching layout's transition and records the new direction; otherwise it changes nothing. |
| PictogramToggle.TransitionDoneOnlyAtEnd | client/src/app/components/horizontal-pictogram/horizontal-pictogram.component.ts:275 | Only the `end` callback of a transition sets `transitiondone` back to true. |
| PictogramToggle.StepConsistent | client/src/app/components/horizontal-pictogram/horizontal-pictogram.component.ts:340-369 | Every event keeps `toggle.checked`, `scrollingdown` and the layout's target in agreement. |
| PictogramToggle.RunConsistent | client/src/app/components/horizontal-pictogram/horizontal-pictogram.component.ts:340-369 | Any sequence of events keeps them in agreement. |
| PictogramToggle.InitialConsistent | client/src/app/components/horizontal-pictogram/horizontal-pictogram.component.ts:82-83 | The initial state (unchecked, not scrolling down, transition done) is consistent. |
| PictogramTop5.FileWithoutColumns | client/src/app/components/horizontal-pictogram/horizontal-pictogram.component.ts:216-219 | A championship file whose header row lacks the team-name or the rank column contributes no team. |
| PictogramTop5.FileTeamsMember | client/src/app/components/horizontal-pictogram/horizontal-pictogram.component.ts:223-230 | A team is kept if and only if some data line has that non-empty name in the name column and a rank cell that parses to its rank. |
| PictogramTop5.TeamOfName | client/src/app/components/horizontal-pictogram/horizontal-pictogram.component.ts:225-228 | A kept team's name is the line's cell in the name column, and it is non-empty. |
| PictogramTop5.TopTeamsSpec | client/src/app/components/horizontal-pictogram/horizontal-pictogram.component.ts:233-236 | Sort then slice keeps min(5, n) teams taken from the file, in increasing rank, none ranked worse than a team left out. |
| PictogramTop5.ChampionshipNamesBound | client/src/app/components/horizontal-pictogram/horizontal-pictogram.component.ts:236-245 | One championship contributes at most five names. |
| PictogramTop5.OfferedStep | client/src/app/components/horizontal-pictogram/horizontal-pictogram.component.ts:205-249 | The names offered by one more championship are appended after those of the earlier ones. |
| PictogramTop5.Top5DataExact | client/src/app/components/horizontal-pictogram/horizontal-pictogram.component.ts:239-252 | `top5Data` has no repeats and holds exactly the names some championship offered. |
| PictogramTop5.Top5DataOrder | client/src/app/components/horizontal-pictogram/horizontal-pictogram.component.ts:239-252 | `top5Data` lists names in the order of their first offering. |
| PictogramComponent.CountriesDistinct | client/src/app/components/horizontal-pictogram/horizontal-pictogram.component.ts:37-45 | The seven countries are distinct. |
| PictogramComponent.CleanAllKeys | client/src/app/components/horizontal-pictogram/horizontal-pictogram.component.ts:97-100 | The three rewrites and the ordering keep the countries and their order. |
| PictogramComponent.InitPlayersKeys | client/src/app/components/horizontal-pictogram/horizontal-pictogram.component.ts:93-101 | Starting empty, `ngOnInit` leaves one entry per country up to the first failed team file, in order. |
| PictogramComponent.HorizontalPictogram.constructor | client/src/app/components/horizontal-pictogram/horizontal-pictogram.component.ts:68-83 | No player data, no top-5 list, and the toggle in its initial state. |
| PictogramComponent.HorizontalPictogram.NgOnInit | client/src/app/components/horizontal-pictogram/horizontal-pictogram.component.ts:93-101 | `playerData` becomes the loaded, rewritten and ordered rosters, and `top5Data` the collected club names. |
| PictogramComponent.HorizontalPictogram.LoadPlayers | client/src/app/components/horizontal-pictogram/horizontal-pictogram.component.ts:103-127 | `playerData` gains the rosters of the countries before the first failure. |
| PictogramComponent.HorizontalPictogram.LoadTeams | client/src/app/components/horizontal-pictogram/horizontal-pictogram.component.ts:105-123 | The loop over the countries, with its invariant. |
| PictogramComponent.HorizontalPictogram.LoadChampionships | client/src/app/components/horizontal-pictogram/horizontal-pictogram.component.ts:196-253 | `top5Data` becomes the distinct sanitised names, a failed request skipping only its own championship. |
| PictogramComponent.HorizontalPictogram.LoadRankings | client/src/app/components/horizontal-pictogram/horizontal-pictogram.component.ts:205-252 | The loop over the championships, with its invariant. |
| PictogramComponent.HorizontalPictogram.OfferTeams | client/src/app/components/horizontal-pictogram/horizontal-pictogram.component.ts:239-245 | Each name is pushed unless already present, so `teamNames` and `top5Data` stay equal. |
| PictogramComponent.HorizontalPictogram.CleanPos | client/src/app/components/horizontal-pictogram/horizontal-pictogram.component.ts:148-166 | The in-place rewrite of `Pos`, stopping at the first throw. |
| PictogramComponent.HorizontalPictogram.CleanAge | client/src/app/components/horizontal-pictogram/horizontal-pictogram.component.ts:131-146 | The in-place rewrite of `Age`, stopping at the first throw. |
| PictogramComponent.HorizontalPictogram.CleanClub | client/src/app/components/horizontal-pictogram/horizontal-pictogram.component.ts:174-192 | The in-place rewrite of `Club`, stopping at the first throw. |
| PictogramComponent.HorizontalPictogram.ForEachPlayer | client/src/app/components/horizontal-pictogram/horizontal-pictogram.component.ts:156-165 | The two nested loops rewrite players in place up to the first throw. |
| PictogramComponent.HorizontalPictogram.OrderPlayersInPlace | client/src/app/components/horizontal-pictogram/horizontal-pictogram.component.ts:255-265 | `playerData` is replaced by its ordered form. |
| PictogramComponent.HorizontalPictogram.OrderByAge | client/src/app/components/horizontal-pictogram/horizontal-pictogram.component.ts:268-303 | A transition towards the age layout starts; the toggle and the direction are unchanged. |
| PictogramComponent.HorizontalPictogram.OrderByClub | client/src/app/components/horizontal-pictogram/horizontal-pictogram.component.ts:305-338 | A transition towards the club layout starts; the toggle and the direction are unchanged. |
| PictogramComponent.HorizontalPictogram.OnSlideToggleChange | client/src/app/components/horizontal-pictogram/horizontal-pictogram.component.ts:340-347 | The age layout when checked, the club layout otherwise. |
| PictogramComponent.HorizontalPictogram.ChangeToggle | client/src/app/components/horizontal-pictogram/horizontal-pictogram.component.ts:25-33 | Flips the toggle and emits its change event. |
| PictogramComponent.HorizontalPictogram.OnTransitionEnd | client/src/app/components/horizontal-pictogram/horizontal-pictogram.component.ts:275 | The transition is marked done. |
| PictogramComponent.HorizontalPictogram.OnWheel | client/src/app/components/horizontal-pictogram/horizontal-pictogram.component.ts:350-368 | The wheel listener's step on the toggle state. |
| PictogramComponent.RewritePlayers | client/src/app/components/horizontal-pictogram/horizontal-pictogram.component.ts:157-164 | The loop over one country's players, rewriting in place until the first throw. |
| PictogramComponent.ReadTeam | client/src/app/components/horizontal-pictogram/horizontal-pictogram.component.ts:106-122 | One iteration of `loadPlayers`: no roster when the request fails or the file is blank. |
| PictogramComponent.ReadRoster | client/src/app/components/horizontal-pictogram/horizontal-pictogram.component.ts:109-122 | A team file's text read into its players. |
| PictogramComponent.ReadRows | client/src/app/components/horizontal-pictogram/horizontal-pictogram.component.ts:110-122 | The header row and then the data lines. |
| PictogramComponent.ReadPlayers | client/src/app/components/horizontal-pictogram/horizontal-pictogram.component.ts:113-122 | The data-line loop pushes one player per line. |
| PictogramComponent.BuildPlayer | client/src/app/components/horizontal-pictogram/horizontal-pictogram.component.ts:116-120 | The header loop and the `Country` write build one player object. |
| PictogramComponent.FileTopTeams | client/src/app/components/horizontal-pictogram/horizontal-pictogram.component.ts:211-236 | A championship file read to its five best-ranked teams, none when a column is missing. |
| PictogramComponent.TeamData | client/src/app/components/horizontal-pictogram/horizontal-pictogram.component.ts:223-230 | The loop keeps the data lines' teams in file order. |
| PictogramComponent.TeamRow | client/src/app/components/horizontal-pictogram/horizontal-pictogram.component.ts:224-229 | One data line gives its team when the name is non-empty and the rank parses. |
| PictogramComponent.OfferChampionship | client/src/app/components/horizontal-pictogram/horizontal-pictogram.component.ts:205-249 | One iteration of the championship loop, failed or not, keeps `teamNames` equal to the distinct names offered so far. |
| MultiBarData.Bars | client/src/app/components/multi-bar-chart/multi-bar-chart.component.ts:373-381 | There are three bars per country. |
| MultiBarData.InitialUnique | client/src/app/components/multi-bar-chart/multi-bar-chart.component.ts:27-84 | The initial `dataSets` object has distinct country keys. |
| MultiBarData.EnrichSpec | client/src/app/components/multi-bar-chart/multi-bar-chart.component.ts:109-120 | `ngOnInit` keeps the countries in order, with their colour and values, and sets `sum` to the three values added up. |
| MultiBarData.EnrichIdempotent | client/src/app/components/multi-bar-chart/multi-bar-chart.component.ts:109-120 | Running `ngOnInit` twice gives the same data as once. |
| MultiBarData.BarsAt | client/src/app/components/multi-bar-chart/multi-bar-chart.component.ts:373-381 | Bar `3i+k` is the `k`-th key of country `i`, with that key's value. |
| MultiBarData.BarsDistinct | client/src/app/components/multi-bar-chart/multi-bar-chart.component.ts:373-381 | With distinct countries, no two bars share both country and type. |
| MultiBarData.FillDefined | client/src/app/components/multi-bar-chart/multi-bar-chart.component.ts:304-333 | Every pattern a bar's fill refers to is defined by `createChart`. Passes bars use the country colour. |
| MultiBarData.FillPattern | client/src/app/components/multi-bar-chart/multi-bar-chart.component.ts:394-406 | Shots bars use the country's dotted pattern and occasions bars its striped pattern; other bars use the country colour. |
| MultiBarData.PatternIdsHas | client/src/app/components/multi-bar-chart/multi-bar-chart.component.ts:304-333 | Every country has both a dotted and a striped pattern. |
| MultiBarData.DelaySpec | client/src/app/components/multi-bar-chart/multi-bar-chart.component.ts:430-441 | The types grow in 200 ms apart in key order, any other type gets the last delay, and every delay is between 0 and 400. |
| MultiBarChart.Draw | client/src/app/components/multi-bar-chart/multi-bar-chart.component.ts:275-575 | The drawn chart is at rest, with one bar group per bar, one tick per country and one legend item per type. |
| MultiBarChart.HighlightBars | client/src/app/components/multi-bar-chart/multi-bar-chart.component.ts:147-189 | `highlightBar` changes only bar opacities and labels. |
| MultiBarChart.UnhighlightBars | client/src/app/components/multi-bar-chart/multi-bar-chart.component.ts:191-225 | `unhighlightBar` changes only bar opacities and labels. |
| MultiBarChart.XLabels | client/src/app/components/multi-bar-chart/multi-bar-chart.component.ts:227-249 | The x-label functions change only tick opacities. |
| MultiBarChart.LegendItems | client/src/app/components/multi-bar-chart/multi-bar-chart.component.ts:251-273 | The legend functions change only the legend items: the items of other types go to opacity 0.3 (or back to 1), the text of the items of the type goes bold (or back to normal), and every other item keeps its state. |
| MultiBarChart.EachBar | client/src/app/components/multi-bar-chart/multi-bar-chart.component.ts:459-475 | An `each` over picked bars changes only bar and tick state. |
| MultiBarChart.EachLegend | client/src/app/components/multi-bar-chart/multi-bar-chart.component.ts:538-557 | An `each` over the legend items changes only legend opacities and legend text weights. |
| MultiBarChart.DimmedIffNotLabelled | client/src/app/components/multi-bar-chart/multi-bar-chart.component.ts:150-181 | For every flag pair, `highlightBar` dims a rect if and only if it does not label it, and labels exactly the rects matching on the flagged fields. |
| MultiBarChart.NoKeysNoDimming | client/src/app/components/multi-bar-chart/multi-bar-chart.component.ts:150-181 | With both flags off nothing is dimmed, and the hovered bar itself is never dimmed. |
| MultiBarChart.HighlightPartition | client/src/app/components/multi-bar-chart/multi-bar-chart.component.ts:147-189 | On a chart at rest, after `highlightBar` a bar has opacity 0.3 exactly when it is dimmed and carries a label exactly when it is not. |
| MultiBarChart.UnhighlightUndoesHighlight | client/src/app/components/multi-bar-chart/multi-bar-chart.component.ts:147-225 | `unhighlightBar` restores a chart at rest after `highlightBar` with the same arguments. |
| MultiBarChart.XLabelsSpec | client/src/app/components/multi-bar-chart/multi-bar-chart.component.ts:227-249 | `highlightXLabel` dims exactly the other countries' ticks, and `unhighlightXLabel` undoes it. |
| MultiBarChart.EachBarState | client/src/app/components/multi-bar-chart/multi-bar-chart.component.ts:459-475 | After the first `n` steps of the `each`, a bar is dimmed exactly when some picked bar dims it, its label count is the number of picked bars labelling it, and a tick is dimmed exactly when some picked bar is of another country. |
| MultiBarChart.EachBarRoundTrip | client/src/app/components/multi-bar-chart/multi-bar-chart.component.ts:459-475 | The unhighlighting `each` restores a chart at rest after the highlighting one. |
| MultiBarChart.EachLegendState | client/src/app/components/multi-bar-chart/multi-bar-chart.component.ts:538-557 | After the legend `each`, an item is dimmed exactly when it is of another type and some item of `kind` was visited, and its text is bold (or back to normal) exactly when it is of `kind` and was visited. |
| MultiBarChart.HoverRoundTrip | client/src/app/components/multi-bar-chart/multi-bar-chart.component.ts:407-557 | Moving out of a bar, a tick or a legend item after moving over it restores a chart at rest, legend text back to normal weight included. |
| MultiBarChart.TickHoverSpec | client/src/app/components/multi-bar-chart/multi-bar-chart.component.ts:454-475 | Hovering the tick of a country with bars dims exactly the other countries' bars and ticks, and labels exactly its own bars. The legend is untouched. |
| MultiBarChart.LegendHoverSpec | client/src/app/components/multi-bar-chart/multi-bar-chart.component.ts:538-557 | Hovering a legend item dims exactly the bars of other types and the other legend items, and sets the hovered item's text in bold. A tick is dimmed exactly when some bar of that type belongs to another country. |
| MultiBarChart.LegendHoverDimsEveryTick | client/src/app/components/multi-bar-chart/multi-bar-chart.component.ts:538-557 | On the drawn chart of two or more countries, hovering a legend item dims every country tick, the hovered type's own countries included. |
| MultiBarChart.BarHoverDrawn | client/src/app/components/multi-bar-chart/multi-bar-chart.component.ts:407-426 | On the drawn chart, hovering a bar dims every other bar. Only that bar is labelled, the other countries' ticks and the other legend items are dimmed, and its own tick and type stay opaque. The text of its type's legend item is bold and the other legend texts stay normal. |
| MultiBarChart.MultiBarChartComponent.constructor | client/src/app/components/multi-bar-chart/multi-bar-chart.component.ts:22-84 | The initial data and an empty chart. |
| MultiBarChart.MultiBarChartComponent.NgOnInit | client/src/app/components/multi-bar-chart/multi-bar-chart.component.ts:109-120 | `dataSets` gets its sums. |
| MultiBarChart.MultiBarChartComponent.CreateChart | client/src/app/components/multi-bar-chart/multi-bar-chart.component.ts:275-575 | The chart drawn from `dataSets`, at rest. |
| MultiBarChart.MultiBarChartComponent.HighlightBar | client/src/app/components/multi-bar-chart/multi-bar-chart.component.ts:147-189 | The svg after `highlightBar`. |
| MultiBarChart.MultiBarChartComponent.UnhighlightBar | client/src/app/components/multi-bar-chart/multi-bar-chart.component.ts:191-225 | The svg after `unhighlightBar`. |
| MultiBarChart.MultiBarChartComponent.HighlightXLabel | client/src/app/components/multi-bar-chart/multi-bar-chart.component.ts:227-237 | The svg after `highlightXLabel`. |
| MultiBarChart.MultiBarChartComponent.UnhighlightXLabel | client/src/app/components/multi-bar-chart/multi-bar-chart.component.ts:239-249 | The svg after `unhighlightXLabel`. |
| MultiBarChart.MultiBarChartComponent.HighlightLegend | client/src/app/components/multi-bar-chart/multi-bar-chart.component.ts:251-261 | The svg after `highlightLegend`: other types dimmed, the type's legend text bold. |
| MultiBarChart.MultiBarChartComponent.UnhighlightLegend | client/src/app/components/multi-bar-chart/multi-bar-chart.component.ts:263-273 | The svg after `unhighlightLegend`: other types opaque again, the type's legend text normal. |
| MultiBarChart.MultiBarChartComponent.ForEachBar | client/src/app/components/multi-bar-chart/multi-bar-chart.component.ts:459-465 | The `each` loop over the picked bar rects. |
| MultiBarChart.MultiBarChartComponent.ForEachLegend | client/src/app/components/multi-bar-chart/multi-bar-chart.component.ts:410-415 | The `each` loop over the legend items of one type: it dims the other types and sets the type's text bold, or undoes both. |
| MultiBarChart.MultiBarChartComponent.OnBarMouseOver | client/src/app/components/multi-bar-chart/multi-bar-chart.component.ts:407-416 | The bar `mouseover` handler: bars, ticks, legend opacities and the bold legend text of the bar's type. |
| MultiBarChart.MultiBarChartComponent.OnBarMouseOut | client/src/app/components/multi-bar-chart/multi-bar-chart.component.ts:417-426 | The bar `mouseout` handler: the same elements restored, the legend text back to normal weight. |
| MultiBarChart.MultiBarChartComponent.OnTickMouseOver | client/src/app/components/multi-bar-chart/multi-bar-chart.component.ts:456-465 | The tick `mouseover` handler. |
| MultiBarChart.MultiBarChartComponent.OnTickMouseOut | client/src/app/components/multi-bar-chart/multi-bar-chart.component.ts:466-475 | The tick `mouseout` handler. |
| MultiBarChart.MultiBarChartComponent.OnLegendMouseOver | client/src/app/components/multi-bar-chart/multi-bar-chart.component.ts:538-547 | The legend `mouseover` handler: the type's bars and ticks, the other items dimmed, the item's text bold. |
| MultiBarChart.MultiBarChartComponent.OnLegendMouseOut | client/src/app/components/multi-bar-chart/multi-bar-chart.component.ts:548-557 | The legend `mouseout` handler: the same elements restored, the item's text back to normal weight. |
| BackToBack.Zip | client/src/app/components/back-to-back-chart/back-to-back-chart.component.ts:56-61 | One record per country. |
| BackToBack.TickValues | client/src/app/components/back-to-back-chart/back-to-back-chart.component.ts:127 | There are 17 ticks. |
| BackToBack.Draw | client/src/app/components/back-to-back-chart/back-to-back-chart.component.ts:95-160 | The drawn chart is at rest. |
| BackToBack.ConcededOver | client/src/app/components/back-to-back-chart/back-to-back-chart.component.ts:181-213 | The conceded `mouseover` keeps the chart well formed. |
| BackToBack.ScoredOver | client/src/app/components/back-to-back-chart/back-to-back-chart.component.ts:254-284 | The scored `mouseover` keeps the chart well formed. |
| BackToBack.BarOut | client/src/app/components/back-to-back-chart/back-to-back-chart.component.ts:214-236 | Both `mouseout` handlers keep the chart well formed. |
| BackToBack.BarOver | client/src/app/components/back-to-back-chart/back-to-back-chart.component.ts:181-284 | Either `mouseover` keeps the chart well formed. |
| BackToBack.ZipInverse | client/src/app/components/back-to-back-chart/back-to-back-chart.component.ts:56-61 | The records give back the four lists index by index, with `conceded` stored negated. |
| BackToBack.InitialDataSpec | client/src/app/components/back-to-back-chart/back-to-back-chart.component.ts:56-68 | After `ngOnInit`, `data` is a permutation of the zipped records in non-increasing goal difference, ties in listed order. |
| BackToBack.SortedCountries | client/src/app/components/back-to-back-chart/back-to-back-chart.component.ts:56-68 | Sorting keeps one record per listed country. |
| BackToBack.CountriesDistinct | client/src/app/components/back-to-back-chart/back-to-back-chart.component.ts:34-53 | The country list has no repeats. |
| BackToBack.TickValuesSpec | client/src/app/components/back-to-back-chart/back-to-back-chart.component.ts:127 | The ticks are the 17 even numbers from -16 to 16, increasing, and every even number in that range is one. |
| BackToBack.TickLabelSpec | client/src/app/components/back-to-back-chart/back-to-back-chart.component.ts:129 | A tick label parses back to the tick's distance from zero, so ticks symmetric about zero read the same. |
| BackToBack.TooltipShowsCounts | client/src/app/components/back-to-back-chart/back-to-back-chart.component.ts:210 | For non-negative inputs, the tooltips show the listed scored and conceded counts. |
| BackToBack.BarOverSpec | client/src/app/components/back-to-back-chart/back-to-back-chart.component.ts:181-284 | Hovering a bar emphasises its country's tick and the legend item of its side, and dims the others. |
| BackToBack.BarHoverRoundTrip | client/src/app/components/back-to-back-chart/back-to-back-chart.component.ts:181-307 | Moving out of a bar after moving over it restores a chart at rest. |
| BackToBack.BackToBackChartComponent.constructor | client/src/app/components/back-to-back-chart/back-to-back-chart.component.ts:31 | No data and an empty chart. |
| BackToBack.BackToBackChartComponent.NgOnInit | client/src/app/components/back-to-back-chart/back-to-back-chart.component.ts:33-69 | `data` becomes the sorted records. |
| BackToBack.BackToBackChartComponent.CreateChart | client/src/app/components/back-to-back-chart/back-to-back-chart.component.ts:95-160 | The chart drawn from `data`. |
| BackToBack.BackToBackChartComponent.OnBarMouseOver | client/src/app/components/back-to-back-chart/back-to-back-chart.component.ts:181-284 | A bar's `mouseover` handler. |
| BackToBack.BackToBackChartComponent.OnBarMouseOut | client/src/app/components/back-to-back-chart/back-to-back-chart.component.ts:214-307 | A bar's `mouseout` handler. |
| WinsAndLosses.PropertyKey | client/src/app/components/wins-and-losses-bars-chart/wins-and-losses-bars-chart.component.ts:54-58 | A present cell indexes by its text and an absent one by the string `undefined`. |
| WinsAndLosses.Lookup | client/src/app/components/wins-and-losses-bars-chart/wins-and-losses-bars-chart.component.ts:37 | A found entry's country is a key of the map. |
| WinsAndLosses.LastFor | client/src/app/components/wins-and-losses-bars-chart/wins-and-losses-bars-chart.component.ts:48-65 | No entry if and only if no row is filed under the pair; otherwise the details of the last such row. |
| WinsAndLosses.RecordLookup | client/src/app/components/wins-and-losses-bars-chart/wins-and-losses-bars-chart.component.ts:52-63 | Filing one row sets its own country-and-phase entry and changes no other. |
| WinsAndLosses.RecordAllLastWins | client/src/app/components/wins-and-losses-bars-chart/wins-and-losses-bars-chart.component.ts:48-65 | After filing rows, each country-and-phase entry holds the last row filed under it, or what it held before when none was. |
| WinsAndLosses.RecordAllKeepsKeys | client/src/app/components/wins-and-losses-bars-chart/wins-and-losses-bars-chart.component.ts:54-56 | Filing never removes a country. |
| WinsAndLosses.RecordAllCountryKeys | client/src/app/components/wins-and-losses-bars-chart/wins-and-losses-bars-chart.component.ts:54-58 | Every filed row's country becomes a key. |
| WinsAndLosses.AllPhaseKeysMember | client/src/app/components/wins-and-losses-bars-chart/wins-and-losses-bars-chart.component.ts:289-292 | A phase is among the concatenated phase keys if and only if some country has it. |
| WinsAndLosses.PhasesExact | client/src/app/components/wins-and-losses-bars-chart/wins-and-losses-bars-chart.component.ts:286-296 | `extractPhases` returns no phase twice, and exactly the phases present under some country. |
| WinsAndLosses.PhasesFirstSeenOrder | client/src/app/components/wins-and-losses-bars-chart/wins-and-losses-bars-chart.component.ts:286-296 | Phases come in the order they are first met walking the countries in key order. |
| WinsAndLosses.CreateThenWrite | client/src/app/components/wins-and-losses-bars-chart/wins-and-losses-bars-chart.component.ts:54-63 | Creating the missing country object and then writing the phase is one write into a country entry. |
| WinsAndLosses.WinsAndLossesChart.constructor | client/src/app/components/wins-and-losses-bars-chart/wins-and-losses-bars-chart.component.ts:37-39 | Both maps start empty. |
| WinsAndLosses.WinsAndLossesChart.CreateMap | client/src/app/components/wins-and-losses-bars-chart/wins-and-losses-bars-chart.component.ts:48-65 | `dataMap` gains the rows and `countryMap` has them all filed, keys staying distinct. |
| WinsAndLosses.WinsAndLossesChart.TakeRow | client/src/app/components/wins-and-losses-bars-chart/wins-and-losses-bars-chart.component.ts:52-63 | One row is kept and filed. |
| WinsAndLosses.WinsAndLossesChart.FileRow | client/src/app/components/wins-and-losses-bars-chart/wins-and-losses-bars-chart.component.ts:54-63 | One row is filed. |
| WinsAndLosses.WinsAndLossesChart.ExtractPhases | client/src/app/components/wins-and-losses-bars-chart/wins-and-losses-bars-chart.component.ts:286-296 | The nested loops into a `Set`, then `Array.from`, give the distinct phases. |
| PossessionChart.Zip | client/src/app/components/possession-histogramme/possession-histogramme.component.ts:47-51 | One record per country. |
| PossessionChart.Ticks | client/src/app/components/possession-histogramme/possession-histogramme.component.ts:92 | The band scale's domain has no repeats, and holds exactly the countries of `data`. |
| PossessionChart.Draw | client/src/app/components/possession-histogramme/possession-histogramme.component.ts:78-224 | The drawn chart is at rest. |
| PossessionChart.Removed | client/src/app/components/possession-histogramme/possession-histogramme.component.ts:228-230 | Removing empties the ticks and bars and keeps the shared tooltip. |
| PossessionChart.MouseOver | client/src/app/components/possession-histogramme/possession-histogramme.component.ts:170-198 | `mouseover` keeps the chart well formed. |
| PossessionChart.MouseOut | client/src/app/components/possession-histogramme/possession-histogramme.component.ts:199-218 | `mouseout` keeps the chart well formed. |
| PossessionChart.ZipInverse | client/src/app/components/possession-histogramme/possession-histogramme.component.ts:47-51 | The records give back the three lists index by index. |
| PossessionChart.SortByPossessionSpec | client/src/app/components/possession-histogramme/possession-histogramme.component.ts:87 | The sort is a permutation in non-increasing possession order. It is stable and idempotent. |
| PossessionChart.DrawTicks | client/src/app/components/possession-histogramme/possession-histogramme.component.ts:89-141 | With distinct countries, the ticks are the countries in `data` order and tick `i` is filled with record `i`'s colour. |
| PossessionChart.SortedTicksKeepColors | client/src/app/components/possession-histogramme/possession-histogramme.component.ts:87-138 | Since the sort moves colours with countries, each country's tick gets that country's own colour. |
| PossessionChart.BarSpan | client/src/app/components/possession-histogramme/possession-histogramme.component.ts:166-223 | A bar spans from `x(0)` to `x(possession)`, and in sorted data the bars' widths do not increase. |
| PossessionChart.MouseOverSpec | client/src/app/components/possession-histogramme/possession-histogramme.component.ts:170-198 | On a chart at rest, hovering dims every other bar and tick, bolds its own tick, and shows the tooltip with the country and its possession. |
| PossessionChart.MouseOutResetsEveryTick | client/src/app/components/possession-histogramme/possession-histogramme.component.ts:201-205 | `mouseout` sets every tick, including the hovered one, back to normal weight, because the tick filter reads a field that strings lack. |
| PossessionChart.HoverRoundTrip | client/src/app/components/possession-histogramme/possession-histogramme.component.ts:170-218 | `mouseout` after `mouseover` on the same bar restores the chart; only the tooltip keeps its content, hidden. |
| PossessionHistogramme.SortedOrder | client/src/app/components/possession-histogramme/possession-histogramme.component.ts:25-51 | `createChart` moves Morroco from first to last and keeps the others in their order. |
| PossessionHistogramme.PossessionHistogrammeComponent.constructor | client/src/app/components/possession-histogramme/possession-histogramme.component.ts:47 | No data and an empty chart. |
| PossessionHistogramme.PossessionHistogrammeComponent.NgOnInit | client/src/app/components/possession-histogramme/possession-histogramme.component.ts:47-51 | `data` becomes the zipped records. |
| PossessionHistogramme.PossessionHistogrammeComponent.CreateChart | client/src/app/components/possession-histogramme/possession-histogramme.component.ts:78-226 | `data` is sorted in place, then drawn. |
| PossessionHistogramme.PossessionHistogrammeComponent.RemoveChart | client/src/app/components/possession-histogramme/possession-histogramme.component.ts:228-230 | The chart is removed. |
| PossessionHistogramme.PossessionHistogrammeComponent.OnIntersection | client/src/app/components/possession-histogramme/possession-histogramme.component.ts:59-67 | The chart is drawn when it comes into view and removed when it leaves. |
| PossessionHistogramme.PossessionHistogrammeComponent.OnResize | client/src/app/components/possession-histogramme/possession-histogramme.component.ts:72-76 | The chart is removed. |
| PossessionHistogramme.PossessionHistogrammeComponent.OnMouseOver | client/src/app/components/possession-histogramme/possession-histogramme.component.ts:170-198 | The bar `mouseover` handler. |
| PossessionHistogramme.PossessionHistogrammeComponent.OnMouseOut | client/src/app/components/possession-histogramme/possession-histogramme.component.ts:199-218 | The bar `mouseout` handler. |
| PossessionTopFour.SortedOrder | client/src/app/components/possession-top-four/possession-top-four.component.ts:67-70 | `createChart` draws France, Croatia, Argentina, then Morroco. |
| PossessionTopFour.SortLastTwo | client/src/app/components/possession-top-four/possession-top-four.component.ts:67-70 | A sequence that is in order after its first two elements, whose first two elements have the smallest keys with the first smallest, sorts to the rest followed by the second element and then the first. |
| PossessionTopFour.PossessionTopFourComponent.constructor | client/src/app/components/possession-top-four/possession-top-four.component.ts:24-26 | No data and an empty chart. |
| PossessionTopFour.PossessionTopFourComponent.NgOnInit | client/src/app/components/possession-top-four/possession-top-four.component.ts:28-34 | `data2` becomes the zipped records. |
| PossessionTopFour.PossessionTopFourComponent.CreateChart | client/src/app/components/possession-top-four/possession-top-four.component.ts:59-206 | `data2` is sorted in place, then drawn. |
| PossessionTopFour.PossessionTopFourComponent.RemoveChart | client/src/app/components/possession-top-four/possession-top-four.component.ts:208-210 | The chart is removed. |
| PossessionTopFour.PossessionTopFourComponent.OnIntersection | client/src/app/components/possession-top-four/possession-top-four.component.ts:40-48 | The chart is drawn when it comes into view and removed when it leaves. |
| PossessionTopFour.PossessionTopFourComponent.OnResize | client/src/app/components/possession-top-four/possession-top-four.component.ts:53-57 | The chart is removed. |
| PossessionTopFour.PossessionTopFourComponent.OnMouseOver | client/src/app/components/possession-top-four/possession-top-four.component.ts:149-178 | The bar `mouseover` handler. |
| PossessionTopFour.PossessionTopFourComponent.OnMouseOut | client/src/app/components/possession-top-four/possession-top-four.component.ts:179-199 | The bar `mouseout` handler. |
| TouchesWaffle.Counts | client/src/app/components/touches-component/touches-component.component.ts:64-67 | There is one count per key. |
| TouchesWaffle.Blocks | client/src/app/components/touches-component/touches-component.component.ts:69-77 | The first `n` keys' blocks hold as many squares as their counts add up to, all of the one country. |
| TouchesWaffle.Expansion | client/src/app/components/touches-component/touches-component.component.ts:69-77 | A country gets one square per touch, all bound to entries of that country. |
| TouchesWaffle.Expand | client/src/app/components/touches-component/touches-component.component.ts:64-77 | The two loops compute the total and the expansion. |
| TouchesWaffle.ExpansionAt | client/src/app/components/touches-component/touches-component.component.ts:69-77 | Square `i` is bound to the entry of the key whose block holds `i`: defense, then middle, then attack. |
| TouchesWaffle.ExpansionOrdered | client/src/app/components/touches-component/touches-component.component.ts:69-77 | A later square never belongs to an earlier key. |
| TouchesWaffle.ExpansionCounts | client/src/app/components/touches-component/touches-component.component.ts:69-77 | Each key labels exactly as many squares as its count. |
| TouchesWaffle.FillSpec | client/src/app/components/touches-component/touches-component.component.ts:108 | Every square and every legend square is filled with its key's colour, and the three colours differ. |
| TouchesWaffle.PercentagesSum | client/src/app/components/touches-component/touches-component.component.ts:72 | For a country with touches, the three percentages add up to 100. |
| TouchesWaffle.GridSpec | client/src/app/components/touches-component/touches-component.component.ts:34-36 | Columns of ten squares, filled top to bottom and then left to right. The squares stay within the height, no two share a cell, and none overlap. |
| TouchesWaffle.DataFits | client/src/app/components/touches-component/touches-component.component.ts:22-30 | Every country has 200 touches, and its squares stay left of the legend. |
| TouchesHover.DrawPage | client/src/app/components/touches-component/touches-component.component.ts:56-165 | One svg per country, holding one square per touch. |
| TouchesHover.Unset | client/src/app/components/touches-component/touches-component.component.ts:104-108 | Right after drawing, every rect is opaque, since no opacity attribute is set. |
| TouchesHover.Highlighted | client/src/app/components/touches-component/touches-component.component.ts:111-113 | There is one opacity per rect. |
| TouchesHover.Highlight | client/src/app/components/touches-component/touches-component.component.ts:111-113 | Whatever the opacities before, the svg ends highlighted for the key. |
| TouchesHover.Reset | client/src/app/components/touches-component/touches-component.component.ts:121 | Whatever the opacities before, every rect ends opaque. |
| TouchesHover.SquareOver | client/src/app/components/touches-component/touches-component.component.ts:109-119 | The tooltip shows the square's entry. Unless the entry is `previousGroup`, its svg is highlighted for its key; otherwise nothing changes. Other svgs are untouched. |
| TouchesHover.SquareLeave | client/src/app/components/touches-component/touches-component.component.ts:120-128 | `previousGroup` becomes the entry and the tooltip is hidden; the opacities are unchanged. |
| TouchesHover.LegendEnter | client/src/app/components/touches-component/touches-component.component.ts:140-144 | Its svg is highlighted for the key; other svgs, `previousGroup` and the tooltip are unchanged. |
| TouchesHover.LegendLeaveAsWritten | client/src/app/components/touches-component/touches-component.component.ts:145-147 | Every rect of its svg becomes opaque, and `previousGroup` is left as it was. |
| TouchesHover.LegendLeave | client/src/app/components/touches-component/touches-component.component.ts:145-147 | The corrected handler: every rect of its svg becomes opaque and `previousGroup` is cleared. |
| TouchesHover.SvgLeave | client/src/app/components/touches-component/touches-component.component.ts:189-192 | `previousGroup` is cleared (the svg's datum is undefined), and every rect of every chart becomes opaque. |
| TouchesHover.Perform | client/src/app/components/touches-component/touches-component.component.ts:109-192 | A gesture keeps one opacity per rect. |
| TouchesHover.PerformAsWritten | client/src/app/components/touches-component/touches-component.component.ts:109-192 | A gesture keeps one opacity per rect, under the handlers as written. |
| TouchesHover.Run | client/src/app/components/touches-component/touches-component.component.ts:109-192 | A sequence of gestures keeps one opacity per rect. |
| TouchesHover.DrawnConsistent | client/src/app/components/touches-component/touches-component.component.ts:39 | Right after drawing, no group is stored, so `previousGroup` is truthful. |
| TouchesHover.PerformConsistent | client/src/app/components/touches-component/touches-component.component.ts:109-192 | Every gesture keeps `previousGroup` truthful: when it names an entry, that entry's svg is highlighted for its key. |
| TouchesHover.RunConsistent | client/src/app/components/touches-component/touches-component.component.ts:109-192 | Every sequence of gestures keeps `previousGroup` truthful. |
| TouchesHover.HoverHighlights | client/src/app/components/touches-component/touches-component.component.ts:109-119 | Whatever happened before, moving onto a square leaves its svg highlighted for its key. |
| TouchesHover.StaleGroupAsWritten | client/src/app/components/touches-component/touches-component.component.ts:145-147 | As written: after a square, then an entry of its svg's legend, `previousGroup` is stale. Moving back onto the same square leaves all of its svg's rects opaque, not highlighted. |
| TouchesHover.StaleGroupOnMorroco | client/src/app/components/touches-component/touches-component.component.ts:110 | The same on Morroco's drawn chart: after its first defense square and then the `defense` legend entry, the square fails to highlight its group again. |
| TouchesHover.TouchesComponent.constructor | client/src/app/components/touches-component/touches-component.component.ts:22-39 | The data, nothing drawn, no group stored. |
| TouchesHover.TouchesComponent.NgAfterViewInit | client/src/app/components/touches-component/touches-component.component.ts:45-48 | The page drawn, every rect opaque. |
| TouchesHover.TouchesComponent.DrawWaffle | client/src/app/components/touches-component/touches-component.component.ts:56-165 | The loop over the countries draws the page from `Expand`, with every rect opaque and the rest of the hover state unchanged. |
| TouchesHover.TouchesComponent.OnSquareOver | client/src/app/components/touches-component/touches-component.component.ts:109-119 | The square `mouseover` handler. |
| TouchesHover.TouchesComponent.OnSquareLeave | client/src/app/components/touches-component/touches-component.component.ts:120-128 | The square `mouseleave` handler. |
| TouchesHover.TouchesComponent.OnLegendEnter | client/src/app/components/touches-component/touches-component.component.ts:140-144 | The legend `mouseenter` handler. |
| TouchesHover.TouchesComponent.OnLegendLeave | client/src/app/components/touches-component/touches-component.component.ts:145-147 | The legend `mouseleave` handler, corrected. |
| TouchesHover.TouchesComponent.OnSvgLeave | client/src/app/components/touches-component/touches-component.component.ts:189-192 | The svg `mouseleave` handler. |
| JsObject.PutGet | client/src/app/components/horizontal-pictogram/horizontal-pictogram.component.ts:118 | Reading a key after writing it gives the value written; other keys are unaffected. |
| JsSet.AddAllFirstSeenOrder | client/src/app/components/wins-and-losses-bars-chart/wins-and-losses-bars-chart.component.ts:288-294 | A `Set` lists its elements in the order of their first insertion. |
| JsString.TrimEmptyIffAllSpace | client/src/app/components/horizontal-pictogram/horizontal-pictogram.component.ts:109 | A string trims to empty if and only if it is all white space. |
| JsString.SplitJoin | client/src/app/components/horizontal-pictogram/horizontal-pictogram.component.ts:159 | Splitting a join of separator-free pieces gives back the pieces. |
| JsString.ParseIntRoundTrip | client/src/app/components/horizontal-pictogram/horizontal-pictogram.component.ts:135-136 | `parseInt` reads back what `toString` writes, for every integer. |
| StableSort.SortStable | client/src/app/components/horizontal-pictogram/horizontal-pictogram.component.ts:257-262 | The sort keeps the relative order of the elements of each key. |
| StableSort.StableSortUnique | client/src/app/components/horizontal-pictogram/horizontal-pictogram.component.ts:257-262 | Any stable sort into non-increasing key order gives the same result as the model's sort. |

## Findings

| source | as written | input that shows it | evidently intended | confidence | as-written member | corrected member |
|---|---|---|---|---|---|---|
| client/src/app/components/touches-component/touches-component.component.ts:145-147 | The legend `mouseleave` sets every rect of the svg back to opacity 1 but leaves `previousGroup` set. The next `mouseover` of a square of that group (line 110) then skips the highlight. | On Morroco's chart: move onto a defense square, leave it onto the legend entry `defense`, leave the legend and return to a defense square. The chart stays fully opaque. | Clear `previousGroup` when the highlight is removed, as the svg `mouseleave` (lines 189-192) does. | not executed | TouchesHover.StaleGroupAsWritten | TouchesHover.HoverHighlights |

`TouchesHover.LegendLeaveAsWritten` and `TouchesHover.StaleGroupOnMorroco` belong to the as-written half. `TouchesHover.LegendLeave` and `TouchesHover.RunConsistent` belong to the corrected half, and `TouchesHover.TouchesComponent.OnLegendLeave` uses the corrected handler.

## Left out

- HTTP requests, the CSV parser and `console` output are not modelled. Requests are the parameter `fetch`, and the CSV parser's result is the rows it delivers.
- D3 rendering is not modelled: positions of axes and labels, transitions (their end state is taken at once, except the pictogram circle transition, whose `end` is an event), easing and `font-size`.
- Tooltip position (`pageX`, `pageY`) and its HTML are reduced to the values shown.
- The pictogram's drawing functions (circles, axes, legend, colour scales, age scale) and its intersection observer are not modelled. Only the state they read and the transitions' `transitiondone` flag are.
- `countClub`'s result string is not modelled; its three counts are.
- `PictogramClean.AgeText`: the new `Age` text repeats the years part where the days part was evidently meant (line 141). The model keeps the text as written and proves nothing about its wording.
- `sanitize` (NFD normalisation and the removal of combining marks) and `COUNTRY_COLOR_SCALE` are parameters, because they depend on Unicode tables and on a scale defined outside the components.
- `toUpperCase` is modelled for ASCII letters only.
- Numbers are modelled as mathematical reals and integers. Floating-point rounding of percentages, ages and sums is not modelled.
- `TouchesWaffle.Percentage` is 0 where the source divides by zero (`NaN`). No square carries it then.
- The touches `categoryCounts` and `occurrences` tallies (lines 80-94) are not modelled. They key an object by the string form of an object, so every entry lands under one key, and nothing draws from them.
- The touches `onResize` (lines 50-54) is not modelled. It removes one svg and redraws into whatever svgs remain, which depends on the template. Only the first drawing is modelled.
- `TouchesHover.SvgLeave` resets the rects of the waffle charts only. In the page, `d3.selectAll('rect')` also reaches the rects of other components.
- The `mouseover`/`mouseout` fill of `.possession-<country>` in both possession charts selects no element, because no element has such a class. It is modelled as no change.
- `BackToBack.Zip` requires the four lists to be the same length, as the constant lists are. A shorter list would give `undefined` fields.
- The sorts are modelled on sequence values, not as in-place array algorithms: `Array.prototype.sort` is a library call.
- The intersection observers and resize handlers of the multi-bar, back-to-back and wins-and-losses charts are not modelled; their draw and remove steps are.
- The wins-and-losses drawing (scales, bars, tooltip) is not modelled; the index it reads and `extractPhases` are.
- `PictogramData.FillUpToKeys`: the keys are listed in the order they were first written. JavaScript lists integer-like keys (array indices such as a header `"1"`) first, in numeric order; the model covers headers that are not array indices.
- `PictogramData.RecordKeys`: the same ordering gap for the keys of a player object. A header that is an array index would be listed first by `Object.keys`.
- `JsObject.PutGet`: the model treats every key as an own data property. The key `__proto__` changes the prototype instead of adding a property, so the model covers keys other than `__proto__`.
- `PictogramClean.PositionName`: `positionType[code]` also finds the properties every object inherits. For a code such as `constructor` or `toString` the source writes the text of a built-in function, while the model writes the code. The model covers codes that are not names of `Object.prototype` properties.
- `PictogramClean.PositionNames`: the same inherited-key gap, code by code.
- `PictogramOrder.OrderRoster`: the tie-break `a['Player'] - b['Player']` (line 261) converts both names to numbers. The model assumes this is always `NaN`, so players with the same `ClubInTop5` keep their input order. For names such as `"2"` and `"1"`, or `""` and `"3"`, the source compares them as numbers, and a mix of numeric and other names gives an inconsistent comparator whose result the language leaves to the engine. Numeric-looking names are outside the model.
- `PictogramOrder.OrderPlayers`: inherits the numeric-name gap of `PictogramOrder.OrderRoster` for every country.
- `PictogramComponent.HorizontalPictogram.OrderPlayersInPlace`: inherits the same numeric-name gap, through `PictogramOrder.OrderPlayers`.
- `WinsAndLosses.RecordAllCountryKeys`: `!this.countryMap[Country]` (line 54) also sees inherited properties. A country named `constructor` or `toString` is found on the prototype, never becomes an own key, and its phase is written onto a built-in function; `__proto__` writes onto `Object.prototype`. The model covers country names that are not names of `Object.prototype` properties.
- `WinsAndLosses.PhasesFirstSeenOrder`: `Object.keys` lists integer-like country and phase keys first, in numeric order. The stated order holds for keys that are not array indices.
- The parallel-coordinates, polar-area, banner and introduction components are not part of this model.
