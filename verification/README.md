# TennisIA core, modelled in Dafny

TennisIA is a set of Python scripts that build match-prediction data for
tennis and basketball. This project models the pure logic of those scripts
and proves properties of it. The model covers:

- **the tennis history builder** (`crear_ia.py`):
  - the game count of a score string;
  - the null filling;
  - the split of each match into a winner row and a loser row;
  - the leakage-free rolling features, per player and per (player, surface).
- **the basketball Elo ledger** (`crear_ia_nba.py`):
  - the four-factors possession estimate;
  - the left fold of games that emits every team's pre-game rating;
  - the update that applies a home bonus and a margin-of-victory multiplier.
- **the player-name normalisers of the two data updaters** (`actualizar_auto.py`, `actualizar_tml.py`):
  - "Novak Djokovic" becomes "Djokovic N.";
  - the column selection and renaming around them.
- **the decision logic of the dashboard** (`app.py`):
  - the latest profile of a player;
  - the input vector and the surface one-hot;
  - the favourite, the fair odds and the value check;
  - the bar normalisation.
- **the helpers of the command-line predictor** (`predecir_partido.py`):
  - the latest stats and the directional head-to-head count;
  - the surface inputs and the rounded games line.

Modules:

| module | file | models |
|---|---|---|
| `Optional` | optional.dfy | a missing value (pandas NaN, Python `None`) |
| `Text` | text.dfy | Python `str.strip`, `str.split()`, `" ".join`, `in` and `startswith` |
| `Score` | score.dfy | `calcular_juegos` and the `(\d+)-(\d+)` scan |
| `Rolling` | rolling.dfy | `groupby(key)[col].transform(shift(1).rolling(W, min_periods=1).mean())` followed by `fillna(default)` |
| `Features` | features.dfy | the rows and features of the tennis history builder |
| `NbaElo` | nba_elo.dfy | four factors and the Elo fold |
| `Names` | names.dfy | the name normalisers and the column plumbing of both updaters |
| `Frames` | frames.dfy | a one-row data frame and its `reindex(columns, fill_value=0)` |
| `Dashboard` | dashboard.dfy | the dashboard's pure logic |
| `Predictor` | predictor.dfy | the predictor's helpers |

Modelling choices:

- **Values:**
  - Every floating-point column is a `real`.
  - A NaN cell is `None`.
  - A date is an integer ordinal.
  - A data-frame row is a record datatype, or a map from column name to value when its columns are dynamic.
  - A table is a sequence of rows, already in processing order.
- **Elo transcendentals:** `10^x` and `log` are fields of a `RealOps` value. They are constrained only by the facts the update relies on:
  - powers are non-negative;
  - `log(1) = 0`;
  - `log` is non-negative from 1 on.
- **Rolling features:**
  - `Rolling.RollingAt` is the declarative definition: the mean of the present values among the last `W` earlier rows of the same group, or the default.
  - `Rolling.RollingMeans` is a one-pass streaming computation with a buffer per group, proved equal to it.
  - A group key is an `Option`. pandas' `groupby` drops missing keys by default, so a row whose player name (or, for the surface form, whose surface) is NaN belongs to no group. It is in no window, and its own feature is the default.

## Model

| member | source | states |
|---|---|---|
| `Score.TotalGames` | crear_ia.py:9-15 | A missing cell gives missing. A score containing "RET" or "W/O" gives missing before any parsing. Otherwise the result is present exactly when the scan finds a `digits-digits` pair, and it is the sum of both numbers of every pair. |
| `Score.PairsOfRenderedScore` | crear_ia.py:12 | Scanning a score written set by set finds exactly the sets' game pairs, in order; a tiebreak suffix such as "(3)" yields no pair. |
| `Score.TotalGamesOfRenderedScore` | crear_ia.py:12-14 | Reading back any non-empty written score gives the total of its games: the parser inverts the score format. |
| `Score.TiebreakExample` | crear_ia.py:12-14 | "6-4 7-6(3)" counts 23 games. |
| `Features.Clean` | crear_ia.py:22-29 | A missing rank becomes 1500 and a missing best-of becomes 3; present values are kept; `total_games` is the game count of the score. |
| `Features.Expand` | crear_ia.py:49-61 | Each raw match yields exactly two rows: all winner-perspective rows, then all loser-perspective rows. |
| `Features.ExpandMirrors` | crear_ia.py:50-59 | A match's winner row has result 1 and its loser as opponent. Its loser row has result 0, with names and ranks swapped. Each row carries its own player's serve counters, and both share the match facts. |
| `Features.Ratio` | crear_ia.py:77-90 | A serve ratio is present exactly when both counts are present and the denominator is non-zero, and then it times the denominator gives the numerator. |
| `Features.BuildFeatures` | crear_ia.py:67-97 | The streaming build produces, for every row, exactly the declarative snapshot: the five per-player features over a window of 10 and the surface form over a window of 20. |
| `Features.SnapshotTruncation` | crear_ia.py:67-70 | Features of a row are the same whether computed over the whole history or over any prefix that contains the row: no later row is ever used. |
| `Features.SnapshotIgnoresOwnMatch` | crear_ia.py:67-70 | A row's own result and serve counters never enter its own features. |
| `Features.FirstMatchDefaults` | crear_ia.py:72-97 | A named player's first row gets the defaults: form 0.5, ace rate 0.05, first serve in 0.60, first serve won 0.70, break points saved 0.55 and surface form 0.5. |
| `Features.FormIsWinRate` | crear_ia.py:72-97 | With results 0 and 1, both the form and the surface form lie in [0, 1]. |
| `Features.SurfaceFormIsolated` | crear_ia.py:95-97 | Surface form only depends on the player's earlier rows on the same surface. Changing any other row leaves it unchanged. |
| `Features.UngroupedRowGetsDefaults` | crear_ia.py:67-97 | A row with a missing player name gets every default (0.5, 0.05, 0.60, 0.70, 0.55 and surface form 0.5). A row with a missing surface gets surface form 0.5. |
| `Features.UngroupedRowIgnored` | crear_ia.py:67-70 | A row with a missing player name never changes another row's per-player features, whatever its values. |
| `Rolling.RollingMeans` | crear_ia.py:67-70 | One pass with a buffer of the last `W` values per group computes, at every row, the mean of the present values among the previous `W` rows of its group, or the default when there are none. |
| `Rolling.TruncationInvariant` | crear_ia.py:67-70 | The windowed mean at a row does not depend on any later row. |
| `Rolling.OwnValueIgnored` | crear_ia.py:67-70 | The `shift(1)`: changing a row's own value does not change its mean. |
| `Rolling.OtherGroupsIgnored` | crear_ia.py:67-69 | A group's history only depends on the rows of that group. |
| `Rolling.FirstOfGroupGetsDefault` | crear_ia.py:67-73 | The first row of a group (a row with a present key) gets the fill-in default. |
| `Rolling.RollingWithin` | crear_ia.py:67-70 | When every present value and the default lie in [lo, hi], so does the windowed mean. |
| `NbaElo.FourFactors` | crear_ia_nba.py:12-21 | Zero possessions are replaced by 1. Pace is the guarded possession count, and offensive rating times pace is 100 times the points. |
| `NbaElo.Rating` | crear_ia_nba.py:60-61 | A team not yet seen is rated 1500. |
| `NbaElo.Sides` | crear_ia_nba.py:43-58 | A game without exactly two rows is not played. The first row is the away team exactly when its matchup contains '@', and the home team otherwise. |
| `NbaElo.Expected` | crear_ia_nba.py:67-69 | The home expected score `p` satisfies `p * (1 + 10^(-diff/400)) = 1`, so it is `1/(1 + 10^(-diff/400))`. It lies in (0, 1]. |
| `NbaElo.Multiplier` | crear_ia_nba.py:78-80 | The denominator is the winner-signed difference times 0.001 plus 2.2. The multiplier is undefined exactly when it is zero. Otherwise the multiplier times the denominator is `2.2 * log(margin + 1)`. |
| `NbaElo.Play` | crear_ia_nba.py:66-83 | Let `diff` be the home rating plus 100 minus the away rating. The update is undefined exactly when the multiplier's denominator is zero. Otherwise the home rating becomes `eh + 20 * (res - Expected(diff)) * mult`, with `res` 1 for a home win and 0 otherwise. The away rating moves by exactly the opposite amount. |
| `NbaElo.Step` | crear_ia_nba.py:41-83 | A skipped game leaves the ledger unchanged. A played game is undefined exactly when its update is. Otherwise it appends one home record and then one away record, each carrying the team's rating before the game. The away team then holds the rating the update computed, and so does the home team when the two names differ. The rating table gains at most the two teams. |
| `NbaElo.Run` | crear_ia_nba.py:33-83 | A defined fold has emitted exactly two records per played game. |
| `NbaElo.StepZeroSum` | crear_ia_nba.py:74-83 | When the two teams differ, a game leaves the sum of their two ratings unchanged. |
| `NbaElo.StepFrame` | crear_ia_nba.py:82-83 | A team that is not in the game keeps its rating and its presence in the table. |
| `NbaElo.ZeroMarginKeepsRatings` | crear_ia_nba.py:68-83 | A game decided by zero points changes neither rating, because `log(1) = 0` cancels the update. |
| `NbaElo.WinnerNeverLoses` | crear_ia_nba.py:72-83 | With a positive multiplier denominator, the winning team never loses rating and the losing team never gains any. |
| `NbaElo.PlayFollowsResult` | crear_ia_nba.py:66-80 | For one game with a positive multiplier denominator, the update raises the home rating and lowers the away rating when the home team won, and does the reverse when it lost. |
| `NbaElo.RecordsPerGame` | crear_ia_nba.py:41-65 | The fold's records alternate: home records at even positions, away records at odd ones. |
| `NbaElo.RecordsArePrefix` | crear_ia_nba.py:39-65 | The records of a prefix of the games are a prefix of the records of all of them. |
| `NbaElo.AbsentTeamKeepsStart` | crear_ia_nba.py:60-61 | A team that plays no game is never stored and reads as 1500. |
| `NbaElo.StepKeepsTotal` | crear_ia_nba.py:74-83 | A game between two different teams of a league keeps the league's rating total. |
| `NbaElo.LeagueAverageStays` | crear_ia_nba.py:33-83 | When every played game opposes two different teams of a league, the league's average rating stays at 1500 after any sequence of games. |
| `Text.WordsOfStrip` | actualizar_auto.py:23-25 | Stripping before splitting does not change the words. |
| `Text.WordsOfJoin` | actualizar_tml.py:37 | Joining words with single spaces and splitting again gives the same words back. |
| `Names.CleanName` | actualizar_auto.py:21-28 | A missing name gives "Unknown". Fewer than two words gives the stripped input. Otherwise the result is exactly two single-spaced words, the last word and the first word's initial with ".", ending in ".". |
| `Names.FormatName` | actualizar_tml.py:23-41 | A non-string cell comes back unchanged. Fewer than two words gives the stripped string. Otherwise the result's words are every word after the first followed by the first word's initial with ".", single-spaced. |
| `Names.NormalisersAgreeOnTwoWords` | actualizar_tml.py:36-39 | On two-word names both normalisers give the same result. |
| `Names.NormalisersDifferOnLongNames` | actualizar_auto.py:25-27 | On three or more words, the TML normaliser keeps as many words as the input, the automatic one keeps two, so they differ. |
| `Names.KeptColumns` | actualizar_auto.py:74-83 | A season is kept exactly when both player columns exist after renaming. The kept columns are then exactly the mapped targets present after renaming, in mapping order. |
| `Names.UnmappedColumnsDropped` | actualizar_auto.py:82-83 | A column that is not a target of the mapping is never kept: an unmapped download is dropped and a mapped one survives only under its target name. |
| `Names.Put` | actualizar_tml.py:95 | Assigning a column makes it read back as the new cell and leaves every other column's first cell unchanged. |
| `Names.StandardiseTml` | actualizar_tml.py:90-105 | Only present mapped columns are renamed, and the updater stops when `Player_1`, `Date` or `Player_2` is missing. Otherwise `Winner` is the formatted `Player_1`, `Player_1` equals `Winner`, `Player_2` is formatted, and every other column is unchanged. |
| `Dashboard.LatestIndex` | app.py:53 | No position exactly when the player has no row. Otherwise it points to one of the player's rows with the greatest date. |
| `Dashboard.GetLastStats` | app.py:51-68 | None exactly when the player has no row. Otherwise it is the profile of one of the player's latest-dated rows, with rest fixed at 7. |
| `Dashboard.BaseRow` | app.py:94-111 | The row has exactly the fifteen base columns, each with the source's value: `Best of`, the four differences (player one minus player two, except `diff_rank`, which is player two's rank minus player one's), and each player's Elo, surface form, ace rate, rest and break points saved. So `diff_elo`, `diff_form` and `diff_surf` are positive exactly when player one's value is higher, and `diff_rank` exactly when player one's rank is smaller (better). |
| `Dashboard.DiffsAntisymmetric` | app.py:97-100 | Swapping the two players negates every difference feature. |
| `Dashboard.SurfaceOneHot` | app.py:113-116 | Every trained feature containing "Surface_" is 0 or 1, and it is 1 exactly when it is the chosen surface's column. Other keys are unchanged and no other key is added. |
| `Dashboard.DroppedSurfaceAllZero` | app.py:114-116 | When the chosen surface's column is not a trained feature, every surface column is 0. |
| `Dashboard.InputVector` | app.py:113-122 | The input vector follows the trained features. A feature containing "Surface_" is 1 for the chosen surface and 0 otherwise. A base feature has its `BaseRow` value, and every other feature is 0. |
| `Frames.Reindex` | app.py:118-122 | The vector has exactly the given columns in order: a column the row has keeps its value, and a missing one is 0. |
| `Frames.ExtraKeysDiscarded` | predecir_partido.py:62 | A key that is not a model column never reaches the reindexed vector. |
| `Dashboard.Favourite` | app.py:128-129 | Player one is the favourite exactly when its probability is at least 0.5. The favourite's probability is the larger of p and 1-p, so it is at least 0.5. |
| `Dashboard.FairOdds` | app.py:149 | The fair odds times the favourite's probability is 1. |
| `Dashboard.FairOddsRange` | app.py:128-149 | For a probability in [0, 1], the fair odds lie in [1, 2]. |
| `Dashboard.HasValue` | app.py:160-163 | Zero odds have no implied probability. Otherwise value is flagged exactly when the favourite's probability exceeds `1/odds` by strictly more than 0.03. |
| `Dashboard.HasValueIffOddsHighEnough` | app.py:160-163 | For positive odds, value is flagged exactly when `odds * (probWin - 0.03) > 1`. |
| `Dashboard.Normalise` | app.py:179-181 | When either value is positive, both bars are the values divided by the larger one `m` (each bar times `m` gives back its value). So both are at most 1, the larger is exactly 1, and their order is kept. Otherwise the values are left as they are. |
| `Predictor.LastRow` | predecir_partido.py:22-24 | No position exactly when the player has no row. Otherwise it points to a row of the player with no later row of the player. |
| `Predictor.LatestStats` | predecir_partido.py:21-29 | None exactly for an unknown player. Otherwise it gives the stats of the player's last row in table order. |
| `Predictor.LatestStatsSnoc` | predecir_partido.py:22-24 | A newer row of the player supersedes every earlier one, and a newer row of someone else changes nothing. |
| `Predictor.HeadToHead` | predecir_partido.py:31-33 | The match count never exceeds the number of rows, and with no match the wins are 0. |
| `Predictor.MatchesCounted` | predecir_partido.py:31-33 | The match count is the number of rows with player `j1` against opponent `j2`. |
| `Predictor.NoMatchesIffNoRows` | predecir_partido.py:31-33 | The match count is 0 exactly when no row has player `j1` against opponent `j2`. |
| `Predictor.WinsWithinMatches` | predecir_partido.py:31-33 | With results 0 or 1, the head-to-head wins lie between 0 and the match count. |
| `Predictor.OnlyDirectedRowsCount` | predecir_partido.py:31-33 | Only the rows with player `j1` against opponent `j2` matter, so the rows seen from `j2`'s side are not counted. |
| `Predictor.MirroredTableBalances` | predecir_partido.py:31-33 | On a table holding every match from both sides, `a`'s wins over `b` plus `b`'s wins over `a` equal the matches between them, and the count is the same from both sides. |
| `Predictor.SurfaceInputs` | predecir_partido.py:57-60 | Every model feature starting with "surface_" is 0, except the chosen surface's, which is 1. Other keys are unchanged. |
| `Predictor.WinnerInputs` | predecir_partido.py:52-62 | There is one input per model feature. A "surface_" feature is 1 for the chosen surface and 0 otherwise. A built column (both ranks, both forms, the head-to-head wins and count) keeps its value, and any other feature is 0. |
| `Predictor.GamesInputs` | predecir_partido.py:66-74 | There is one input per model feature. A "surface_" feature is 1 for the chosen surface and 0 otherwise. A built column (both ranks and both average-games values) keeps its value, and any other feature is 0. |
| `Predictor.RoundHalfEven` | predecir_partido.py:84 | The recommended line is within one half of the prediction, and it is even when the prediction is exactly halfway. |
| `Predictor.RoundHalfEvenUnique` | predecir_partido.py:84 | That rounding is the only integer with those two properties. |

## Left out

- **Network and file I/O:** downloads, CSV reading and writing, and `joblib` loading. Tables, feature lists and model outputs are parameters.
- **Process chaining:** `os.system` calls between the scripts.
- **Training and prediction:** model training and evaluation (`entrenar_ia.py`, `entrenar_ia_nba.py`). Model predictions are opaque real inputs.
- **Streamlit and HTML rendering and CSS:** everything except the arithmetic listed above.
- **Name-search scripts:** `buscar_jugador.py` and `detective_nombres.py` are interactive loops over pandas `str.contains`, which reads user input as a regular expression.
- **EWMA:** the momentum features of the basketball builder depend on pandas `ewm` semantics.
- **Kaggle column normalisation:** the one in `actualizar_nba.py` is tied to the download.
- **Simulator and markets:** no point, game or set simulator and no over/under or handicap market exists in these scripts, so none is modelled. No tennis Elo, `player_form_last_5` or `days_rest` column is produced by the history builder either.
- **Ordering and dates:**
  - Date parsing and the date sorts are not modelled; the tie order of pandas' unstable sort is one example.
  - The basketball games arrive in game-id order, as the grouping yields them.
  - Tables arrive in processing order.
  - `Dashboard.GetLastStats`: among rows with the same latest date, the model picks the one furthest down the table. The source's unstable sort may pick another.
- **Floating point:** IEEE rounding and exact exponent and log values are not modelled; all arithmetic is on reals.
- `Features.Ratio`: a non-zero count over a zero denominator is `inf` in pandas. The model treats it as missing, as it does 0/0.
- `Score.TotalGames`: `\d` also matches non-ASCII decimal digits in Python; the model reads ASCII digits only.
- `NbaElo.Multiplier`: a zero denominator gives an infinite or undefined multiplier in the source. The model makes that game, and the rest of the fold, undefined (`None`).
- `Names.CleanName`: a non-missing cell that is not a string (a number) is turned into a string by the source first. The model takes string names only.
- `Names.StandardiseTml`: the source turns an unparsable `Date` into NaT; dates are kept as cells here. Duplicate column names are resolved to the first one.
- `Predictor.LatestStats`: the interactive loop strips both player names and strips and `capitalize()`s the surface before using them. That loop is not modelled; names and surface are taken as given.
- `NbaElo.StepZeroSum`: a game listing the same team name twice is excluded. The second assignment overwrites the first, so the sum is not kept.
