# Scrim matchup generator — a Dafny model

This project models the core of a small Rust program that builds balanced
practice matches ("scrims") for a six-a-side team game from a roster of
players. A roster line reads `name - tankSR - damageSR - supportSR - roles`.
The model covers four parts of the program:

- **Players** (`src/player.rs`): the roster-line parser and the role
  accessors.
- **Teams** (`src/team.rs`): six slots, with ordered ratings and players,
  the canonical team id and the integer part of the rating spread.
- **Ow2Teams** (`src/team_ow2.rs`): five slots, with the same accessors and
  the per-role duo averages.
- **Matchups** (`src/main.rs`): the matchup generator `create_matchups` and
  the team names built by `create_scrims`.

`create_matchups` enumerates, for N = players / 6 teams, every choice of N
tank pairs, N damage pairs and N support pairs. It keeps the choices in which
no player name repeats.

Modules:

- **Wrappers**: `Option` and `Result`.
- **Strings**: splitting on `" - "`, decimal `i16` parsing and printing, and
  lexicographic string order.
- **Combinatorics**: duplicate-freedom, subsequences, the combinations that
  `itertools` yields and the pair list.
- **Stats**: sums, truncating division and squared deviations.
- **Players**, **NameIds** (the name sort and `"name,"` listing shared by
  both team ids), **Teams**, **Ow2Teams** and **Matchups**.

Each method that works step by step in the source (the nested labelled loops,
`push` loops, in-place sorts and reversal, the accumulating deviation loop) is
a Dafny method with loop invariants. It is proved equal to a pure function,
and the source's promises are proved as lemmas about that function.

Three behaviours of the code worth stating up front:

- **Roster size not divisible by six.** The code divides and truncates
  (`src/main.rs:93`). Each matchup places 6N players and leaves the other
  count − 6N out; which players sit out varies by matchup. `TeamCount`
  computes the same N.
- **A rating field that is not an integer.** The code panics through `unwrap`
  (`src/player.rs:27-29`), so `Players.New` requires the three rating fields
  to parse.
- **`create_scrims`.** The code builds the team names and returns an empty
  vector (`src/main.rs:72-89`); no scrim is scored or pruned.

## Model

| member | source | states |
|---|---|---|
| Strings.SplitJoin | src/player.rs:18 | splitting the `" - "`-join of fields that contain no `" - "` and do not end in `" -"` gives the fields back |
| Strings.ParseI16OfString | src/player.rs:27-29 | `parse::<i16>` of the decimal rendering of any i16 returns that value |
| Strings.LessTotal | src/team.rs:163 | the name order used by `sort_by(name.cmp)` is total: of two different names one is less |
| Strings.LessAsymmetric | src/team.rs:163 | no two names are each less than the other |
| Players.New | src/player.rs:17-43 | Err exactly when the line splits on `" - "` into fewer than 5 fields. On Ok: the name is field 0 verbatim, the three ratings are the i16 values of fields 1-3, and each role flag holds iff field 4 contains `t`, `d` or `s` |
| Players.ExtraFieldsIgnored | src/player.rs:18-32 | two lines that agree on their first five fields parse to the same result |
| Players.ParsedRoles | src/player.rs:57-71 | for a parsed player, `get_sr(pos)` is the rating field of `pos` and `plays_position(pos)` holds iff the role letter of `pos` is in field 4 |
| Players.ParseFormat | src/player.rs:17-43 | printing a player as a roster line and parsing it back gives the same player (for names that contain no `" - "` and do not end in `" -"`) |
| Players.CreateDummy | src/player.rs:45-55 | the dummy is named `---`, has rating 0 for every role and plays no role |
| Players.ReadPlayers | src/main.rs:53-70 | each kept player comes from a non-`#` line that parses; every such line's player is kept; no more players than lines |
| Players.ReadPlayersInOrder | src/main.rs:53-70 | the players are one per usable line (not a `#` comment, at least five fields), in line order: the k-th player is the parse of the k-th usable line |
| Players.GetSr | src/player.rs:57-63 | the rating returned for a role is the player's rating for that role (tank, damage, support) |
| Players.PlaysPosition | src/player.rs:65-71 | holds iff the role's letter (`t`, `d`, `s`) is in the role field written for the player |
| NameIds.ByName | src/team.rs:159-163 | sorting a two-element vector by name: same two players, and the first name is not greater than the second |
| NameIds.SortedDuo | src/team.rs:159-163 | a fresh two-element array holding the two players sorted by name (`ByName`) |
| NameIds.SortByName | src/team.rs:163 | the in-place sort leaves the array equal to `ByName` of its two players |
| NameIds.AppendNames | src/team.rs:164-167 | the push loop appends each player's name followed by `,` |
| NameIds.ListedInjective | src/team.rs:156-189 | for comma-free names, the comma-terminated listing determines the names |
| NameIds.ByNameNames | src/team.rs:159-163 | the sorted duo's names are in order and are the two players' names |
| NameIds.DuoListingSwap | src/team.rs:159-166 | the sorted duo listing does not depend on which slot holds which player |
| Teams.NewTeam | src/team.rs:19-37 | all six slots are filled, the name is kept and the players come back in slot order |
| Teams.AllPlayers | src/team.rs:64-73 | always Ok, with six players |
| Teams.AllPlayerSrs | src/team.rs:53-62 | always Ok, with six ratings: the rating of slot i for that slot's role (tank, tank, damage, damage, support, support) |
| Teams.AverageSr | src/team.rs:39-42 | always Ok, and six times the average is the i16 rating sum |
| Teams.StandardDeviationSquared | src/team.rs:44-51 | always Ok: the sum over the six ratings of (rating − a)², where a is the rating sum divided by 6 and truncated toward zero |
| Teams.DeviationZeroIffEqual | src/team.rs:44-51 | the pre-sqrt spread is non-negative, and it is 0 exactly when all six ratings are equal |
| Teams.GetId | src/team.rs:156-189 | always Ok, and equal to the sorted tank listing, then damage, then support, each name followed by `,` |
| Teams.TeamIdSwap | src/team.rs:159-187 | the id is unchanged by swapping the two tanks, the two damage players or the two supports |
| Teams.TeamIdListsSortedNames | src/team.rs:156-189 | the id is the `,`-terminated listing of the six names, sorted within each role |
| Teams.TeamIdDeterminesNames | src/team.rs:156-189 | for comma-free names, equal ids mean equal name pairs in every role |
| Teams.SameNamesSameTeamId | src/team.rs:156-189 | equal name pairs in every role give equal ids |
| Ow2Teams.NewOw2Team | src/team_ow2.rs:17-33 | all five slots are filled, the name is kept and the players come back in slot order |
| Ow2Teams.AllPlayers | src/team_ow2.rs:127-135 | five players in slot order |
| Ow2Teams.AllPlayerSrs | src/team_ow2.rs:117-125 | five ratings: the tank's tank rating, then the damage ratings, then the support ratings |
| Ow2Teams.AverageSrOfRoleDuo | src/team_ow2.rs:35-65 | a lone tank's average is its rating; a full Damage or Support duo's average lies between its two ratings |
| Ow2Teams.DuoSquaredDeviation | src/team_ow2.rs:67-101 | the duo spread is non-negative, and for a full Damage or Support duo it is 0 exactly when the two ratings are equal |
| Ow2Teams.DuoAverage | src/team_ow2.rs:35-65 | for Tank the average is the tank's rating. For Damage and Support twice the average is the sum of the two ratings, and it lies between them |
| Ow2Teams.TankDeviationZero | src/team_ow2.rs:67-76 | the tank term of the duo spread is measured against its own value, so it is 0 |
| Ow2Teams.DuoDeviationClosedForm | src/team_ow2.rs:67-101 | the Damage or Support duo spread is (r1 − r2)² / 2 |
| Ow2Teams.DuoSwap | src/team_ow2.rs:43-58 | swapping the two players of a duo changes neither its average nor its spread |
| Ow2Teams.AverageSr | src/team_ow2.rs:103-106 | five times the average is the i16 rating sum |
| Ow2Teams.StandardDeviationSquared | src/team_ow2.rs:108-115 | the sum over the five ratings of (rating − a)², where a is the rating sum divided by 5 and truncated toward zero |
| Ow2Teams.DeviationZeroIffEqual | src/team_ow2.rs:108-115 | the pre-sqrt spread is non-negative, and it is 0 exactly when all five ratings are equal |
| Ow2Teams.GetId | src/team_ow2.rs:209-236 | equal to the tank name and `,`, then the sorted damage listing, then the sorted support listing |
| Ow2Teams.TeamIdSwap | src/team_ow2.rs:215-233 | the id is unchanged by swapping the two damage players or the two supports |
| Ow2Teams.TeamIdIff | src/team_ow2.rs:209-236 | for comma-free names, two ids are equal iff the tanks' names match and the damage and support name pairs match |
| Stats.TruncOfQuotient | src/team.rs:40-45 | casting the f32 average `sum / n` to i32 is the integer quotient truncated toward zero |
| Stats.SumSquaredDeviations | src/team.rs:46-49 | the accumulating loop computes the sum of squared differences from the average |
| Stats.ZeroSpreadIffEqual | src/team.rs:44-51 | the squared spread around the truncated average is 0 iff all ratings are equal |
| Combinatorics.CombinationsCount | src/main.rs:148-156 | `combinations(k)` yields C(len, k) combinations |
| Combinatorics.CombinationsSound | src/main.rs:148-156 | each combination has k elements and is a subsequence of the input |
| Combinatorics.CombinationsComplete | src/main.rs:148-156 | every k-element subsequence is yielded |
| Combinatorics.CombinationsNoDup | src/main.rs:148-156 | over distinct elements, no combination is yielded twice |
| Combinatorics.PairsCount | src/main.rs:112-137 | k eligible players give k·(k−1)/2 pairs |
| Combinatorics.PairsMember | src/main.rs:112-137 | a pair is in the pair list iff it is (list[i], list[j]) for some i < j |
| Combinatorics.PairsAt | src/main.rs:112-137 | (list[i], list[j]) sits at its lexicographic position |
| Combinatorics.PairPosLexOrder | src/main.rs:112-137 | pairs come in lexicographic order of their index pairs |
| Matchups.TeamCount | src/main.rs:93 | N is the player count over 6, truncated: 6N ≤ count < 6N + 6 |
| Matchups.Eligible | src/main.rs:97-110 | the role list is a subsequence of the roster and holds exactly the roster players who play the role, each as many times as it appears in the roster |
| Matchups.RolePairs | src/main.rs:112-137 | the tuples pushed from `combinations(2)` are exactly the pair list |
| Matchups.ExtendNames | src/main.rs:160-170 | the name check succeeds iff appending the combination's names keeps the list free of repeats, and then returns that list |
| Matchups.Assemble | src/main.rs:212-222 | the matchup is the tank pairs, then the damage pairs, then the support pairs |
| Matchups.CreateMatchups | src/main.rs:91-228 | the result is the ordered filter of all (tank, damage, support) combination triples, tank-major, keeping those with no repeated name |
| Matchups.ScanDamage | src/main.rs:172-224 | the damage loop appends the kept candidates of one tank combination, in damage-then-support order |
| Matchups.ScanSupport | src/main.rs:191-223 | the support loop appends the kept candidates of one tank and damage combination, in support order |
| Matchups.MatchupsSound | src/main.rs:158-225 | every emitted matchup has 3N pairs (N tank, then N damage, then N support combinations) and 6N distinct names. Each pair is two roster players who play its block's role |
| Matchups.MatchupsComplete | src/main.rs:158-225 | every combination triple whose 6N names are distinct is emitted |
| Matchups.MatchupsUnique | src/main.rs:158-225 | with no repeated roster entry, no matchup is emitted twice |
| Matchups.TriplesAt | src/main.rs:158-194 | the candidate from tank combination i, damage j and support k sits at position (i·D + j)·S + k |
| Matchups.KeepOrder | src/main.rs:158-225 | kept candidates are emitted in candidate order |
| Matchups.MatchupsEmptyIfRoleShort | src/main.rs:158-210 | if some role has fewer than 2N eligible players, nothing is emitted |
| Matchups.FewerThanSixPlayers | src/main.rs:93 | with fewer than six players N is 0 and the single empty matchup is emitted |
| Matchups.Reverse | src/main.rs:84 | the in-place reversal puts element i at position len − 1 − i |
| Matchups.TeamNames | src/main.rs:75-84 | there are max(1, N) distinct names: "Team N" down to "Team 2", then "Naughty Tomatoes" last |
| Matchups.CreateScrims | src/main.rs:72-89 | the team count is the first matchup's length over 3, cast to i16. The names are those of `TeamNames`, and the result is empty |
| Matchups.AsI16 | src/main.rs:77 | the `as i16` cast keeps the value modulo 2^16 in the i16 range, and leaves values below 2^15 unchanged |
| Matchups.ScrimTeamCount | src/main.rs:77 | for a generated matchup list, the scrim team count is the roster's N |

## Left out

- `src/matchup.rs` and `src/matchup_ow2.rs` are not part of this model: their scoring is f32 arithmetic with `sqrt`, `powf` and `abs`, and the rest is text formatting. The `MatchupKind` choice (two teams or three) lives there too.
- `sqrt` in `get_standard_deviation` is left out. The model stops at the integer sum of squares under the square root.
- f32 values are modelled as exact reals. f32 rounding of averages and duo deviations is not modelled.
- Teams.AverageSr: requires the i16 rating sum not to overflow (`PrefixSumsFit`); the source's overflow panic is not modelled.
- Ow2Teams.AverageSr: requires the i16 rating sum not to overflow; the overflow panic is not modelled.
- Ow2Teams.AverageSrOfRoleDuo: requires the i16 duo sum not to overflow.
- Teams.StandardDeviationSquared: requires the i32 accumulator not to overflow (`DeviationSquared(t) < 2^31`).
- Ow2Teams.StandardDeviationSquared: requires the i32 accumulator not to overflow.
- Matchups.CreateMatchups: requires fewer than 2^15 players, so that `players.len() as i16` does not wrap.
- Players.New: requires the three rating fields to parse as i16, because the source panics through `unwrap` otherwise.
- Matchups.CreateScrims: requires a non-empty matchup list, because `matchups[0]` panics otherwise.
- Matchups.CreateMatchups: the two inner labelled loops are the separate methods `ScanDamage` and `ScanSupport`. `continue 'label` becomes an early return from `ExtendNames`.
- Console output (`println!`), file reading in `main` and `read_players`, and the string renderers are left out. `ReadPlayers` models only the line filter, over a sequence of lines.
- `src/change.rs`, threading, slot permutation and pruning are left out. The program has no code for them yet.
- `src/types.rs` is not part of this model. `Position` is declared as Tank, Damage, Support.
- Matchups.MatchupsUnique: states uniqueness only for rosters without repeated entries. Two identical roster lines are two equal players, and the generator can then emit the same matchup twice.
- itertools is not part of this model. `combinations(k)` is the function `Combinatorics.Combinations`, which yields subsequences in lexicographic index order and yields one empty combination for k = 0.
