/** The tennis history builder: null filling, the split of every match into
    a winner-perspective and a loser-perspective row, and the causal
    per-player rolling features computed over those rows. */
module Features {
  import opened Optional
  import opened Rolling
  import Score

  /** Raw serve counters of one player in one match; `None` is NaN. */
  datatype ServeStats = ServeStats(
    aces: Option<real>, doubleFaults: Option<real>, servePoints: Option<real>,
    firstIn: Option<real>, firstWon: Option<real>,
    breakPointsSaved: Option<real>, breakPointsFaced: Option<real>)

  /** A row of the raw match table, where `Player_1` is always the winner.
      Dates are kept as an ordinal; their parsing is not modelled. Player
      names and the surface may be missing (`None`): the name formatter
      passes NaN through. */
  datatype RawMatch = RawMatch(
    date: int, surface: Option<string>, bestOf: Option<real>, score: Option<string>,
    player1: Option<string>, rank1: Option<real>, stats1: ServeStats,
    player2: Option<string>, rank2: Option<real>, stats2: ServeStats)

  /** A raw match after null filling and game counting. */
  datatype Match = Match(
    date: int, surface: Option<string>, bestOf: real, totalGames: Option<nat>,
    player1: Option<string>, rank1: real, stats1: ServeStats,
    player2: Option<string>, rank2: real, stats2: ServeStats)

  const DefaultRank: real := 1500.0
  const DefaultBestOf: real := 3.0

  /** Null filling and the `total_games` column: a missing rank becomes
      1500, a missing format becomes best-of-3, present values are kept. */
  function Clean(m: RawMatch): (c: Match)
    ensures c.rank1 == (if m.rank1.None? then 1500.0 else m.rank1.value)
    ensures c.rank2 == (if m.rank2.None? then 1500.0 else m.rank2.value)
    ensures c.bestOf == (if m.bestOf.None? then 3.0 else m.bestOf.value)
    ensures c.totalGames == Score.TotalGames(m.score)
    ensures c.player1 == m.player1 && c.player2 == m.player2 && c.date == m.date && c.surface == m.surface
    ensures c.stats1 == m.stats1 && c.stats2 == m.stats2
  {
    Match(m.date, m.surface, m.bestOf.GetOr(DefaultBestOf), Score.TotalGames(m.score),
          m.player1, m.rank1.GetOr(DefaultRank), m.stats1,
          m.player2, m.rank2.GetOr(DefaultRank), m.stats2)
  }

  /** One player's view of one match. */
  datatype PlayerRow = PlayerRow(
    date: int, surface: Option<string>, bestOf: real, totalGames: Option<nat>,
    name: Option<string>, rank: real, stats: ServeStats,
    opponent: Option<string>, opponentRank: real, result: int)

  function WinnerRow(m: Match): PlayerRow {
    PlayerRow(m.date, m.surface, m.bestOf, m.totalGames, m.player1, m.rank1, m.stats1, m.player2, m.rank2, 1)
  }

  function LoserRow(m: Match): PlayerRow {
    PlayerRow(m.date, m.surface, m.bestOf, m.totalGames, m.player2, m.rank2, m.stats2, m.player1, m.rank1, 0)
  }

  /** Both perspectives of every match: all winner rows, then all loser rows. */
  function Expand(ms: seq<Match>): (rows: seq<PlayerRow>)
    ensures |rows| == 2 * |ms|
    ensures forall i :: 0 <= i < |ms| ==> rows[i] == WinnerRow(ms[i])
    ensures forall i :: 0 <= i < |ms| ==> rows[|ms| + i] == LoserRow(ms[i])
  {
    seq(|ms|, i requires 0 <= i < |ms| => WinnerRow(ms[i]))
      + seq(|ms|, i requires 0 <= i < |ms| => LoserRow(ms[i]))
  }

  /** Each match yields two mirrored rows: the winner's with result 1 against
      the loser, the loser's with result 0 against the winner, names and
      ranks swapped, the match facts shared; the serve counters go with
      their own player. */
  lemma ExpandMirrors(ms: seq<Match>, i: nat)
    requires i < |ms|
    ensures var w := Expand(ms)[i]; var l := Expand(ms)[|ms| + i];
      && w.result == 1 && l.result == 0
      && w.name == l.opponent == ms[i].player1 && l.name == w.opponent == ms[i].player2
      && w.rank == l.opponentRank == ms[i].rank1 && l.rank == w.opponentRank == ms[i].rank2
      && w.stats == ms[i].stats1 && l.stats == ms[i].stats2
      && w.date == l.date && w.surface == l.surface && w.bestOf == l.bestOf && w.totalGames == l.totalGames
  {
  }

  // ---------------------------------------------------------------------
  // Per-row signals

  /** `num / den`, missing when either count is missing or the denominator is zero. */
  function Ratio(num: Option<real>, den: Option<real>): (r: Option<real>)
    ensures r.Some? <==> num.Some? && den.Some? && den.value != 0.0
    ensures r.Some? ==> r.value * den.value == num.value
  {
    if num.Some? && den.Some? && den.value != 0.0 then Some(num.value / den.value) else None
  }

  /** The per-row quantities that get averaged. */
  datatype Signal = Form | AceRate | FirstInRate | FirstWonRate | BreakPointSaveRate

  function SignalValue(r: PlayerRow, s: Signal): Option<real> {
    match s
    case Form => Some(r.result as real)
    case AceRate => Ratio(r.stats.aces, r.stats.servePoints)
    case FirstInRate => Ratio(r.stats.firstIn, r.stats.servePoints)
    case FirstWonRate => Ratio(r.stats.firstWon, r.stats.firstIn)
    case BreakPointSaveRate => Ratio(r.stats.breakPointsSaved, r.stats.breakPointsFaced)
  }

  /** The value a feature takes when the window holds no observation. */
  function Default(s: Signal): real {
    match s
    case Form => 0.5
    case AceRate => 0.05
    case FirstInRate => 0.60
    case FirstWonRate => 0.70
    case BreakPointSaveRate => 0.55
  }

  const PlayerWindow: nat := 10
  const SurfaceWindow: nat := 20
  const SurfaceDefault: real := 0.5

  /** A signal column grouped by player. */
  function SignalObs(rows: seq<PlayerRow>, s: Signal): (obs: seq<Obs<string>>)
    ensures |obs| == |rows|
    ensures forall i :: 0 <= i < |rows| ==> obs[i] == Obs(rows[i].name, SignalValue(rows[i], s))
  {
    seq(|rows|, i requires 0 <= i < |rows| => Obs(rows[i].name, SignalValue(rows[i], s)))
  }

  /** The (player, surface) group of a row; a row missing either has none. */
  function SurfaceKey(r: PlayerRow): (key: Option<(string, string)>)
    ensures key.Some? <==> r.name.Some? && r.surface.Some?
    ensures key.Some? ==> key.value == (r.name.value, r.surface.value)
  {
    if r.name.Some? && r.surface.Some? then Some((r.name.value, r.surface.value)) else None
  }

  /** The result column grouped by (player, surface). */
  function SurfaceObs(rows: seq<PlayerRow>): (obs: seq<Obs<(string, string)>>)
    ensures |obs| == |rows|
    ensures forall i :: 0 <= i < |rows| ==> obs[i] == Obs(SurfaceKey(rows[i]), Some(rows[i].result as real))
  {
    seq(|rows|, i requires 0 <= i < |rows| => Obs(SurfaceKey(rows[i]), Some(rows[i].result as real)))
  }

  /** The kept columns of one processed row: the row itself and its six
      historical features. */
  datatype Snapshot = Snapshot(
    row: PlayerRow, form: real, aceAvg: real, firstInAvg: real, firstWonAvg: real,
    bpSaveAvg: real, surfaceWin: real)

  function Feature(rows: seq<PlayerRow>, k: nat, s: Signal): real
    requires k < |rows|
  {
    RollingAt(SignalObs(rows, s), k, PlayerWindow, Default(s))
  }

  /** The features of row `k`, as the declarative definition of the build. */
  function SnapshotAt(rows: seq<PlayerRow>, k: nat): Snapshot
    requires k < |rows|
  {
    Snapshot(rows[k],
      Feature(rows, k, Form), Feature(rows, k, AceRate), Feature(rows, k, FirstInRate),
      Feature(rows, k, FirstWonRate), Feature(rows, k, BreakPointSaveRate),
      RollingAt(SurfaceObs(rows), k, SurfaceWindow, SurfaceDefault))
  }

  /** The feature build over rows in processing order, one streaming pass per
      column. */
  method BuildFeatures(rows: seq<PlayerRow>) returns (snaps: seq<Snapshot>)
    ensures |snaps| == |rows|
    ensures forall k :: 0 <= k < |rows| ==> snaps[k] == SnapshotAt(rows, k)
  {
    var form := RollingMeans(SignalObs(rows, Form), PlayerWindow, Default(Form));
    var ace := RollingMeans(SignalObs(rows, AceRate), PlayerWindow, Default(AceRate));
    var firstIn := RollingMeans(SignalObs(rows, FirstInRate), PlayerWindow, Default(FirstInRate));
    var firstWon := RollingMeans(SignalObs(rows, FirstWonRate), PlayerWindow, Default(FirstWonRate));
    var bpSave := RollingMeans(SignalObs(rows, BreakPointSaveRate), PlayerWindow, Default(BreakPointSaveRate));
    var surface := RollingMeans(SurfaceObs(rows), SurfaceWindow, SurfaceDefault);
    snaps := seq(|rows|, k requires 0 <= k < |rows| =>
      Snapshot(rows[k], form[k], ace[k], firstIn[k], firstWon[k], bpSave[k], surface[k]));
  }

  // ---------------------------------------------------------------------
  // Properties of the build

  /** Replaying a truncated history reproduces the features of the kept
      prefix: no feature looks at a later row. */
  lemma SnapshotTruncation(rows: seq<PlayerRow>, n: nat, k: nat)
    requires k < n <= |rows|
    ensures SnapshotAt(rows[..n], k) == SnapshotAt(rows, k)
  {
    forall s: Signal
      ensures Feature(rows[..n], k, s) == Feature(rows, k, s)
    {
      assert SignalObs(rows[..n], s) == SignalObs(rows, s)[..n];
      TruncationInvariant(SignalObs(rows, s), n, k, PlayerWindow, Default(s));
    }
    assert SurfaceObs(rows[..n]) == SurfaceObs(rows)[..n];
    TruncationInvariant(SurfaceObs(rows), n, k, SurfaceWindow, SurfaceDefault);
  }

  /** A row's own result and serve counters never enter its own features. */
  lemma SnapshotIgnoresOwnMatch(rows: seq<PlayerRow>, k: nat, stats: ServeStats, result: int)
    requires k < |rows|
    ensures var rows' := rows[k := rows[k].(stats := stats, result := result)];
      var a := SnapshotAt(rows', k); var b := SnapshotAt(rows, k);
      && a.form == b.form && a.aceAvg == b.aceAvg && a.firstInAvg == b.firstInAvg
      && a.firstWonAvg == b.firstWonAvg && a.bpSaveAvg == b.bpSaveAvg && a.surfaceWin == b.surfaceWin
  {
    var rows' := rows[k := rows[k].(stats := stats, result := result)];
    forall s: Signal
      ensures Feature(rows', k, s) == Feature(rows, k, s)
    {
      var obs := SignalObs(rows, s);
      assert SignalObs(rows', s) == obs[k := Obs(obs[k].key, SignalValue(rows'[k], s))];
      OwnValueIgnored(obs, k, SignalValue(rows'[k], s), PlayerWindow, Default(s));
    }
    var sobs := SurfaceObs(rows);
    assert SurfaceObs(rows') == sobs[k := Obs(sobs[k].key, Some(result as real))];
    OwnValueIgnored(sobs, k, Some(result as real), SurfaceWindow, SurfaceDefault);
  }

  /** A player's first row gets every default: form 0.5, ace rate 0.05,
      first-serve-in 0.60, first-serve-won 0.70, break points saved 0.55
      and surface form 0.5. */
  lemma FirstMatchDefaults(rows: seq<PlayerRow>, k: nat)
    requires k < |rows| && rows[k].name.Some?
    requires forall j :: 0 <= j < k ==> rows[j].name != rows[k].name
    ensures SnapshotAt(rows, k) == Snapshot(rows[k], 0.5, 0.05, 0.60, 0.70, 0.55, 0.5)
  {
    var form := Feature(rows, k, Form);
    var ace := Feature(rows, k, AceRate);
    var firstIn := Feature(rows, k, FirstInRate);
    var firstWon := Feature(rows, k, FirstWonRate);
    var bpSave := Feature(rows, k, BreakPointSaveRate);
    var surface := RollingAt(SurfaceObs(rows), k, SurfaceWindow, SurfaceDefault);
    FirstFeatureIsDefault(rows, k, Form);
    FirstFeatureIsDefault(rows, k, AceRate);
    FirstFeatureIsDefault(rows, k, FirstInRate);
    FirstFeatureIsDefault(rows, k, FirstWonRate);
    FirstFeatureIsDefault(rows, k, BreakPointSaveRate);
    FirstSurfaceFormIsDefault(rows, k);
    assert SnapshotAt(rows, k) == Snapshot(rows[k], form, ace, firstIn, firstWon, bpSave, surface);
  }

  lemma FirstSurfaceFormIsDefault(rows: seq<PlayerRow>, k: nat)
    requires k < |rows| && rows[k].name.Some?
    requires forall j :: 0 <= j < k ==> rows[j].name != rows[k].name
    ensures RollingAt(SurfaceObs(rows), k, SurfaceWindow, SurfaceDefault) == 0.5
  {
    var obs := SurfaceObs(rows);
    if obs[k].key.Some? {
      assert forall j :: 0 <= j < k ==> obs[j].key != obs[k].key;
      FirstOfGroupGetsDefault(obs, k, SurfaceWindow, SurfaceDefault);
    }
  }

  lemma FirstFeatureIsDefault(rows: seq<PlayerRow>, k: nat, s: Signal)
    requires k < |rows| && rows[k].name.Some?
    requires forall j :: 0 <= j < k ==> rows[j].name != rows[k].name
    ensures Feature(rows, k, s) == Default(s)
  {
    var obs := SignalObs(rows, s);
    assert forall j :: 0 <= j < k ==> obs[j].key != obs[k].key;
    FirstOfGroupGetsDefault(obs, k, PlayerWindow, Default(s));
  }

  /** With results 0 or 1, both form features are win rates in [0, 1]. */
  lemma FormIsWinRate(rows: seq<PlayerRow>, k: nat)
    requires k < |rows|
    requires forall j :: 0 <= j < |rows| ==> 0 <= rows[j].result <= 1
    ensures 0.0 <= SnapshotAt(rows, k).form <= 1.0
    ensures 0.0 <= SnapshotAt(rows, k).surfaceWin <= 1.0
  {
    RollingWithin(SignalObs(rows, Form), k, PlayerWindow, Default(Form), 0.0, 1.0);
    RollingWithin(SurfaceObs(rows), k, SurfaceWindow, SurfaceDefault, 0.0, 1.0);
  }

  /** Surface form only sees the player's own rows on the same surface:
      changing any other row leaves it unchanged. */
  lemma SurfaceFormIsolated(rows: seq<PlayerRow>, rows': seq<PlayerRow>, k: nat)
    requires |rows| == |rows'| && k < |rows|
    requires rows'[k] == rows[k]
    requires forall j :: 0 <= j < |rows| ==>
      (SurfaceKey(rows[j]) == SurfaceKey(rows[k]) || SurfaceKey(rows'[j]) == SurfaceKey(rows[k])) ==> rows'[j] == rows[j]
    ensures SnapshotAt(rows', k).surfaceWin == SnapshotAt(rows, k).surfaceWin
  {
    if SurfaceKey(rows[k]).Some? {
      OtherGroupsIgnored(SurfaceObs(rows), SurfaceObs(rows'), k, SurfaceKey(rows[k]).value);
    }
  }

  /** A row whose player name is missing belongs to no group: every feature
      is its default. A row whose surface is missing gets the default
      surface form. */
  lemma UngroupedRowGetsDefaults(rows: seq<PlayerRow>, k: nat)
    requires k < |rows|
    ensures rows[k].name.None? ==> SnapshotAt(rows, k) == Snapshot(rows[k], 0.5, 0.05, 0.60, 0.70, 0.55, 0.5)
    ensures rows[k].surface.None? ==> SnapshotAt(rows, k).surfaceWin == 0.5
  {
    assert SurfaceObs(rows)[k].key == SurfaceKey(rows[k]);
    if rows[k].name.None? {
      forall s: Signal
        ensures Feature(rows, k, s) == Default(s)
      {
        assert SignalObs(rows, s)[k].key.None?;
      }
      assert SnapshotAt(rows, k) == Snapshot(rows[k],
        Feature(rows, k, Form), Feature(rows, k, AceRate), Feature(rows, k, FirstInRate),
        Feature(rows, k, FirstWonRate), Feature(rows, k, BreakPointSaveRate), 0.5);
    }
  }

  /** A row whose player name is missing never enters any other row's
      per-player features, whatever its values. */
  lemma UngroupedRowIgnored(rows: seq<PlayerRow>, k: nat, j: nat, r: PlayerRow, s: Signal)
    requires j < |rows| && k < |rows| && j != k
    requires rows[j].name.None? && r.name.None?
    ensures Feature(rows[j := r], k, s) == Feature(rows, k, s)
  {
    var obs := SignalObs(rows, s);
    var obs' := SignalObs(rows[j := r], s);
    if obs[k].key.Some? {
      assert obs'[k] == obs[k];
      OtherGroupsIgnored(obs, obs', k, obs[k].key.value);
    }
  }
}
