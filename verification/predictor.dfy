/** The helpers of the command-line predictor: the latest stats of a
    player, the directional head-to-head count, the surface inputs of the
    two models and the recommended games line. */
module Predictor {
  import opened Optional
  import opened Text
  import opened Frames

  /** A row of the processed table, already in date order. */
  datatype HistRow = HistRow(
    player: string, opponent: string, result: real,
    rank: real, form: real, avgGames: real)

  datatype Stats = Stats(rank: real, form: real, avgGames: real)

  /** Position of the player's last row in table order. */
  function LastRow(rows: seq<HistRow>, player: string): (r: Option<nat>)
    ensures r.None? <==> forall j :: 0 <= j < |rows| ==> rows[j].player != player
    ensures r.Some? ==> r.value < |rows| && rows[r.value].player == player
    ensures r.Some? ==> forall j :: r.value < j < |rows| ==> rows[j].player != player
    decreases |rows|
  {
    if |rows| == 0 then None
    else if rows[|rows| - 1].player == player then Some(|rows| - 1)
    else LastRow(rows[..|rows| - 1], player)
  }

  /** The stats of the player's last row; `None` for an unknown player. */
  function LatestStats(rows: seq<HistRow>, player: string): (r: Option<Stats>)
    ensures r.None? <==> forall j :: 0 <= j < |rows| ==> rows[j].player != player
    ensures r.Some? ==> exists i: nat :: IsLast(rows, player, i) && r.value == StatsOf(rows[i])
  {
    match LastRow(rows, player)
    case None => None
    case Some(i) => Some(StatsOf(rows[i]))
  }

  /** Row `i` is the player's and no later row is. */
  predicate IsLast(rows: seq<HistRow>, player: string, i: nat) {
    && i < |rows| && rows[i].player == player
    && forall j :: i < j < |rows| ==> rows[j].player != player
  }

  function StatsOf(row: HistRow): Stats {
    Stats(row.rank, row.form, row.avgGames)
  }

  /** A later row of the player supersedes every earlier one; a later row of
      someone else changes nothing. */
  lemma LatestStatsSnoc(rows: seq<HistRow>, row: HistRow, player: string)
    ensures LatestStats(rows + [row], player)
      == if row.player == player then Some(StatsOf(row)) else LatestStats(rows, player)
  {
    assert (rows + [row])[..|rows|] == rows;
  }

  // ---------------------------------------------------------------------
  // Head to head

  predicate Meets(r: HistRow, j1: string, j2: string) {
    r.player == j1 && r.opponent == j2
  }

  /** Positions of the rows with player `j1` against opponent `j2`. */
  function Meetings(rows: seq<HistRow>, j1: string, j2: string): set<int> {
    set i | 0 <= i < |rows| && Meets(rows[i], j1, j2)
  }

  /** Wins and matches of `j1` against `j2`, counting only the rows seen
      from `j1`'s side. */
  function HeadToHead(rows: seq<HistRow>, j1: string, j2: string): (r: (real, nat))
    ensures r.1 <= |rows|
    ensures r.1 == 0 ==> r.0 == 0.0
    decreases |rows|
  {
    if |rows| == 0 then (0.0, 0)
    else
      Tally(HeadToHead(rows[..|rows| - 1], j1, j2), rows[|rows| - 1], j1, j2)
  }

  /** The counts after one more row: a row of `j1` against `j2` adds its
      result to the wins and one to the matches. */
  function Tally(counts: (real, nat), row: HistRow, j1: string, j2: string): (r: (real, nat))
    ensures r.1 == counts.1 + (if Meets(row, j1, j2) then 1 else 0)
    ensures r.0 == counts.0 + (if Meets(row, j1, j2) then row.result else 0.0)
  {
    if Meets(row, j1, j2) then (counts.0 + row.result, counts.1 + 1) else counts
  }

  /** The match count is the number of rows with player `j1` against
      opponent `j2`. */
  lemma {:induction false} MatchesCounted(rows: seq<HistRow>, j1: string, j2: string)
    ensures HeadToHead(rows, j1, j2).1 == |Meetings(rows, j1, j2)|
    decreases |rows|
  {
    if |rows| > 0 {
      var n := |rows| - 1;
      MatchesCounted(rows[..n], j1, j2);
      MeetingsSnoc(rows, j1, j2);
      var m := Meetings(rows[..n], j1, j2);
      var prev := HeadToHead(rows[..n], j1, j2);
      assert HeadToHead(rows, j1, j2) == Tally(prev, rows[n], j1, j2);
      if Meets(rows[n], j1, j2) {
        assert |m + {n}| == |m| + 1;
      } else {
        assert Meetings(rows, j1, j2) == m;
      }
    }
  }

  lemma MeetingsSnoc(rows: seq<HistRow>, j1: string, j2: string)
    requires |rows| > 0
    ensures var n := |rows| - 1; var m := Meetings(rows[..n], j1, j2);
      && n !in m
      && Meetings(rows, j1, j2) == m + (if Meets(rows[n], j1, j2) then {n} else {})
  {
    var n := |rows| - 1;
    var p := rows[..n];
    forall i | 0 <= i < n
      ensures p[i] == rows[i]
    {
    }
  }

  /** There are no matches exactly when no row has player `j1` against
      opponent `j2`. */
  lemma NoMatchesIffNoRows(rows: seq<HistRow>, j1: string, j2: string)
    ensures HeadToHead(rows, j1, j2).1 == 0 <==> forall i :: 0 <= i < |rows| ==> !Meets(rows[i], j1, j2)
  {
    MatchesCounted(rows, j1, j2);
    var m := Meetings(rows, j1, j2);
    if |m| != 0 {
      var k :| k in m;
      assert Meets(rows[k], j1, j2);
    } else {
      forall i | 0 <= i < |rows|
        ensures !Meets(rows[i], j1, j2)
      {
        assert i !in m;
      }
    }
  }

  /** With results 0 or 1, the wins never exceed the matches. */
  lemma {:induction false} WinsWithinMatches(rows: seq<HistRow>, j1: string, j2: string)
    requires forall i :: 0 <= i < |rows| ==> 0.0 <= rows[i].result <= 1.0
    ensures 0.0 <= HeadToHead(rows, j1, j2).0 <= HeadToHead(rows, j1, j2).1 as real
    decreases |rows|
  {
    if |rows| > 0 {
      WinsWithinMatches(rows[..|rows| - 1], j1, j2);
    }
  }

  /** Only the rows with player `j1` against opponent `j2` matter: two tables
      that agree on those rows give the same count, whatever the other rows
      say (in particular the rows seen from `j2`'s side). */
  lemma {:induction false} OnlyDirectedRowsCount(rows: seq<HistRow>, rows': seq<HistRow>, j1: string, j2: string)
    requires |rows| == |rows'|
    requires forall i :: 0 <= i < |rows| ==> (Meets(rows[i], j1, j2) <==> Meets(rows'[i], j1, j2))
    requires forall i :: 0 <= i < |rows| && Meets(rows[i], j1, j2) ==> rows[i].result == rows'[i].result
    ensures HeadToHead(rows, j1, j2) == HeadToHead(rows', j1, j2)
    decreases |rows|
  {
    if |rows| > 0 {
      var n := |rows| - 1;
      var p, p' := rows[..n], rows'[..n];
      forall i | 0 <= i < n
        ensures (Meets(p[i], j1, j2) <==> Meets(p'[i], j1, j2))
        ensures Meets(p[i], j1, j2) ==> p[i].result == p'[i].result
      {
        assert p[i] == rows[i] && p'[i] == rows'[i];
      }
      OnlyDirectedRowsCount(p, p', j1, j2);
      assert Meets(rows[n], j1, j2) <==> Meets(rows'[n], j1, j2);
      assert Tally(HeadToHead(p, j1, j2), rows[n], j1, j2) == Tally(HeadToHead(p', j1, j2), rows'[n], j1, j2);
    }
  }

  lemma {:induction false} HeadToHeadAppend(a: seq<HistRow>, b: seq<HistRow>, j1: string, j2: string)
    ensures HeadToHead(a + b, j1, j2).0 == HeadToHead(a, j1, j2).0 + HeadToHead(b, j1, j2).0
    ensures HeadToHead(a + b, j1, j2).1 == HeadToHead(a, j1, j2).1 + HeadToHead(b, j1, j2).1
    decreases |b|
  {
    if |b| == 0 {
      assert a + b == a;
    } else {
      assert (a + b)[..|a + b| - 1] == a + b[..|b| - 1];
      HeadToHeadAppend(a, b[..|b| - 1], j1, j2);
    }
  }

  /** The row of the same match seen from the other side. */
  predicate Mirrors(l: HistRow, w: HistRow) {
    l.player == w.opponent && l.opponent == w.player && l.result == 1.0 - w.result
  }

  lemma {:induction false} MirrorCounts(w: seq<HistRow>, l: seq<HistRow>, a: string, b: string)
    requires |w| == |l|
    requires forall i :: 0 <= i < |w| ==> w[i].result == 1.0 && Mirrors(l[i], w[i])
    ensures HeadToHead(w, a, b).0 == HeadToHead(w, a, b).1 as real
    ensures HeadToHead(l, a, b).0 == 0.0
    ensures HeadToHead(l, a, b).1 == HeadToHead(w, b, a).1
    decreases |w|
  {
    if |w| > 0 {
      MirrorCounts(w[..|w| - 1], l[..|l| - 1], a, b);
    }
  }

  /** On a table holding every match twice, winners' rows first and the
      mirrored losers' rows after, the wins of `a` over `b` and of `b` over
      `a` add up to the matches of `a` against `b`, and those equal the
      matches of `b` against `a`. */
  lemma MirroredTableBalances(rows: seq<HistRow>, n: nat, a: string, b: string)
    requires |rows| == 2 * n
    requires forall i :: 0 <= i < n ==> rows[i].result == 1.0 && Mirrors(rows[n + i], rows[i])
    ensures HeadToHead(rows, a, b).0 + HeadToHead(rows, b, a).0 == HeadToHead(rows, a, b).1 as real
    ensures HeadToHead(rows, a, b).1 == HeadToHead(rows, b, a).1
  {
    var w := rows[..n];
    var l := rows[n..];
    assert rows == w + l;
    HeadToHeadAppend(w, l, a, b);
    HeadToHeadAppend(w, l, b, a);
    MirrorCounts(w, l, a, b);
    MirrorCounts(w, l, b, a);
  }

  // ---------------------------------------------------------------------
  // Model inputs

  /** Sets every model feature starting with "surface_" to 0, then the
      chosen surface's column to 1 if it is one of them. */
  function SurfaceInputs(row: Row, features: seq<string>, surface: string): (r: Row)
    ensures forall f :: f in features && StartsWith(f, "surface_") ==>
      f in r && r[f] == (if f == "surface_" + surface then 1.0 else 0.0)
    ensures forall f :: f in row && !(f in features && StartsWith(f, "surface_")) && f != "surface_" + surface ==>
      f in r && r[f] == row[f]
    ensures r.Keys == row.Keys + (set f | f in features && StartsWith(f, "surface_"))
  {
    var zeroed := ZeroSurfaces(row, features);
    var key := "surface_" + surface;
    if key in zeroed then zeroed[key := 1.0] else zeroed
  }

  function ZeroSurfaces(row: Row, features: seq<string>): (r: Row)
    ensures forall f :: f in features && StartsWith(f, "surface_") ==> f in r && r[f] == 0.0
    ensures forall f :: f in row && !(f in features && StartsWith(f, "surface_")) ==> f in r && r[f] == row[f]
    ensures r.Keys == row.Keys + (set f | f in features && StartsWith(f, "surface_"))
    decreases |features|
  {
    if |features| == 0 then row
    else
      var f := features[|features| - 1];
      var rest := ZeroSurfaces(row, features[..|features| - 1]);
      if StartsWith(f, "surface_") then rest[f := 0.0] else rest
  }

  /** The columns the winner model's input is built from: both ranks, both
      forms and the head-to-head counts. */
  function WinnerRow(s1: Stats, s2: Stats, wins: real, total: nat): Row {
    map[
      "player_rank" := s1.rank, "opponent_rank" := s2.rank,
      "player_form" := s1.form, "opponent_form" := s2.form,
      "h2h_wins" := wins, "h2h_total" := total as real]
  }

  /** The columns the games model's input is built from: both ranks and both
      players' average games. */
  function GamesRow(s1: Stats, s2: Stats): Row {
    map[
      "player_rank" := s1.rank, "opponent_rank" := s2.rank,
      "player_avg_games" := s1.avgGames, "opponent_avg_games" := s2.avgGames]
  }

  /** The value a model input takes at feature `f`: a "surface_" feature is 1
      for the chosen surface and 0 otherwise, a built column keeps its value
      and any other feature is 0. */
  function InputAt(built: Row, surface: string, f: string): real {
    if StartsWith(f, "surface_") then (if f == "surface_" + surface then 1.0 else 0.0)
    else if f in built then built[f]
    else 0.0
  }

  /** The winner model's inputs, one per model feature. */
  function WinnerInputs(features: seq<string>, surface: string, s1: Stats, s2: Stats, wins: real, total: nat): (v: seq<real>)
    ensures |v| == |features|
    ensures forall i :: 0 <= i < |features| ==> v[i] == InputAt(WinnerRow(s1, s2, wins, total), surface, features[i])
    ensures forall i :: 0 <= i < |features| && features[i] == "h2h_wins" ==> v[i] == wins
    ensures forall i :: 0 <= i < |features| && features[i] == "h2h_total" ==> v[i] == total as real
  {
    var row := WinnerRow(s1, s2, wins, total);
    assert !StartsWith("h2h_wins", "surface_") && !StartsWith("h2h_total", "surface_") by {
      assert "h2h_wins"[0] != "surface_"[0] && "h2h_total"[0] != "surface_"[0];
    }
    BuiltNotSurface(row, "p", "o", "h");
    SurfaceInputsAt(row, features, surface);
    Reindex(SurfaceInputs(row, features, surface), features)
  }

  /** The games model's inputs, one per model feature. */
  function GamesInputs(features: seq<string>, surface: string, s1: Stats, s2: Stats): (v: seq<real>)
    ensures |v| == |features|
    ensures forall i :: 0 <= i < |features| ==> v[i] == InputAt(GamesRow(s1, s2), surface, features[i])
    ensures forall i :: 0 <= i < |features| && features[i] == "player_avg_games" ==> v[i] == s1.avgGames
    ensures forall i :: 0 <= i < |features| && features[i] == "opponent_avg_games" ==> v[i] == s2.avgGames
  {
    var row := GamesRow(s1, s2);
    assert !StartsWith("player_avg_games", "surface_") && !StartsWith("opponent_avg_games", "surface_") by {
      assert "player_avg_games"[0] != "surface_"[0] && "opponent_avg_games"[0] != "surface_"[0];
    }
    BuiltNotSurface(row, "p", "o", "o");
    SurfaceInputsAt(row, features, surface);
    Reindex(SurfaceInputs(row, features, surface), features)
  }

  /** A row whose keys all start with one of three letters other than 's'
      holds no "surface_" column. */
  lemma BuiltNotSurface(row: Row, a: string, b: string, c: string)
    requires |a| == 1 && |b| == 1 && |c| == 1 && a[0] != 's' && b[0] != 's' && c[0] != 's'
    requires forall k :: k in row ==> StartsWith(k, a) || StartsWith(k, b) || StartsWith(k, c)
    ensures forall k :: k in row ==> !StartsWith(k, "surface_")
  {
    forall k | k in row
      ensures !StartsWith(k, "surface_")
    {
      assert k[0] != 's';
    }
  }

  /** Reindexing the surface-completed row on the model features gives each
      feature the value `InputAt` describes, provided no built column is a
      "surface_" column. */
  lemma SurfaceInputsAt(row: Row, features: seq<string>, surface: string)
    requires forall k :: k in row ==> !StartsWith(k, "surface_")
    ensures var v := Reindex(SurfaceInputs(row, features, surface), features);
      forall i :: 0 <= i < |features| ==> v[i] == InputAt(row, surface, features[i])
  {
    var r := SurfaceInputs(row, features, surface);
    forall i | 0 <= i < |features|
      ensures (if features[i] in r then r[features[i]] else 0.0) == InputAt(row, surface, features[i])
    {
      var f := features[i];
      assert f in features;
      if !StartsWith(f, "surface_") && f in row {
        assert f != "surface_" + surface by {
          assert ("surface_" + surface)[..|"surface_"|] == "surface_";
        }
      }
    }
  }

  // ---------------------------------------------------------------------
  // The recommended line

  /** Python's `round` on a float: the nearest integer, ties to even. */
  function RoundHalfEven(x: real): (n: int)
    ensures -0.5 <= x - n as real <= 0.5
    ensures (x - n as real == 0.5 || x - n as real == -0.5) ==> n % 2 == 0
  {
    var f := x.Floor;
    var frac := x - f as real;
    if frac < 0.5 then f
    else if frac > 0.5 then f + 1
    else if f % 2 == 0 then f else f + 1
  }

  /** The rounding is the only integer with those two properties. */
  lemma RoundHalfEvenUnique(x: real, m: int)
    requires -0.5 <= x - m as real <= 0.5
    requires (x - m as real == 0.5 || x - m as real == -0.5) ==> m % 2 == 0
    ensures m == RoundHalfEven(x)
  {
    var n := RoundHalfEven(x);
    assert (m - n) as real == (x - n as real) - (x - m as real);
  }
}
