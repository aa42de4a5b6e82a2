/** The pure decision logic of the interactive dashboard: the latest
    profile of a player, the model's input vector, the favourite, the fair
    odds, the value check against a bookmaker's odds and the normalisation
    of the comparison bars. */
module Dashboard {
  import opened Optional
  import opened Text
  import opened Frames

  /** A row of the processed history table, with dates as ordinals. */
  datatype DbRow = DbRow(
    name: string, date: int, rank: real, elo: real, form: real,
    surfWin: real, ace: real, saved: real)

  /** The profile shown and fed to the model for one player. */
  datatype Profile = Profile(
    name: string, rank: real, elo: real, form: real,
    surfWin: real, ace: real, saved: real, rest: real)

  const DefaultRest: real := 7.0

  /** Position of the player's latest row: greatest date, and among equal
      dates the one furthest down the table. */
  function LatestIndex(db: seq<DbRow>, player: string): (r: Option<nat>)
    ensures r.None? <==> forall j :: 0 <= j < |db| ==> db[j].name != player
    ensures r.Some? ==> r.value < |db| && db[r.value].name == player
    ensures r.Some? ==> forall j :: 0 <= j < |db| && db[j].name == player ==> db[j].date <= db[r.value].date
    decreases |db|
  {
    if |db| == 0 then None
    else
      var prev := LatestIndex(db[..|db| - 1], player);
      var last := db[|db| - 1];
      if last.name == player && (prev.None? || db[prev.value].date <= last.date) then Some(|db| - 1)
      else prev
  }

  /** The latest profile of a player, with the rest days fixed at 7;
      `None` when the player has no row. */
  function GetLastStats(db: seq<DbRow>, player: string): (r: Option<Profile>)
    ensures r.None? <==> forall j :: 0 <= j < |db| ==> db[j].name != player
    ensures r.Some? ==> r.value.name == player && r.value.rest == 7.0
    ensures r.Some? ==> exists i: nat :: IsLatest(db, player, i) && r.value == ProfileOf(db[i])
  {
    match LatestIndex(db, player)
    case None => None
    case Some(i) => Some(ProfileOf(db[i]))
  }

  /** Row `i` is one of the player's rows with the greatest date. */
  predicate IsLatest(db: seq<DbRow>, player: string, i: nat) {
    && i < |db| && db[i].name == player
    && forall j :: 0 <= j < |db| && db[j].name == player ==> db[j].date <= db[i].date
  }

  function ProfileOf(row: DbRow): Profile {
    Profile(row.name, row.rank, row.elo, row.form, row.surfWin, row.ace, row.saved, DefaultRest)
  }

  // ---------------------------------------------------------------------
  // Input vector

  /** The basic features: differences of the two profiles and each side's
      own values. Rank is reversed: a better (smaller) rank for player one
      makes `diff_rank` positive, as a higher Elo makes `diff_elo` positive. */
  function BaseRow(bestOf: real, d1: Profile, d2: Profile): (row: Row)
    ensures row.Keys == BaseKeys
    ensures row["diff_elo"] > 0.0 <==> d1.elo > d2.elo
    ensures row["diff_rank"] > 0.0 <==> d1.rank < d2.rank
    ensures row["diff_form"] > 0.0 <==> d1.form > d2.form
    ensures row["diff_surf"] > 0.0 <==> d1.surfWin > d2.surfWin
    ensures row["Best of"] == bestOf
    ensures row["diff_elo"] == d1.elo - d2.elo && row["diff_rank"] == d2.rank - d1.rank
    ensures row["diff_form"] == d1.form - d2.form && row["diff_surf"] == d1.surfWin - d2.surfWin
    ensures row["player_elo"] == d1.elo && row["opponent_elo"] == d2.elo
    ensures row["player_surf_win"] == d1.surfWin && row["opponent_surf_win"] == d2.surfWin
    ensures row["player_ace_avg"] == d1.ace && row["opponent_ace_avg"] == d2.ace
    ensures row["days_rest"] == d1.rest && row["opponent_rest"] == d2.rest
    ensures row["player_bp_save_avg"] == d1.saved && row["opponent_bp_save_avg"] == d2.saved
  {
    map[
      "Best of" := bestOf,
      "diff_elo" := d1.elo - d2.elo,
      "diff_rank" := d2.rank - d1.rank,
      "diff_form" := d1.form - d2.form,
      "diff_surf" := d1.surfWin - d2.surfWin,
      "player_elo" := d1.elo,
      "opponent_elo" := d2.elo,
      "player_surf_win" := d1.surfWin,
      "opponent_surf_win" := d2.surfWin,
      "player_ace_avg" := d1.ace,
      "opponent_ace_avg" := d2.ace,
      "days_rest" := d1.rest,
      "opponent_rest" := d2.rest,
      "player_bp_save_avg" := d1.saved,
      "opponent_bp_save_avg" := d2.saved]
  }

  const BaseKeys: set<string> := {
    "Best of", "diff_elo", "diff_rank", "diff_form", "diff_surf",
    "player_elo", "opponent_elo", "player_surf_win", "opponent_surf_win",
    "player_ace_avg", "opponent_ace_avg", "days_rest", "opponent_rest",
    "player_bp_save_avg", "opponent_bp_save_avg"}

  /** Swapping the two players negates every difference feature. */
  lemma DiffsAntisymmetric(bestOf: real, d1: Profile, d2: Profile)
    ensures var a := BaseRow(bestOf, d1, d2); var b := BaseRow(bestOf, d2, d1);
      && a["diff_elo"] == -b["diff_elo"] && a["diff_rank"] == -b["diff_rank"]
      && a["diff_form"] == -b["diff_form"] && a["diff_surf"] == -b["diff_surf"]
  {
  }

  /** Sets every trained feature whose name contains "Surface_": 1 for the
      chosen surface's column, 0 for the others. */
  function SurfaceOneHot(row: Row, features: seq<string>, surface: string): (r: Row)
    ensures forall f :: f in features && Contains(f, "Surface_") ==>
      f in r && (r[f] == 1.0 <==> f == "Surface_" + surface) && (r[f] == 0.0 || r[f] == 1.0)
    ensures forall f :: f in row && !(f in features && Contains(f, "Surface_")) ==> f in r && r[f] == row[f]
    ensures forall f :: f in r ==> f in row || (f in features && Contains(f, "Surface_"))
    decreases |features|
  {
    if |features| == 0 then row
    else
      var f := features[|features| - 1];
      var rest := SurfaceOneHot(row, features[..|features| - 1], surface);
      if Contains(f, "Surface_") then rest[f := if f == "Surface_" + surface then 1.0 else 0.0]
      else rest
  }

  /** When the chosen surface's column is not a trained feature (it was the
      dropped first category), every surface column is 0. */
  lemma DroppedSurfaceAllZero(row: Row, features: seq<string>, surface: string)
    requires "Surface_" + surface !in features
    ensures var r := SurfaceOneHot(row, features, surface);
      forall f :: f in features && Contains(f, "Surface_") ==> r[f] == 0.0
  {
  }

  /** The full input vector of a match-up, in trained-feature order: every
      surface column is 0 except the chosen surface's, which is 1, every base
      feature keeps its value and every other feature is 0. */
  function InputVector(features: seq<string>, bestOf: real, surface: string, d1: Profile, d2: Profile): (v: seq<real>)
    ensures |v| == |features|
    ensures forall i :: 0 <= i < |features| ==>
      v[i] == (if Contains(features[i], "Surface_") then (if features[i] == "Surface_" + surface then 1.0 else 0.0)
               else if features[i] in BaseKeys then BaseRow(bestOf, d1, d2)[features[i]]
               else 0.0)
  {
    OneHotReindexed(BaseRow(bestOf, d1, d2), features, surface);
    Reindex(SurfaceOneHot(BaseRow(bestOf, d1, d2), features, surface), features)
  }

  /** Entry `i` of the one-hot row reindexed on the features. */
  lemma OneHotReindexed(row: Row, features: seq<string>, surface: string)
    ensures var v := Reindex(SurfaceOneHot(row, features, surface), features);
      forall i :: 0 <= i < |features| ==>
        v[i] == (if Contains(features[i], "Surface_") then (if features[i] == "Surface_" + surface then 1.0 else 0.0)
                 else if features[i] in row then row[features[i]]
                 else 0.0)
  {
    forall i | 0 <= i < |features|
      ensures features[i] in features
    {
    }
  }

  // ---------------------------------------------------------------------
  // Decision

  /** The predicted winner and its probability: player one exactly when its
      probability is at least one half, so an even match goes to player one. */
  function Favourite(probP1: real): (r: (bool, real))
    ensures r.0 <==> probP1 >= 0.5
    ensures r.1 >= 0.5
    ensures r.1 == probP1 || r.1 == 1.0 - probP1
    ensures r.1 >= probP1 && r.1 >= 1.0 - probP1
  {
    if probP1 >= 0.5 then (true, probP1) else (false, 1.0 - probP1)
  }

  /** The fair decimal odds of the favourite. */
  function FairOdds(probP1: real): (odds: real)
    ensures odds * Favourite(probP1).1 == 1.0
  {
    1.0 / Favourite(probP1).1
  }

  /** For a probability in [0, 1] the fair odds lie in [1, 2]. */
  lemma FairOddsRange(probP1: real)
    requires 0.0 <= probP1 <= 1.0
    ensures 1.0 <= FairOdds(probP1) <= 2.0
  {
    var pw := Favourite(probP1).1;
    DivideMonotone(pw, 1.0, pw);
    DivideMonotone(1.0, 2.0 * pw, pw);
  }

  const ValueMargin: real := 0.03

  /** Whether the bookmaker's odds offer value: the favourite's probability
      beats the implied probability `1/odds` by strictly more than 3 points.
      Zero odds have no implied probability. */
  function HasValue(probWin: real, odds: real): (r: Option<bool>)
    ensures r.None? <==> odds == 0.0
    ensures r.Some? ==> (r.value <==> probWin - 1.0 / odds > 0.03)
  {
    if odds == 0.0 then None else Some(probWin - 1.0 / odds > ValueMargin)
  }

  /** For positive odds, value means the odds exceed the inverse of the
      probability less the margin: `odds * (probWin - 0.03) > 1`. */
  lemma HasValueIffOddsHighEnough(probWin: real, odds: real)
    requires odds > 0.0
    ensures HasValue(probWin, odds) == Some(odds * (probWin - 0.03) > 1.0)
  {
    var implied := 1.0 / odds;
    assert implied * odds == 1.0;
    if probWin - implied > 0.03 {
      assert odds * (probWin - 0.03) > odds * implied;
    } else {
      assert odds * (probWin - 0.03) <= odds * implied;
    }
  }

  /** The bar lengths of a comparison row: both values divided by the larger
      one, or by 1 when the larger one is not positive. */
  function Normalise(v1: real, v2: real): (r: (real, real))
    ensures (v1 > 0.0 || v2 > 0.0) ==> r.0 <= 1.0 && r.1 <= 1.0 && (r.0 == 1.0 || r.1 == 1.0)
    ensures (v1 > 0.0 || v2 > 0.0) ==> (r.0 <= r.1 <==> v1 <= v2)
    ensures (v1 > 0.0 || v2 > 0.0) ==>
      var m := if v1 >= v2 then v1 else v2; r.0 * m == v1 && r.1 * m == v2
    ensures !(v1 > 0.0 || v2 > 0.0) ==> r == (v1, v2)
  {
    var m := if v1 >= v2 then v1 else v2;
    var d := if m > 0.0 then m else 1.0;
    var r := (v1 / d, v2 / d);
    if m > 0.0 then
      NormaliseBounds(v1, v2, m);
      r
    else
      r
  }

  lemma NormaliseBounds(v1: real, v2: real, m: real)
    requires m > 0.0 && v1 <= m && v2 <= m && (m == v1 || m == v2)
    ensures v1 / m <= 1.0 && v2 / m <= 1.0 && (v1 / m == 1.0 || v2 / m == 1.0)
    ensures v1 / m <= v2 / m <==> v1 <= v2
    ensures (v1 / m) * m == v1 && (v2 / m) * m == v2
  {
    DivideMonotone(v1, m, m);
    DivideMonotone(v2, m, m);
    if v1 <= v2 {
      DivideMonotone(v1, v2, m);
    } else {
      DivideStrict(v2, v1, m);
    }
  }

  lemma DivideMonotone(a: real, b: real, m: real)
    requires m > 0.0 && a <= b
    ensures a / m <= b / m
  {
    var q := b / m - a / m;
    assert q * m == b - a;
  }

  lemma DivideStrict(a: real, b: real, m: real)
    requires m > 0.0 && a < b
    ensures a / m < b / m
  {
    var q := b / m - a / m;
    assert q * m == b - a;
  }
}
