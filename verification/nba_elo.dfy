/** The basketball pre-game Elo ledger and the per-team possession
    estimates. Games arrive already grouped by game id, in the order the
    grouping yields them; each game is folded into a table of ratings keyed
    by team name, and each processed game emits the two teams' ratings as
    they stood before it. */
module NbaElo {
  import opened Optional

  const KFactor: real := 20.0
  const HomeAdvantage: real := 100.0
  const StartElo: real := 1500.0

  /** The transcendental functions the update uses, passed in as values. */
  datatype RealOps = RealOps(pow10: real -> real, ln: real -> real)

  /** The facts about `10^x` and `log` the model relies on: powers are
      non-negative, `log(1) = 0` and `log` is non-negative from 1 on. */
  ghost predicate Lawful(ops: RealOps) {
    && ops.ln(1.0) == 0.0
    && (forall x :: ops.pow10(x) >= 0.0)
    && (forall x :: x >= 1.0 ==> ops.ln(x) >= 0.0)
  }

  // ---------------------------------------------------------------------
  // Four factors

  /** The box-score counts of one team in one game. */
  datatype BoxScore = BoxScore(fga: real, fta: real, tov: real, oreb: real, pts: real)

  /** Dean Oliver's basic possession estimate. */
  function Possessions(b: BoxScore): real {
    b.fga + 0.44 * b.fta + b.tov - b.oreb
  }

  /** Offensive rating and pace: zero possessions are replaced by one, pace
      is the guarded possession count, and the rating is points per hundred
      possessions. */
  function FourFactors(b: BoxScore): (r: (real, real))
    ensures r.1 == (if Possessions(b) == 0.0 then 1.0 else Possessions(b))
    ensures r.1 != 0.0 && r.0 * r.1 == 100.0 * b.pts
  {
    var poss := if Possessions(b) == 0.0 then 1.0 else Possessions(b);
    ((b.pts / poss) * 100.0, poss)
  }

  // ---------------------------------------------------------------------
  // Games and ratings

  /** One team's line in one game. */
  datatype TeamRow = TeamRow(teamId: int, teamName: string, matchup: string, wl: string, pts: int)

  /** The rows sharing one game id, in table order. */
  datatype Game = Game(gameId: int, rows: seq<TeamRow>)

  /** A pre-game rating emitted for one team in one game. */
  datatype EloRecord = EloRecord(gameId: int, teamId: int, eloStart: real, isHome: bool)

  type Ratings = map<string, real>

  /** A team's current rating; a team not seen yet starts at 1500. */
  function Rating(ratings: Ratings, team: string): (r: real)
    ensures team !in ratings ==> r == 1500.0
    ensures team in ratings ==> r == ratings[team]
  {
    if team in ratings then ratings[team] else StartElo
  }

  datatype Fixture = Fixture(home: TeamRow, away: TeamRow)

  /** Home and away of a game: a game without exactly two rows is not
      played; the first row is the away team exactly when its matchup
      contains '@'. */
  function Sides(g: Game): (f: Option<Fixture>)
    ensures f.Some? <==> |g.rows| == 2
    ensures f.Some? ==> ('@' in g.rows[0].matchup ==> f.value == Fixture(g.rows[1], g.rows[0]))
    ensures f.Some? ==> ('@' !in g.rows[0].matchup ==> f.value == Fixture(g.rows[0], g.rows[1]))
  {
    if |g.rows| != 2 then None
    else if '@' in g.rows[0].matchup then Some(Fixture(g.rows[1], g.rows[0]))
    else Some(Fixture(g.rows[0], g.rows[1]))
  }

  /** The home team's expected score for a rating difference (home bonus
      included by the caller): `1 / (1 + 10^(-diff/400))`. */
  function Expected(ops: RealOps, diff: real): (p: real)
    requires Lawful(ops)
    ensures p * (1.0 + ops.pow10(-diff / 400.0)) == 1.0
    ensures 0.0 < p <= 1.0
  {
    var d := 1.0 + ops.pow10(-diff / 400.0);
    assert d >= 1.0;
    1.0 / d
  }

  function Abs(x: int): nat {
    if x < 0 then -x else x
  }

  /** The margin-of-victory multiplier `log(margin + 1) * 2.2 / den`, where
      `den` is the winner's rating edge times 0.001 plus 2.2; a zero
      denominator has no defined value. */
  function Multiplier(ops: RealOps, margin: nat, diff: real, homeWon: bool): (m: Option<real>)
    ensures m.None? <==> (if homeWon then diff else -diff) * 0.001 + 2.2 == 0.0
    ensures m.Some? ==>
      m.value * ((if homeWon then diff else -diff) * 0.001 + 2.2) == 2.2 * ops.ln(margin as real + 1.0)
  {
    var den := (if homeWon then diff else -diff) * 0.001 + 2.2;
    if den == 0.0 then None
    else
      var q := 2.2 / den;
      assert q * den == 2.2;
      Some(ops.ln(margin as real + 1.0) * q)
  }

  /** The state of the fold: ratings by team name and the records emitted so far. */
  datatype Ledger = Ledger(ratings: Ratings, records: seq<EloRecord>)

  /** The rating difference of one played game and its two new ratings. */
  datatype Outcome = Outcome(diff: real, homeRating: real, awayRating: real)

  /** One played game, or `None` when its multiplier is undefined. The home
      team's expected score uses its rating plus the 100-point bonus; each
      team moves by 20 times its surprise, scaled by the multiplier, so the
      away team moves by exactly the opposite amount. */
  function Play(ops: RealOps, ratings: Ratings, f: Fixture): (r: Option<Outcome>)
    requires Lawful(ops)
    ensures var eh := Rating(ratings, f.home.teamName);
      var ea := Rating(ratings, f.away.teamName);
      var diff := (eh + HomeAdvantage) - ea;
      var won := f.home.wl == "W";
      && (r.None? <==> (if won then diff else -diff) * 0.001 + 2.2 == 0.0)
      && (r.Some? ==>
            var mult := Multiplier(ops, Abs(f.home.pts - f.away.pts), diff, won).value;
            var delta := KFactor * ((if won then 1.0 else 0.0) - Expected(ops, diff)) * mult;
            && r.value.diff == diff
            && r.value.homeRating == eh + delta
            && r.value.awayRating == ea - delta)
  {
    var eh := Rating(ratings, f.home.teamName);
    var ea := Rating(ratings, f.away.teamName);
    var diff := (eh + HomeAdvantage) - ea;
    var won := f.home.wl == "W";
    var m := Multiplier(ops, Abs(f.home.pts - f.away.pts), diff, won);
    if m.None? then None
    else Some(Update(eh, ea, diff, Expected(ops, diff), if won then 1.0 else 0.0, m.value))
  }

  /** The two new ratings from the old ones, the expected score `p`, the
      result `res` and the multiplier: each raw update is 20 times the
      surprise, and what is stored is the old rating plus the raw update
      times the multiplier, so the two teams move by opposite amounts. */
  function Update(eh: real, ea: real, diff: real, p: real, res: real, mult: real): (o: Outcome)
    ensures o.diff == diff
    ensures o.homeRating == eh + KFactor * (res - p) * mult
    ensures o.awayRating == ea - KFactor * (res - p) * mult
  {
    var newH := eh + KFactor * (res - p);
    var newA := ea + KFactor * ((1.0 - res) - (1.0 - p));
    var d := KFactor * (res - p);
    assert newA - ea == -d;
    assert (-d) * mult == -(d * mult);
    Outcome(diff, eh + (newH - eh) * mult, ea + (newA - ea) * mult)
  }

  /** One game of the fold. */
  function Step(ops: RealOps, l: Ledger, g: Game): (r: Option<Ledger>)
    requires Lawful(ops)
    ensures Sides(g).None? ==> r == Some(l)
    ensures r.None? <==> Sides(g).Some? && Play(ops, l.ratings, Sides(g).value).None?
    ensures r.Some? && Sides(g).Some? ==>
      var f := Sides(g).value; var o := Play(ops, l.ratings, f).value;
      && Rating(r.value.ratings, f.away.teamName) == o.awayRating
      && (f.home.teamName != f.away.teamName ==> Rating(r.value.ratings, f.home.teamName) == o.homeRating)
    ensures r.Some? && Sides(g).Some? ==>
      var f := Sides(g).value;
      && r.value.records == l.records + [
           EloRecord(g.gameId, f.home.teamId, Rating(l.ratings, f.home.teamName), true),
           EloRecord(g.gameId, f.away.teamId, Rating(l.ratings, f.away.teamName), false)]
      && r.value.ratings.Keys == l.ratings.Keys + {f.home.teamName, f.away.teamName}
  {
    match Sides(g)
    case None => Some(l)
    case Some(f) =>
      match Play(ops, l.ratings, f)
      case None => None
      case Some(o) =>
        var records := l.records + [
          EloRecord(g.gameId, f.home.teamId, Rating(l.ratings, f.home.teamName), true),
          EloRecord(g.gameId, f.away.teamId, Rating(l.ratings, f.away.teamName), false)];
        Some(Ledger(l.ratings[f.home.teamName := o.homeRating][f.away.teamName := o.awayRating], records))
  }

  /** The whole ledger: a left fold of `Step` from empty ratings, undefined
      as soon as one game's multiplier is. */
  function Run(ops: RealOps, games: seq<Game>): (r: Option<Ledger>)
    requires Lawful(ops)
    ensures r.Some? ==> |r.value.records| == 2 * Played(games)
    decreases |games|
  {
    if |games| == 0 then Some(Ledger(map[], []))
    else match Run(ops, games[..|games| - 1])
      case None => None
      case Some(l) => Step(ops, l, games[|games| - 1])
  }

  // ---------------------------------------------------------------------
  // One game

  /** A played game leaves the sum of its two teams' ratings unchanged. */
  lemma StepZeroSum(ops: RealOps, l: Ledger, g: Game)
    requires Lawful(ops)
    requires Sides(g).Some? && Step(ops, l, g).Some?
    requires Sides(g).value.home.teamName != Sides(g).value.away.teamName
    ensures var f := Sides(g).value; var r := Step(ops, l, g).value.ratings;
      Rating(r, f.home.teamName) + Rating(r, f.away.teamName)
        == Rating(l.ratings, f.home.teamName) + Rating(l.ratings, f.away.teamName)
  {
    StepRatings(ops, l, g);
    PlayIsUpdate(ops, l.ratings, Sides(g).value);
  }

  /** Teams that did not play keep their rating. */
  lemma StepFrame(ops: RealOps, l: Ledger, g: Game, team: string)
    requires Lawful(ops)
    requires Step(ops, l, g).Some?
    requires forall i :: 0 <= i < |g.rows| ==> g.rows[i].teamName != team
    ensures Rating(Step(ops, l, g).value.ratings, team) == Rating(l.ratings, team)
    ensures team in Step(ops, l, g).value.ratings <==> team in l.ratings
  {
  }

  /** A game decided by zero points changes no rating: `log(1) = 0` cancels
      the update, and in particular the home bonus is never stored. */
  lemma ZeroMarginKeepsRatings(ops: RealOps, l: Ledger, g: Game)
    requires Lawful(ops)
    requires Sides(g).Some? && Step(ops, l, g).Some?
    requires g.rows[0].pts == g.rows[1].pts
    ensures var f := Sides(g).value; var r := Step(ops, l, g).value.ratings;
      && Rating(r, f.home.teamName) == Rating(l.ratings, f.home.teamName)
      && Rating(r, f.away.teamName) == Rating(l.ratings, f.away.teamName)
  {
    var f := Sides(g).value;
    assert Abs(f.home.pts - f.away.pts) == 0;
  }

  /** With a positive multiplier denominator, the winner never loses
      rating and the loser never gains any. */
  lemma WinnerNeverLoses(ops: RealOps, l: Ledger, g: Game)
    requires Lawful(ops)
    requires Sides(g).Some? && Step(ops, l, g).Some?
    requires var f := Sides(g).value;
      var diff := (Rating(l.ratings, f.home.teamName) + HomeAdvantage) - Rating(l.ratings, f.away.teamName);
      (if f.home.wl == "W" then diff else -diff) * 0.001 + 2.2 > 0.0
    requires Sides(g).value.home.teamName != Sides(g).value.away.teamName
    ensures var f := Sides(g).value; var r := Step(ops, l, g).value.ratings;
      if f.home.wl == "W" then
        Rating(r, f.home.teamName) >= Rating(l.ratings, f.home.teamName)
        && Rating(r, f.away.teamName) <= Rating(l.ratings, f.away.teamName)
      else
        Rating(r, f.home.teamName) <= Rating(l.ratings, f.home.teamName)
        && Rating(r, f.away.teamName) >= Rating(l.ratings, f.away.teamName)
  {
    var f := Sides(g).value;
    StepRatings(ops, l, g);
    PlayFollowsResult(ops, l.ratings, f);
  }

  /** After a played game between two different teams, their ratings are
      the ones `Play` computed. */
  lemma StepRatings(ops: RealOps, l: Ledger, g: Game)
    requires Lawful(ops)
    requires Sides(g).Some? && Step(ops, l, g).Some?
    requires Sides(g).value.home.teamName != Sides(g).value.away.teamName
    ensures var f := Sides(g).value; var r := Step(ops, l, g).value.ratings;
      && Play(ops, l.ratings, f).Some?
      && Rating(r, f.home.teamName) == Play(ops, l.ratings, f).value.homeRating
      && Rating(r, f.away.teamName) == Play(ops, l.ratings, f).value.awayRating
  {
  }

  /** The rating update of one game moves the home team up and the away team
      down when the home team won, and the other way round when it lost. */
  lemma PlayFollowsResult(ops: RealOps, ratings: Ratings, f: Fixture)
    requires Lawful(ops) && Play(ops, ratings, f).Some?
    requires var diff := (Rating(ratings, f.home.teamName) + HomeAdvantage) - Rating(ratings, f.away.teamName);
      (if f.home.wl == "W" then diff else -diff) * 0.001 + 2.2 > 0.0
    ensures var o := Play(ops, ratings, f).value;
      if f.home.wl == "W" then
        o.homeRating >= Rating(ratings, f.home.teamName) && o.awayRating <= Rating(ratings, f.away.teamName)
      else
        o.homeRating <= Rating(ratings, f.home.teamName) && o.awayRating >= Rating(ratings, f.away.teamName)
  {
    var eh := Rating(ratings, f.home.teamName);
    var ea := Rating(ratings, f.away.teamName);
    var diff := (eh + HomeAdvantage) - ea;
    var won := f.home.wl == "W";
    var margin := Abs(f.home.pts - f.away.pts);
    var p := Expected(ops, diff);
    var mult := Multiplier(ops, margin, diff, won).value;
    PlayIsUpdate(ops, ratings, f);
    MultiplierNonNegative(ops, margin, diff, won);
    UpdateFollowsResult(eh, ea, diff, p, won, mult);
  }

  /** A played game's outcome is `Update` applied to the two old ratings,
      the bonus-adjusted difference, its expected score, the result and the
      multiplier. */
  lemma PlayIsUpdate(ops: RealOps, ratings: Ratings, f: Fixture)
    requires Lawful(ops) && Play(ops, ratings, f).Some?
    ensures var eh := Rating(ratings, f.home.teamName);
      var ea := Rating(ratings, f.away.teamName);
      var diff := (eh + HomeAdvantage) - ea;
      var won := f.home.wl == "W";
      Play(ops, ratings, f).value
        == Update(eh, ea, diff, Expected(ops, diff), if won then 1.0 else 0.0, Multiplier(ops, Abs(f.home.pts - f.away.pts), diff, won).value)
  {
  }

  /** With a probability as expected score and a non-negative multiplier,
      the update moves the winner up and the loser down. */
  lemma UpdateFollowsResult(eh: real, ea: real, diff: real, p: real, won: bool, mult: real)
    requires 0.0 < p <= 1.0 && mult >= 0.0
    ensures var o := Update(eh, ea, diff, p, if won then 1.0 else 0.0, mult);
      if won then o.homeRating >= eh && o.awayRating <= ea
      else o.homeRating <= eh && o.awayRating >= ea
  {
    ProductSign(KFactor * ((if won then 1.0 else 0.0) - p), mult);
  }

  /** With a positive denominator the multiplier is defined and non-negative. */
  lemma MultiplierNonNegative(ops: RealOps, margin: nat, diff: real, won: bool)
    requires Lawful(ops) && (if won then diff else -diff) * 0.001 + 2.2 > 0.0
    ensures Multiplier(ops, margin, diff, won).Some? && Multiplier(ops, margin, diff, won).value >= 0.0
  {
    assert ops.ln(margin as real + 1.0) >= 0.0;
    NonNegativeQuotient(Multiplier(ops, margin, diff, won).value,
      (if won then diff else -diff) * 0.001 + 2.2, 2.2 * ops.ln(margin as real + 1.0));
  }

  lemma NonNegativeQuotient(m: real, den: real, x: real)
    requires den > 0.0 && x >= 0.0 && m * den == x
    ensures m >= 0.0
  {
    assert m == x / den;
  }

  lemma ProductSign(a: real, b: real)
    requires b >= 0.0
    ensures a >= 0.0 ==> a * b >= 0.0
    ensures a <= 0.0 ==> a * b <= 0.0
  {
  }

  // ---------------------------------------------------------------------
  // The whole ledger

  /** The number of games that are played (exactly two rows). */
  function Played(games: seq<Game>): (n: nat)
    ensures n <= |games|
    decreases |games|
  {
    if |games| == 0 then 0
    else Played(games[..|games| - 1]) + (if |games[|games| - 1].rows| == 2 then 1 else 0)
  }

  /** Every played game emits exactly one home record followed by one away
      record; skipped games emit nothing. */
  lemma {:induction false} RecordsPerGame(ops: RealOps, games: seq<Game>)
    requires Lawful(ops) && Run(ops, games).Some?
    ensures var rs := Run(ops, games).value.records;
      forall i :: 0 <= i < |rs| ==> (rs[i].isHome <==> i % 2 == 0)
    decreases |games|
  {
    if |games| > 0 {
      var init := games[..|games| - 1];
      RecordsPerGame(ops, init);
      var l := Run(ops, init).value;
      var g := games[|games| - 1];
      var rs := Step(ops, l, g).value.records;
      if Sides(g).Some? {
        var f := Sides(g).value;
        var home := EloRecord(g.gameId, f.home.teamId, Rating(l.ratings, f.home.teamName), true);
        var away := EloRecord(g.gameId, f.away.teamId, Rating(l.ratings, f.away.teamName), false);
        assert rs == l.records + [home, away];
        AlternationKept(l.records, home, away);
      }
    }
  }

  /** Appending a home record and an away record to an even-length list
      that alternates home, away keeps it alternating. */
  lemma AlternationKept(rs: seq<EloRecord>, home: EloRecord, away: EloRecord)
    requires |rs| % 2 == 0 && home.isHome && !away.isHome
    requires forall i :: 0 <= i < |rs| ==> (rs[i].isHome <==> i % 2 == 0)
    ensures var all := rs + [home, away];
      forall i :: 0 <= i < |all| ==> (all[i].isHome <==> i % 2 == 0)
  {
    var all := rs + [home, away];
    forall i | 0 <= i < |all|
      ensures all[i].isHome <==> i % 2 == 0
    {
      if i < |rs| {
        assert all[i] == rs[i];
      } else if i == |rs| {
        assert all[i] == home;
      } else {
        assert all[i] == away;
      }
    }
  }

  /** Processing more games only appends records: the records of a prefix
      of the games are a prefix of the records of all of them. */
  lemma {:induction false} RecordsArePrefix(ops: RealOps, games: seq<Game>, n: nat)
    requires Lawful(ops) && n <= |games| && Run(ops, games).Some?
    ensures Run(ops, games[..n]).Some?
    ensures var small := Run(ops, games[..n]).value.records;
      var all := Run(ops, games).value.records;
      |small| <= |all| && all[..|small|] == small
    decreases |games|
  {
    if n < |games| {
      var init := games[..|games| - 1];
      assert init[..n] == games[..n];
      RecordsArePrefix(ops, init, n);
    } else {
      assert games[..n] == games;
    }
  }

  /** A team that appears in no game is never stored and keeps the start rating. */
  lemma {:induction false} AbsentTeamKeepsStart(ops: RealOps, games: seq<Game>, team: string)
    requires Lawful(ops) && Run(ops, games).Some?
    requires forall i, j :: 0 <= i < |games| && 0 <= j < |games[i].rows| ==> games[i].rows[j].teamName != team
    ensures team !in Run(ops, games).value.ratings
    ensures Rating(Run(ops, games).value.ratings, team) == 1500.0
    decreases |games|
  {
    if |games| > 0 {
      var init := games[..|games| - 1];
      AbsentTeamKeepsStart(ops, init, team);
      StepFrame(ops, Run(ops, init).value, games[|games| - 1], team);
    }
  }

  // ---------------------------------------------------------------------
  // Conservation over a league

  predicate Distinct(teams: seq<string>) {
    forall i, j :: 0 <= i < j < |teams| ==> teams[i] != teams[j]
  }

  /** The sum of the ratings of a list of teams. */
  function Total(ratings: Ratings, teams: seq<string>): real
    decreases |teams|
  {
    if |teams| == 0 then 0.0 else Rating(ratings, teams[0]) + Total(ratings, teams[1..])
  }

  lemma {:induction false} TotalUpdate(ratings: Ratings, teams: seq<string>, team: string, v: real)
    requires Distinct(teams)
    ensures Total(ratings[team := v], teams)
      == Total(ratings, teams) + (if team in teams then v - Rating(ratings, team) else 0.0)
    decreases |teams|
  {
    if |teams| > 0 {
      TotalUpdate(ratings, teams[1..], team, v);
      if team == teams[0] {
        assert team !in teams[1..];
      }
    }
  }

  lemma {:induction false} TotalOfEmpty(teams: seq<string>)
    ensures Total(map[], teams) == 1500.0 * |teams| as real
    decreases |teams|
  {
    if |teams| > 0 {
      TotalOfEmpty(teams[1..]);
    }
  }

  /** A played game between two different teams of a league keeps the
      league's rating total. */
  lemma StepKeepsTotal(ops: RealOps, l: Ledger, g: Game, teams: seq<string>)
    requires Lawful(ops) && Distinct(teams)
    requires Step(ops, l, g).Some?
    requires Sides(g).Some? ==> var f := Sides(g).value;
      f.home.teamName != f.away.teamName && f.home.teamName in teams && f.away.teamName in teams
    ensures Total(Step(ops, l, g).value.ratings, teams) == Total(l.ratings, teams)
  {
    if Sides(g).Some? {
      var f := Sides(g).value;
      var o := Play(ops, l.ratings, f).value;
      var mid := l.ratings[f.home.teamName := o.homeRating];
      TotalUpdate(l.ratings, teams, f.home.teamName, o.homeRating);
      TotalUpdate(mid, teams, f.away.teamName, o.awayRating);
      assert Rating(mid, f.away.teamName) == Rating(l.ratings, f.away.teamName);
      StepZeroSum(ops, l, g);
    }
  }

  /** Over a league whose every played game opposes two different member
      teams, the average rating stays at 1500 whatever the results. */
  lemma {:induction false} LeagueAverageStays(ops: RealOps, games: seq<Game>, teams: seq<string>)
    requires Lawful(ops) && Distinct(teams) && Run(ops, games).Some?
    requires forall i :: 0 <= i < |games| && Sides(games[i]).Some? ==>
      var f := Sides(games[i]).value;
      f.home.teamName != f.away.teamName && f.home.teamName in teams && f.away.teamName in teams
    ensures Total(Run(ops, games).value.ratings, teams) == 1500.0 * |teams| as real
    decreases |games|
  {
    if |games| == 0 {
      TotalOfEmpty(teams);
    } else {
      var init := games[..|games| - 1];
      LeagueAverageStays(ops, init, teams);
      StepKeepsTotal(ops, Run(ops, init).value, games[|games| - 1], teams);
    }
  }
}
