/** `calcular_juegos`: the total number of games in a tennis score string
    such as "6-4 7-6(3)", read as the sum of every `digits-digits` pair that
    a leftmost, non-overlapping scan for the pattern `(\d+)-(\d+)` finds. */
module Score {
  import opened Optional
  import opened Text

  predicate IsDigit(c: char) {
    '0' <= c <= '9'
  }

  predicate AllDigits(s: string) {
    forall i :: 0 <= i < |s| ==> IsDigit(s[i])
  }

  function DigitValue(c: char): nat {
    if IsDigit(c) then c as int - '0' as int else 0
  }

  /** Length of the leading run of digits (what a greedy `\d+` consumes). */
  function DigitRun(s: string): (n: nat)
    ensures n <= |s|
    ensures n < |s| ==> !IsDigit(s[n])
    decreases |s|
  {
    if |s| > 0 && IsDigit(s[0]) then 1 + DigitRun(s[1..]) else 0
  }

  /** Python's `int(d)` on a string of decimal digits. */
  function Decimal(d: string): nat
    decreases |d|
  {
    if |d| == 0 then 0 else 10 * Decimal(d[..|d| - 1]) + DigitValue(d[|d| - 1])
  }

  /** `re.findall(r'(\d+)-(\d+)', s)` with both groups converted by `int`.
      At each position the first run of digits is taken whole; a match needs
      a '-' right after it and at least one digit after that. A failed
      attempt moves one character on; a match resumes after itself. */
  function SetPairs(s: string): seq<(nat, nat)>
    decreases |s|
  {
    if |s| == 0 then []
    else
      var a := DigitRun(s);
      if 0 < a < |s| && s[a] == '-' && DigitRun(s[a + 1..]) > 0 then
        var b := DigitRun(s[a + 1..]);
        [(Decimal(s[..a]), Decimal(s[a + 1..a + 1 + b]))] + SetPairs(s[a + 1 + b..])
      else SetPairs(s[1..])
  }

  function SumGames(pairs: seq<(nat, nat)>): nat
    decreases |pairs|
  {
    if |pairs| == 0 then 0 else pairs[0].0 + pairs[0].1 + SumGames(pairs[1..])
  }

  /** `calcular_juegos`. A cell that is not a string (NaN) gives missing; a
      retirement ("RET") or walk-over ("W/O") gives missing before any
      parsing; a string without any `digits-digits` pair gives missing;
      otherwise the games of every pair are added up. */
  function TotalGames(score: Option<string>): (r: Option<nat>)
    ensures score.None? ==> r.None?
    ensures score.Some? && (Contains(score.value, "RET") || Contains(score.value, "W/O")) ==> r.None?
    ensures score.Some? && !Contains(score.value, "RET") && !Contains(score.value, "W/O") ==>
      (r.Some? <==> |SetPairs(score.value)| > 0)
    ensures r.Some? ==> r.value == SumGames(SetPairs(score.value))
  {
    match score
    case None => None
    case Some(s) =>
      if Contains(s, "RET") || Contains(s, "W/O") then None
      else
        var pairs := SetPairs(s);
        if |pairs| == 0 then None else Some(SumGames(pairs))
  }

  // ---------------------------------------------------------------------
  // Rendering a score, and reading it back

  /** One set as the score column writes it: "7-6(3)" carries the loser's
      tiebreak points in brackets. */
  datatype SetScore = SetScore(games1: nat, games2: nat, tiebreak: Option<nat>)

  function DigitChar(d: nat): char
    requires d < 10
  {
    ('0' as int + d) as char
  }

  /** Decimal digits of `n`, without leading zeros. */
  function NatToString(n: nat): (s: string)
    ensures |s| > 0 && AllDigits(s)
    decreases n
  {
    if n < 10 then [DigitChar(n)] else NatToString(n / 10) + [DigitChar(n % 10)]
  }

  function RenderSet(st: SetScore): string {
    NatToString(st.games1) + "-" + NatToString(st.games2)
      + match st.tiebreak
        case None => ""
        case Some(t) => "(" + NatToString(t) + ")"
  }

  /** A whole score: the sets separated by single spaces. */
  function RenderScore(sets: seq<SetScore>): string
    decreases |sets|
  {
    if |sets| == 0 then ""
    else if |sets| == 1 then RenderSet(sets[0])
    else RenderSet(sets[0]) + " " + RenderScore(sets[1..])
  }

  function Games(sets: seq<SetScore>): seq<(nat, nat)>
    decreases |sets|
  {
    if |sets| == 0 then [] else [(sets[0].games1, sets[0].games2)] + Games(sets[1..])
  }

  lemma {:induction false} DecimalOfNatToString(n: nat)
    ensures Decimal(NatToString(n)) == n
    decreases n
  {
    if n >= 10 {
      var s := NatToString(n);
      assert s[..|s| - 1] == NatToString(n / 10);
      DecimalOfNatToString(n / 10);
    }
  }

  lemma {:induction false} DigitRunOf(d: string, tail: string)
    requires AllDigits(d)
    requires |tail| == 0 || !IsDigit(tail[0])
    ensures DigitRun(d + tail) == |d|
    decreases |d|
  {
    if |d| == 0 {
      assert d + tail == tail;
    } else {
      assert (d + tail)[1..] == d[1..] + tail;
      DigitRunOf(d[1..], tail);
    }
  }

  /** Digits that are not followed by '-' (tiebreak points) add no pair. */
  lemma {:induction false} PairsSkipDigits(d: string, tail: string)
    requires AllDigits(d)
    requires |tail| > 0 && !IsDigit(tail[0]) && tail[0] != '-'
    ensures SetPairs(d + tail) == SetPairs(tail[1..])
    decreases |d|
  {
    if |d| == 0 {
      assert d + tail == tail;
    } else {
      DigitRunOf(d, tail);
      assert (d + tail)[|d|] == tail[0];
      assert (d + tail)[1..] == d[1..] + tail;
      PairsSkipDigits(d[1..], tail);
    }
  }

  /** One rendered "g1-g2" contributes exactly the pair (g1, g2). */
  lemma PairsOfSet(g1: nat, g2: nat, tail: string)
    requires |tail| == 0 || !IsDigit(tail[0])
    ensures SetPairs(NatToString(g1) + "-" + NatToString(g2) + tail) == [(g1, g2)] + SetPairs(tail)
  {
    var d1 := NatToString(g1);
    var d2 := NatToString(g2);
    var s := d1 + "-" + d2 + tail;
    SetSplit(d1, d2, tail);
    DigitRunOf(d1, "-" + d2 + tail);
    DigitRunOf(d2, tail);
    PairsAtMatch(s, |d1|, |d2|);
    DecimalOfNatToString(g1);
    DecimalOfNatToString(g2);
  }

  /** How "d1-d2" followed by a tail splits at its hyphen. */
  lemma SetSplit(d1: string, d2: string, tail: string)
    ensures var s := d1 + "-" + d2 + tail; var a := |d1|;
      && s == d1 + ("-" + d2 + tail)
      && s[a] == '-' && s[a + 1..] == d2 + tail
      && s[..a] == d1 && s[a + 1..a + 1 + |d2|] == d2 && s[a + 1 + |d2|..] == tail
  {
  }

  /** The scan at a position where `digits-digits` matches. */
  lemma {:induction false} PairsAtMatch(s: string, a: nat, b: nat)
    requires 0 < a < |s| && DigitRun(s) == a && s[a] == '-'
    requires DigitRun(s[a + 1..]) == b && b > 0
    ensures SetPairs(s) == [(Decimal(s[..a]), Decimal(s[a + 1..a + 1 + b]))] + SetPairs(s[a + 1 + b..])
  {
  }

  /** Tiebreak points "(t)" followed by a non-digit add no pair. */
  lemma PairsSkipTiebreak(t: nat, tail: string)
    ensures SetPairs("(" + NatToString(t) + ")" + tail) == SetPairs(tail)
  {
    var d := NatToString(t);
    var tb := "(" + d + ")" + tail;
    assert DigitRun(tb) == 0;
    assert tb[1..] == d + (")" + tail);
    PairsSkipDigits(d, ")" + tail);
    assert (")" + tail)[1..] == tail;
  }

  lemma {:induction false} PairsOfRenderedSet(st: SetScore, tail: string)
    requires |tail| == 0 || !IsDigit(tail[0])
    ensures SetPairs(RenderSet(st) + tail) == [(st.games1, st.games2)] + SetPairs(tail)
  {
    var head := NatToString(st.games1) + "-" + NatToString(st.games2);
    if st.tiebreak.None? {
      assert RenderSet(st) + tail == head + tail;
      PairsOfSet(st.games1, st.games2, tail);
    } else {
      var tb := "(" + NatToString(st.tiebreak.value) + ")" + tail;
      assert RenderSet(st) + tail == head + tb;
      PairsOfSet(st.games1, st.games2, tb);
      PairsSkipTiebreak(st.tiebreak.value, tail);
    }
  }

  /** Reading back a rendered score yields exactly its sets' game pairs:
      tiebreak points in brackets add nothing. */
  lemma {:induction false} PairsOfRenderedScore(sets: seq<SetScore>)
    ensures SetPairs(RenderScore(sets)) == Games(sets)
    decreases |sets|
  {
    if |sets| == 1 {
      assert RenderSet(sets[0]) + "" == RenderSet(sets[0]);
      PairsOfRenderedSet(sets[0], "");
    } else if |sets| > 1 {
      var rest := RenderScore(sets[1..]);
      assert RenderScore(sets) == RenderSet(sets[0]) + (" " + rest);
      PairsOfRenderedSet(sets[0], " " + rest);
      assert (" " + rest)[1..] == rest;
      PairsOfRenderedScore(sets[1..]);
    }
  }

  /** Characters a rendered score is made of. */
  predicate ScoreChar(c: char) {
    IsDigit(c) || c == '-' || c == '(' || c == ')' || c == ' '
  }

  predicate AllScoreChars(s: string) {
    forall i :: 0 <= i < |s| ==> ScoreChar(s[i])
  }

  lemma {:induction false} RenderedScoreChars(sets: seq<SetScore>)
    ensures AllScoreChars(RenderScore(sets))
    decreases |sets|
  {
    if |sets| > 0 {
      var st := sets[0];
      assert AllScoreChars(RenderSet(st)) by {
        var d1 := NatToString(st.games1);
        var d2 := NatToString(st.games2);
        match st.tiebreak
        case None =>
          assert RenderSet(st) == d1 + "-" + d2;
        case Some(t) =>
          var d3 := NatToString(t);
          assert RenderSet(st) == d1 + "-" + d2 + "(" + d3 + ")";
      }
      if |sets| > 1 {
        RenderedScoreChars(sets[1..]);
      }
    }
  }

  function SumSets(sets: seq<SetScore>): nat
    decreases |sets|
  {
    if |sets| == 0 then 0 else sets[0].games1 + sets[0].games2 + SumSets(sets[1..])
  }

  lemma {:induction false} SumGamesOfSets(sets: seq<SetScore>)
    ensures SumGames(Games(sets)) == SumSets(sets)
    decreases |sets|
  {
    if |sets| > 0 {
      assert Games(sets)[1..] == Games(sets[1..]);
      SumGamesOfSets(sets[1..]);
    }
  }

  /** A score written set by set reads back as the total of its games:
      the parser inverts the score format. */
  lemma TotalGamesOfRenderedScore(sets: seq<SetScore>)
    requires |sets| > 0
    ensures TotalGames(Some(RenderScore(sets))) == Some(SumSets(sets))
  {
    var s := RenderScore(sets);
    RenderedScoreChars(sets);
    NotContainsWithoutHead(s, "RET");
    NotContainsWithoutHead(s, "W/O");
    PairsOfRenderedScore(sets);
    SumGamesOfSets(sets);
  }

  /** The worked example: a tiebreak set counts 7 + 6 and its "(3)" adds nothing. */
  lemma TiebreakExample(score: string)
    requires score == "6-4 7-6(3)"
    ensures TotalGames(Some(score)) == Some(23)
  {
    var sets := [SetScore(6, 4, None), SetScore(7, 6, Some(3))];
    assert NatToString(6) == "6" && NatToString(4) == "4";
    assert NatToString(7) == "7" && NatToString(3) == "3";
    assert RenderSet(sets[0]) == "6-4";
    assert RenderSet(sets[1]) == "7-6(3)";
    assert sets[1..] == [sets[1]];
    assert RenderScore(sets) == "6-4" + " " + "7-6(3)";
    assert SumSets(sets[1..]) == 13;
    assert SumSets(sets) == 23;
    assert RenderScore(sets) == score;
    TotalGamesOfRenderedScore(sets);
  }
}
