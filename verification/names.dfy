/** Player-name normalisers and the column plumbing around them in the two
    data updaters: "Novak Djokovic" becomes "Djokovic N.". The automatic
    updater keeps only the last word as surname; the TML updater keeps every
    word after the first. */
module Names {
  import opened Optional
  import opened Text

  /** A data-frame cell: pandas NaN, a string, or a number. */
  datatype Cell = Missing | Str(s: string) | Num(x: real)

  /** The initial of a first name followed by a full stop: "N." */
  function Initial(first: string): (r: string)
    requires |first| > 0
    ensures !IsSpace(first[0]) ==> IsWord(r)
    ensures |r| == 2 && r[0] == first[0] && r[1] == '.'
  {
    assert !IsSpace('.');
    [first[0], '.']
  }

  /** Every word after the first, then the initial of the first word. */
  lemma ReorderedWords(parts: seq<string>, keep: seq<string>)
    requires |parts| >= 2 && AllWords(parts)
    requires |keep| > 0 && forall i :: 0 <= i < |keep| ==> keep[i] in parts
    ensures Words(Join(keep + [Initial(parts[0])])) == keep + [Initial(parts[0])]
    ensures Join(keep + [Initial(parts[0])]) == Join(keep) + " " + Initial(parts[0])
  {
    assert IsWord(Initial(parts[0]));
    assert AllWords(keep + [Initial(parts[0])]);
    WordsOfJoin(keep + [Initial(parts[0])]);
    JoinSnoc(keep, Initial(parts[0]));
  }

  /** `limpiar_nombre` of the automatic updater. A missing name becomes
      "Unknown"; a name of two or more words becomes its last word, a space
      and the first word's initial (middle words are dropped); anything
      shorter is returned stripped. The result of a long name is two
      single-spaced tokens ending in ".". */
  function CleanName(name: Option<string>): (r: string)
    ensures name.None? ==> r == "Unknown"
    ensures name.Some? && |Words(name.value)| < 2 ==> r == Strip(name.value)
    ensures name.Some? && |Words(name.value)| >= 2 ==>
      var ws := Words(name.value);
      && Words(r) == [ws[|ws| - 1], Initial(ws[0])]
      && r == Join(Words(r))
      && r[|r| - 1] == '.'
  {
    match name
    case None => "Unknown"
    case Some(s) =>
      var t := Strip(s);
      var parts := Words(t);
      WordsOfStrip(s);
      WordsAreWords(t);
      if |parts| >= 2 then
        ReorderedWords(parts, [parts[|parts| - 1]]);
        parts[|parts| - 1] + " " + Initial(parts[0])
      else t
  }

  /** `formatear_nombre` of the TML updater. Non-string cells come back
      unchanged; a string of two or more words becomes every word after the
      first, single-spaced, then a space and the first word's initial;
      anything shorter is returned stripped. */
  function FormatName(c: Cell): (r: Cell)
    ensures !c.Str? ==> r == c
    ensures c.Str? ==> r.Str?
    ensures c.Str? && |Words(c.s)| < 2 ==> r.s == Strip(c.s)
    ensures c.Str? && |Words(c.s)| >= 2 ==>
      var ws := Words(c.s);
      && Words(r.s) == ws[1..] + [Initial(ws[0])]
      && r.s == Join(Words(r.s))
  {
    match c
    case Str(s) =>
      var t := Strip(s);
      var parts := Words(t);
      WordsOfStrip(s);
      WordsAreWords(t);
      if |parts| < 2 then Str(t)
      else
        ReorderedWords(parts, parts[1..]);
        Str(Join(parts[1..]) + " " + Initial(parts[0]))
    case _ => c
  }

  /** On two-word names the two normalisers agree. */
  lemma {:induction false} NormalisersAgreeOnTwoWords(s: string)
    requires |Words(s)| == 2
    ensures FormatName(Str(s)) == Str(CleanName(Some(s)))
  {
    var ws := Words(s);
    WordsOfStrip(s);
    assert ws[1..] == [ws[1]];
  }

  /** On names of three or more words they differ: the TML normaliser keeps
      every trailing word, the automatic one only the last. */
  lemma NormalisersDifferOnLongNames(s: string)
    requires |Words(s)| >= 3
    ensures |Words(FormatName(Str(s)).s)| == |Words(s)|
    ensures |Words(CleanName(Some(s)))| == 2
    ensures FormatName(Str(s)) != Str(CleanName(Some(s)))
  {
  }

  // ---------------------------------------------------------------------
  // Column plumbing of the automatic updater

  /** An ordered column mapping (a Python dict literal: source -> target). */
  type ColumnMap = seq<(string, string)>

  /** The mapping the automatic updater applies to each downloaded season. */
  const AutoColumnMap: ColumnMap := [
    ("tourney_date", "Date"), ("surface", "Surface"),
    ("winner_name", "Player_1"), ("loser_name", "Player_2"),
    ("winner_rank", "Rank_1"), ("loser_rank", "Rank_2"),
    ("score", "Score"), ("best_of", "Best of"),
    ("w_ace", "P1_Ace"), ("w_df", "P1_DF"), ("w_svpt", "P1_SvPt"),
    ("w_1stIn", "P1_1stIn"), ("w_1stWon", "P1_1stWon"), ("w_2ndWon", "P1_2ndWon"),
    ("w_svgms", "P1_SvGms"), ("w_bpSaved", "P1_BpSaved"), ("w_bpFaced", "P1_BpFaced"),
    ("l_ace", "P2_Ace"), ("l_df", "P2_DF"), ("l_svpt", "P2_SvPt"),
    ("l_1stIn", "P2_1stIn"), ("l_1stWon", "P2_1stWon"), ("l_2ndWon", "P2_2ndWon"),
    ("l_svgms", "P2_SvGms"), ("l_bpSaved", "P2_BpSaved"), ("l_bpFaced", "P2_BpFaced")
  ]

  /** The target of `col` under the mapping, or `col` itself when unmapped. */
  function Rename(m: ColumnMap, col: string): (r: string)
    ensures (exists i :: 0 <= i < |m| && m[i].0 == col) || r == col
    ensures r == col || exists i :: 0 <= i < |m| && m[i].1 == r
  {
    if |m| == 0 then col
    else if m[0].0 == col then m[0].1
    else Rename(m[1..], col)
  }

  function RenameAll(m: ColumnMap, cols: seq<string>): (r: seq<string>)
    ensures |r| == |cols|
    ensures forall i :: 0 <= i < |cols| ==> r[i] == Rename(m, cols[i])
  {
    seq(|cols|, i requires 0 <= i < |cols| => Rename(m, cols[i]))
  }

  /** The mapping's targets, in mapping order. */
  function Targets(m: ColumnMap): (r: seq<string>)
    ensures |r| == |m|
    ensures forall i :: 0 <= i < |m| ==> r[i] == m[i].1
  {
    seq(|m|, i requires 0 <= i < |m| => m[i].1)
  }

  /** `xs` is `ys` with some elements left out, order kept. */
  predicate IsSubsequence(xs: seq<string>, ys: seq<string>)
    decreases |ys|
  {
    if |xs| == 0 then true
    else if |ys| == 0 then false
    else if xs[0] == ys[0] then IsSubsequence(xs[1..], ys[1..])
    else IsSubsequence(xs, ys[1..])
  }

  /** The targets that occur among `present`, in mapping order. */
  function PresentTargets(targets: seq<string>, present: seq<string>): (r: seq<string>)
    ensures forall c :: c in r <==> c in targets && c in present
    ensures IsSubsequence(r, targets)
    decreases |targets|
  {
    if |targets| == 0 then []
    else if targets[0] in present then [targets[0]] + PresentTargets(targets[1..], present)
    else PresentTargets(targets[1..], present)
  }

  /** One season of the automatic updater, at the level of its columns:
      rename the mapped columns that exist, then keep the mapped targets that
      are present. A season whose renamed columns lack `Player_1` or
      `Player_2` fails on the name clean-up and contributes nothing. */
  function KeptColumns(cols: seq<string>): (r: Option<seq<string>>)
    ensures r.Some? <==> "Player_1" in RenameAll(AutoColumnMap, cols) && "Player_2" in RenameAll(AutoColumnMap, cols)
    ensures r.Some? ==> forall c :: c in r.value <==> c in Targets(AutoColumnMap) && c in RenameAll(AutoColumnMap, cols)
    ensures r.Some? ==> IsSubsequence(r.value, Targets(AutoColumnMap))
  {
    var renamed := RenameAll(AutoColumnMap, cols);
    if "Player_1" !in renamed || "Player_2" !in renamed then None
    else Some(PresentTargets(Targets(AutoColumnMap), renamed))
  }

  /** A column that is not a target of the mapping never survives, whether it
      was downloaded unmapped or renamed away to its target. */
  lemma UnmappedColumnsDropped(cols: seq<string>, c: string)
    requires KeptColumns(cols).Some?
    requires c !in Targets(AutoColumnMap)
    ensures c !in KeptColumns(cols).value
  {
  }

  // ---------------------------------------------------------------------
  // Column plumbing of the TML updater

  /** One row of a data frame: named cells in column order (names may repeat,
      as in pandas). */
  type Record = seq<(string, Cell)>

  /** `row[name]`: the first cell with that name. */
  function Get(rec: Record, name: string): (r: Option<Cell>)
    ensures r.None? <==> forall i :: 0 <= i < |rec| ==> rec[i].0 != name
    ensures r.Some? ==> exists i :: 0 <= i < |rec| && rec[i] == (name, r.value)
  {
    if |rec| == 0 then None
    else if rec[0].0 == name then Some(rec[0].1)
    else Get(rec[1..], name)
  }

  /** `row[name] = cell`: overwrite the first cell with that name, or append
      a new column at the end. */
  function Put(rec: Record, name: string, cell: Cell): (r: Record)
    ensures Get(r, name) == Some(cell)
    ensures forall n :: n != name ==> Get(r, n) == Get(rec, n)
    decreases |rec|
  {
    if |rec| == 0 then [(name, cell)]
    else if rec[0].0 == name then [(name, cell)] + rec[1..]
    else [rec[0]] + Put(rec[1..], name, cell)
  }

  function RenameRecord(m: ColumnMap, rec: Record): (r: Record)
    ensures |r| == |rec|
    ensures forall i :: 0 <= i < |rec| ==> r[i] == (Rename(m, rec[i].0), rec[i].1)
  {
    seq(|rec|, i requires 0 <= i < |rec| => (Rename(m, rec[i].0), rec[i].1))
  }

  /** The mapping the TML updater applies to the merged table. */
  const TmlColumnMap: ColumnMap := [
    ("tourney_date", "Date"), ("surface", "Surface"),
    ("winner_name", "Player_1"), ("loser_name", "Player_2"),
    ("winner_rank", "Rank_1"), ("loser_rank", "Rank_2"),
    ("score", "Score"), ("best_of", "Best of"),
    ("tourney_level", "Tourney_Level")
  ]

  /** One row through the TML updater: rename the mapped columns that exist,
      copy `Player_1` into `Winner`, format both player names and copy the
      formatted `Player_1` into `Winner` again. A missing `Player_1`, `Date`
      or `Player_2` column aborts the updater (`None`). */
  function StandardiseTml(rec: Record): (r: Option<Record>)
    ensures r.Some? <==>
      var renamed := RenameRecord(TmlColumnMap, rec);
      Get(renamed, "Player_1").Some? && Get(renamed, "Date").Some? && Get(renamed, "Player_2").Some?
    ensures r.Some? ==>
      var renamed := RenameRecord(TmlColumnMap, rec);
      && Get(r.value, "Winner") == Some(FormatName(Get(renamed, "Player_1").value))
      && Get(r.value, "Player_1") == Get(r.value, "Winner")
      && Get(r.value, "Player_2") == Some(FormatName(Get(renamed, "Player_2").value))
      && forall n :: n != "Winner" && n != "Player_1" && n != "Player_2" ==> Get(r.value, n) == Get(renamed, n)
  {
    WinnerAndNames(RenameRecord(TmlColumnMap, rec))
  }

  /** The steps after the renaming, on the renamed row. */
  function WinnerAndNames(renamed: Record): (r: Option<Record>)
    ensures r.Some? <==>
      Get(renamed, "Player_1").Some? && Get(renamed, "Date").Some? && Get(renamed, "Player_2").Some?
    ensures r.Some? ==>
      && Get(r.value, "Winner") == Some(FormatName(Get(renamed, "Player_1").value))
      && Get(r.value, "Player_1") == Get(r.value, "Winner")
      && Get(r.value, "Player_2") == Some(FormatName(Get(renamed, "Player_2").value))
      && forall n :: n != "Winner" && n != "Player_1" && n != "Player_2" ==> Get(r.value, n) == Get(renamed, n)
  {
    // The columns are looked up in the order the updater reads them; the
    // `Winner` write before the `Date` lookup and the `Player_1` write
    // before the `Player_2` lookup touch neither column.
    match Get(renamed, "Player_1")
    case None => None
    case Some(p1) =>
      if Get(renamed, "Date").None? then None
      else
        match Get(renamed, "Player_2")
        case None => None
        case Some(p2) => Some(FormatPlayers(renamed, p1, p2))
  }

  /** The three writes after the `Winner` copy, and what each column holds
      afterwards. */
  function FormatPlayers(renamed: Record, p1: Cell, p2: Cell): (r: Record)
    ensures Get(r, "Winner") == Some(FormatName(p1))
    ensures Get(r, "Player_1") == Some(FormatName(p1))
    ensures Get(r, "Player_2") == Some(FormatName(p2))
    ensures forall n :: n != "Winner" && n != "Player_1" && n != "Player_2" ==> Get(r, n) == Get(renamed, n)
  {
    TmlColumnsDistinct();
    var withWinner := Put(renamed, "Winner", p1);
    var r1 := Put(withWinner, "Player_1", FormatName(p1));
    var r2 := Put(r1, "Player_2", FormatName(p2));
    Put(r2, "Winner", FormatName(p1))
  }

  lemma TmlColumnsDistinct()
    ensures "Winner" != "Date" && "Winner" != "Player_1" && "Winner" != "Player_2"
    ensures "Player_1" != "Player_2" && "Player_1" != "Date" && "Player_2" != "Date"
  {
    assert "Winner"[0] != "Date"[0] && "Winner"[0] != "Player_1"[0] && "Winner"[0] != "Player_2"[0];
    assert "Player_1"[7] != "Player_2"[7] && "Player_1"[0] != "Date"[0] && "Player_2"[0] != "Date"[0];
  }
}
