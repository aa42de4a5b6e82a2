/** Python string primitives used by the name normalisers and the score
    parser: `str.strip()`, `str.split()`, `" ".join(...)`, `in` on strings
    and `str.startswith`. */
module Text {

  /** Python's `str.isspace()` for a single code point: the characters that
      `str.strip()` and `str.split()` (without arguments) treat as blanks. */
  predicate IsSpace(c: char) {
    || ('\t' <= c <= '\r')
    || ('\U{001C}' <= c <= '\U{001F}')
    || c == ' ' || c == '\U{0085}' || c == '\U{00A0}' || c == '\U{1680}'
    || ('\U{2000}' <= c <= '\U{200A}')
    || c == '\U{2028}' || c == '\U{2029}' || c == '\U{202F}'
    || c == '\U{205F}' || c == '\U{3000}'
  }

  predicate AllSpace(s: string) {
    forall i :: 0 <= i < |s| ==> IsSpace(s[i])
  }

  /** A non-empty run of non-whitespace characters: what `str.split()` yields. */
  predicate IsWord(w: string) {
    |w| > 0 && forall i :: 0 <= i < |w| ==> !IsSpace(w[i])
  }

  predicate AllWords(ws: seq<string>) {
    forall i :: 0 <= i < |ws| ==> IsWord(ws[i])
  }

  /** `sub in s` for Python strings. */
  predicate Contains(s: string, sub: string)
    decreases |s|
  {
    |sub| <= |s| && (s[..|sub|] == sub || Contains(s[1..], sub))
  }

  /** `s.startswith(prefix)`. */
  predicate StartsWith(s: string, prefix: string) {
    |prefix| <= |s| && s[..|prefix|] == prefix
  }

  /** Number of whitespace characters at the front of `s`. */
  function LeadingSpaces(s: string): (n: nat)
    ensures n <= |s|
    ensures n < |s| ==> !IsSpace(s[n])
    decreases |s|
  {
    if |s| > 0 && IsSpace(s[0]) then 1 + LeadingSpaces(s[1..]) else 0
  }

  /** Number of whitespace characters at the end of `s`. */
  function TrailingSpaces(s: string): (n: nat)
    ensures n <= |s|
    ensures n < |s| ==> !IsSpace(s[|s| - n - 1])
    decreases |s|
  {
    if |s| > 0 && IsSpace(s[|s| - 1]) then 1 + TrailingSpaces(s[..|s| - 1]) else 0
  }

  /** Python's `s.strip()`: `s` without its leading and trailing whitespace. */
  function Strip(s: string): (r: string)
    ensures |r| > 0 ==> !IsSpace(r[0]) && !IsSpace(r[|r| - 1])
    ensures |r| <= |s|
  {
    var a := LeadingSpaces(s);
    var t := s[a..];
    t[..|t| - TrailingSpaces(t)]
  }

  /** Length of the leading run of non-whitespace characters. */
  function WordLen(s: string): (n: nat)
    ensures n <= |s|
    ensures n < |s| ==> IsSpace(s[n])
    decreases |s|
  {
    if |s| > 0 && !IsSpace(s[0]) then 1 + WordLen(s[1..]) else 0
  }

  /** `s` without its leading whitespace (Python's `s.lstrip()`). */
  function TrimStart(s: string): string {
    s[LeadingSpaces(s)..]
  }

  /** Python's `s.split()`: the maximal whitespace-free runs of `s`, in order. */
  function Words(s: string): (ws: seq<string>)
    decreases |s|
  {
    var t := TrimStart(s);
    if |t| == 0 then []
    else
      var n := WordLen(t);
      [t[..n]] + Words(t[n..])
  }

  /** `" ".join(ws)`. */
  function Join(ws: seq<string>): string
    decreases |ws|
  {
    if |ws| == 0 then ""
    else if |ws| == 1 then ws[0]
    else ws[0] + " " + Join(ws[1..])
  }

  lemma {:induction false} WordLenOfWord(w: string, rest: string)
    requires IsWord(w)
    requires |rest| == 0 || IsSpace(rest[0])
    ensures WordLen(w + rest) == |w|
    decreases |w|
  {
    if |w| > 1 {
      assert (w + rest)[1..] == w[1..] + rest;
      WordLenOfWord(w[1..], rest);
    } else {
      assert (w + rest)[1..] == rest;
    }
  }

  lemma {:induction false} WordLenStable(t: string, y: string)
    requires WordLen(t) < |t|
    ensures WordLen(t + y) == WordLen(t)
    decreases |t|
  {
    var u := t + y;
    assert u[0] == t[0];
    if !IsSpace(t[0]) {
      assert u[1..] == t[1..] + y;
      WordLenStable(t[1..], y);
    }
  }

  lemma {:induction false} WordLenIsWord(s: string)
    ensures forall i :: 0 <= i < WordLen(s) ==> !IsSpace(s[i])
    decreases |s|
  {
    if |s| > 0 && !IsSpace(s[0]) {
      WordLenIsWord(s[1..]);
      assert forall i :: 1 <= i < |s| ==> s[i] == s[1..][i - 1];
    }
  }

  lemma {:induction false} LeadingSpacesOfSpaces(sp: string, y: string)
    requires AllSpace(sp)
    ensures LeadingSpaces(sp + y) == |sp| + LeadingSpaces(y)
    decreases |sp|
  {
    if |sp| == 0 {
      assert sp + y == y;
    } else {
      assert (sp + y)[1..] == sp[1..] + y;
      LeadingSpacesOfSpaces(sp[1..], y);
    }
  }

  lemma {:induction false} LeadingSpacesStable(x: string, y: string)
    requires LeadingSpaces(x) < |x|
    ensures LeadingSpaces(x + y) == LeadingSpaces(x)
    decreases |x|
  {
    var u := x + y;
    assert u[0] == x[0];
    if IsSpace(x[0]) {
      assert u[1..] == x[1..] + y;
      LeadingSpacesStable(x[1..], y);
    }
  }

  lemma LeadingSpacesAreSpace(s: string)
    ensures AllSpace(s[..LeadingSpaces(s)])
  {
    LeadingSpacesAt(s);
    assert forall i :: 0 <= i < LeadingSpaces(s) ==> s[..LeadingSpaces(s)][i] == s[i];
  }

  lemma {:induction false} LeadingSpacesAt(s: string)
    ensures forall i :: 0 <= i < LeadingSpaces(s) ==> IsSpace(s[i])
    decreases |s|
  {
    if |s| > 0 && IsSpace(s[0]) {
      LeadingSpacesAt(s[1..]);
      assert forall i :: 1 <= i < |s| ==> s[i] == s[1..][i - 1];
    }
  }

  lemma TrailingSpacesAreSpace(s: string)
    ensures AllSpace(s[|s| - TrailingSpaces(s)..])
  {
    var k := |s| - TrailingSpaces(s);
    TrailingSpacesAt(s);
    assert forall i :: 0 <= i < |s| - k ==> s[k..][i] == s[k + i];
  }

  lemma {:induction false} TrailingSpacesAt(s: string)
    ensures forall i :: |s| - TrailingSpaces(s) <= i < |s| ==> IsSpace(s[i])
    decreases |s|
  {
    if |s| > 0 && IsSpace(s[|s| - 1]) {
      var p := s[..|s| - 1];
      TrailingSpacesAt(p);
      assert forall i :: 0 <= i < |p| ==> p[i] == s[i];
    }
  }

  /** One step of `str.split()` on a string that starts with a word. */
  lemma WordsStep(t: string)
    requires |t| > 0 && !IsSpace(t[0])
    ensures Words(t) == [t[..WordLen(t)]] + Words(t[WordLen(t)..])
  {
    assert TrimStart(t) == t;
  }

  /** Leading whitespace never changes `str.split()`. */
  lemma LeadingSpacesSkip(sp: string, y: string)
    requires AllSpace(sp)
    ensures Words(sp + y) == Words(y)
  {
    var u := sp + y;
    LeadingSpacesOfSpaces(sp, y);
    assert u[|sp| + LeadingSpaces(y)..] == y[LeadingSpaces(y)..];
    assert TrimStart(u) == TrimStart(y);
  }

  /** Trailing whitespace never changes `str.split()`. */
  lemma {:induction false} WordsTrailingSpace(x: string, sp: string)
    requires AllSpace(sp)
    ensures Words(x + sp) == Words(x)
    decreases |x|
  {
    if LeadingSpaces(x) == |x| {
      BlankWordsTrailing(x, sp);
    } else {
      var t := TrimStart(x);
      TrimStartStable(x, sp);
      var n := WordLen(t);
      FirstWordStable(t, sp);
      WordsTrailingSpace(t[n..], sp);
    }
  }

  /** A blank string followed by more blanks has no words. */
  lemma BlankWordsTrailing(x: string, sp: string)
    requires AllSpace(sp) && LeadingSpaces(x) == |x|
    ensures Words(x + sp) == Words(x) == []
  {
    LeadingSpacesAreSpace(x);
    assert x[..|x|] == x;
    LeadingSpacesOfSpaces(x, sp);
    LeadingSpacesOfSpaces(sp, "");
    assert sp + "" == sp;
    assert TrimStart(x + sp) == "";
  }

  lemma {:induction false} TrimStartStable(x: string, y: string)
    requires LeadingSpaces(x) < |x|
    ensures TrimStart(x + y) == TrimStart(x) + y
  {
    LeadingSpacesStable(x, y);
    assert (x + y)[LeadingSpaces(x)..] == x[LeadingSpaces(x)..] + y;
  }

  /** Appending blanks after a word-initial string keeps its first word. */
  lemma FirstWordStable(t: string, sp: string)
    requires AllSpace(sp) && |t| > 0 && !IsSpace(t[0])
    ensures WordLen(t + sp) == WordLen(t)
    ensures (t + sp)[..WordLen(t)] == t[..WordLen(t)]
    ensures (t + sp)[WordLen(t)..] == t[WordLen(t)..] + sp
  {
    var n := WordLen(t);
    WordLenIsWord(t);
    if n < |t| {
      WordLenStable(t, sp);
    } else {
      assert t[..n] == t;
      WordLenOfWord(t, sp);
    }
  }

  /** Stripping before splitting changes nothing: `s.strip().split() == s.split()`. */
  lemma WordsOfStrip(s: string)
    ensures Words(Strip(s)) == Words(s)
  {
    var t := TrimStart(s);
    assert Strip(s) == t[..|t| - TrailingSpaces(t)];
    WordsOfTrimStart(s);
    WordsOfTrimEnd(t);
  }

  lemma WordsOfTrimStart(s: string)
    ensures Words(TrimStart(s)) == Words(s)
  {
    var a := LeadingSpaces(s);
    LeadingSpacesAreSpace(s);
    assert s == s[..a] + s[a..];
    LeadingSpacesSkip(s[..a], s[a..]);
  }

  lemma WordsOfTrimEnd(t: string)
    ensures Words(t[..|t| - TrailingSpaces(t)]) == Words(t)
  {
    var k := |t| - TrailingSpaces(t);
    TrailingSpacesAreSpace(t);
    SplitAt(t, k);
    WordsTrailingSpace(t[..k], t[k..]);
  }

  lemma SplitAt(s: string, k: nat)
    requires k <= |s|
    ensures s[..k] + s[k..] == s
  {
  }

  /** Splitting undoes joining: `" ".join(ws).split() == ws` for words. */
  lemma {:induction false} WordsOfJoin(ws: seq<string>)
    requires AllWords(ws)
    ensures Words(Join(ws)) == ws
    decreases |ws|
  {
    if |ws| == 1 {
      var w := ws[0];
      WordThen(w, "");
      assert w + "" == w;
    } else if |ws| > 1 {
      JoinStep(ws);
      WordsOfJoin(ws[1..]);
      assert ws == [ws[0]] + ws[1..];
    }
  }

  /** Splitting a join of two or more words takes off the first word. */
  lemma JoinStep(ws: seq<string>)
    requires |ws| > 1 && AllWords(ws)
    ensures AllWords(ws[1..])
    ensures Words(Join(ws)) == [ws[0]] + Words(Join(ws[1..]))
  {
    var w := ws[0];
    var rest := " " + Join(ws[1..]);
    assert Join(ws) == w + rest;
    WordThen(w, rest);
    LeadingSpacesSkip(" ", Join(ws[1..]));
  }

  /** A word followed by a blank (or nothing) splits off as the first piece. */
  lemma WordThen(w: string, rest: string)
    requires IsWord(w)
    requires |rest| == 0 || IsSpace(rest[0])
    ensures Words(w + rest) == [w] + Words(rest)
  {
    var s := w + rest;
    assert s[0] == w[0];
    WordLenOfWord(w, rest);
    WordsStep(s);
    assert s[..|w|] == w;
    assert s[|w|..] == rest;
  }

  /** Every piece `str.split()` returns is a word. */
  lemma {:induction false} WordsAreWords(s: string)
    ensures AllWords(Words(s))
    decreases |s|
  {
    var t := TrimStart(s);
    if |t| > 0 {
      var n := WordLen(t);
      WordsStep(t);
      FirstWordIsWord(t);
      WordsAreWords(t[n..]);
      AllWordsCons(t[..n], Words(t[n..]));
    }
  }

  lemma FirstWordIsWord(t: string)
    requires |t| > 0 && !IsSpace(t[0])
    ensures IsWord(t[..WordLen(t)])
  {
    WordLenIsWord(t);
  }

  lemma AllWordsCons(w: string, ws: seq<string>)
    requires IsWord(w) && AllWords(ws)
    ensures AllWords([w] + ws)
  {
    assert forall i :: 1 <= i < |[w] + ws| ==> ([w] + ws)[i] == ws[i - 1];
  }

  /** Joining a non-empty list and appending one more word. */
  lemma {:induction false} JoinSnoc(ws: seq<string>, x: string)
    requires |ws| > 0
    ensures Join(ws + [x]) == Join(ws) + " " + x
    decreases |ws|
  {
    if |ws| == 1 {
      assert ws + [x] == [ws[0], x];
      assert [ws[0], x][1..] == [x];
    } else {
      assert (ws + [x])[1..] == ws[1..] + [x];
      JoinSnoc(ws[1..], x);
    }
  }

  /** A string without the first character of `sub` does not contain `sub`. */
  lemma {:induction false} NotContainsWithoutHead(s: string, sub: string)
    requires |sub| > 0
    requires forall i :: 0 <= i < |s| ==> s[i] != sub[0]
    ensures !Contains(s, sub)
    decreases |s|
  {
    if |sub| <= |s| {
      assert s[..|sub|][0] == s[0];
      NotContainsWithoutHead(s[1..], sub);
    }
  }
}
