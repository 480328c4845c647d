/** Characters, stripping and lines, as the ingestion code uses them. `\n` is the only line break. */
module Text {

  predicate IsSpace(c: char) {
    c == ' ' || c == '\t' || c == '\n' || c == '\r'
  }

  /** Position `i` holds a character that stripping never removes. */
  predicate Visible(text: string, i: int) {
    0 <= i < |text| && !IsSpace(text[i])
  }

  predicate Blank(s: string) {
    forall i :: 0 <= i < |s| ==> IsSpace(s[i])
  }

  /** The first character at or after `k` that is not white space, or the end. */
  function SkipSpace(s: string, k: nat): (m: nat)
    requires k <= |s|
    ensures k <= m <= |s| && forall i :: k <= i < m ==> IsSpace(s[i])
    ensures m < |s| ==> !IsSpace(s[m])
    decreases |s| - k
  {
    if k < |s| && IsSpace(s[k]) then SkipSpace(s, k + 1) else k
  }

  /** How many leading characters `lstrip` removes. */
  function LeadLength(s: string): nat {
    SkipSpace(s, 0)
  }

  /** The length of the first `k` characters without trailing white space. */
  function DropSpace(s: string, k: nat): (m: nat)
    requires k <= |s|
    ensures m <= k && forall i :: m <= i < k ==> IsSpace(s[i])
    ensures m > 0 ==> !IsSpace(s[m - 1])
  {
    if k > 0 && IsSpace(s[k - 1]) then DropSpace(s, k - 1) else k
  }

  /** The length that `rstrip` leaves. */
  function BodyLength(s: string): (k: nat)
    ensures k <= |s|
  {
    DropSpace(s, |s|)
  }

  lemma VisibleIsKept(s: string, i: nat)
    requires Visible(s, i)
    ensures LeadLength(s) <= i < BodyLength(s)
  {
  }

  function Strip(s: string): string {
    if LeadLength(s) <= BodyLength(s) then s[LeadLength(s)..BodyLength(s)] else ""
  }

  lemma StripEmptyIffBlank(s: string)
    ensures Strip(s) == "" <==> Blank(s)
  {
    if !Blank(s) {
      var i :| 0 <= i < |s| && !IsSpace(s[i]);
      VisibleIsKept(s, i);
    }
  }

  lemma StripTwice(s: string)
    ensures Strip(Strip(s)) == Strip(s)
  {
    var t := Strip(s);
    if t != "" {
      TrimIs(t, 0, |t|);
    }
  }

  lemma TrimIs(s: string, a: nat, b: nat)
    requires a < b <= |s| && !IsSpace(s[a]) && !IsSpace(s[b - 1])
    requires (forall i :: 0 <= i < a ==> IsSpace(s[i])) && forall i :: b <= i < |s| ==> IsSpace(s[i])
    ensures LeadLength(s) == a && BodyLength(s) == b && Strip(s) == s[a..b]
  {
  }

  // ----------------------------------------------------------------------- lines

  /** `text[:pos].count("\n")`, the number of breaks before `pos`. */
  function LineNo(text: string, pos: nat): nat
    requires pos <= |text|
  {
    if pos == 0 then 0 else LineNo(text, pos - 1) + if text[pos - 1] == '\n' then 1 else 0
  }

  lemma {:induction false} LineNoMonotone(text: string, i: nat, j: nat)
    requires i <= j <= |text|
    ensures LineNo(text, i) <= LineNo(text, j)
    ensures LineNo(text, i) == LineNo(text, j) <==> forall k :: i <= k < j ==> text[k] != '\n'
    decreases j
  {
    if i < j {
      LineNoMonotone(text, i, j - 1);
    }
  }

  /** Where the line that holds position `pos` begins. */
  function LineStart(text: string, pos: nat): (k: nat)
    requires pos <= |text|
    ensures k <= pos
  {
    if pos == 0 || text[pos - 1] == '\n' then pos else LineStart(text, pos - 1)
  }

  /** The first break at or after `from`, or the end of the text. */
  function NextBreak(text: string, from: nat): (k: nat)
    requires from <= |text|
    ensures from <= k <= |text| && (k < |text| ==> text[k] == '\n')
    ensures forall i :: from <= i < k ==> text[i] != '\n'
    decreases |text| - from
  {
    if from == |text| || text[from] == '\n' then from else NextBreak(text, from + 1)
  }

  /** The lines from `from` on, without their breaks. */
  function LinesFrom(text: string, from: nat): seq<string>
    requires from <= |text|
    decreases |text| - from
  {
    var k := NextBreak(text, from);
    if from == |text| then []
    else if k == |text| then [text[from..]]
    else [text[from..k]] + LinesFrom(text, k + 1)
  }

  /** `splitlines()`. */
  function SplitLines(text: string): seq<string> {
    LinesFrom(text, 0)
  }

  /** The lines from `from` on, each with its break. */
  function KeepEndsFrom(text: string, from: nat): seq<string>
    requires from <= |text|
    decreases |text| - from
  {
    var k := NextBreak(text, from);
    if from == |text| then []
    else if k == |text| then [text[from..]]
    else [text[from..k + 1]] + KeepEndsFrom(text, k + 1)
  }

  /** `splitlines(keepends=True)`. */
  function SplitKeepEnds(text: string): seq<string> {
    KeepEndsFrom(text, 0)
  }

  function Join(parts: seq<string>): string {
    if parts == [] then "" else parts[0] + Join(parts[1..])
  }

  lemma {:induction false} JoinConcat(a: seq<string>, b: seq<string>)
    ensures Join(a + b) == Join(a) + Join(b)
  {
    if a == [] {
      assert a + b == b;
    } else {
      assert (a + b)[1..] == a[1..] + b;
      JoinConcat(a[1..], b);
    }
  }

  lemma {:induction false} JoinSplit(text: string, from: nat)
    requires from <= |text|
    ensures Join(KeepEndsFrom(text, from)) == text[from..]
    decreases |text| - from
  {
    var k := NextBreak(text, from);
    if from < |text| && k < |text| {
      JoinSplit(text, k + 1);
      var rest := KeepEndsFrom(text, k + 1);
      assert ([text[from..k + 1]] + rest)[1..] == rest;
    } else if from < |text| {
      assert [text[from..]][1..] == [];
    }
  }

  /** Characters before line `k`, counting one for each break. */
  function Offset(lines: seq<string>, k: nat): nat
    requires k <= |lines|
  {
    if k == 0 then 0 else |lines[0]| + 1 + Offset(lines[1..], k - 1)
  }

  lemma OffsetHead(lines: seq<string>, rest: seq<string>, k: nat)
    requires 0 < k <= |lines| && lines[1..] == rest
    ensures Offset(lines, k) == |lines[0]| + 1 + Offset(rest, k - 1)
  {
  }

  lemma {:induction false} OffsetStep(lines: seq<string>, k: nat)
    requires k < |lines|
    ensures Offset(lines, k + 1) == Offset(lines, k) + |lines[k]| + 1
  {
    if k > 0 {
      OffsetStep(lines[1..], k - 1);
    }
  }

  /** Splitting off the first line. */
  lemma LinesFromStep(text: string, from: nat)
    requires from <= |text| && NextBreak(text, from) < |text|
    ensures var k := NextBreak(text, from);
            var lines, rest := LinesFrom(text, from), LinesFrom(text, k + 1);
            |lines| == 1 + |rest| && lines[1..] == rest && lines[0] == text[from..k]
  {
  }

  lemma {:induction false} LineStartOnLine(text: string, from: nat, pos: nat)
    requires from <= pos <= |text| && (from == 0 || text[from - 1] == '\n')
    requires forall i :: from <= i < pos ==> text[i] != '\n'
    ensures LineStart(text, pos) == from
    decreases pos
  {
    if from < pos {
      LineStartOnLine(text, from, pos - 1);
    }
  }

  lemma LineNoAfterBreak(text: string, from: nat)
    requires from <= |text| && NextBreak(text, from) < |text|
    ensures LineNo(text, NextBreak(text, from) + 1) == LineNo(text, from) + 1
  {
    LineNoMonotone(text, from, NextBreak(text, from));
  }

  lemma FirstLine(text: string, from: nat)
    requires from <= |text|
    ensures from == |text| ==> LinesFrom(text, from) == []
    ensures from < |text| ==> LinesFrom(text, from) != [] && LinesFrom(text, from)[0] == text[from..NextBreak(text, from)]
  {
  }

  lemma OnFirstLine(text: string, from: nat, line: string, p: nat)
    requires from <= |text| && from <= p <= NextBreak(text, from) && line == text[from..NextBreak(text, from)]
    ensures LineNo(text, p) == LineNo(text, from) && (p < NextBreak(text, from) ==> text[p] == line[p - from])
  {
    LineNoMonotone(text, from, p);
  }

  lemma LaterLine(text: string, from: nat, lines: seq<string>, k: nat)
    requires from < |text| && lines == LinesFrom(text, from) && 0 < k < |lines|
    ensures NextBreak(text, from) < |text| && lines[1..] == LinesFrom(text, NextBreak(text, from) + 1)
    ensures LineNo(text, NextBreak(text, from) + 1) == LineNo(text, from) + 1
    ensures from + Offset(lines, k) == NextBreak(text, from) + 1 + Offset(lines[1..], k - 1)
  {
    FirstLine(text, from);
    LinesFromStep(text, from);
    LineNoAfterBreak(text, from);
    OffsetHead(lines, lines[1..], k);
  }

  /** Line `k` is the text from `q` to the next break. */
  ghost predicate BeginsAt(text: string, from: nat, lines: seq<string>, k: nat, q: nat)
    requires from <= |text| && k < |lines|
  {
    && q < |text| && q == from + Offset(lines, k) && LineNo(text, q) == LineNo(text, from) + k
    && lines[k] == text[q..NextBreak(text, q)] && (q == from || text[q - 1] == '\n')
  }

  lemma {:induction false} LineBegins(text: string, from: nat, lines: seq<string>, k: nat) returns (q: nat)
    requires from <= |text| && lines == LinesFrom(text, from) && k < |lines|
    ensures BeginsAt(text, from, lines, k, q)
    decreases |text| - from
  {
    FirstLine(text, from);
    if k == 0 {
      q := from;
    } else {
      LaterLine(text, from, lines, k);
      q := LineBegins(text, NextBreak(text, from) + 1, lines[1..], k - 1);
    }
  }

  lemma LineBegin(text: string, k: nat) returns (q: nat)
    requires k < |SplitLines(text)|
    ensures q == Offset(SplitLines(text), k) && q < |text| && LineNo(text, q) == k && (q == 0 || text[q - 1] == '\n')
  {
    q := LineBegins(text, 0, SplitLines(text), k);
  }

  /** Where character `v` of line `k`, or the break behind the line, is found. */
  lemma LineIs(text: string, k: nat, v: nat) returns (p: nat)
    requires k < |SplitLines(text)| && v <= |SplitLines(text)[k]|
    ensures p == Offset(SplitLines(text), k) + v <= |text| && LineNo(text, p) == k
    ensures v < |SplitLines(text)[k]| ==> p < |text| && text[p] == SplitLines(text)[k][v]
  {
    var q := LineBegins(text, 0, SplitLines(text), k);
    p := q + v;
    OnFirstLine(text, q, SplitLines(text)[k], p);
  }

  /** The line that holds `pos` is numbered by the breaks before it, and starts where the lines before it end. */
  ghost predicate HoldsLine(text: string, from: nat, lines: seq<string>, pos: nat, n: int)
    requires from <= |text| && pos <= |text|
  {
    0 <= n < |lines| && LineNo(text, pos) == LineNo(text, from) + n && from + Offset(lines, n) == LineStart(text, pos)
  }

  lemma {:induction false} LineHolding(text: string, from: nat, lines: seq<string>, pos: nat) returns (n: nat)
    requires from <= pos < |text| && (from == 0 || text[from - 1] == '\n') && lines == LinesFrom(text, from)
    ensures HoldsLine(text, from, lines, pos, n)
    decreases |text| - from
  {
    FirstLine(text, from);
    var k := NextBreak(text, from);
    if pos <= k {
      OnFirstLine(text, from, lines[0], pos);
      LineStartOnLine(text, from, pos);
      n := 0;
    } else {
      LinesFromStep(text, from);
      var m := LineHolding(text, k + 1, lines[1..], pos);
      n := m + 1;
      LaterLine(text, from, lines, n);
    }
  }

  /** The line numbered by the breaks before `pos` starts where the line holding `pos` starts. */
  lemma LineOfPosition(text: string, pos: nat)
    requires pos < |text|
    ensures LineNo(text, pos) < |SplitLines(text)| && Offset(SplitLines(text), LineNo(text, pos)) == LineStart(text, pos)
  {
    var n := LineHolding(text, 0, SplitLines(text), pos);
  }

  /** Line by line: the next line goes on to the first break, or to the end. */
  lemma NextLine(text: string, from: nat, k: nat)
    requires from <= k <= |text| && (forall i :: from <= i < k ==> text[i] != '\n') && (k < |text| ==> text[k] == '\n')
    ensures from < |text| && k == |text| ==> LinesFrom(text, from) == [text[from..]] == KeepEndsFrom(text, from)
    ensures k < |text| ==> LinesFrom(text, from) == [text[from..k]] + LinesFrom(text, k + 1)
    ensures k < |text| ==> KeepEndsFrom(text, from) == [text[from..k + 1]] + KeepEndsFrom(text, k + 1)
  {
    var next := NextBreak(text, from);
    assert next == k;
  }
}
