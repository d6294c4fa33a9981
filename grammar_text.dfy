/**
 * The text processing half of `YaccBuilder.load_grammar`
 * (generator/yacc_builder.py): cleaning the lines of a BNF file, grouping a
 * rule line `lhs ::= rhs` with the continuation lines that follow it, and
 * splitting a right-hand side into `|`-separated alternatives with `ε` and
 * `EPSILON` both written `ε`.
 */
module GrammarText {
  import opened Wrappers
  import opened PyStr
  import opened GrammarSets

  // ------------------------------------------------------------ cleaning lines

  /**
   * One line of the file after `strip()`: None when it is blank or a
   * comment line, otherwise its text up to the first `#`, stripped again.
   */
  function CleanLine(raw: string): (r: Option<string>)
    ensures r.Some? ==> r.value != [] && '#' !in r.value
    ensures r.Some? && '#' !in raw ==> r.value == Strip(raw)
    ensures r.Some? && '#' in raw ==> r.value == Strip(raw[..IndexOf(raw, '#')])
    ensures r.None? <==> Strip(raw) == [] || Strip(raw)[0] == '#'
  {
    CutBeforeHash(raw);
    var line := Strip(raw);
    if line == [] || StartsWith(line, "#") then None
    else if '#' in line then
      CutIsClean(line);
      Some(Strip(line[..IndexOf(line, '#')]))
    else
      StripKeeps(raw);
      Some(line)
  }

  lemma StripKeeps(s: string)
    ensures forall c :: c in Strip(s) ==> c in s
  {
    var l := LStrip(s);
    assert forall c :: c in RStrip(l) ==> c in l;
    assert forall c :: c in l ==> c in s;
  }

  /**
   * Stripping first does not move the comment: a line holds `#` exactly when
   * its stripped text does, and the text before the first `#` strips alike
   * either way.
   */
  lemma CutBeforeHash(raw: string)
    ensures '#' in raw <==> '#' in Strip(raw)
    ensures '#' in raw ==>
      Strip(raw[..IndexOf(raw, '#')]) == Strip(Strip(raw)[..IndexOf(Strip(raw), '#')])
  {
    var l := LStrip(raw);
    var a := |raw| - |l|;
    var line := RStrip(l);
    assert line == Strip(raw);
    var b := a + |line|;
    assert line == raw[a..b];
    assert forall k :: b <= k < |raw| ==> IsSpace(raw[k]) by {
      assert forall k :: b <= k < |raw| ==> raw[k] == l[k - a];
    }
    HashInside(raw, a, b);
    if '#' in raw {
      FirstHashShift(raw, a, line);
    }
  }

  /** A `#` of a line lies between its leading and trailing whitespace. */
  lemma HashInside(raw: string, a: nat, b: nat)
    requires a <= b <= |raw|
    requires forall k :: 0 <= k < a ==> IsSpace(raw[k])
    requires forall k :: b <= k < |raw| ==> IsSpace(raw[k])
    ensures '#' in raw <==> '#' in raw[a..b]
  {
    assert !IsSpace('#');
    if '#' in raw {
      var h :| 0 <= h < |raw| && raw[h] == '#';
      assert raw[a..b][h - a] == '#';
    }
  }

  /** After leading whitespace, the first `#` is found where it is in the text that follows. */
  lemma FirstHashShift(raw: string, a: nat, line: string)
    requires a + |line| <= |raw| && raw[a..a + |line|] == line
    requires forall k :: 0 <= k < a ==> IsSpace(raw[k])
    requires '#' in line
    ensures '#' in raw && IndexOf(raw, '#') == a + IndexOf(line, '#')
    ensures Strip(raw[..IndexOf(raw, '#')]) == Strip(line[..IndexOf(line, '#')])
  {
    var j := IndexOf(line, '#');
    assert raw[a + j] == line[j] == '#';
    var i := IndexOf(raw, '#');
    assert i <= a + j;
    assert !IsSpace('#') && '#' !in line[..j];
    assert forall k :: a <= k < a + j ==> raw[k] == line[..j][k - a];
    assert i >= a + j;
    assert raw[..i] == raw[..a] + line[..j];
    StripLeadingSpace(raw[..a], line[..j]);
  }

  lemma CutIsClean(line: string)
    requires line != [] && !IsSpace(line[0]) && line[0] != '#' && '#' in line
    ensures Strip(line[..IndexOf(line, '#')]) != []
    ensures '#' !in Strip(line[..IndexOf(line, '#')])
  {
    var cut := line[..IndexOf(line, '#')];
    assert cut[0] == line[0];
    assert LStrip(cut) == cut;
    assert !IsSpace(cut[0]);
    StripKeeps(cut);
  }

  /** The lines `load_grammar` keeps, in file order. */
  function CleanLines(raws: seq<string>): (r: seq<string>)
    ensures |r| <= |raws|
    ensures forall k :: 0 <= k < |r| ==> r[k] != [] && '#' !in r[k]
  {
    if raws == [] then []
    else
      var rest := CleanLines(raws[..|raws| - 1]);
      var c := CleanLine(raws[|raws| - 1]);
      if c.Some? then rest + [c.value] else rest
  }

  // ------------------------------------------------------------ grouping rules

  /** `"::=" in line`. */
  predicate IsRuleLine(line: string) {
    Find(line, "::=") != -1
  }

  /** Where `line.split("::=", 1)` cuts: the first occurrence of `::=`. */
  function MarkIndex(line: string): (k: nat)
    requires IsRuleLine(line)
    ensures k + 3 <= |line| && line[k..k + 3] == "::="
    ensures forall j :: 0 <= j < k ==> !OccursAt(line, "::=", j)
  {
    Find(line, "::=")
  }

  /** A rule as read: the stripped left-hand side and the whole right-hand side text. */
  datatype Rule = Rule(lhs: string, rhs: string)

  /**
   * Where the continuation lines that start at `j` end: the first rule line
   * at or after `j`, or the end of the file.
   */
  function ContinuationEnd(lines: seq<string>, j: nat): (e: nat)
    requires j <= |lines|
    ensures j <= e <= |lines|
    ensures forall k :: j <= k < e ==> !IsRuleLine(lines[k])
    ensures e < |lines| ==> IsRuleLine(lines[e])
    decreases |lines| - j
  {
    if j == |lines| || IsRuleLine(lines[j]) then j else ContinuationEnd(lines, j + 1)
  }

  /** The continuation run is exactly the non-rule lines up to the next rule line or the end. */
  lemma ContinuationEndIs(lines: seq<string>, j: nat, e: nat)
    requires j <= e <= |lines|
    requires forall k :: j <= k < e ==> !IsRuleLine(lines[k])
    requires e == |lines| || IsRuleLine(lines[e])
    ensures ContinuationEnd(lines, j) == e
  {
    var m := ContinuationEnd(lines, j);
    assert m < |lines| ==> IsRuleLine(lines[m]);
  }

  /** `rhs_all` after `rhs_all += " " + line` for each continuation line. */
  function JoinContinuation(rhs: string, more: seq<string>): string {
    if more == [] then rhs else JoinContinuation(rhs, more[..|more| - 1]) + " " + more[|more| - 1]
  }

  /** The left-hand side of a rule line: the text before the first `::=`, stripped. */
  function LhsOf(line: string): string
    requires IsRuleLine(line)
  {
    Strip(line[..MarkIndex(line)])
  }

  /** The right-hand side on a rule line: the text after the first `::=`, stripped. */
  function RhsOf(line: string): string
    requires IsRuleLine(line)
  {
    Strip(line[MarkIndex(line) + 3..])
  }

  /**
   * The rules of a cleaned file from line `i` on: every rule line starts a
   * rule, the continuation lines after it extend its right-hand side, and
   * lines before the first rule line are skipped.
   */
  function GroupFrom(lines: seq<string>, i: nat): seq<Rule>
    requires i <= |lines|
    decreases |lines| - i
  {
    if i == |lines| then []
    else if !IsRuleLine(lines[i]) then GroupFrom(lines, i + 1)
    else
      var e := ContinuationEnd(lines, i + 1);
      [Rule(LhsOf(lines[i]), JoinContinuation(RhsOf(lines[i]), lines[i + 1..e]))] + GroupFrom(lines, e)
  }

  /** The rules of a cleaned file. */
  function GroupRules(lines: seq<string>): seq<Rule> {
    GroupFrom(lines, 0)
  }

  /** The rule lines among `lines[i..]`, in order. */
  function RuleLinesFrom(lines: seq<string>, i: nat): (r: seq<string>)
    requires i <= |lines|
    ensures forall k :: 0 <= k < |r| ==> IsRuleLine(r[k])
    decreases |lines| - i
  {
    if i == |lines| then []
    else (if IsRuleLine(lines[i]) then [lines[i]] else []) + RuleLinesFrom(lines, i + 1)
  }

  /** The lines of a cleaned file that contain `::=`, in order. */
  function RuleLines(lines: seq<string>): seq<string> {
    RuleLinesFrom(lines, 0)
  }

  lemma {:induction false} NoRuleLinesBetween(lines: seq<string>, j: nat, e: nat)
    requires j <= e <= |lines|
    requires forall k :: j <= k < e ==> !IsRuleLine(lines[k])
    ensures RuleLinesFrom(lines, j) == RuleLinesFrom(lines, e)
    decreases e - j
  {
    if j < e {
      NoRuleLinesBetween(lines, j + 1, e);
    }
  }

  /** The left-hand sides of some rules, in order. */
  function Lhss(rules: seq<Rule>): seq<string> {
    if rules == [] then [] else [rules[0].lhs] + Lhss(rules[1..])
  }

  /** The left-hand sides written on some rule lines, in order. */
  function LhssOfLines(ruleLines: seq<string>): seq<string>
    requires forall k :: 0 <= k < |ruleLines| ==> IsRuleLine(ruleLines[k])
  {
    if ruleLines == [] then [] else [LhsOf(ruleLines[0])] + LhssOfLines(ruleLines[1..])
  }

  lemma LhssCons(r: Rule, rest: seq<Rule>)
    ensures Lhss([r] + rest) == [r.lhs] + Lhss(rest)
  {
    assert ([r] + rest)[1..] == rest;
  }

  lemma LhssOfLinesCons(line: string, rest: seq<string>)
    requires IsRuleLine(line)
    requires forall k :: 0 <= k < |rest| ==> IsRuleLine(rest[k])
    ensures LhssOfLines([line] + rest) == [LhsOf(line)] + LhssOfLines(rest)
  {
    assert ([line] + rest)[1..] == rest;
  }

  /**
   * There is one rule per line containing `::=`, in file order, and each
   * rule's left-hand side is that line's text before `::=`.
   */
  lemma {:induction false} OneRulePerRuleLine(lines: seq<string>, i: nat)
    requires i <= |lines|
    ensures Lhss(GroupFrom(lines, i)) == LhssOfLines(RuleLinesFrom(lines, i))
    decreases |lines| - i
  {
    if i < |lines| {
      if !IsRuleLine(lines[i]) {
        OneRulePerRuleLine(lines, i + 1);
        assert RuleLinesFrom(lines, i) == RuleLinesFrom(lines, i + 1);
      } else {
        var e := ContinuationEnd(lines, i + 1);
        OneRulePerRuleLine(lines, e);
        NoRuleLinesBetween(lines, i + 1, e);
        var r := Rule(LhsOf(lines[i]), JoinContinuation(RhsOf(lines[i]), lines[i + 1..e]));
        var rest := GroupFrom(lines, e);
        assert GroupFrom(lines, i) == [r] + rest;
        LhssCons(r, rest);
        var rl := RuleLinesFrom(lines, e);
        assert RuleLinesFrom(lines, i) == [lines[i]] + rl;
        LhssOfLinesCons(lines[i], rl);
      }
    }
  }

  lemma {:induction false} ContinuationWords(rhs: string, more: seq<string>)
    ensures SplitWs(JoinContinuation(rhs, more)) == SplitWs(rhs) + WordsOfLines(more)
  {
    if more != [] {
      var init, last := more[..|more| - 1], more[|more| - 1];
      var joined := JoinContinuation(rhs, init);
      assert JoinContinuation(rhs, more) == joined + " " + last;
      ContinuationWords(rhs, init);
      SplitWsAppend(joined, last);
      assert more == init + [last];
      WordsOfLinesSnoc(init, last);
      AppendAssoc(SplitWs(rhs), WordsOfLines(init), SplitWs(last));
    }
  }

  /** The words of several lines, in order. */
  function WordsOfLines(lines: seq<string>): seq<string> {
    if lines == [] then [] else SplitWs(lines[0]) + WordsOfLines(lines[1..])
  }

  lemma {:induction false} WordsOfLinesSnoc(lines: seq<string>, l: string)
    ensures WordsOfLines(lines + [l]) == WordsOfLines(lines) + SplitWs(l)
  {
    if lines != [] {
      assert (lines + [l])[1..] == lines[1..] + [l];
      WordsOfLinesSnoc(lines[1..], l);
    } else {
      assert WordsOfLines([l]) == SplitWs(l) + WordsOfLines([]);
    }
  }

  // ------------------------------------------------------------ alternatives

  /** `ε` and `EPSILON` both become `ε`; every other token is kept. */
  function Normalize(tok: string): (r: string)
    ensures r != "EPSILON"
    ensures tok == "EPSILON" ==> r == EPSILON
    ensures tok != "EPSILON" ==> r == tok
  {
    if tok == EPSILON || tok == "EPSILON" then EPSILON else tok
  }

  /**
   * The alternatives of a right-hand side's words: a `|` closes the current
   * alternative and opens an empty one; any other word is normalised and
   * appended to the current one.
   */
  function Alternatives(toks: seq<string>): (r: seq<seq<string>>)
    ensures |r| >= 1
  {
    if toks == [] then [[]]
    else
      var alts := Alternatives(toks[..|toks| - 1]);
      var t := toks[|toks| - 1];
      if t == "|" then alts + [[]]
      else alts[..|alts| - 1] + [alts[|alts| - 1] + [Normalize(t)]]
  }

  /** How many `|` words there are. */
  function Bars(toks: seq<string>): nat {
    if toks == [] then 0 else Bars(toks[..|toks| - 1]) + (if toks[|toks| - 1] == "|" then 1 else 0)
  }

  /** The alternatives written back with `|` between them. */
  function Unsplit(alts: seq<seq<string>>): seq<string>
    requires |alts| >= 1
  {
    if |alts| == 1 then alts[0] else Unsplit(alts[..|alts| - 1]) + ["|"] + alts[|alts| - 1]
  }

  /** Splitting on `|` gives one more alternative than there are `|` words. */
  lemma {:induction false} AlternativesCount(toks: seq<string>)
    ensures |Alternatives(toks)| == Bars(toks) + 1
  {
    if toks != [] {
      AlternativesCount(toks[..|toks| - 1]);
    }
  }

  /** No alternative holds a `|` or an `EPSILON`. */
  lemma {:induction false} AlternativesClean(toks: seq<string>)
    ensures forall j, k :: 0 <= j < |Alternatives(toks)| && 0 <= k < |Alternatives(toks)[j]| ==>
      Alternatives(toks)[j][k] != "|" && Alternatives(toks)[j][k] != "EPSILON"
  {
    if toks != [] {
      AlternativesClean(toks[..|toks| - 1]);
    }
  }

  /** The words, normalised. */
  function NormalizeAll(toks: seq<string>): (r: seq<string>)
    ensures |r| == |toks| && forall k :: 0 <= k < |toks| ==> r[k] == Normalize(toks[k])
  {
    if toks == [] then [] else NormalizeAll(toks[..|toks| - 1]) + [Normalize(toks[|toks| - 1])]
  }

  /** Writing the alternatives back with `|` between them gives the normalised words. */
  lemma {:induction false} AlternativesUnsplit(toks: seq<string>)
    ensures Unsplit(Alternatives(toks)) == NormalizeAll(toks)
  {
    if toks != [] {
      var init := toks[..|toks| - 1];
      var t := toks[|toks| - 1];
      AlternativesUnsplit(init);
      var alts := Alternatives(init);
      if t == "|" {
        assert (alts + [[]])[..|alts|] == alts;
      } else {
        UnsplitExtendLast(alts, Normalize(t));
      }
    }
  }

  lemma UnsplitExtendLast(alts: seq<seq<string>>, w: string)
    requires |alts| >= 1
    ensures Unsplit(alts[..|alts| - 1] + [alts[|alts| - 1] + [w]]) == Unsplit(alts) + [w]
  {
    var front := alts[..|alts| - 1];
    var last := alts[|alts| - 1] + [w];
    if |alts| > 1 {
      assert (front + [last])[..|front|] == front;
    }
  }

  /** The productions a rule's right-hand side text yields. */
  function ProductionsOf(rhs: string): seq<seq<string>> {
    Alternatives(SplitWs(rhs))
  }
}
