/**
 * The three-address-code context of src/runtime/ctx.py: two counters that
 * mint fresh temporaries `t0, t1, ...` and labels `L0, L1, ...`, an
 * append-only list of quadruples `(op, arg1, arg2, result)`, and the text
 * rendering of that list.
 */
module Tac {
  import opened Wrappers
  import opened PyStr

  /** One instruction; any field may be Python's `None`. */
  datatype Quad = Quad(op: Option<string>, arg1: Option<string>, arg2: Option<string>,
                       result: Option<string>)

  /**
   * The `k`-th name a counter mints: the prefix followed by the decimal
   * digits of `k`, with no leading zero.
   */
  function MintedName(prefix: char, k: nat): (r: string)
    ensures |r| >= 2 && r[0] == prefix
    ensures forall i :: 1 <= i < |r| ==> '0' <= r[i] <= '9'
    ensures |r| > 2 ==> r[1] != '0'
  {
    [prefix] + NatToString(k)
  }

  /** The `k`-th temporary a context mints. */
  function TempName(k: nat): string {
    MintedName('t', k)
  }

  /** The `k`-th label a context mints. */
  function LabelName(k: nat): string {
    MintedName('L', k)
  }

  /** Every temporary a context with `count` minted temporaries has handed out. */
  function MintedTemps(count: nat): set<string> {
    set k | 0 <= k < count :: TempName(k)
  }

  /** Every label a context with `count` minted labels has handed out. */
  function MintedLabels(count: nat): set<string> {
    set k | 0 <= k < count :: LabelName(k)
  }

  /** Temporaries minted at different counts are different names. */
  lemma TempNamesDistinct(i: nat, j: nat)
    ensures TempName(i) == TempName(j) <==> i == j
  {
    assert TempName(i)[1..] == NatToString(i);
    assert TempName(j)[1..] == NatToString(j);
    NatToStringInjective(i, j);
  }

  /** Labels minted at different counts are different names. */
  lemma LabelNamesDistinct(i: nat, j: nat)
    ensures LabelName(i) == LabelName(j) <==> i == j
  {
    assert LabelName(i)[1..] == NatToString(i);
    assert LabelName(j)[1..] == NatToString(j);
    NatToStringInjective(i, j);
  }

  /** A temporary is never spelled like a label. */
  lemma TempIsNotLabel(i: nat, j: nat)
    ensures TempName(i) != LabelName(j)
  {
    assert TempName(i)[0] == 't' && LabelName(j)[0] == 'L';
  }

  /** The next temporary is not among those minted before. */
  lemma NextTempIsFresh(count: nat)
    ensures TempName(count) !in MintedTemps(count)
  {
    forall k | 0 <= k < count ensures TempName(k) != TempName(count) {
      TempNamesDistinct(k, count);
    }
  }

  /** The next label is not among those minted before. */
  lemma NextLabelIsFresh(count: nat)
    ensures LabelName(count) !in MintedLabels(count)
  {
    forall k | 0 <= k < count ensures LabelName(k) != LabelName(count) {
      LabelNamesDistinct(k, count);
    }
  }

  /** The state of a context as a value: what the parse specification threads through. */
  datatype TacState = TacState(code: seq<Quad>, tempCount: nat, labelCount: nat)
  {
    /** `new_temp` on this state: the name handed out and the state after. */
    function MintTemp(): (string, TacState) {
      (TempName(tempCount), this.(tempCount := tempCount + 1))
    }

    /** `new_label` on this state. */
    function MintLabel(): (string, TacState) {
      (LabelName(labelCount), this.(labelCount := labelCount + 1))
    }

    /** `emit` on this state. */
    function Emit(q: Quad): TacState {
      this.(code := code + [q])
    }
  }

  /** What `TACContext()` starts from. */
  const FreshState: TacState := TacState([], 0, 0)

  /** A field as it appears in a rendered line: its text, or nothing when it is `None`. */
  function Opt(x: Option<string>): (r: seq<string>)
    ensures |r| <= 1
  {
    if x.Some? then [x.value] else []
  }

  /**
   * The fields of one rendered line, before they are joined with single
   * spaces: with a result, the result and `=` come first; every other word
   * is a present field.
   */
  function Fields(q: Quad): (r: seq<string>)
    ensures q.result.Some? ==> |r| >= 2 && r[0] == q.result.value && r[1] == "="
    ensures forall k :: 0 <= k < |r| ==>
      r[k] == "=" || Some(r[k]) == q.op || Some(r[k]) == q.arg1 || Some(r[k]) == q.arg2 || Some(r[k]) == q.result
  {
    if q.result.Some? then [q.result.value, "="] + Opt(q.arg1) + Opt(q.op) + Opt(q.arg2)
    else Opt(q.op) + Opt(q.arg1) + Opt(q.arg2)
  }

  /**
   * The text `get_instructions` produces for one quadruple.  The line can be
   * read back: when every present field is one word, splitting it on
   * whitespace gives back exactly its fields.
   */
  function RenderQuad(q: Quad): (r: string)
    ensures WordFields(q) ==> SplitWs(r) == Fields(q)
  {
    if WordFields(q) then
      SplitJoinRoundTrip(Fields(q));
      Join(Fields(q), " ")
    else
      Join(Fields(q), " ")
  }

  /** The text `get_instructions` produces for a whole list, one string per quadruple. */
  function RenderCode(code: seq<Quad>): (out: seq<string>)
    ensures |out| == |code|
    ensures forall k :: 0 <= k < |code| ==> out[k] == RenderQuad(code[k])
  {
    if code == [] then [] else [RenderQuad(code[0])] + RenderCode(code[1..])
  }

  /** Every present field is a single non-empty word. */
  predicate WordFields(q: Quad) {
    && (q.op.Some? ==> q.op.value != [] && NoSpace(q.op.value))
    && (q.arg1.Some? ==> q.arg1.value != [] && NoSpace(q.arg1.value))
    && (q.arg2.Some? ==> q.arg2.value != [] && NoSpace(q.arg2.value))
    && (q.result.Some? ==> q.result.value != [] && NoSpace(q.result.value))
  }

  lemma JoinStep(w: string, rest: seq<string>, sep: string)
    requires rest != []
    ensures Join([w] + rest, sep) == w + sep + Join(rest, sep)
  {
    assert ([w] + rest)[1..] == rest;
  }

  /** Joining two to five words with single spaces. */
  lemma Join2(a: string, b: string)
    ensures Join([a, b], " ") == a + " " + b
  {
    assert [a, b] == [a] + [b];
    JoinStep(a, [b], " ");
  }

  /** Putting `w` and a space in front of a spaced string. */
  lemma PrefixWord(w: string, x: string, y: string)
    ensures w + " " + (x + " " + y) == w + " " + x + " " + y
  {
    AppendAssoc(w + " ", x + " ", y);
    AppendAssoc(w + " ", x, " ");
  }

  lemma Join3(a: string, b: string, c: string)
    ensures Join([a, b, c], " ") == a + " " + b + " " + c
  {
    assert [a, b, c] == [a] + [b, c];
    JoinStep(a, [b, c], " ");
    Join2(b, c);
    PrefixWord(a, b, c);
  }

  lemma Join4(a: string, b: string, c: string, d: string)
    ensures Join([a, b, c, d], " ") == a + " " + b + " " + c + " " + d
  {
    assert [a, b, c, d] == [a] + [b, c, d];
    JoinStep(a, [b, c, d], " ");
    Join3(b, c, d);
    PrefixWord(a, b + " " + c, d);
    PrefixWord(a, b, c);
  }

  lemma Join5(a: string, b: string, c: string, d: string, e: string)
    ensures Join([a, b, c, d, e], " ") == a + " " + b + " " + c + " " + d + " " + e
  {
    assert [a, b, c, d, e] == [a] + [b, c, d, e];
    JoinStep(a, [b, c, d, e], " ");
    Join4(b, c, d, e);
    PrefixWord(a, b + " " + c + " " + d, e);
    PrefixWord(a, b + " " + c, d);
    PrefixWord(a, b, c);
  }

  /** `result = arg1 op arg2` for a full quadruple. */
  lemma RenderBinary(op: string, a1: string, a2: string, res: string)
    ensures RenderQuad(Quad(Some(op), Some(a1), Some(a2), Some(res))) == res + " = " + a1 + " " + op + " " + a2
  {
    assert Fields(Quad(Some(op), Some(a1), Some(a2), Some(res))) == [res, "=", a1, op, a2];
    Join5(res, "=", a1, op, a2);
  }

  /** The words `x`, `=` and a trailing space, spaced out, spell `x = `. */
  lemma SpacedEquals(x: string)
    ensures x + " " + "=" + " " == x + " = "
  {
    AppendAssoc(x, " ", "=");
    AppendAssoc(x, " " + "=", " ");
    assert " " + "=" + " " == " = ";
  }

  /** A conditional jump renders with its label first: `L0 = t0 IF_FALSE`. */
  lemma RenderIfFalse(cond: string, lbl: string)
    ensures RenderQuad(Quad(Some("IF_FALSE"), Some(cond), None, Some(lbl))) == lbl + " = " + cond + " IF_FALSE"
  {
    assert Fields(Quad(Some("IF_FALSE"), Some(cond), None, Some(lbl))) == [lbl, "=", cond, "IF_FALSE"];
    Join4(lbl, "=", cond, "IF_FALSE");
    SpacedEquals(lbl);
    AppendAssoc(lbl + " = " + cond, " ", "IF_FALSE");
    assert " " + "IF_FALSE" == " IF_FALSE";
  }

  /** An operation with only a result renders as `result = op`: `L0 = LABEL`, `L0 = GOTO`. */
  lemma RenderResultOnly(op: string, lbl: string)
    ensures RenderQuad(Quad(Some(op), None, None, Some(lbl))) == lbl + " = " + op
  {
    assert Fields(Quad(Some(op), None, None, Some(lbl))) == [lbl, "=", op];
    Join3(lbl, "=", op);
    SpacedEquals(lbl);
  }

  /** Without a result: `op arg1 arg2`, absent operands left out. */
  lemma RenderNoResult(op: string, a1: string, a2: string)
    ensures RenderQuad(Quad(Some(op), Some(a1), Some(a2), None)) == op + " " + a1 + " " + a2
    ensures RenderQuad(Quad(Some(op), Some(a1), None, None)) == op + " " + a1
    ensures RenderQuad(Quad(Some(op), None, None, None)) == op
  {
    assert Fields(Quad(Some(op), Some(a1), Some(a2), None)) == [op, a1, a2];
    Join3(op, a1, a2);
    assert Fields(Quad(Some(op), Some(a1), None, None)) == [op, a1];
    Join2(op, a1);
  }

  /** The fields `get_instructions` collects for one quadruple, in the order it appends them. */
  method FieldsOf(q: Quad) returns (parts: seq<string>)
    ensures parts == Fields(q)
    ensures q.result.Some? ==> |parts| >= 2 && parts[0] == q.result.value && parts[1] == "="
  {
    if q.result.Some? {
      parts := [q.result.value, "="];
      if q.arg1.Some? { parts := parts + [q.arg1.value]; }
      assert parts == [q.result.value, "="] + Opt(q.arg1);
      if q.op.Some? { parts := parts + [q.op.value]; }
      assert parts == [q.result.value, "="] + Opt(q.arg1) + Opt(q.op);
      if q.arg2.Some? { parts := parts + [q.arg2.value]; }
    } else {
      parts := [];
      if q.op.Some? { parts := parts + [q.op.value]; }
      assert parts == Opt(q.op);
      if q.arg1.Some? { parts := parts + [q.arg1.value]; }
      assert parts == Opt(q.op) + Opt(q.arg1);
      if q.arg2.Some? { parts := parts + [q.arg2.value]; }
    }
  }

  /** `TACContext`. */
  class TACContext {
    var code: seq<Quad>
    var tempCount: nat
    var labelCount: nat

    function State(): TacState
      reads this
    {
      TacState(code, tempCount, labelCount)
    }

    /** `TACContext()`: no code, both counters at zero. */
    constructor ()
      ensures State() == FreshState
    {
      code := [];
      tempCount := 0;
      labelCount := 0;
    }

    /** `new_temp`: `t<n>` for the current count, never handed out before; only the temp counter moves. */
    method NewTemp() returns (t: string)
      modifies this
      ensures t == TempName(old(tempCount)) && t !in MintedTemps(old(tempCount))
      ensures tempCount == old(tempCount) + 1
      ensures code == old(code) && labelCount == old(labelCount)
      ensures (t, State()) == old(State()).MintTemp()
    {
      NextTempIsFresh(tempCount);
      t := "t" + NatToString(tempCount);
      tempCount := tempCount + 1;
    }

    /** `new_label`: `L<n>` for the current count, never handed out before; only the label counter moves. */
    method NewLabel() returns (l: string)
      modifies this
      ensures l == LabelName(old(labelCount)) && l !in MintedLabels(old(labelCount))
      ensures labelCount == old(labelCount) + 1
      ensures code == old(code) && tempCount == old(tempCount)
      ensures (l, State()) == old(State()).MintLabel()
    {
      NextLabelIsFresh(labelCount);
      l := "L" + NatToString(labelCount);
      labelCount := labelCount + 1;
    }

    /** `emit`: one quadruple appended at the end; earlier ones and both counters unchanged. */
    method Emit(op: Option<string>, arg1: Option<string>, arg2: Option<string>, result: Option<string>)
      modifies this
      ensures code == old(code) + [Quad(op, arg1, arg2, result)]
      ensures tempCount == old(tempCount) && labelCount == old(labelCount)
      ensures State() == old(State()).Emit(Quad(op, arg1, arg2, result))
    {
      code := code + [Quad(op, arg1, arg2, result)];
    }

    /** `get_instructions`: one rendered line per quadruple, in order; the context is only read. */
    method GetInstructions() returns (out: seq<string>)
      ensures out == RenderCode(code)
    {
      out := [];
      for k := 0 to |code|
        invariant |out| == k
        invariant forall j :: 0 <= j < k ==> out[j] == RenderQuad(code[j])
      {
        var parts := FieldsOf(code[k]);
        out := out + [Join(parts, " ")];
      }
    }
  }
}
