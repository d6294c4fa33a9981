/**
 * The semantic actions of generator/action_builder.py.  Each action receives
 * the values of a production's right-hand side and returns one value; the
 * expression actions build continuations ("tails") that, once applied to a
 * left operand, mint a temporary, emit one quadruple into the shared
 * three-address-code context and pass the temporary on.
 *
 * Python's closures become the `Cont` datatype; the values the parser keeps
 * on its value stack become `Value`.  The shared context is a `TACContext`;
 * every action that touches it is a method proved against the pure `Act`
 * (or `Apply`), which threads a `TacState` instead.
 */
module Actions {
  import opened Wrappers
  import opened PyStr
  import opened Tac

  /** A token as the generated lexer produces it; `line` is absent for that lexer's tokens. */
  datatype LexToken = LexToken(type_: string, value: string, line: Option<int>)

  /** What can sit on the parser's value stack. */
  datatype Value =
    | TokenVal(tok: LexToken)
    | StrVal(s: string)
    /** A `Node` built by an action: a kind, the children it was given, and its `value` field. */
    | NodeVal(kind: string, children: seq<Value>, value: Option<string>)
    | ContVal(k: Cont)
    | NoneVal

  /**
   * A continuation: the identity (an empty tail) or a pending operator
   * `(op, operand, tail)` waiting for its left operand.  `tail` is whatever
   * value the parser handed over, which need not be callable.
   */
  datatype Cont = Identity | Pending(op: string, operand: Value, tail: Value)

  /** The Python exceptions an action can raise on ill-shaped children. */
  datatype ActionError =
    | IndexError      // `children[i]` out of range
    | AttributeError  // `.value` or `.type` on an object without it
    | NotCallable     // calling a value that is not a continuation
    | UnpackError     // `left, op, right = children` on a list of another length

  /** Text of an object that is neither a node nor a continuation, whose rendering carries a memory address. */
  const ObjectText := "<object>"

  /** `str(x)`. */
  function Str(x: Value): string {
    match x
    case TokenVal(t) => "Token(" + t.type_ + ", " + t.value + ")"
    case StrVal(s) => s
    case NoneVal => "None"
    case _ => ObjectText
  }

  /** `v(x)`: a node's `value` field, the text of anything else. */
  function V(x: Value): (r: Option<string>)
    ensures x.NodeVal? ==> r == x.value
    ensures !x.NodeVal? ==> r == Some(Str(x))
  {
    if x.NodeVal? then x.value else Some(Str(x))
  }

  /** A string travels through `v` unchanged: the temporaries a tail passes on reach the next quadruple as they are. */
  lemma VOfString(s: string)
    ensures V(StrVal(s)) == Some(s)
  {
  }

  /** An argument handed raw to `emit`: `None` stays absent, anything else is rendered with `str`. */
  function Field(x: Value): (r: Option<string>)
    ensures r.None? <==> x.NoneVal?
  {
    if x.NoneVal? then None else Some(Str(x))
  }

  /** `x.value`, or None when `x` has no such attribute. */
  function ValueAttr(x: Value): (r: Option<Value>)
    ensures r.Some? <==> x.TokenVal? || x.NodeVal?
  {
    match x
    case TokenVal(t) => Some(StrVal(t.value))
    case NodeVal(_, _, value) => Some(if value.Some? then StrVal(value.value) else NoneVal)
    case _ => None
  }

  /** One constructor per action function. */
  datatype ActionKind =
    | Program | VarDecl | Assign
    | Expr | ExprTailAdd | ExprTailSub | ExprTailEmpty
    | Term | TermTailMul | TermTailDiv | TermTailEmpty
    | FactorId | FactorNum | FactorExpr
    | Relop | ConditionRel | ConditionOdd
    | IfStmt | WhileStmt

  /** `ACTIONS`: production signature to action. */
  const ACTIONS: map<string, ActionKind> := map[
    "<program> -> <decl_part> <compound_stmt> DOT" := Program,
    "<var_decl_part> -> VAR <ident_list> SEMI" := VarDecl,
    "<assign_stmt> -> IDENTIFIER ASSIGN <expr>" := Assign,
    "<expr> -> <term> <expr_tail>" := Expr,
    "<expr_tail> -> PLUS <term> <expr_tail>" := ExprTailAdd,
    "<expr_tail> -> MINUS <term> <expr_tail>" := ExprTailSub,
    "<expr_tail> -> ε" := ExprTailEmpty,
    "<term> -> <factor> <term_tail>" := Term,
    "<term_tail> -> MULT <factor> <term_tail>" := TermTailMul,
    "<term_tail> -> DIV <factor> <term_tail>" := TermTailDiv,
    "<term_tail> -> ε" := TermTailEmpty,
    "<factor> -> IDENTIFIER" := FactorId,
    "<factor> -> NUMBER" := FactorNum,
    "<factor> -> LPAREN <expr> RPAREN" := FactorExpr,
    "<relop> -> EQ" := Relop,
    "<relop> -> NE" := Relop,
    "<relop> -> LT" := Relop,
    "<relop> -> GT" := Relop,
    "<relop> -> LE" := Relop,
    "<relop> -> GE" := Relop,
    "<condition> -> <expr> <relop> <expr>" := ConditionRel,
    "<condition> -> ODD <expr>" := ConditionOdd,
    "<if_stmt> -> IF <condition> THEN <stmt>" := IfStmt,
    "<while_stmt> -> WHILE <condition> DO <stmt>" := WhileStmt
  ]

  // ------------------------------------------------------------ specification

  /**
   * Calling continuation `k` on `left` from context state `st`: the identity
   * returns `left`; a pending operator mints a temporary, emits
   * `(op, v(left), v(operand), t)` and calls its tail on `t`.  A pending
   * operator that succeeds returns the last temporary minted along the way.
   */
  function Apply(k: Cont, left: Value, st: TacState): (r: (Result<Value, ActionError>, TacState))
    ensures k.Identity? ==> r == (Ok(left), st)
    ensures k.Pending? && r.0.Ok? ==>
      r.1.tempCount > st.tempCount && r.0.value == StrVal(TempName(r.1.tempCount - 1))
    decreases k
  {
    match k
    case Identity => (Ok(left), st)
    case Pending(op, operand, tail) =>
      var (t, st1) := st.MintTemp();
      var st2 := st1.Emit(Quad(Some(op), V(left), V(operand), Some(t)));
      if tail.ContVal? then Apply(tail.k, StrVal(t), st2) else (Err(NotCallable), st2)
  }

  /** `children[1](children[0])`, shared by `expr` and `term`; it never mints a label. */
  function ApplyTail(children: seq<Value>, st: TacState): (r: (Result<Value, ActionError>, TacState))
    ensures r.1.labelCount == st.labelCount
  {
    if |children| < 2 then (Err(IndexError), st)
    else if !children[1].ContVal? then (Err(NotCallable), st)
    else
      ApplyOnlyGrows(children[1].k, children[0], st);
      Apply(children[1].k, children[0], st)
  }

  /** The closure an operator tail returns, shared by the four `*_tail_<op>` actions. */
  function TailFor(op: string, children: seq<Value>): Result<Value, ActionError> {
    if |children| < 3 then Err(IndexError) else Ok(ContVal(Pending(op, children[1], children[2])))
  }

  /** `children[0].value`, shared by `factor_id` and `factor_num`. */
  function FirstValue(children: seq<Value>): Result<Value, ActionError> {
    if |children| == 0 then Err(IndexError)
    else if ValueAttr(children[0]).None? then Err(AttributeError)
    else Ok(ValueAttr(children[0]).value)
  }

  /** The actions that can touch the context: the others only build a value. */
  predicate UsesContext(kind: ActionKind) {
    kind in {Assign, Expr, Term, ConditionRel, ConditionOdd, IfStmt, WhileStmt}
  }

  /**
   * Running action `kind` on `children` from context state `st`: its result
   * and the state after.  Only `if_stmt` and `while_stmt` mint labels, and an
   * action that does not use the context leaves it exactly as it was.
   */
  function Act(kind: ActionKind, children: seq<Value>, st: TacState): (r: (Result<Value, ActionError>, TacState))
    ensures r.1.labelCount != st.labelCount ==> kind == IfStmt || kind == WhileStmt
    ensures !UsesContext(kind) ==> r.1 == st
  {
    match kind
    case Program => (Ok(NodeVal("program", children, None)), st)
    case VarDecl => (Ok(NodeVal("var_decl", children, None)), st)
    case Assign =>
      if |children| == 0 then (Err(IndexError), st)
      else if ValueAttr(children[0]).None? then (Err(AttributeError), st)
      else if |children| < 3 then (Err(IndexError), st)
      else
        var left := ValueAttr(children[0]).value;
        (Ok(NodeVal("assign", children, None)),
         st.Emit(Quad(Some("ASSIGN"), V(children[2]), None, Field(left))))
    case Expr => ApplyTail(children, st)
    case Term => ApplyTail(children, st)
    case ExprTailAdd => (TailFor("ADD", children), st)
    case ExprTailSub => (TailFor("SUB", children), st)
    case TermTailMul => (TailFor("MUL", children), st)
    case TermTailDiv => (TailFor("DIV", children), st)
    case ExprTailEmpty => (Ok(ContVal(Identity)), st)
    case TermTailEmpty => (Ok(ContVal(Identity)), st)
    case FactorId => (FirstValue(children), st)
    case FactorNum => (FirstValue(children), st)
    case FactorExpr => (if |children| < 2 then Err(IndexError) else Ok(children[1]), st)
    case Relop =>
      if |children| == 0 then (Err(IndexError), st)
      else if !children[0].TokenVal? then (Err(AttributeError), st)
      else (Ok(StrVal(children[0].tok.type_)), st)
    case ConditionRel =>
      if |children| != 3 then (Err(UnpackError), st)
      else
        var (t, st1) := st.MintTemp();
        (Ok(StrVal(t)), st1.Emit(Quad(Field(children[1]), V(children[0]), V(children[2]), Some(t))))
    case ConditionOdd =>
      if |children| < 2 then (Err(IndexError), st)
      else
        var (t, st1) := st.MintTemp();
        (Ok(StrVal(t)), st1.Emit(Quad(Some("ODD"), V(children[1]), None, Some(t))))
    case IfStmt =>
      if |children| < 2 then (Err(IndexError), st)
      else
        var (lend, st1) := st.MintLabel();
        (Ok(NodeVal("if_stmt", children, None)),
         st1.Emit(Quad(Some("IF_FALSE"), V(children[1]), None, Some(lend))))
    case WhileStmt =>
      if |children| < 2 then (Err(IndexError), st)
      else
        var (lbegin, st1) := st.MintLabel();
        var (lend, st2) := st1.MintLabel();
        (Ok(NodeVal("while_stmt", children, None)),
         st2.Emit(Quad(Some("LABEL"), None, None, Some(lbegin)))
            .Emit(Quad(Some("IF_FALSE"), V(children[1]), None, Some(lend)))
            .Emit(Quad(Some("GOTO"), None, None, Some(lbegin)))
            .Emit(Quad(Some("LABEL"), None, None, Some(lend))))
  }

  // ------------------------------------------------------------ properties

  /** A context state that only grew from `st`: code extended at the end, counters never lower. */
  predicate Extends(st: TacState, st': TacState) {
    && st.code <= st'.code
    && st.tempCount <= st'.tempCount
    && st.labelCount <= st'.labelCount
  }

  /** Applying a continuation only appends code and never lowers a counter; it never mints a label. */
  lemma {:induction false} ApplyOnlyGrows(k: Cont, left: Value, st: TacState)
    ensures Extends(st, Apply(k, left, st).1)
    ensures Apply(k, left, st).1.labelCount == st.labelCount
    ensures |Apply(k, left, st).1.code| - |st.code| == Apply(k, left, st).1.tempCount - st.tempCount
    decreases k
  {
    match k
    case Identity =>
    case Pending(op, operand, tail) =>
      var (t, st1) := st.MintTemp();
      var st2 := st1.Emit(Quad(Some(op), V(left), V(operand), Some(t)));
      if tail.ContVal? {
        ApplyOnlyGrows(tail.k, StrVal(t), st2);
      }
  }

  /** Every action only appends code and never lowers a counter. */
  lemma ActOnlyGrows(kind: ActionKind, children: seq<Value>, st: TacState)
    ensures Extends(st, Act(kind, children, st).1)
  {
    match kind
    case Expr =>
      if |children| >= 2 && children[1].ContVal? {
        ApplyOnlyGrows(children[1].k, children[0], st);
      }
    case Term =>
      if |children| >= 2 && children[1].ContVal? {
        ApplyOnlyGrows(children[1].k, children[0], st);
      }
    case _ =>
  }

  /** The continuation a chain of operator tails builds: `op_1 x_1 op_2 x_2 ... op_n x_n`. */
  function Chain(links: seq<(string, Value)>): (k: Cont)
    ensures links == [] <==> k == Identity
  {
    if links == [] then Identity
    else Pending(links[0].0, links[0].1, ContVal(Chain(links[1..])))
  }

  /**
   * Reference for the code of a chain applied to `left` with the temporary
   * counter at `n`: the `k`-th quadruple combines the previous result (the
   * left operand for the first) with the `k`-th operand into `t(n+k)`.
   */
  function ChainCode(links: seq<(string, Value)>, left: Value, n: nat): seq<Quad> {
    seq(|links|, k requires 0 <= k < |links| =>
      Quad(Some(links[k].0),
           if k == 0 then V(left) else Some(TempName(n + k - 1)),
           V(links[k].1),
           Some(TempName(n + k))))
  }

  /**
   * A chain of `n` operators emits exactly `n` quadruples, left-associatively,
   * mints exactly `n` temporaries and returns the last one (or the left
   * operand itself for an empty chain).
   */
  lemma {:induction false} ChainIsLeftAssociative(links: seq<(string, Value)>, left: Value, st: TacState)
    ensures Apply(Chain(links), left, st).1 ==
            TacState(st.code + ChainCode(links, left, st.tempCount),
                     st.tempCount + |links|, st.labelCount)
    ensures Apply(Chain(links), left, st).0 ==
            Ok(if links == [] then left else StrVal(TempName(st.tempCount + |links| - 1)))
  {
    if links != [] {
      var n := st.tempCount;
      var t := TempName(n);
      var q0 := Quad(Some(links[0].0), V(left), V(links[0].1), Some(t));
      var st2 := TacState(st.code + [q0], n + 1, st.labelCount);
      ChainUnfold(links, left, st);
      ChainIsLeftAssociative(links[1..], StrVal(t), st2);
      ChainCodeCons(links, left, n);
      AppendAssoc(st.code, [q0], ChainCode(links[1..], StrVal(t), n + 1));
    }
  }

  /** The first link of a chain emits its quadruple and hands its temporary to the rest. */
  lemma ChainUnfold(links: seq<(string, Value)>, left: Value, st: TacState)
    requires links != []
    ensures Apply(Chain(links), left, st) ==
            Apply(Chain(links[1..]), StrVal(TempName(st.tempCount)),
                  TacState(st.code + [Quad(Some(links[0].0), V(left), V(links[0].1), Some(TempName(st.tempCount)))],
                           st.tempCount + 1, st.labelCount))
  {
  }

  /** The reference code of a chain is its first quadruple followed by the code of the rest. */
  lemma ChainCodeCons(links: seq<(string, Value)>, left: Value, n: nat)
    requires links != []
    ensures ChainCode(links, left, n) ==
            [Quad(Some(links[0].0), V(left), V(links[0].1), Some(TempName(n)))]
            + ChainCode(links[1..], StrVal(TempName(n)), n + 1)
  {
    var q0 := Quad(Some(links[0].0), V(left), V(links[0].1), Some(TempName(n)));
    var tailCode := ChainCode(links[1..], StrVal(TempName(n)), n + 1);
    forall k | 0 <= k < |links| ensures ChainCode(links, left, n)[k] == ([q0] + tailCode)[k] {
      if k > 0 {
        assert ([q0] + tailCode)[k] == tailCode[k - 1];
      }
    }
  }

  /** `expr_tail_empty` and `term_tail_empty` give the identity, and `expr`/`term` then return the head value untouched. */
  lemma EmptyTailIsIdentity(head: Value, children: seq<Value>, st: TacState)
    ensures Act(ExprTailEmpty, children, st) == (Ok(ContVal(Identity)), st)
    ensures Act(TermTailEmpty, children, st) == (Ok(ContVal(Identity)), st)
    ensures Act(Expr, [head, ContVal(Identity)], st) == (Ok(head), st)
    ensures Act(Term, [head, ContVal(Identity)], st) == (Ok(head), st)
  {
  }

  /** Building an operator tail emits nothing; it captures the operand and the rest of the tail. */
  lemma TailsAreDeferred(children: seq<Value>, st: TacState)
    requires |children| >= 3
    ensures Act(ExprTailAdd, children, st) == (Ok(ContVal(Pending("ADD", children[1], children[2]))), st)
    ensures Act(ExprTailSub, children, st) == (Ok(ContVal(Pending("SUB", children[1], children[2]))), st)
    ensures Act(TermTailMul, children, st) == (Ok(ContVal(Pending("MUL", children[1], children[2]))), st)
    ensures Act(TermTailDiv, children, st) == (Ok(ContVal(Pending("DIV", children[1], children[2]))), st)
  {
  }

  /** `factor_id`/`factor_num` return the token's text, `factor_expr` the middle child, `relop` the token's type. */
  lemma FactorsAndRelop(tok: LexToken, a: Value, b: Value, c: Value, st: TacState)
    ensures Act(FactorId, [TokenVal(tok)], st) == (Ok(StrVal(tok.value)), st)
    ensures Act(FactorNum, [TokenVal(tok)], st) == (Ok(StrVal(tok.value)), st)
    ensures Act(FactorExpr, [a, b, c], st) == (Ok(b), st)
    ensures Act(Relop, [TokenVal(tok)], st) == (Ok(StrVal(tok.type_)), st)
  {
  }

  /** `assign` emits exactly `ASSIGN v(rhs) -> identifier` and touches no counter. */
  lemma AssignShape(id: LexToken, op: Value, rhs: Value, st: TacState)
    ensures Act(Assign, [TokenVal(id), op, rhs], st).1 ==
            TacState(st.code + [Quad(Some("ASSIGN"), V(rhs), None, Some(id.value))], st.tempCount, st.labelCount)
  {
  }

  /** `condition_rel` mints one temporary, emits `(relop, v(l), v(r), t)` and returns `t`; any other arity fails before touching the context. */
  lemma ConditionRelShape(children: seq<Value>, st: TacState)
    ensures |children| == 3 ==>
      Act(ConditionRel, children, st) ==
        (Ok(StrVal(TempName(st.tempCount))),
         TacState(st.code + [Quad(Field(children[1]), V(children[0]), V(children[2]), Some(TempName(st.tempCount)))],
                  st.tempCount + 1, st.labelCount))
    ensures |children| != 3 ==> Act(ConditionRel, children, st) == (Err(UnpackError), st)
  {
  }

  /** `condition_odd` mints one temporary, emits `("ODD", v(e), None, t)` and returns `t`. */
  lemma ConditionOddShape(odd: Value, e: Value, st: TacState)
    ensures Act(ConditionOdd, [odd, e], st) ==
      (Ok(StrVal(TempName(st.tempCount))),
       TacState(st.code + [Quad(Some("ODD"), V(e), None, Some(TempName(st.tempCount)))],
                st.tempCount + 1, st.labelCount))
  {
  }

  /** `if_stmt` mints one label and emits exactly one `IF_FALSE` to it; no `LABEL` is emitted. */
  lemma IfShape(children: seq<Value>, st: TacState)
    requires |children| >= 2
    ensures var st' := Act(IfStmt, children, st).1;
      && st' == TacState(st.code + [Quad(Some("IF_FALSE"), V(children[1]), None, Some(LabelName(st.labelCount)))],
                         st.tempCount, st.labelCount + 1)
      && forall q :: q in st'.code[|st.code|..] ==> q.op != Some("LABEL")
  {
  }

  /**
   * `while_stmt` mints two consecutive labels, Lbegin then Lend, and emits
   * `LABEL Lbegin`, `IF_FALSE cond Lend`, `GOTO Lbegin`, `LABEL Lend` in that order.
   */
  lemma WhileShape(children: seq<Value>, st: TacState)
    requires |children| >= 2
    ensures var lbegin, lend := LabelName(st.labelCount), LabelName(st.labelCount + 1);
      && lbegin != lend
      && Act(WhileStmt, children, st).1 ==
         TacState(st.code + [Quad(Some("LABEL"), None, None, Some(lbegin)),
                             Quad(Some("IF_FALSE"), V(children[1]), None, Some(lend)),
                             Quad(Some("GOTO"), None, None, Some(lbegin)),
                             Quad(Some("LABEL"), None, None, Some(lend))],
                  st.tempCount, st.labelCount + 2)
  {
    LabelNamesDistinct(st.labelCount, st.labelCount + 1);
  }

  /** The code for `a + b - c` from a fresh context is `t0 = a ADD b` then `t1 = t0 SUB c`, as quadruples. */
  lemma AddThenSubCode()
    ensures Apply(Chain([("ADD", StrVal("b")), ("SUB", StrVal("c"))]), StrVal("a"), FreshState).1.code ==
            [Quad(Some("ADD"), Some("a"), Some("b"), Some("t0")),
             Quad(Some("SUB"), Some("t0"), Some("c"), Some("t1"))]
  {
    var links := [("ADD", StrVal("b")), ("SUB", StrVal("c"))];
    ChainIsLeftAssociative(links, StrVal("a"), FreshState);
    assert NatToString(0) == "0" && NatToString(1) == "1";
    assert TempName(0) == "t0" && TempName(1) == "t1";
    var code := ChainCode(links, StrVal("a"), 0);
    assert code[0] == Quad(Some("ADD"), Some("a"), Some("b"), Some("t0"));
    assert code[1] == Quad(Some("SUB"), Some("t0"), Some("c"), Some("t1"));
    assert [] + code == code;
  }

  // ------------------------------------------------------------ the actions on a live context

  /** Calling a continuation: the closure `f(left)` of an operator tail, or the identity lambda. */
  method ApplyCont(k: Cont, left: Value, ctx: TACContext) returns (r: Result<Value, ActionError>)
    modifies ctx
    ensures (r, ctx.State()) == Apply(k, left, old(ctx.State()))
    decreases k
  {
    match k {
      case Identity =>
        return Ok(left);
      case Pending(op, operand, tail) =>
        var t := ctx.NewTemp();
        ctx.Emit(Some(op), V(left), V(operand), Some(t));
        if !tail.ContVal? {
          return Err(NotCallable);
        }
        r := ApplyCont(tail.k, StrVal(t), ctx);
    }
  }

  /** `assign`. */
  method AssignAction(children: seq<Value>, ctx: TACContext) returns (r: Result<Value, ActionError>)
    modifies ctx
    ensures (r, ctx.State()) == Act(Assign, children, old(ctx.State()))
  {
    if |children| == 0 {
      return Err(IndexError);
    }
    var left := ValueAttr(children[0]);
    if left.None? {
      return Err(AttributeError);
    }
    if |children| < 3 {
      return Err(IndexError);
    }
    var right := children[2];
    ctx.Emit(Some("ASSIGN"), V(right), None, Field(left.value));
    return Ok(NodeVal("assign", children, None));
  }

  /** `condition_rel`. */
  method ConditionRelAction(children: seq<Value>, ctx: TACContext) returns (r: Result<Value, ActionError>)
    modifies ctx
    ensures (r, ctx.State()) == Act(ConditionRel, children, old(ctx.State()))
  {
    if |children| != 3 {
      return Err(UnpackError);
    }
    var left, op, right := children[0], children[1], children[2];
    var t := ctx.NewTemp();
    ctx.Emit(Field(op), V(left), V(right), Some(t));
    return Ok(StrVal(t));
  }

  /** `condition_odd`. */
  method ConditionOddAction(children: seq<Value>, ctx: TACContext) returns (r: Result<Value, ActionError>)
    modifies ctx
    ensures (r, ctx.State()) == Act(ConditionOdd, children, old(ctx.State()))
  {
    if |children| < 2 {
      return Err(IndexError);
    }
    var exprv := children[1];
    var t := ctx.NewTemp();
    ctx.Emit(Some("ODD"), V(exprv), None, Some(t));
    return Ok(StrVal(t));
  }

  /** `if_stmt`. */
  method IfStmtAction(children: seq<Value>, ctx: TACContext) returns (r: Result<Value, ActionError>)
    modifies ctx
    ensures (r, ctx.State()) == Act(IfStmt, children, old(ctx.State()))
  {
    if |children| < 2 {
      return Err(IndexError);
    }
    var cond := children[1];
    var lend := ctx.NewLabel();
    ctx.Emit(Some("IF_FALSE"), V(cond), None, Some(lend));
    return Ok(NodeVal("if_stmt", children, None));
  }

  /** `while_stmt`. */
  method WhileStmtAction(children: seq<Value>, ctx: TACContext) returns (r: Result<Value, ActionError>)
    modifies ctx
    ensures (r, ctx.State()) == Act(WhileStmt, children, old(ctx.State()))
  {
    if |children| < 2 {
      return Err(IndexError);
    }
    var cond := children[1];
    var lbegin := ctx.NewLabel();
    var lend := ctx.NewLabel();
    ctx.Emit(Some("LABEL"), None, None, Some(lbegin));
    ctx.Emit(Some("IF_FALSE"), V(cond), None, Some(lend));
    ctx.Emit(Some("GOTO"), None, None, Some(lbegin));
    ctx.Emit(Some("LABEL"), None, None, Some(lend));
    return Ok(NodeVal("while_stmt", children, None));
  }

  /** `ACTIONS[key](children)` for the action registered under `kind`. */
  method RunAction(kind: ActionKind, children: seq<Value>, ctx: TACContext) returns (r: Result<Value, ActionError>)
    modifies ctx
    ensures (r, ctx.State()) == Act(kind, children, old(ctx.State()))
  {
    match kind {
      case Assign => r := AssignAction(children, ctx);
      case Expr | Term =>
        if |children| < 2 {
          return Err(IndexError);
        }
        if !children[1].ContVal? {
          return Err(NotCallable);
        }
        r := ApplyCont(children[1].k, children[0], ctx);
      case ConditionRel => r := ConditionRelAction(children, ctx);
      case ConditionOdd => r := ConditionOddAction(children, ctx);
      case IfStmt => r := IfStmtAction(children, ctx);
      case WhileStmt => r := WhileStmtAction(children, ctx);
      case _ => r := Act(kind, children, ctx.State()).0;
    }
  }
}
