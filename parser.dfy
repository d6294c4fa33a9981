/**
 * The table-driven LL(1) engine of generated_compiler/parser.py: a symbol
 * stack (top at the end) holding grammar symbols and `@REDUCE@` markers, a
 * value stack, and a cursor into the token list.  A nonterminal on top is
 * expanded by the predictive table, a terminal is matched against the
 * lookahead, and a marker reduces the values of a finished production with
 * the semantic action registered under its signature.
 *
 * `Step`/`Run` state the machine on values; the method `Parse` is the loop
 * itself, driving a live `TACContext`, and is proved to compute `Run`.
 */
module Parser {
  import opened Wrappers
  import opened PyStr
  import opened Tac
  import opened Actions

  /** An entry of the symbol stack: a grammar symbol or the marker `('@REDUCE@', lhs, rhs)`. */
  datatype Item = Sym(name: string) | ReduceMark(lhs: string, rhs: seq<string>)

  /** A predictive table: (nonterminal, lookahead terminal) to the production body to expand. */
  type Table = map<(string, string), seq<string>>

  /** The ways `parse` fails. */
  datatype ParseError =
    /** A terminal on top differs from the lookahead token. */
    | Mismatch(line: Option<int>, expectedTerminal: string, foundType: string, foundValue: string)
    /** No table entry for the nonterminal on top and the lookahead; `expected` is every lookahead it has an entry for. */
    | NoEntry(line: Option<int>, foundType: string, foundValue: string, expected: set<string>)
    /** Either error above with the lookahead at the end sentinel: reading `tokens[i]` for the report fails. */
    | IndexPastEnd
    /** The semantic action registered under `key` raised. */
    | ActionFailed(key: string, error: ActionError)
    /** The step budget ran out (see `Run`). */
    | OutOfFuel

  /** `[t.type for t in tokens] + ['$']`. */
  function TokenTypes(tokens: seq<LexToken>): (r: seq<string>)
    ensures |r| == |tokens| + 1 && r[|tokens|] == "$"
    ensures forall k :: 0 <= k < |tokens| ==> r[k] == tokens[k].type_
  {
    seq(|tokens|, k requires 0 <= k < |tokens| => tokens[k].type_) + ["$"]
  }

  /** `s[k:]` with Python's treatment of negative and out-of-range `k`. */
  function SliceFrom<T>(s: seq<T>, k: int): seq<T> {
    var start := if k < 0 then (if |s| + k < 0 then 0 else |s| + k) else (if k > |s| then |s| else k);
    s[start..]
  }

  /** `s[:k]` with Python's treatment of negative and out-of-range `k`. */
  function SliceTo<T>(s: seq<T>, k: int): seq<T> {
    var end := if k < 0 then (if |s| + k < 0 then 0 else |s| + k) else (if k > |s| then |s| else k);
    s[..end]
  }

  /** `s[:k] + s[k:]` is `s` for every `k`: deleting the children and keeping them loses no value. */
  lemma SliceSplit<T>(s: seq<T>, k: int)
    ensures SliceTo(s, k) + SliceFrom(s, k) == s
  {
  }

  /** The action signature of a production: `lhs -> sym sym ...`. */
  function ProductionKey(lhs: string, rhs: seq<string>): string {
    lhs + " -> " + Join(rhs, " ")
  }

  /** The symbols of a production body other than `ε`, in order. */
  function NonEps(prod: seq<string>): (r: seq<string>)
    ensures |r| <= |prod|
    ensures forall k :: 0 <= k < |r| ==> r[k] != "ε" && r[k] in prod
  {
    if prod == [] then []
    else (if prod[0] != "ε" then [prod[0]] else []) + NonEps(prod[1..])
  }

  /** What an expansion pushes after its marker: the non-`ε` symbols of `prod` from last to first. */
  function PushOrder(prod: seq<string>): seq<Item> {
    if prod == [] then []
    else PushOrder(prod[1..]) + (if prod[0] != "ε" then [Sym(prod[0])] else [])
  }

  /**
   * The pushed symbols are popped in the production's own order: the `k`-th
   * item from the top is the `k`-th non-`ε` symbol.
   */
  lemma {:induction false} PushOrderPopsInOrder(prod: seq<string>)
    ensures |PushOrder(prod)| == |NonEps(prod)|
    ensures forall k :: 0 <= k < |NonEps(prod)| ==>
      PushOrder(prod)[|PushOrder(prod)| - 1 - k] == Sym(NonEps(prod)[k])
  {
    PushOrderLength(prod);
    forall k | 0 <= k < |NonEps(prod)|
      ensures PushOrder(prod)[|PushOrder(prod)| - 1 - k] == Sym(NonEps(prod)[k])
    {
      PushOrderAt(prod, k);
    }
  }

  lemma {:induction false} PushOrderLength(prod: seq<string>)
    ensures |PushOrder(prod)| == |NonEps(prod)|
  {
    if prod != [] {
      PushOrderLength(prod[1..]);
    }
  }

  /** The `k`-th item from the top of the pushed symbols is the `k`-th non-`ε` symbol. */
  lemma {:induction false} PushOrderAt(prod: seq<string>, k: nat)
    requires k < |NonEps(prod)|
    ensures |PushOrder(prod)| == |NonEps(prod)|
    ensures PushOrder(prod)[|PushOrder(prod)| - 1 - k] == Sym(NonEps(prod)[k])
  {
    PushOrderLength(prod);
    var q, m := PushOrder(prod[1..]), NonEps(prod[1..]);
    PushOrderLength(prod[1..]);
    if prod[0] != "ε" {
      assert PushOrder(prod) == q + [Sym(prod[0])];
      assert NonEps(prod) == [prod[0]] + m;
      if k > 0 {
        PushOrderAt(prod[1..], k - 1);
      }
    } else {
      assert PushOrder(prod) == q && NonEps(prod) == m;
      PushOrderAt(prod[1..], k);
    }
  }

  /** A configuration of the machine between two iterations. */
  datatype Config = Config(stack: seq<Item>, values: seq<Value>, pos: nat, tac: TacState)

  /** What `parse` starts from: `['$', '<program>']`, no values, cursor at 0. */
  function Start(tac: TacState): Config {
    Config([Sym("$"), Sym("<program>")], [], 0, tac)
  }

  /**
   * What holds before every iteration: the `$` pushed first is still at the
   * bottom of a non-empty stack, and the cursor is within `0..len(tokens)`.
   */
  predicate Valid(tokens: seq<LexToken>, c: Config) {
    c.stack != [] && c.stack[0] == Sym("$") && c.pos <= |tokens|
  }

  /** The outcome of one iteration: the next configuration, or the end of `parse` with the context state it leaves. */
  datatype Outcome = Next(c: Config) | Stop(r: Result<Value, ParseError>, tac: TacState)

  /**
   * The values a reduction of `rhs` takes and the values it leaves below
   * them: together they are the whole value stack, and `['ε']` takes none.
   */
  function TakeChildren(values: seq<Value>, rhs: seq<string>): (r: (seq<Value>, seq<Value>))
    ensures r.1 + r.0 == values
    ensures rhs == ["ε"] ==> r.0 == []
  {
    SliceSplit(values, -|rhs|);
    if rhs != ["ε"] then (SliceFrom(values, -|rhs|), SliceTo(values, -|rhs|)) else ([], values)
  }

  /**
   * One iteration of the `while stack` loop.  The cursor never moves back
   * and advances by at most one token; the context only grows.
   */
  function Step(tokens: seq<LexToken>, table: Table, c: Config): (o: Outcome)
    requires Valid(tokens, c)
    ensures o.Next? ==> c.pos <= o.c.pos <= c.pos + 1 && Extends(c.tac, o.c.tac)
    ensures o.Stop? ==> Extends(c.tac, o.tac)
  {
    var top := c.stack[|c.stack| - 1];
    var stack := c.stack[..|c.stack| - 1];
    var lookahead := TokenTypes(tokens)[c.pos];
    if top == Sym("$") && lookahead == "$" then
      Stop(Ok(if c.values != [] then c.values[|c.values| - 1] else NoneVal), c.tac)
    else if top.ReduceMark? then
      var (children, below) := TakeChildren(c.values, top.rhs);
      var key := ProductionKey(top.lhs, top.rhs);
      if key in ACTIONS then
        ActOnlyGrows(ACTIONS[key], children, c.tac);
        var (r, tac') := Act(ACTIONS[key], children, c.tac);
        if r.Err? then Stop(Err(ActionFailed(key, r.error)), tac')
        else Next(Config(stack, below + [r.value], c.pos, tac'))
      else Next(Config(stack, below + [NoneVal], c.pos, c.tac))
    else if !StartsWith(top.name, "<") then
      if top.name == lookahead then
        Next(Config(stack, c.values + [TokenVal(tokens[c.pos])], c.pos + 1, c.tac))
      else if c.pos == |tokens| then Stop(Err(IndexPastEnd), c.tac)
      else
        var tok := tokens[c.pos];
        Stop(Err(Mismatch(tok.line, top.name, tok.type_, tok.value)), c.tac)
    else if (top.name, lookahead) !in table then
      if c.pos == |tokens| then Stop(Err(IndexPastEnd), c.tac)
      else
        var tok := tokens[c.pos];
        Stop(Err(NoEntry(tok.line, tok.type_, tok.value, Expected(table, top.name))), c.tac)
    else
      var prod := table[(top.name, lookahead)];
      Next(Config(stack + [ReduceMark(top.name, prod)] + PushOrder(prod), c.values, c.pos, c.tac))
  }

  /** Every lookahead the table can expand `nonterminal` on. */
  function Expected(table: Table, nonterminal: string): set<string> {
    set key | key in table && key.0 == nonterminal :: key.1
  }

  /**
   * `parse` run for at most `fuel` iterations from `c`: its result and the
   * context state it leaves.  A run that needs more iterations ends in
   * `OutOfFuel`.  Code emitted during a parse is never taken back.
   */
  function Run(tokens: seq<LexToken>, table: Table, c: Config, fuel: nat): (r: (Result<Value, ParseError>, TacState))
    requires Valid(tokens, c)
    ensures Extends(c.tac, r.1)
    decreases fuel
  {
    if fuel == 0 then (Err(OutOfFuel), c.tac)
    else
      StepKeepsValid(tokens, table, c);
      match Step(tokens, table, c)
      case Stop(r, tac) => (r, tac)
      case Next(c') => Run(tokens, table, c', fuel - 1)
  }

  // ------------------------------------------------------------ properties of one step

  /** The end marker `$` is a terminal: it does not start with `<`. */
  lemma EndMarkerIsTerminal()
    ensures !StartsWith("$", "<")
  {
    assert "$"[..1] == "$" != "<";
  }

  /**
   * Every iteration that does not end `parse` keeps `$` at the bottom of a
   * non-empty stack and the cursor within `0..len(tokens)`; so the loop never
   * finds the stack empty, and the final `return None` is never reached.
   */
  lemma StepKeepsValid(tokens: seq<LexToken>, table: Table, c: Config)
    requires Valid(tokens, c)
    ensures Step(tokens, table, c).Next? ==> Valid(tokens, Step(tokens, table, c).c)
  {
    EndMarkerIsTerminal();
  }

  /** `parse` accepts exactly when a popped `$` meets the `$` lookahead, with the top value (None for an empty value stack). */
  lemma AcceptsExactly(tokens: seq<LexToken>, table: Table, c: Config)
    requires Valid(tokens, c)
    ensures var o := Step(tokens, table, c);
      (o.Stop? && o.r.Ok?) <==>
      (c.stack[|c.stack| - 1] == Sym("$") && TokenTypes(tokens)[c.pos] == "$")
    ensures var o := Step(tokens, table, c);
      o.Stop? && o.r.Ok? ==> o.r.value == (if c.values == [] then NoneVal else c.values[|c.values| - 1])
  {
  }

  /** A terminal equal to the lookahead pushes the current token and advances the cursor by exactly one. */
  lemma TerminalShifts(tokens: seq<LexToken>, table: Table, c: Config)
    requires Valid(tokens, c)
    requires c.stack[|c.stack| - 1].Sym? && !StartsWith(c.stack[|c.stack| - 1].name, "<")
    requires c.stack[|c.stack| - 1].name == TokenTypes(tokens)[c.pos] != "$"
    ensures c.pos < |tokens|
    ensures Step(tokens, table, c) ==
      Next(Config(c.stack[..|c.stack| - 1], c.values + [TokenVal(tokens[c.pos])], c.pos + 1, c.tac))
  {
  }

  /**
   * A terminal different from the lookahead is a syntax error naming the
   * expected terminal and the token found; at the end sentinel there is no
   * token to name and the report itself fails.
   */
  lemma TerminalMismatchFails(tokens: seq<LexToken>, table: Table, c: Config)
    requires Valid(tokens, c)
    requires c.stack[|c.stack| - 1].Sym? && !StartsWith(c.stack[|c.stack| - 1].name, "<")
    requires c.stack[|c.stack| - 1].name != TokenTypes(tokens)[c.pos]
    ensures c.pos == |tokens| ==> Step(tokens, table, c) == Stop(Err(IndexPastEnd), c.tac)
    ensures c.pos < |tokens| ==>
      Step(tokens, table, c) ==
        Stop(Err(Mismatch(tokens[c.pos].line, c.stack[|c.stack| - 1].name, tokens[c.pos].type_, tokens[c.pos].value)), c.tac)
  {
  }

  /** A nonterminal without an entry for the lookahead is a syntax error listing every lookahead it does have an entry for. */
  lemma MissingEntryFails(tokens: seq<LexToken>, table: Table, c: Config)
    requires Valid(tokens, c)
    requires c.stack[|c.stack| - 1].Sym? && StartsWith(c.stack[|c.stack| - 1].name, "<")
    requires (c.stack[|c.stack| - 1].name, TokenTypes(tokens)[c.pos]) !in table
    ensures c.pos == |tokens| ==> Step(tokens, table, c) == Stop(Err(IndexPastEnd), c.tac)
    ensures c.pos < |tokens| ==>
      && Step(tokens, table, c).Stop?
      && Step(tokens, table, c).r == Err(NoEntry(tokens[c.pos].line, tokens[c.pos].type_, tokens[c.pos].value,
                                                 Expected(table, c.stack[|c.stack| - 1].name)))
      && forall t: string :: t in Step(tokens, table, c).r.error.expected <==> (c.stack[|c.stack| - 1].name, t) in table
  {
    EndMarkerIsTerminal();
    var name := c.stack[|c.stack| - 1].name;
    forall t ensures t in Expected(table, name) <==> (name, t) in table {
      if (name, t) in table {
        assert (name, t).0 == name;
      }
    }
  }

  /**
   * A nonterminal with an entry pushes its marker and then the non-`ε`
   * symbols of the production, which are popped in the production's order
   * before the marker; nothing else changes.
   */
  lemma ExpandPushesProduction(tokens: seq<LexToken>, table: Table, c: Config)
    requires Valid(tokens, c)
    requires c.stack[|c.stack| - 1].Sym? && StartsWith(c.stack[|c.stack| - 1].name, "<")
    requires (c.stack[|c.stack| - 1].name, TokenTypes(tokens)[c.pos]) in table
    ensures var name := c.stack[|c.stack| - 1].name;
      var prod := table[(name, TokenTypes(tokens)[c.pos])];
      var n := |c.stack| - 1;
      var o := Step(tokens, table, c);
      && o.Next? && o.c.values == c.values && o.c.pos == c.pos && o.c.tac == c.tac
      && |o.c.stack| == n + 1 + |NonEps(prod)|
      && o.c.stack[..n] == c.stack[..n]
      && o.c.stack[n] == ReduceMark(name, prod)
      && forall k :: 0 <= k < |NonEps(prod)| ==> o.c.stack[|o.c.stack| - 1 - k] == Sym(NonEps(prod)[k])
  {
    EndMarkerIsTerminal();
    var name := c.stack[|c.stack| - 1].name;
    var prod := table[(name, TokenTypes(tokens)[c.pos])];
    PushOrderPopsInOrder(prod);
  }

  /**
   * Taking children: none for `['ε']`; the last `len(rhs)` values in order
   * when there are that many; the whole stack for an empty body (`[-0:]`)
   * or a body longer than the stack.  The values below are the rest.
   */
  lemma TakeChildrenShape(values: seq<Value>, rhs: seq<string>)
    ensures rhs != ["ε"] && 0 < |rhs| <= |values| ==>
      TakeChildren(values, rhs).0 == values[|values| - |rhs|..]
    ensures rhs != ["ε"] && (|rhs| == 0 || |rhs| > |values|) ==>
      TakeChildren(values, rhs) == (values, [])
  {
    SliceSplit(values, -|rhs|);
  }

  /**
   * A registered action that fails ends the parse at once with that failure:
   * nothing more is pushed or popped, and the code the action emitted before
   * it failed stays emitted.
   */
  lemma FailingActionStops(tokens: seq<LexToken>, table: Table, c: Config, fuel: nat)
    requires Valid(tokens, c) && fuel > 0
    requires c.stack[|c.stack| - 1].ReduceMark?
    requires var top := c.stack[|c.stack| - 1];
      var key := ProductionKey(top.lhs, top.rhs);
      key in ACTIONS && Act(ACTIONS[key], TakeChildren(c.values, top.rhs).0, c.tac).0.Err?
    ensures var top := c.stack[|c.stack| - 1];
      var key := ProductionKey(top.lhs, top.rhs);
      var res := Act(ACTIONS[key], TakeChildren(c.values, top.rhs).0, c.tac);
      && Step(tokens, table, c) == Stop(Err(ActionFailed(key, res.0.error)), res.1)
      && Run(tokens, table, c, fuel) == (Err(ActionFailed(key, res.0.error)), res.1)
  {
    RunOnce(tokens, table, c, fuel);
  }

  /**
   * A marker on top pops its children and pushes exactly one value onto the
   * values below them, which stay untouched: the result of the registered
   * action run on the children in order, or None for an unregistered
   * production, which leaves the context alone.  The value stack's length
   * so changes by `1 - len(rhs)` (by one for `ε`, to one for an empty body).
   */
  lemma ReducePushesOne(tokens: seq<LexToken>, table: Table, c: Config)
    requires Valid(tokens, c)
    requires c.stack[|c.stack| - 1].ReduceMark?
    requires Step(tokens, table, c).Next?
    ensures var rhs := c.stack[|c.stack| - 1].rhs;
      var c' := Step(tokens, table, c).c;
      && c'.stack == c.stack[..|c.stack| - 1] && c'.pos == c.pos
      && (rhs == ["ε"] ==> |c'.values| == |c.values| + 1)
      && (rhs != ["ε"] && 0 < |rhs| <= |c.values| ==> |c'.values| == |c.values| + 1 - |rhs|)
      && (rhs == [] ==> |c'.values| == 1)
    ensures var top := c.stack[|c.stack| - 1];
      var c' := Step(tokens, table, c).c;
      var key := ProductionKey(top.lhs, top.rhs);
      var children := TakeChildren(c.values, top.rhs).0;
      var below := TakeChildren(c.values, top.rhs).1;
      && (key in ACTIONS ==>
            && Act(ACTIONS[key], children, c.tac).0.Ok?
            && c'.values == below + [Act(ACTIONS[key], children, c.tac).0.value]
            && c'.tac == Act(ACTIONS[key], children, c.tac).1)
      && (key !in ACTIONS ==> c'.values == below + [NoneVal] && c'.tac == c.tac)
  {
    TakeChildrenShape(c.values, c.stack[|c.stack| - 1].rhs);
  }

  // ------------------------------------------------------------ the loop

  /** One unfolding of `Run`. */
  lemma RunOnce(tokens: seq<LexToken>, table: Table, c: Config, fuel: nat)
    requires Valid(tokens, c) && fuel > 0
    ensures Step(tokens, table, c).Stop? ==>
      Run(tokens, table, c, fuel) == (Step(tokens, table, c).r, Step(tokens, table, c).tac)
    ensures Step(tokens, table, c).Next? ==>
      Valid(tokens, Step(tokens, table, c).c) &&
      Run(tokens, table, c, fuel) == Run(tokens, table, Step(tokens, table, c).c, fuel - 1)
  {
    StepKeepsValid(tokens, table, c);
  }

  /** `parse(tokens)`, with the context the actions emit into and a bound on the number of iterations. */
  method Parse(tokens: seq<LexToken>, table: Table, ctx: TACContext, fuel: nat) returns (r: Result<Value, ParseError>)
    modifies ctx
    ensures (r, ctx.State()) == Run(tokens, table, Start(old(ctx.State())), fuel)
  {
    var tokenTypes := TokenTypes(tokens);
    var valueStack: seq<Value> := [];
    var stack: seq<Item> := [Sym("$"), Sym("<program>")];
    var i: nat := 0;
    var steps: nat := 0;
    while steps < fuel
      invariant steps <= fuel
      invariant Valid(tokens, Config(stack, valueStack, i, ctx.State()))
      invariant Run(tokens, table, Config(stack, valueStack, i, ctx.State()), fuel - steps) ==
                Run(tokens, table, Start(old(ctx.State())), fuel)
      decreases fuel - steps
    {
      ghost var c := Config(stack, valueStack, i, ctx.State());
      RunOnce(tokens, table, c, fuel - steps);
      var done;
      done, r, stack, valueStack, i := ParseStep(tokens, tokenTypes, table, ctx, stack, valueStack, i);
      if done {
        return;
      }
      steps := steps + 1;
    }
    return Err(OutOfFuel);
  }

  /** One iteration of the `while stack` loop on the live context: either `parse` returns `r`, or it goes on from the new stacks and cursor. */
  method ParseStep(tokens: seq<LexToken>, tokenTypes: seq<string>, table: Table, ctx: TACContext,
                   stack0: seq<Item>, values0: seq<Value>, pos0: nat)
      returns (done: bool, r: Result<Value, ParseError>, stack: seq<Item>, valueStack: seq<Value>, i: nat)
    requires tokenTypes == TokenTypes(tokens)
    requires Valid(tokens, Config(stack0, values0, pos0, ctx.State()))
    modifies ctx
    ensures done ==> Step(tokens, table, Config(stack0, values0, pos0, old(ctx.State()))) == Stop(r, ctx.State())
    ensures !done ==> Step(tokens, table, Config(stack0, values0, pos0, old(ctx.State()))) ==
                      Next(Config(stack, valueStack, i, ctx.State()))
  {
    ghost var c := Config(stack0, values0, pos0, ctx.State());
    EndMarkerIsTerminal();
    stack, valueStack, i := stack0, values0, pos0;
    r := Err(OutOfFuel);
    var top := stack[|stack| - 1];
    stack := stack[..|stack| - 1];
    var lookahead := tokenTypes[i];

    if top == Sym("$") && lookahead == "$" {
      return true, Ok(if valueStack != [] then valueStack[|valueStack| - 1] else NoneVal), stack, valueStack, i;
    }

    if top.ReduceMark? {
      var children: seq<Value>;
      if top.rhs != ["ε"] {
        children := SliceFrom(valueStack, -|top.rhs|);
        valueStack := SliceTo(valueStack, -|top.rhs|);
      } else {
        children := [];
      }
      assert (children, valueStack) == TakeChildren(c.values, top.rhs);
      var key := ProductionKey(top.lhs, top.rhs);
      var node: Value;
      if key in ACTIONS {
        var res := RunAction(ACTIONS[key], children, ctx);
        if res.Err? {
          return true, Err(ActionFailed(key, res.error)), stack, valueStack, i;
        }
        node := res.value;
      } else {
        node := NoneVal;
      }
      valueStack := valueStack + [node];
      return false, r, stack, valueStack, i;
    }

    if !StartsWith(top.name, "<") {
      if top.name == lookahead {
        valueStack := valueStack + [TokenVal(tokens[i])];
        return false, r, stack, valueStack, i + 1;
      }
      if i == |tokens| {
        return true, Err(IndexPastEnd), stack, valueStack, i;
      }
      var tok := tokens[i];
      return true, Err(Mismatch(tok.line, top.name, tok.type_, tok.value)), stack, valueStack, i;
    }

    if (top.name, lookahead) !in table {
      if i == |tokens| {
        return true, Err(IndexPastEnd), stack, valueStack, i;
      }
      var tok := tokens[i];
      return true, Err(NoEntry(tok.line, tok.type_, tok.value, Expected(table, top.name))), stack, valueStack, i;
    }

    var prod := table[(top.name, lookahead)];
    stack := stack + [ReduceMark(top.name, prod)];
    stack := PushReversed(stack, prod);
    return false, r, stack, valueStack, i;
  }

  /** `for sym in reversed(prod): if sym != 'ε': stack.append(sym)`. */
  method PushReversed(stack: seq<Item>, prod: seq<string>) returns (stack': seq<Item>)
    ensures stack' == stack + PushOrder(prod)
  {
    stack' := stack;
    var k := |prod|;
    while k > 0
      invariant 0 <= k <= |prod|
      invariant stack' == stack + PushOrder(prod[k..])
      decreases k
    {
      k := k - 1;
      var sym := prod[k];
      assert prod[k..][1..] == prod[k + 1..];
      if sym != "ε" {
        stack' := stack' + [Sym(sym)];
      }
    }
    assert prod[0..] == prod;
  }

  // ------------------------------------------------------------ the generated table

  /** `PARSE_TABLE` as generated for the PL/0-style grammar. */
  const PARSE_TABLE: Table := map[
    ("<assign_stmt>", "IDENTIFIER") := ["IDENTIFIER", "ASSIGN", "<expr>"],
    ("<call_stmt>", "CALL") := ["CALL", "IDENTIFIER"],
    ("<compound_stmt>", "BEGIN") := ["BEGIN", "<stmt_list>", "END"],
    ("<condition>", "IDENTIFIER") := ["<expr>", "<relop>", "<expr>"],
    ("<condition>", "LPAREN") := ["<expr>", "<relop>", "<expr>"],
    ("<condition>", "NUMBER") := ["<expr>", "<relop>", "<expr>"],
    ("<condition>", "ODD") := ["ODD", "<expr>"],
    ("<const_decl_part>", "CONST") := ["CONST", "<const_list>", "SEMI"],
    ("<const_list>", "IDENTIFIER") := ["IDENTIFIER", "EQ", "NUMBER", "<const_list_tail>"],
    ("<const_list_tail>", "COMMA") := ["COMMA", "IDENTIFIER", "EQ", "NUMBER", "<const_list_tail>"],
    ("<const_list_tail>", "SEMI") := ["ε"],
    ("<decl_part>", "BEGIN") := ["ε"],
    ("<decl_part>", "CONST") := ["<const_decl_part>", "<var_decl_part>", "<proc_decl_part>"],
    ("<decl_part>", "PROCEDURE") := ["<proc_decl_part>"],
    ("<decl_part>", "VAR") := ["<var_decl_part>", "<proc_decl_part>"],
    ("<expr>", "IDENTIFIER") := ["<term>", "<expr_tail>"],
    ("<expr>", "LPAREN") := ["<term>", "<expr_tail>"],
    ("<expr>", "NUMBER") := ["<term>", "<expr_tail>"],
    ("<expr_tail>", "DO") := ["ε"],
    ("<expr_tail>", "END") := ["ε"],
    ("<expr_tail>", "EQ") := ["ε"],
    ("<expr_tail>", "GE") := ["ε"],
    ("<expr_tail>", "GT") := ["ε"],
    ("<expr_tail>", "LE") := ["ε"],
    ("<expr_tail>", "LT") := ["ε"],
    ("<expr_tail>", "MINUS") := ["MINUS", "<term>", "<expr_tail>"],
    ("<expr_tail>", "NE") := ["ε"],
    ("<expr_tail>", "PLUS") := ["PLUS", "<term>", "<expr_tail>"],
    ("<expr_tail>", "RPAREN") := ["ε"],
    ("<expr_tail>", "SEMI") := ["ε"],
    ("<expr_tail>", "THEN") := ["ε"],
    ("<factor>", "IDENTIFIER") := ["IDENTIFIER"],
    ("<factor>", "LPAREN") := ["LPAREN", "<expr>", "RPAREN"],
    ("<factor>", "NUMBER") := ["NUMBER"],
    ("<ident_list>", "IDENTIFIER") := ["IDENTIFIER", "<ident_list_rest>"],
    ("<ident_list_rest>", "COMMA") := ["COMMA", "IDENTIFIER", "<ident_list_rest>"],
    ("<ident_list_rest>", "SEMI") := ["ε"],
    ("<if_stmt>", "IF") := ["IF", "<condition>", "THEN", "<stmt>"],
    ("<proc_decl>", "PROCEDURE") := ["PROCEDURE", "IDENTIFIER", "SEMI", "<program>", "SEMI"],
    ("<proc_decl_part>", "BEGIN") := ["ε"],
    ("<proc_decl_part>", "PROCEDURE") := ["<proc_decl>", "<proc_decl_part>"],
    ("<program>", "BEGIN") := ["<decl_part>", "<compound_stmt>", "DOT"],
    ("<program>", "CONST") := ["<decl_part>", "<compound_stmt>", "DOT"],
    ("<program>", "PROCEDURE") := ["<decl_part>", "<compound_stmt>", "DOT"],
    ("<program>", "VAR") := ["<decl_part>", "<compound_stmt>", "DOT"],
    ("<relop>", "EQ") := ["EQ"],
    ("<relop>", "GE") := ["GE"],
    ("<relop>", "GT") := ["GT"],
    ("<relop>", "LE") := ["LE"],
    ("<relop>", "LT") := ["LT"],
    ("<relop>", "NE") := ["NE"],
    ("<stmt>", "BEGIN") := ["<compound_stmt>"],
    ("<stmt>", "CALL") := ["<call_stmt>"],
    ("<stmt>", "END") := ["ε"],
    ("<stmt>", "IDENTIFIER") := ["<assign_stmt>"],
    ("<stmt>", "IF") := ["<if_stmt>"],
    ("<stmt>", "SEMI") := ["ε"],
    ("<stmt>", "WHILE") := ["<while_stmt>"],
    ("<stmt_list>", "BEGIN") := ["<stmt>", "<stmt_list_tail>"],
    ("<stmt_list>", "CALL") := ["<stmt>", "<stmt_list_tail>"],
    ("<stmt_list>", "END") := ["<stmt>", "<stmt_list_tail>"],
    ("<stmt_list>", "IDENTIFIER") := ["<stmt>", "<stmt_list_tail>"],
    ("<stmt_list>", "IF") := ["<stmt>", "<stmt_list_tail>"],
    ("<stmt_list>", "SEMI") := ["<stmt>", "<stmt_list_tail>"],
    ("<stmt_list>", "WHILE") := ["<stmt>", "<stmt_list_tail>"],
    ("<stmt_list_tail>", "END") := ["ε"],
    ("<stmt_list_tail>", "SEMI") := ["SEMI", "<stmt>", "<stmt_list_tail>"],
    ("<term>", "IDENTIFIER") := ["<factor>", "<term_tail>"],
    ("<term>", "LPAREN") := ["<factor>", "<term_tail>"],
    ("<term>", "NUMBER") := ["<factor>", "<term_tail>"],
    ("<term_tail>", "DIV") := ["DIV", "<factor>", "<term_tail>"],
    ("<term_tail>", "DO") := ["ε"],
    ("<term_tail>", "END") := ["ε"],
    ("<term_tail>", "EQ") := ["ε"],
    ("<term_tail>", "GE") := ["ε"],
    ("<term_tail>", "GT") := ["ε"],
    ("<term_tail>", "LE") := ["ε"],
    ("<term_tail>", "LT") := ["ε"],
    ("<term_tail>", "MINUS") := ["ε"],
    ("<term_tail>", "MULT") := ["MULT", "<factor>", "<term_tail>"],
    ("<term_tail>", "NE") := ["ε"],
    ("<term_tail>", "PLUS") := ["ε"],
    ("<term_tail>", "RPAREN") := ["ε"],
    ("<term_tail>", "SEMI") := ["ε"],
    ("<term_tail>", "THEN") := ["ε"],
    ("<var_decl_part>", "VAR") := ["VAR", "<ident_list>", "SEMI"],
    ("<while_stmt>", "WHILE") := ["WHILE", "<condition>", "DO", "<stmt>"]
  ]
}
