/**
 * What `YaccBuilder` (generator/yacc_builder.py) computes, as functions on
 * values: the grammar that `load_grammar` accumulates rule by rule, and the
 * predictive table that `build_table` fills, slot by slot, with the last
 * write winning.
 */
module YaccSpec {
  import opened Wrappers
  import opened PyStr
  import opened GrammarSets
  import opened GrammarText

  /** The builder's `productions`: each left-hand side with its alternatives. */
  type Productions = map<string, seq<seq<string>>>

  /** The predictive table: (nonterminal, lookahead) to a production. */
  type Table = map<(string, string), seq<string>>

  /** A defaultdict read of `productions`. */
  function Prods(p: Productions, lhs: string): seq<seq<string>> {
    if lhs in p then p[lhs] else []
  }

  predicate NoDup(s: seq<string>) {
    forall i, j :: 0 <= i < j < |s| ==> s[i] != s[j]
  }

  /**
   * The part of the builder that `load_grammar` fills from the rules:
   * `order` is the insertion order of the `productions` keys.
   */
  datatype Grammar = Grammar(order: seq<string>, productions: Productions, nonterminals: set<string>, start: Option<string>)

  const EmptyGrammar := Grammar([], map[], {}, None)

  /**
   * `order` lists each key of `productions` once, every left-hand side is a
   * nonterminal, and the start symbol has productions.
   */
  predicate WellFormed(g: Grammar) {
    NoDup(g.order)
    && (forall a :: a in g.productions ==> a in g.order)
    && (forall a :: a in g.order ==> a in g.productions)
    && g.productions.Keys <= g.nonterminals
    && (g.start.Some? ==> g.start.value in g.productions)
  }

  /**
   * One rule read: the first left-hand side becomes the start symbol, the
   * left-hand side becomes a nonterminal, and its alternatives are appended
   * to its productions (a new key goes to the end of `order`).  No key is
   * ever dropped, and afterwards there is a start symbol.
   */
  function AddRule(g: Grammar, r: Rule): (g': Grammar)
    ensures r.lhs in g'.productions && r.lhs in g'.nonterminals && g'.start.Some?
    ensures forall a :: a in g.productions ==> a in g'.productions
  {
    Grammar(
      if r.lhs in g.productions then g.order else g.order + [r.lhs],
      g.productions[r.lhs := Prods(g.productions, r.lhs) + ProductionsOf(r.rhs)],
      g.nonterminals + {r.lhs},
      if g.start.None? then Some(r.lhs) else g.start)
  }

  function AddRules(g: Grammar, rules: seq<Rule>): Grammar
    decreases |rules|
  {
    if rules == [] then g else AddRules(AddRule(g, rules[0]), rules[1..])
  }

  /**
   * The grammar read from the lines of a BNF file: a well-formed builder
   * stays well formed, and a start symbol already chosen is kept.
   */
  function LoadSpec(g: Grammar, raws: seq<string>): (r: Grammar)
    ensures WellFormed(g) ==> WellFormed(r)
    ensures g.start.Some? ==> r.start == g.start
  {
    var rules := GroupRules(CleanLines(raws));
    StartIsFirstLhs(g, rules);
    if WellFormed(g) then
      AddRulesWellFormed(g, rules);
      AddRules(g, rules)
    else
      AddRules(g, rules)
  }

  /** The alternatives the rules give one left-hand side, in order. */
  function ProdsFor(rules: seq<Rule>, lhs: string): seq<seq<string>> {
    if rules == [] then []
    else (if rules[0].lhs == lhs then ProductionsOf(rules[0].rhs) else []) + ProdsFor(rules[1..], lhs)
  }

  /** Every symbol on a right-hand side that is neither ε nor a nonterminal. */
  ghost function TerminalsOf(p: Productions): set<string> {
    set a, prod, sym | a in p && prod in p[a] && sym in prod && sym != EPSILON && !IsNonterminal(sym) :: sym
  }

  /** Every symbol written on a right-hand side. */
  ghost function SymbolsOf(p: Productions): set<string> {
    set a, prod, sym | a in p && prod in p[a] && sym in prod :: sym
  }

  // ------------------------------------------------------------ loading lemmas

  lemma AddRuleWellFormed(g: Grammar, r: Rule)
    requires WellFormed(g)
    ensures WellFormed(AddRule(g, r))
  {
    var g' := AddRule(g, r);
    if r.lhs !in g.productions {
      assert r.lhs !in g.order;
      forall i, j | 0 <= i < j < |g'.order|
        ensures g'.order[i] != g'.order[j]
      {
        if j == |g.order| {
          assert g.order[i] in g.order;
        }
      }
    }
  }

  /** Reading rules keeps the builder well formed. */
  lemma {:induction false} AddRulesWellFormed(g: Grammar, rules: seq<Rule>)
    requires WellFormed(g)
    ensures WellFormed(AddRules(g, rules))
    decreases |rules|
  {
    if rules != [] {
      AddRuleWellFormed(g, rules[0]);
      AddRulesWellFormed(AddRule(g, rules[0]), rules[1..]);
    }
  }

  /** An existing start symbol stays; otherwise the first rule's left-hand side becomes it. */
  lemma {:induction false} StartIsFirstLhs(g: Grammar, rules: seq<Rule>)
    ensures g.start.Some? ==> AddRules(g, rules).start == g.start
    ensures g.start.None? && rules != [] ==> AddRules(g, rules).start == Some(rules[0].lhs)
    ensures g.start.None? && rules == [] ==> AddRules(g, rules).start.None?
    decreases |rules|
  {
    if rules != [] {
      StartIsFirstLhs(AddRule(g, rules[0]), rules[1..]);
    }
  }

  /**
   * Read from a file, the start symbol of a fresh builder is the text before
   * `::=` on the first line that has one.
   */
  lemma StartOfFile(g: Grammar, raws: seq<string>)
    requires g.start.None?
    ensures var rl := RuleLines(CleanLines(raws));
      rl != [] ==> LoadSpec(g, raws).start == Some(LhsOf(rl[0]))
    ensures RuleLines(CleanLines(raws)) == [] ==> LoadSpec(g, raws).start.None?
  {
    var lines := CleanLines(raws);
    var rules, rl := GroupRules(lines), RuleLines(lines);
    OneRulePerRuleLine(lines, 0);
    StartIsFirstLhs(g, rules);
    if rl != [] {
      assert LhssOfLines(rl)[0] == LhsOf(rl[0]);
      assert rules != [] && Lhss(rules)[0] == rules[0].lhs;
    } else {
      assert Lhss(rules) == [];
    }
  }

  /** The nonterminals gain exactly the left-hand sides of the rules. */
  lemma {:induction false} NonterminalsAreLhss(g: Grammar, rules: seq<Rule>)
    ensures AddRules(g, rules).nonterminals == g.nonterminals + (set r | r in rules :: r.lhs)
    decreases |rules|
  {
    if rules != [] {
      NonterminalsAreLhss(AddRule(g, rules[0]), rules[1..]);
      assert forall r :: r in rules <==> r == rules[0] || r in rules[1..];
    }
  }

  /**
   * The productions of a left-hand side are the ones it had, then the
   * alternatives of each of its rules in file order: a nonterminal may be
   * defined by several rules.
   */
  lemma {:induction false} ProductionsCollected(g: Grammar, rules: seq<Rule>, lhs: string)
    ensures Prods(AddRules(g, rules).productions, lhs) == Prods(g.productions, lhs) + ProdsFor(rules, lhs)
    decreases |rules|
  {
    if rules != [] {
      var g1, rest := AddRule(g, rules[0]), rules[1..];
      var here := if rules[0].lhs == lhs then ProductionsOf(rules[0].rhs) else [];
      var p0, tail := Prods(g.productions, lhs), ProdsFor(rest, lhs);
      ProductionsCollected(g1, rest, lhs);
      AddRuleProds(g, rules[0], lhs);
      AppendAssoc(p0, here, tail);
      calc {
        Prods(AddRules(g, rules).productions, lhs);
        Prods(AddRules(g1, rest).productions, lhs);
        Prods(g1.productions, lhs) + tail;
        (p0 + here) + tail;
        p0 + (here + tail);
        p0 + ProdsFor(rules, lhs);
      }
    }
  }

  /** One rule appends its alternatives to its own left-hand side only. */
  lemma AddRuleProds(g: Grammar, r: Rule, lhs: string)
    ensures Prods(AddRule(g, r).productions, lhs)
      == Prods(g.productions, lhs) + (if r.lhs == lhs then ProductionsOf(r.rhs) else [])
  {
  }

  /** A continuation line in the file extends the right-hand side of the rule above it. */
  lemma ContinuationExtendsRule(rhs: string, more: seq<string>)
    ensures ProductionsOf(JoinContinuation(rhs, more)) == Alternatives(SplitWs(rhs) + WordsOfLines(more))
  {
    ContinuationWords(rhs, more);
  }

  // ------------------------------------------------------------ the table

  /** `table[(lhs, t)] = prod` for every `t` in `keys`. */
  function Fill(table: Table, lhs: string, prod: seq<string>, keys: set<string>): (r: Table)
    ensures table.Keys <= r.Keys
  {
    table + map t | t in keys :: (lhs, t) := prod
  }

  /**
   * The row pass of `build_table` for one nonterminal: each production, in
   * order, is written under FIRST(prod) - {ε} and, when ε is in FIRST(prod),
   * under FOLLOW(lhs).
   */
  function RowFor(table: Table, lhs: string, prods: seq<seq<string>>, first: SetMap, follow: SetMap): (r: Table)
    ensures table.Keys <= r.Keys
    decreases |prods|
  {
    if prods == [] then table
    else
      var fa := FirstOfString(first, prods[0]);
      var t1 := Fill(table, lhs, prods[0], fa - {EPSILON});
      var t2 := if EPSILON in fa then Fill(t1, lhs, prods[0], Lookup(follow, lhs)) else t1;
      RowFor(t2, lhs, prods[1..], first, follow)
  }

  /** The row passes for the nonterminals in `order`. */
  function TableFor(table: Table, order: seq<string>, p: Productions, first: SetMap, follow: SetMap): (r: Table)
    ensures table.Keys <= r.Keys
    decreases |order|
  {
    if order == [] then table
    else TableFor(RowFor(table, order[0], Prods(p, order[0]), first, follow), order[1..], p, first, follow)
  }

  /** The final pass over the start symbol: each production written under FIRST(prod) - {ε} again. */
  function FirstRow(table: Table, lhs: string, prods: seq<seq<string>>, first: SetMap): (r: Table)
    ensures table.Keys <= r.Keys
    decreases |prods|
  {
    if prods == [] then table
    else FirstRow(Fill(table, lhs, prods[0], FirstOfString(first, prods[0]) - {EPSILON}), lhs, prods[1..], first)
  }

  function StartRow(table: Table, start: Option<string>, p: Productions, first: SetMap): (r: Table)
    ensures table.Keys <= r.Keys
  {
    if start.None? then table else FirstRow(table, start.value, Prods(p, start.value), first)
  }

  /** The table `build_table` leaves behind: entries are only written, never removed. */
  function BuiltTable(table: Table, g: Grammar, first: SetMap, follow: SetMap): (r: Table)
    ensures table.Keys <= r.Keys
  {
    StartRow(TableFor(table, g.order, g.productions, first, follow), g.start, g.productions, first)
  }

  /** The row pass for `lhs` writes `prod` under lookahead `t`. */
  predicate Writes(first: SetMap, follow: SetMap, lhs: string, prod: seq<string>, t: string) {
    var fa := FirstOfString(first, prod);
    t in fa - {EPSILON} || (EPSILON in fa && t in Lookup(follow, lhs))
  }

  /** The last production among `prods` that the row pass for `lhs` writes under `t`. */
  function LastWriter(prods: seq<seq<string>>, first: SetMap, follow: SetMap, lhs: string, t: string): (r: Option<seq<string>>)
    ensures r.Some? ==>
      (exists i :: 0 <= i < |prods| && prods[i] == r.value && Writes(first, follow, lhs, prods[i], t)
         && forall j :: i < j < |prods| ==> !Writes(first, follow, lhs, prods[j], t))
    ensures r.None? <==> forall i :: 0 <= i < |prods| ==> !Writes(first, follow, lhs, prods[i], t)
    decreases |prods|
  {
    if prods == [] then None
    else
      var rest := LastWriter(prods[1..], first, follow, lhs, t);
      if rest.Some? then
        var i :| 0 <= i < |prods[1..]| && prods[1..][i] == rest.value && Writes(first, follow, lhs, prods[1..][i], t)
          && forall j :: i < j < |prods[1..]| ==> !Writes(first, follow, lhs, prods[1..][j], t);
        assert prods[i + 1] == rest.value;
        assert forall j :: i + 1 < j < |prods| ==> prods[j] == prods[1..][j - 1];
        rest
      else if Writes(first, follow, lhs, prods[0], t) then
        assert forall j :: 0 < j < |prods| ==> prods[j] == prods[1..][j - 1];
        Some(prods[0])
      else
        assert forall j :: 0 < j < |prods| ==> prods[j] == prods[1..][j - 1];
        None
  }

  lemma FillEntry(table: Table, lhs: string, prod: seq<string>, keys: set<string>, b: string, t: string)
    ensures var r := Fill(table, lhs, prod, keys);
      if b == lhs && t in keys then (b, t) in r && r[(b, t)] == prod
      else ((b, t) in r <==> (b, t) in table) && ((b, t) in table ==> r[(b, t)] == table[(b, t)])
  {
  }

  /** The row pass sets slot (lhs, t) to the last production written there, and no other slot. */
  lemma {:induction false} RowForEntry(table: Table, lhs: string, prods: seq<seq<string>>, first: SetMap, follow: SetMap, b: string, t: string)
    ensures var r := RowFor(table, lhs, prods, first, follow);
      var w := LastWriter(prods, first, follow, lhs, t);
      if b == lhs && w.Some? then (b, t) in r && r[(b, t)] == w.value
      else ((b, t) in r <==> (b, t) in table) && ((b, t) in table ==> r[(b, t)] == table[(b, t)])
    decreases |prods|
  {
    if prods != [] {
      var fa := FirstOfString(first, prods[0]);
      var t1 := Fill(table, lhs, prods[0], fa - {EPSILON});
      var t2 := if EPSILON in fa then Fill(t1, lhs, prods[0], Lookup(follow, lhs)) else t1;
      FillEntry(table, lhs, prods[0], fa - {EPSILON}, b, t);
      FillEntry(t1, lhs, prods[0], Lookup(follow, lhs), b, t);
      RowForEntry(t2, lhs, prods[1..], first, follow, b, t);
    }
  }

  /** Rows for distinct nonterminals touch distinct slots. */
  lemma {:induction false} TableForEntry(table: Table, order: seq<string>, p: Productions, first: SetMap, follow: SetMap, b: string, t: string)
    requires NoDup(order)
    ensures var r := TableFor(table, order, p, first, follow);
      var w := if b in order then LastWriter(Prods(p, b), first, follow, b, t) else None;
      if w.Some? then (b, t) in r && r[(b, t)] == w.value
      else ((b, t) in r <==> (b, t) in table) && ((b, t) in table ==> r[(b, t)] == table[(b, t)])
    decreases |order|
  {
    if order != [] {
      var t1 := RowFor(table, order[0], Prods(p, order[0]), first, follow);
      RowForEntry(table, order[0], Prods(p, order[0]), first, follow, b, t);
      assert NoDup(order[1..]);
      TableForEntry(t1, order[1..], p, first, follow, b, t);
      assert b in order <==> b == order[0] || b in order[1..];
      if b == order[0] {
        assert b !in order[1..];
      }
    }
  }

  /** The start pass is a row pass that ignores FOLLOW. */
  lemma {:induction false} FirstRowIsRowWithoutFollow(table: Table, lhs: string, prods: seq<seq<string>>, first: SetMap)
    ensures FirstRow(table, lhs, prods, first) == RowFor(table, lhs, prods, first, map[])
    decreases |prods|
  {
    if prods != [] {
      var t1 := Fill(table, lhs, prods[0], FirstOfString(first, prods[0]) - {EPSILON});
      assert Fill(t1, lhs, prods[0], Lookup(map[], lhs)) == t1;
      FirstRowIsRowWithoutFollow(t1, lhs, prods[1..], first);
    }
  }

  /**
   * Every slot of the built table: for the start symbol, the last start
   * production with the lookahead in FIRST(prod) - {ε} wins over everything;
   * otherwise the last production the row pass wrote there; otherwise the
   * slot is as it was. No conflict is ever reported.
   */
  lemma BuiltTableEntry(table: Table, g: Grammar, first: SetMap, follow: SetMap, b: string, t: string)
    requires NoDup(g.order)
    ensures var r := BuiltTable(table, g, first, follow);
      var s := if g.start == Some(b) then LastWriter(Prods(g.productions, b), first, map[], b, t) else None;
      var w := if b in g.order then LastWriter(Prods(g.productions, b), first, follow, b, t) else None;
      if s.Some? then (b, t) in r && r[(b, t)] == s.value
      else if w.Some? then (b, t) in r && r[(b, t)] == w.value
      else ((b, t) in r <==> (b, t) in table) && ((b, t) in table ==> r[(b, t)] == table[(b, t)])
  {
    var t1 := TableFor(table, g.order, g.productions, first, follow);
    TableForEntry(table, g.order, g.productions, first, follow, b, t);
    if g.start.Some? {
      var a := g.start.value;
      FirstRowIsRowWithoutFollow(t1, a, Prods(g.productions, a), first);
      RowForEntry(t1, a, Prods(g.productions, a), first, map[], b, t);
    }
  }

  /**
   * Every slot the builder wrote holds one of the nonterminal's own
   * productions, filed under a lookahead in FIRST(prod) - {ε}, or under
   * FOLLOW(nonterminal) when ε is in FIRST(prod).
   */
  lemma TableEntriesSound(table: Table, g: Grammar, first: SetMap, follow: SetMap, b: string, t: string)
    requires NoDup(g.order)
    requires (b, t) in BuiltTable(table, g, first, follow)
    ensures var v := BuiltTable(table, g, first, follow)[(b, t)];
      ((b, t) in table && v == table[(b, t)])
      || (v in Prods(g.productions, b) && Writes(first, follow, b, v, t))
  {
    BuiltTableEntry(table, g, first, follow, b, t);
  }

  /**
   * The last writer wins, also when an ε-production comes after a non-ε one
   * that claims the same lookahead: `<A> ::= x | ε` with `x` in FOLLOW(<A>)
   * files the ε-production under `x`.
   */
  lemma EpsilonOverwrites()
    ensures var prods := [["x"], [EPSILON]];
      var first := map["x" := {"x"}];
      var follow := map["<A>" := {"x"}];
      var r := TableFor(map[], ["<A>"], map["<A>" := prods], first, follow);
      ("<A>", "x") in r && r[("<A>", "x")] == [EPSILON]
  {
    var prods := [["x"], [EPSILON]];
    var first := map["x" := {"x"}];
    var follow := map["<A>" := {"x"}];
    assert "x" != EPSILON;
    assert FirstOfString(first, prods[0]) == {"x"};
    assert FirstOfString(first, prods[1]) == {EPSILON};
    assert Writes(first, follow, "<A>", prods[1], "x");
    assert LastWriter(prods, first, follow, "<A>", "x") == Some([EPSILON]);
    TableForEntry(map[], ["<A>"], map["<A>" := prods], first, follow, "<A>", "x");
  }
}
