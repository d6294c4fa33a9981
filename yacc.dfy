/**
 * `YaccBuilder` (generator/yacc_builder.py): reads a BNF grammar, computes
 * FIRST and FOLLOW by repeated passes until no set grows, and fills the
 * LL(1) predictive table. Each method updates the builder's dictionaries in
 * place and is proved against the functions of YaccSpec and GrammarSets.
 */
module Yacc {
  import opened Wrappers
  import opened PyStr
  import opened GrammarSets
  import opened GrammarText
  import opened YaccSpec
  import opened FirstFollow

  // ------------------------------------------------------------ terminals

  /** The terminals on the right-hand sides of the keys in `keys`. */
  ghost function TerminalsIn(p: Productions, keys: seq<string>): set<string> {
    set a, prod, sym | a in keys && a in p && prod in p[a] && sym in prod && sym != EPSILON && !IsNonterminal(sym) :: sym
  }

  ghost function TerminalsOfProds(prods: seq<seq<string>>): set<string> {
    set prod, sym | prod in prods && sym in prod && sym != EPSILON && !IsNonterminal(sym) :: sym
  }

  ghost function TerminalsOfProd(prod: seq<string>): set<string> {
    set sym | sym in prod && sym != EPSILON && !IsNonterminal(sym)
  }

  lemma TerminalsOfProdSnoc(prod: seq<string>, s: int)
    requires 0 <= s < |prod|
    ensures TerminalsOfProd(prod[..s + 1])
      == TerminalsOfProd(prod[..s]) + (if prod[s] != EPSILON && !IsNonterminal(prod[s]) then {prod[s]} else {})
  {
    assert prod[..s + 1] == prod[..s] + [prod[s]];
  }

  lemma TerminalsOfProdsSnoc(prods: seq<seq<string>>, j: int)
    requires 0 <= j < |prods|
    ensures TerminalsOfProds(prods[..j + 1]) == TerminalsOfProds(prods[..j]) + TerminalsOfProd(prods[j])
  {
    assert prods[..j + 1] == prods[..j] + [prods[j]];
    assert prods[j][..|prods[j]|] == prods[j];
    forall x | x in TerminalsOfProds(prods[..j + 1])
      ensures x in TerminalsOfProds(prods[..j]) + TerminalsOfProd(prods[j])
    {
      var prod :| prod in prods[..j + 1] && x in prod && x != EPSILON && !IsNonterminal(x);
    }
  }

  lemma TerminalsInSnoc(p: Productions, order: seq<string>, a: int)
    requires 0 <= a < |order| && order[a] in p
    ensures TerminalsIn(p, order[..a + 1]) == TerminalsIn(p, order[..a]) + TerminalsOfProds(p[order[a]])
  {
    assert order[..a + 1] == order[..a] + [order[a]];
    forall x | x in TerminalsIn(p, order[..a + 1])
      ensures x in TerminalsIn(p, order[..a]) + TerminalsOfProds(p[order[a]])
    {
      var k, prod :| k in order[..a + 1] && k in p && prod in p[k] && x in prod && x != EPSILON && !IsNonterminal(x);
    }
    forall x | x in TerminalsOfProds(p[order[a]])
      ensures x in TerminalsIn(p, order[..a + 1])
    {
      var prod :| prod in p[order[a]] && x in prod && x != EPSILON && !IsNonterminal(x);
      assert order[a] in order[..a + 1];
    }
  }

  lemma TerminalsInAll(p: Productions, order: seq<string>)
    requires forall k :: k in p ==> k in order
    ensures TerminalsIn(p, order) == TerminalsOf(p)
  {
  }

  // ------------------------------------------------------------ value-level passes

  /**
   * The cleaning loop of `load_grammar`: each line stripped, blank lines and
   * `#` comment lines dropped, text from `#` on cut away.
   */
  method CleanFile(raws: seq<string>) returns (lines: seq<string>)
    ensures lines == CleanLines(raws)
    ensures forall k :: 0 <= k < |lines| ==> lines[k] != [] && '#' !in lines[k]
  {
    lines := [];
    for k := 0 to |raws|
      invariant lines == CleanLines(raws[..k])
    {
      assert raws[..k + 1][..k] == raws[..k];
      var line := Strip(raws[k]);
      if line == [] || StartsWith(line, "#") {
        continue;
      }
      if '#' in line {
        line := Strip(line[..IndexOf(line, '#')]);
      }
      lines := lines + [line];
    }
    assert raws[..|raws|] == raws;
  }

  /** `lhs, rhs = line.split("::=", 1)` and `lhs.strip()`. */
  method RuleHead(line: string) returns (lhs: string)
    requires IsRuleLine(line)
    ensures lhs == LhsOf(line)
  {
    var k := MarkIndex(line);
    lhs := Strip(line[..k]);
  }

  /** The continuation loop of `load_grammar`: the lines after rule line `i` up to the next rule line. */
  method ScanContinuation(lines: seq<string>, i: nat) returns (rhsAll: string, next: nat)
    requires i < |lines| && IsRuleLine(lines[i])
    ensures next == ContinuationEnd(lines, i + 1)
    ensures rhsAll == JoinContinuation(RhsOf(lines[i]), lines[i + 1..next])
  {
    rhsAll := Strip(lines[i][MarkIndex(lines[i]) + 3..]);
    next := i + 1;
    while next < |lines| && !IsRuleLine(lines[next])
      invariant i + 1 <= next <= |lines|
      invariant rhsAll == JoinContinuation(RhsOf(lines[i]), lines[i + 1..next])
      invariant forall j :: i + 1 <= j < next ==> !IsRuleLine(lines[j])
    {
      assert lines[i + 1..next + 1][..next - i - 1] == lines[i + 1..next];
      rhsAll := rhsAll + " " + lines[next];
      next := next + 1;
    }
    ContinuationEndIs(lines, i + 1, next);
  }

  /** `table[(a, t)] = prod` for each `t` of a set, in any order. */
  method FillSlots(table: Table, a: string, prod: seq<string>, keys: set<string>) returns (r: Table)
    ensures r == Fill(table, a, prod, keys)
  {
    r := table;
    var rest := keys;
    while rest != {}
      invariant rest <= keys
      invariant Filled(table, a, prod, keys - rest, r)
      decreases |rest|
    {
      var t :| t in rest;
      r := r[(a, t) := prod];
      rest := rest - {t};
    }
    FillIs(table, a, prod, keys, r);
  }

  /** `r` is `table` with `(a, t)` set to `prod` for every `t` in `done`. */
  ghost predicate Filled(table: Table, a: string, prod: seq<string>, done: set<string>, r: Table) {
    && (forall k :: k in r <==> k in table || (k.0 == a && k.1 in done))
    && (forall k :: k in r ==> r[k] == if k.0 == a && k.1 in done then prod else table[k])
  }

  lemma FillIs(table: Table, a: string, prod: seq<string>, keys: set<string>, r: Table)
    requires Filled(table, a, prod, keys, r)
    ensures r == Fill(table, a, prod, keys)
  {
    var l := Fill(table, a, prod, keys);
    assert forall k :: k in l <==> k in r;
  }

  class YaccBuilder {
    var order: seq<string>
    var productions: Productions
    var nonterminals: set<string>
    var terminals: set<string>
    var first: SetMap
    var follow: SetMap
    var table: Table
    var startSymbol: Option<string>

    /** The grammar part of the builder. */
    function Loaded(): Grammar
      reads this
    {
      Grammar(order, productions, nonterminals, startSymbol)
    }

    predicate Valid()
      reads this
    {
      WellFormed(Loaded())
    }

    constructor ()
      ensures Valid() && Loaded() == EmptyGrammar
      ensures terminals == {} && first == map[] && follow == map[] && table == map[]
    {
      order, productions, nonterminals, startSymbol := [], map[], {}, None;
      terminals, first, follow, table := {}, map[], map[], map[];
    }

    // ------------------------------------------------------------ load_grammar

    /**
     * Reads the lines of a BNF file (already read from disk): the grammar
     * becomes LoadSpec of the lines, and the terminals gain every right-hand
     * side symbol that is neither ε nor a nonterminal, and `$`.
     */
    method LoadGrammar(raws: seq<string>)
      modifies this
      requires Valid()
      ensures Valid()
      ensures Loaded() == LoadSpec(old(Loaded()), raws)
      ensures terminals == old(terminals) + TerminalsOf(productions) + {ENDMARK}
      ensures first == old(first) && follow == old(follow) && table == old(table)
    {
      var lines := CleanFile(raws);
      ghost var g0 := Loaded();
      var i := 0;
      while i < |lines|
        invariant 0 <= i <= |lines|
        invariant Valid()
        invariant AddRules(Loaded(), GroupFrom(lines, i)) == AddRules(g0, GroupRules(lines))
        invariant terminals == old(terminals) && first == old(first) && follow == old(follow) && table == old(table)
        decreases |lines| - i
      {
        if !IsRuleLine(lines[i]) {
          i := i + 1;
          continue;
        }
        ghost var gBefore := Loaded();
        var lhs := RuleHead(lines[i]);
        var rhsAll, next := ScanContinuation(lines, i);
        AddRuleText(lhs, rhsAll);
        ghost var r := Rule(lhs, rhsAll);
        AddRuleWellFormed(gBefore, r);
        assert GroupFrom(lines, i) == [r] + GroupFrom(lines, next);
        assert ([r] + GroupFrom(lines, next))[1..] == GroupFrom(lines, next);
        i := next;
      }
      CollectTerminals();
    }

    /**
     * One rule of `load_grammar` once its text is read: the first left-hand
     * side becomes the start symbol, the left-hand side becomes a
     * nonterminal, and the alternatives of the right-hand side are appended.
     */
    method AddRuleText(lhs: string, rhsAll: string)
      modifies this
      ensures Loaded() == AddRule(old(Loaded()), Rule(lhs, rhsAll))
      ensures terminals == old(terminals) && first == old(first) && follow == old(follow) && table == old(table)
    {
      if startSymbol.None? {
        startSymbol := Some(lhs);
      }
      nonterminals := nonterminals + {lhs};
      AddAlternatives(lhs, SplitWs(rhsAll));
    }

    /**
     * The token loop of `load_grammar` for one rule: a `|` appends the
     * current alternative to `productions[lhs]` and starts an empty one, any
     * other word (with `ε`/`EPSILON` written `ε`) is appended to the current
     * alternative, and the last alternative is appended at the end.
     */
    method AddAlternatives(lhs: string, toks: seq<string>)
      modifies this
      ensures productions == old(productions)[lhs := Prods(old(productions), lhs) + Alternatives(toks)]
      ensures order == if lhs in old(productions) then old(order) else old(order) + [lhs]
      ensures nonterminals == old(nonterminals) && startSymbol == old(startSymbol) && terminals == old(terminals)
      ensures first == old(first) && follow == old(follow) && table == old(table)
    {
      var current: seq<string> := [];
      ghost var added: seq<seq<string>> := [];
      for j := 0 to |toks|
        invariant added + [current] == Alternatives(toks[..j])
        invariant productions == WithAlts(old(productions), lhs, added)
        invariant order == OrderWith(old(order), old(productions), lhs, added)
        invariant nonterminals == old(nonterminals) && startSymbol == old(startSymbol) && terminals == old(terminals)
        invariant first == old(first) && follow == old(follow) && table == old(table)
      {
        var tok := toks[j];
        AlternativesStep(toks, j);
        if tok == "|" {
          WithAltsSnoc(old(productions), old(order), lhs, added, current);
          Append(lhs, current);
          added := added + [current];
          current := [];
        } else {
          if tok == EPSILON || tok == "EPSILON" {
            tok := EPSILON;
          }
          ExtendLast(added, current, Alternatives(toks[..j]), tok);
          current := current + [tok];
        }
      }
      assert toks[..|toks|] == toks;
      WithAltsSnoc(old(productions), old(order), lhs, added, current);
      Append(lhs, current);
    }

    /** `self.productions[lhs].append(alt)` on the defaultdict: a new key goes to the end of `order`. */
    method Append(lhs: string, alt: seq<string>)
      modifies this
      ensures productions == old(productions)[lhs := Prods(old(productions), lhs) + [alt]]
      ensures order == if lhs in old(productions) then old(order) else old(order) + [lhs]
      ensures nonterminals == old(nonterminals) && startSymbol == old(startSymbol) && terminals == old(terminals)
      ensures first == old(first) && follow == old(follow) && table == old(table)
    {
      if lhs !in productions {
        order := order + [lhs];
      }
      productions := productions[lhs := Prods(productions, lhs) + [alt]];
    }

    /** The terminal loop of `load_grammar`: every right-hand side symbol that is neither ε nor a nonterminal, then `$`. */
    method CollectTerminals()
      modifies this
      requires Valid()
      ensures terminals == old(terminals) + TerminalsOf(productions) + {ENDMARK}
      ensures Loaded() == old(Loaded()) && first == old(first) && follow == old(follow) && table == old(table)
    {
      var found := TerminalsLoop(productions, order);
      TerminalsInAll(productions, order);
      terminals := terminals + found + {ENDMARK};
    }

    // ------------------------------------------------------------ compute_first

    /**
     * `compute_first`: every terminal starts with itself, every nonterminal
     * with nothing, then passes over the productions join FIRST(prod) into
     * FIRST(A) until a pass changes nothing. The result contains the
     * starting sets, is closed under every production, differs from the
     * start only at left-hand sides, and holds no element that was not
     * already there except ε.
     */
    method ComputeFirst()
      modifies this
      requires Valid()
      ensures Loaded() == old(Loaded()) && terminals == old(terminals) && follow == old(follow) && table == old(table)
      ensures forall a :: a in productions ==> FirstClosed(first, a, productions[a])
      ensures forall k :: Lookup(FirstInit(old(first), terminals, nonterminals), k) <= Lookup(first, k)
      ensures forall k :: k !in productions ==> Lookup(first, k) == Lookup(FirstInit(old(first), terminals, nonterminals), k)
      ensures AllValues(first) <= AllValues(FirstInit(old(first), terminals, nonterminals)) + {EPSILON}
      ensures AllValues(first) <= AllValues(old(first)) + terminals + {EPSILON}
      ensures forall t :: t in terminals && t !in nonterminals ==> Lookup(first, t) == {t}
    {
      first := FirstSets(first, terminals, nonterminals, productions, order);
    }

    // ------------------------------------------------------------ compute_follow

    /**
     * `compute_follow`: `$` goes into FOLLOW(start), then passes over the
     * positions of every production apply the two FOLLOW rules until a pass
     * changes nothing. The result contains what it started from and `$` in
     * FOLLOW(start), satisfies both rules at every position, holds nothing
     * but elements of FIRST and FOLLOW sets, and gains no ε.
     */
    method ComputeFollow()
      modifies this
      requires Valid()
      ensures Loaded() == old(Loaded()) && terminals == old(terminals) && first == old(first) && table == old(table)
      ensures startSymbol.Some? ==> ENDMARK in Lookup(follow, startSymbol.value)
      ensures forall k :: Lookup(old(follow), k) <= Lookup(follow, k)
      ensures forall a, prod :: a in productions && prod in productions[a] ==> FollowClosed(first, follow, a, prod)
      ensures AllValues(follow) <= AllValues(WithEndMarker(old(follow), startSymbol)) + AllValues(first)
      ensures NoEpsilon(old(follow)) ==> NoEpsilon(follow)
    {
      follow := FollowSets(first, follow, startSymbol, productions, order);
    }

    // ------------------------------------------------------------ build_table

    /**
     * `build_table`: the row pass for every nonterminal in order, then the
     * start symbol's productions filed again under FIRST(prod) - {ε}.
     */
    method BuildTable()
      modifies this
      requires Valid()
      ensures table == BuiltTable(old(table), Loaded(), first, follow)
      ensures Loaded() == old(Loaded()) && terminals == old(terminals) && first == old(first) && follow == old(follow)
    {
      var t := TablePass(table, order, productions, first, follow);
      if startSymbol.Some? {
        t := StartPass(t, startSymbol.value, Prods(productions, startSymbol.value), first);
      }
      table := t;
    }
  }

  /** The body of `compute_first` on the builder's maps. */
  method FirstSets(first0: SetMap, terminals: set<string>, nonterminals: set<string>, p: Productions, order: seq<string>)
      returns (f: SetMap)
    requires forall a :: a in p ==> a in order
    requires forall a :: a in order ==> a in p
    ensures forall a :: a in p ==> FirstClosed(f, a, p[a])
    ensures forall k :: Lookup(FirstInit(first0, terminals, nonterminals), k) <= Lookup(f, k)
    ensures forall k :: k !in p ==> Lookup(f, k) == Lookup(FirstInit(first0, terminals, nonterminals), k)
    ensures AllValues(f) <= AllValues(FirstInit(first0, terminals, nonterminals)) + {EPSILON}
    ensures AllValues(f) <= AllValues(first0) + terminals + {EPSILON}
    ensures p.Keys <= nonterminals ==> forall t :: t in terminals && t !in nonterminals ==> Lookup(f, t) == {t}
  {
    f := InitTerminals(first0, terminals);
    f := InitNonterminals(f, nonterminals);
    f := FirstFixpoint(f, p, order);
    FirstClosedAtKeys(f, p, order);
    FirstOfTerminals(first0, terminals, nonterminals, p, f);
  }

  /** What the initial loops leave at terminals survives the passes, and the passes add only ε. */
  lemma FirstOfTerminals(first0: SetMap, terminals: set<string>, nonterminals: set<string>, p: Productions, f: SetMap)
    requires forall k :: k !in p ==> Lookup(f, k) == Lookup(FirstInit(first0, terminals, nonterminals), k)
    requires AllValues(f) <= AllValues(FirstInit(first0, terminals, nonterminals)) + {EPSILON}
    ensures AllValues(f) <= AllValues(first0) + terminals + {EPSILON}
    ensures p.Keys <= nonterminals ==> forall t :: t in terminals && t !in nonterminals ==> Lookup(f, t) == {t}
  {
    FirstInitAt(first0, terminals, nonterminals, "");
    if p.Keys <= nonterminals {
      forall t | t in terminals && t !in nonterminals
        ensures Lookup(f, t) == {t}
      {
        FirstInitAt(first0, terminals, nonterminals, t);
      }
    }
  }

  /** The body of `compute_follow` on the builder's maps. */
  method FollowSets(first: SetMap, follow0: SetMap, start: Option<string>, p: Productions, order: seq<string>)
      returns (f: SetMap)
    requires forall a :: a in p ==> a in order
    ensures start.Some? ==> ENDMARK in Lookup(f, start.value)
    ensures forall k :: Lookup(follow0, k) <= Lookup(f, k)
    ensures forall a, prod :: a in p && prod in p[a] ==> FollowClosed(first, f, a, prod)
    ensures AllValues(f) <= AllValues(WithEndMarker(follow0, start)) + AllValues(first)
    ensures NoEpsilon(follow0) ==> NoEpsilon(f)
  {
    f := follow0;
    if start.Some? {
      f := f[start.value := Lookup(f, start.value) + {ENDMARK}];
    }
    assert f == WithEndMarker(follow0, start);
    WithEndMarkerAdds(follow0, start);
    f := FollowFixpoint(first, f, p, order);
    FollowClosedAtKeys(first, f, p, order);
  }

  /** Closed under the FOLLOW rules for the productions of every key in `order` is closed for every production when `order` lists every key. */
  lemma FollowClosedAtKeys(first: SetMap, follow: SetMap, p: Productions, order: seq<string>)
    requires FollowClosedUpTo(first, follow, p, order, |order|)
    requires forall a :: a in p ==> a in order
    ensures forall a, prod :: a in p && prod in p[a] ==> FollowClosed(first, follow, a, prod)
  {
    forall a, prod | a in p && prod in p[a]
      ensures FollowClosed(first, follow, a, prod)
    {
      var k :| 0 <= k < |order| && order[k] == a;
      assert FollowRowClosed(first, follow, order[k], Prods(p, order[k]));
    }
  }

  /** The row pass of `build_table` for one nonterminal, production by production. */
  method RowPass(table: Table, a: string, prods: seq<seq<string>>, first: SetMap, follow: SetMap) returns (r: Table)
    ensures r == RowFor(table, a, prods, first, follow)
  {
    r := table;
    for j := 0 to |prods|
      invariant RowFor(r, a, prods[j..], first, follow) == RowFor(table, a, prods, first, follow)
    {
      var prod := prods[j];
      assert prods[j..][0] == prod && prods[j..][1..] == prods[j + 1..];
      var firstAlpha := FirstOfSymbols(first, prod);
      r := FillSlots(r, a, prod, firstAlpha - {EPSILON});
      if EPSILON in firstAlpha {
        r := FillSlots(r, a, prod, Lookup(follow, a));
      }
    }
  }

  /** The loop of `build_table` over `productions.items()`. */
  method TablePass(table: Table, order: seq<string>, p: Productions, first: SetMap, follow: SetMap) returns (r: Table)
    ensures r == TableFor(table, order, p, first, follow)
  {
    r := table;
    for i := 0 to |order|
      invariant TableFor(r, order[i..], p, first, follow) == TableFor(table, order, p, first, follow)
    {
      assert order[i..][0] == order[i] && order[i..][1..] == order[i + 1..];
      r := RowPass(r, order[i], Prods(p, order[i]), first, follow);
    }
  }

  /** The final loop of `build_table` over the start symbol's productions. */
  method StartPass(table: Table, a: string, prods: seq<seq<string>>, first: SetMap) returns (r: Table)
    ensures r == FirstRow(table, a, prods, first)
  {
    r := table;
    for j := 0 to |prods|
      invariant FirstRow(r, a, prods[j..], first) == FirstRow(table, a, prods, first)
    {
      var prod := prods[j];
      assert prods[j..][0] == prod && prods[j..][1..] == prods[j + 1..];
      var firstAlpha := FirstOfSymbols(first, prod);
      r := FillSlots(r, a, prod, firstAlpha - {EPSILON});
    }
  }

  /** Closed under the productions of every key in `order` is closed under every production when `order` lists every key. */
  lemma FirstClosedAtKeys(first: SetMap, p: Productions, order: seq<string>)
    requires FirstClosedUpTo(first, p, order, |order|)
    requires forall a :: a in p ==> a in order
    ensures forall a :: a in p ==> FirstClosed(first, a, p[a])
  {
    forall a | a in p
      ensures FirstClosed(first, a, p[a])
    {
      var k :| 0 <= k < |order| && order[k] == a;
      assert FirstClosed(first, order[k], Prods(p, order[k]));
    }
  }

  /** The three nested loops over `productions.items()` that pick out the terminals. */
  method TerminalsLoop(p: Productions, keys: seq<string>) returns (terms: set<string>)
    requires forall k :: k in keys ==> k in p
    ensures terms == TerminalsIn(p, keys)
  {
    terms := {};
    for a := 0 to |keys|
      invariant terms == TerminalsIn(p, keys[..a])
    {
      var prods := p[keys[a]];
      for j := 0 to |prods|
        invariant terms == TerminalsIn(p, keys[..a]) + TerminalsOfProds(prods[..j])
      {
        var prod := prods[j];
        for s := 0 to |prod|
          invariant terms == TerminalsIn(p, keys[..a]) + TerminalsOfProds(prods[..j]) + TerminalsOfProd(prod[..s])
        {
          var sym := prod[s];
          if sym != EPSILON && !IsNonterminal(sym) {
            terms := terms + {sym};
          }
          TerminalsOfProdSnoc(prod, s);
        }
        assert prod[..|prod|] == prod;
        TerminalsOfProdsSnoc(prods, j);
      }
      assert prods[..|prods|] == prods;
      TerminalsInSnoc(p, keys, a);
    }
    assert keys[..|keys|] == keys;
  }

  /** The productions after the alternatives `added` were appended to `lhs`. */
  function WithAlts(p: Productions, lhs: string, added: seq<seq<string>>): Productions {
    if added == [] then p else p[lhs := Prods(p, lhs) + added]
  }

  /** The key order after the alternatives `added` were appended to `lhs`. */
  function OrderWith(order: seq<string>, p: Productions, lhs: string, added: seq<seq<string>>): seq<string> {
    if added == [] || lhs in p then order else order + [lhs]
  }

  /** One more append extends both by one alternative. */
  lemma WithAltsSnoc(p: Productions, order: seq<string>, lhs: string, added: seq<seq<string>>, c: seq<string>)
    ensures var q := WithAlts(p, lhs, added);
      && WithAlts(p, lhs, added + [c]) == q[lhs := Prods(q, lhs) + [c]]
      && OrderWith(order, p, lhs, added + [c])
         == if lhs in q then OrderWith(order, p, lhs, added) else OrderWith(order, p, lhs, added) + [lhs]
  {
    var q := WithAlts(p, lhs, added);
    assert Prods(q, lhs) + [c] == Prods(p, lhs) + (added + [c]);
  }

  /** What one more word does to the alternatives. */
  lemma AlternativesStep(toks: seq<string>, j: int)
    requires 0 <= j < |toks|
    ensures var alts := Alternatives(toks[..j]);
      Alternatives(toks[..j + 1])
      == if toks[j] == "|" then alts + [[]] else alts[..|alts| - 1] + [alts[|alts| - 1] + [Normalize(toks[j])]]
  {
    assert toks[..j + 1][..j] == toks[..j];
  }

  /** Appending a word to the open alternative extends the last alternative. */
  lemma ExtendLast(added: seq<seq<string>>, current: seq<string>, alts: seq<seq<string>>, w: string)
    requires added + [current] == alts
    ensures added + [current + [w]] == alts[..|alts| - 1] + [alts[|alts| - 1] + [w]]
  {
    assert alts[..|alts| - 1] == added;
  }
}
