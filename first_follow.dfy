/**
 * FIRST and FOLLOW as `compute_first` and `compute_follow` of
 * generator/yacc_builder.py compute them: repeated passes over every
 * production, each pass joining sets into the maps, until a pass changes
 * nothing. The passes work on map values; `Yacc.YaccBuilder` assigns
 * their results to its fields.
 */
module FirstFollow {
  import opened Wrappers
  import opened PyStr
  import opened GrammarSets
  import opened YaccSpec

  /** `first` right after the two initial loops of `compute_first`. */
  function FirstInit(first: SetMap, terminals: set<string>, nonterminals: set<string>): SetMap {
    (first + map t | t in terminals :: {t}) + map n | n in nonterminals :: {}
  }

  /**
   * After the initial loops a nonterminal reads as the empty set, a terminal
   * that is not also a left-hand side as itself, and anything else as before;
   * the only new elements are terminals.
   */
  lemma FirstInitAt(first: SetMap, terminals: set<string>, nonterminals: set<string>, k: string)
    ensures Lookup(FirstInit(first, terminals, nonterminals), k)
      == if k in nonterminals then {} else if k in terminals then {k} else Lookup(first, k)
    ensures AllValues(FirstInit(first, terminals, nonterminals)) <= AllValues(first) + terminals
  {
    var f := FirstInit(first, terminals, nonterminals);
    forall x | x in AllValues(f)
      ensures x in AllValues(first) + terminals
    {
      var j :| j in f && x in f[j];
      if j !in nonterminals && j !in terminals {
        assert j in first && x in first[j];
      }
    }
  }

  /** FIRST(A) ⊇ FIRST(prod) for every production `A ::= prod` of `prods`. */
  ghost predicate FirstClosed(first: SetMap, a: string, prods: seq<seq<string>>) {
    forall prod :: prod in prods ==> FirstOfString(first, prod) <= Lookup(first, a)
  }

  /**
   * The FOLLOW rules at position `i` of `a ::= prod` when `prod[i]` is a
   * nonterminal B: FOLLOW(B) ⊇ FIRST(β) - {ε} for the rest β, and
   * FOLLOW(B) ⊇ FOLLOW(a) when β is empty or nullable.
   */
  ghost predicate FollowClosedAt(first: SetMap, follow: SetMap, a: string, prod: seq<string>, i: int)
    requires 0 <= i < |prod|
  {
    var fb := FirstOfString(first, prod[i + 1..]);
    IsNonterminal(prod[i]) ==>
      fb - {EPSILON} <= Lookup(follow, prod[i])
      && (EPSILON in fb || i + 1 == |prod| ==> Lookup(follow, a) <= Lookup(follow, prod[i]))
  }

  ghost predicate FollowClosed(first: SetMap, follow: SetMap, a: string, prod: seq<string>) {
    forall i :: 0 <= i < |prod| ==> FollowClosedAt(first, follow, a, prod, i)
  }

  /** No set of the map holds ε. */
  ghost predicate NoEpsilon(m: SetMap) {
    forall k :: EPSILON !in Lookup(m, k)
  }

  // ------------------------------------------------------------ first_of_string and the FOLLOW positions

  /**
   * `first_of_string`: walks the symbols left to right, adding FIRST(sym) - {ε}
   * of each; stops with ε at an explicit `ε`, stops without ε at a symbol
   * whose FIRST lacks ε, and adds ε when every symbol was nullable.
   */
  method FirstOfSymbols(first: SetMap, symbols: seq<string>) returns (r: set<string>)
    ensures r == FirstOfString(first, symbols)
  {
    r := {};
    var k := 0;
    while k < |symbols|
      invariant 0 <= k <= |symbols|
      invariant FirstOfString(first, symbols) == r + FirstOfString(first, symbols[k..])
    {
      var sym := symbols[k];
      assert symbols[k..][0] == sym && symbols[k..][1..] == symbols[k + 1..];
      if sym == EPSILON {
        r := r + {EPSILON};
        return;
      }
      r := r + (Lookup(first, sym) - {EPSILON});
      if EPSILON !in Lookup(first, sym) {
        return;
      }
      k := k + 1;
    }
    r := r + {EPSILON};
  }

  /**
   * What one position `i` of `a ::= prod` does to FOLLOW: when `prod[i]` is
   * a nonterminal B, FOLLOW(B) |= FIRST(β) - {ε}, then FOLLOW(B) |= FOLLOW(a)
   * when β is empty or nullable.
   */
  function FollowUpdate(first: SetMap, follow: SetMap, a: string, prod: seq<string>, i: int): SetMap
    requires 0 <= i < |prod|
  {
    if !IsNonterminal(prod[i]) then follow
    else FollowJoin(follow, a, prod[i], FirstOfString(first, prod[i + 1..]), i + 1 == |prod|)
  }

  /** FOLLOW(b) |= fb - {ε}, then FOLLOW(b) |= FOLLOW(a) when ε is in `fb` or `b` ends the production. */
  function FollowJoin(follow: SetMap, a: string, b: string, fb: set<string>, atEnd: bool): SetMap {
    var f1 := follow[b := Lookup(follow, b) + (fb - {EPSILON})];
    if EPSILON in fb || atEnd then f1[b := Lookup(f1, b) + Lookup(f1, a)] else f1
  }

  /** After the update, the FOLLOW rules hold at that position. */
  lemma FollowUpdateCloses(first: SetMap, follow: SetMap, a: string, prod: seq<string>, i: int)
    requires 0 <= i < |prod|
    ensures FollowClosedAt(first, FollowUpdate(first, follow, a, prod, i), a, prod, i)
  {
  }

  /** Everything the update at position `i` adds to FOLLOW(prod[i]), both steps together. */
  ghost function FollowAdded(first: SetMap, follow: SetMap, a: string, prod: seq<string>, i: int): set<string>
    requires 0 <= i < |prod|
  {
    var b := prod[i];
    var fb := FirstOfString(first, prod[i + 1..]);
    var f1 := follow[b := Lookup(follow, b) + (fb - {EPSILON})];
    (fb - {EPSILON}) + (if EPSILON in fb || i + 1 == |prod| then Lookup(f1, a) else {})
  }

  /** The two steps of the update are one union into FOLLOW(B). */
  lemma FollowUpdateShape(first: SetMap, follow: SetMap, a: string, prod: seq<string>, i: int)
    requires 0 <= i < |prod| && IsNonterminal(prod[i])
    ensures FollowUpdate(first, follow, a, prod, i)
      == follow[prod[i] := Lookup(follow, prod[i]) + FollowAdded(first, follow, a, prod, i)]
  {
    var b := prod[i];
    var fb := FirstOfString(first, prod[i + 1..]);
    var f1 := follow[b := Lookup(follow, b) + (fb - {EPSILON})];
    if EPSILON in fb || i + 1 == |prod| {
      var l := Lookup(f1, a);
      assert Lookup(f1, b) + l == Lookup(follow, b) + ((fb - {EPSILON}) + l);
      assert f1[b := Lookup(f1, b) + l] == follow[b := Lookup(f1, b) + l];
    } else {
      assert (fb - {EPSILON}) + {} == fb - {EPSILON};
    }
  }

  /** What is added comes from FIRST or FOLLOW sets and is never ε when FOLLOW holds none. */
  lemma FollowAddedBound(first: SetMap, follow: SetMap, a: string, prod: seq<string>, i: int)
    requires 0 <= i < |prod|
    ensures FollowAdded(first, follow, a, prod, i) <= AllValues(follow) + AllValues(first)
    ensures NoEpsilon(follow) ==> EPSILON !in FollowAdded(first, follow, a, prod, i)
  {
    var b := prod[i];
    var fb := FirstOfString(first, prod[i + 1..]);
    FirstOfStringBound(first, prod[i + 1..]);
    var f1 := follow[b := Lookup(follow, b) + (fb - {EPSILON})];
    AllValuesGrow(follow, b, fb - {EPSILON});
    assert Lookup(f1, a) <= AllValues(f1);
    if NoEpsilon(follow) {
      assert EPSILON !in Lookup(follow, a) && EPSILON !in Lookup(follow, b);
    }
  }

  /**
   * The update only adds: its pairs grow, and strictly exactly when
   * FOLLOW(B) grows.
   */
  lemma FollowUpdateGrows(first: SetMap, follow: SetMap, a: string, prod: seq<string>, i: int)
    requires 0 <= i < |prod|
    ensures var u := FollowUpdate(first, follow, a, prod, i);
      && Pairs(follow) <= Pairs(u)
      && (|Lookup(u, prod[i])| > |Lookup(follow, prod[i])| ==> |Pairs(follow)| < |Pairs(u)|)
      && (|Lookup(u, prod[i])| <= |Lookup(follow, prod[i])| ==> Pairs(u) == Pairs(follow))
  {
    var b := prod[i];
    if IsNonterminal(b) {
      var added := FollowAdded(first, follow, a, prod, i);
      FollowUpdateShape(first, follow, a, prod, i);
      GrowSubset(follow, b, added);
      if |Lookup(follow, b) + added| > |Lookup(follow, b)| {
        GrowStrict(follow, b, added);
      } else {
        GrowSame(follow, b, added);
      }
    }
  }

  /**
   * The update creates no key but B, adds no element outside FIRST and
   * FOLLOW sets, and adds no ε.
   */
  lemma FollowUpdateBounded(first: SetMap, follow: SetMap, a: string, prod: seq<string>, i: int)
    requires 0 <= i < |prod|
    ensures var u := FollowUpdate(first, follow, a, prod, i);
      && u.Keys <= follow.Keys + {prod[i]}
      && AllValues(u) <= AllValues(follow) + AllValues(first)
      && (NoEpsilon(follow) ==> NoEpsilon(u))
  {
    var b := prod[i];
    if IsNonterminal(b) {
      var added := FollowAdded(first, follow, a, prod, i);
      FollowUpdateShape(first, follow, a, prod, i);
      FollowAddedBound(first, follow, a, prod, i);
      AllValuesGrow(follow, b, added);
      var u := follow[b := Lookup(follow, b) + added];
      if NoEpsilon(follow) {
        forall k ensures EPSILON !in Lookup(u, k) {
          assert EPSILON !in Lookup(follow, k);
        }
      }
    }
  }

  /**
   * One position of the FOLLOW loop: when `prod[i]` is a nonterminal B,
   * FOLLOW(B) |= FIRST(β) - {ε}, then FOLLOW(B) |= FOLLOW(a) when β is
   * nullable or empty; `grew` tells whether FOLLOW(B) got larger.
   */
  method FollowStep(first: SetMap, follow: SetMap, a: string, prod: seq<string>, i: nat) returns (f: SetMap, grew: bool)
    requires i < |prod|
    ensures f == FollowUpdate(first, follow, a, prod, i)
    ensures grew <==> |Lookup(f, prod[i])| > |Lookup(follow, prod[i])|
  {
    var b := prod[i];
    if !IsNonterminal(b) {
      return follow, false;
    }
    var beta := prod[i + 1..];
    var firstBeta := FirstOfSymbols(first, beta);
    f, grew := FollowJoinStep(follow, a, b, firstBeta, beta == []);
  }

  method FollowJoinStep(follow: SetMap, a: string, b: string, fb: set<string>, atEnd: bool) returns (f: SetMap, grew: bool)
    ensures f == FollowJoin(follow, a, b, fb, atEnd)
    ensures grew <==> |Lookup(f, b)| > |Lookup(follow, b)|
  {
    var before := |Lookup(follow, b)|;
    f := follow[b := Lookup(follow, b) + (fb - {EPSILON})];
    if EPSILON in fb || atEnd {
      f := f[b := Lookup(f, b) + Lookup(f, a)];
    }
    assert f == FollowJoin(follow, a, b, fb, atEnd);
    grew := |Lookup(f, b)| > before;
  }

  /** What a pass over a production has kept so far, relative to the FOLLOW map it started from. */
  ghost predicate PassSoFar(first: SetMap, follow: SetMap, f: SetMap, a: string, prod: seq<string>, i: int, grew: bool)
    requires 0 <= i <= |prod|
  {
    && Pairs(follow) <= Pairs(f)
    && (grew ==> |Pairs(follow)| < |Pairs(f)|)
    && (!grew ==> Pairs(f) == Pairs(follow) && forall j :: 0 <= j < i ==> FollowClosedAt(first, follow, a, prod, j))
  }

  /** Where the sets of a pass come from. */
  ghost predicate PassBounded(first: SetMap, follow: SetMap, f: SetMap, prod: seq<string>) {
    && f.Keys <= follow.Keys + (set s | s in prod)
    && AllValues(f) <= AllValues(follow) + AllValues(first)
    && (NoEpsilon(follow) ==> NoEpsilon(f))
  }

  lemma PassStep(first: SetMap, follow: SetMap, f: SetMap, a: string, prod: seq<string>, i: int, grew: bool, g: bool)
    requires 0 <= i < |prod|
    requires PassSoFar(first, follow, f, a, prod, i, grew)
    requires g <==> |Lookup(FollowUpdate(first, f, a, prod, i), prod[i])| > |Lookup(f, prod[i])|
    ensures PassSoFar(first, follow, FollowUpdate(first, f, a, prod, i), a, prod, i + 1, grew || g)
  {
    var f' := FollowUpdate(first, f, a, prod, i);
    FollowUpdateGrows(first, f, a, prod, i);
    if grew {
      CardMono(Pairs(f), Pairs(f'));
    } else if g {
      CardMono(Pairs(follow), Pairs(f));
    } else {
      FollowUpdateCloses(first, f, a, prod, i);
      SamePairs(f', follow);
      assert FollowClosedAt(first, follow, a, prod, i);
    }
  }

  lemma PassStepBounded(first: SetMap, follow: SetMap, f: SetMap, a: string, prod: seq<string>, i: int)
    requires 0 <= i < |prod|
    requires PassBounded(first, follow, f, prod)
    ensures PassBounded(first, follow, FollowUpdate(first, f, a, prod, i), prod)
  {
    FollowUpdateBounded(first, f, a, prod, i);
    assert prod[i] in (set s | s in prod);
    if NoEpsilon(follow) {
      assert NoEpsilon(f);
    }
  }

  /** FOLLOW maps with the same pairs satisfy the same FOLLOW rules. */
  lemma ClosedTransfer(first: SetMap, m1: SetMap, m2: SetMap, a: string, prod: seq<string>)
    requires Pairs(m1) == Pairs(m2)
    requires forall j :: 0 <= j < |prod| ==> FollowClosedAt(first, m1, a, prod, j)
    ensures FollowClosed(first, m2, a, prod)
  {
    SamePairs(m1, m2);
    forall j | 0 <= j < |prod|
      ensures FollowClosedAt(first, m2, a, prod, j)
    {
      assert FollowClosedAt(first, m1, a, prod, j);
    }
  }

  /** One pass of the FOLLOW loop over the positions of `a ::= prod`. */
  method FollowPass(first: SetMap, follow: SetMap, a: string, prod: seq<string>) returns (f: SetMap, grew: bool)
    ensures Pairs(follow) <= Pairs(f)
    ensures grew ==> |Pairs(follow)| < |Pairs(f)|
    ensures !grew ==> Pairs(f) == Pairs(follow) && FollowClosed(first, f, a, prod)
    ensures f.Keys <= follow.Keys + (set s | s in prod)
    ensures AllValues(f) <= AllValues(follow) + AllValues(first)
    ensures NoEpsilon(follow) ==> NoEpsilon(f)
  {
    f := follow;
    grew := false;
    for i := 0 to |prod|
      invariant PassSoFar(first, follow, f, a, prod, i, grew)
      invariant PassBounded(first, follow, f, prod)
    {
      var g;
      PassStep(first, follow, f, a, prod, i, grew, |Lookup(FollowUpdate(first, f, a, prod, i), prod[i])| > |Lookup(f, prod[i])|);
      PassStepBounded(first, follow, f, a, prod, i);
      f, g := FollowStep(first, f, a, prod, i);
      grew := grew || g;
    }
    if !grew {
      ClosedTransfer(first, follow, f, a, prod);
    }
  }

  // ------------------------------------------------------------ compute_first

  /** `for t in self.terminals: self.first[t] = {t}`. */
  method InitTerminals(first: SetMap, terminals: set<string>) returns (f: SetMap)
    ensures f == first + map t | t in terminals :: {t}
  {
    f := first;
    var rest := terminals;
    while rest != {}
      invariant rest <= terminals
      invariant SelfSets(first, terminals - rest, f)
      decreases |rest|
    {
      var t :| t in rest;
      SelfSetsStep(first, terminals - rest, f, t);
      assert terminals - (rest - {t}) == (terminals - rest) + {t};
      f := f[t := {t}];
      rest := rest - {t};
    }
    SelfSetsIs(first, terminals, f);
  }

  /** `f` is `first` with `{t}` stored at every `t` of `done`. */
  ghost predicate SelfSets(first: SetMap, done: set<string>, f: SetMap) {
    && (forall k :: k in f <==> k in first || k in done)
    && (forall k :: k in f ==> f[k] == if k in done then {k} else first[k])
  }

  lemma SelfSetsStep(first: SetMap, done: set<string>, f: SetMap, t: string)
    requires SelfSets(first, done, f)
    ensures SelfSets(first, done + {t}, f[t := {t}])
  {
  }

  lemma SelfSetsIs(first: SetMap, keys: set<string>, f: SetMap)
    requires SelfSets(first, keys, f)
    ensures f == first + map t | t in keys :: {t}
  {
    var l := first + map t | t in keys :: {t};
    assert forall k :: k in l <==> k in f;
  }

  /** `for nt in self.nonterminals: self.first[nt] = set()`. */
  method InitNonterminals(first: SetMap, nonterminals: set<string>) returns (f: SetMap)
    ensures f == first + map n | n in nonterminals :: {}
  {
    f := first;
    var rest := nonterminals;
    while rest != {}
      invariant rest <= nonterminals
      invariant EmptySets(first, nonterminals - rest, f)
      decreases |rest|
    {
      var n :| n in rest;
      EmptySetsStep(first, nonterminals - rest, f, n);
      assert nonterminals - (rest - {n}) == (nonterminals - rest) + {n};
      f := f[n := {}];
      rest := rest - {n};
    }
    EmptySetsIs(first, nonterminals, f);
  }

  /** `f` is `first` with the empty set stored at every key of `done`. */
  ghost predicate EmptySets(first: SetMap, done: set<string>, f: SetMap) {
    && (forall k :: k in f <==> k in first || k in done)
    && (forall k :: k in f ==> f[k] == if k in done then {} else first[k])
  }

  lemma EmptySetsStep(first: SetMap, done: set<string>, f: SetMap, n: string)
    requires EmptySets(first, done, f)
    ensures EmptySets(first, done + {n}, f[n := {}])
  {
  }

  lemma EmptySetsIs(first: SetMap, keys: set<string>, f: SetMap)
    requires EmptySets(first, keys, f)
    ensures f == first + map n | n in keys :: {}
  {
    var l := first + map n | n in keys :: {};
    assert forall k :: k in l <==> k in f;
  }

  /** `self.first[A] |= self.first_of_string(prod)`. */
  function FirstUpdate(first: SetMap, a: string, prod: seq<string>): SetMap {
    first[a := Lookup(first, a) + FirstOfString(first, prod)]
  }

  /** One production of the FIRST loop; `grew` tells whether FIRST(a) got larger. */
  method FirstStep(first: SetMap, a: string, prod: seq<string>) returns (f: SetMap, grew: bool)
    ensures f == FirstUpdate(first, a, prod)
    ensures grew <==> |Lookup(f, a)| > |Lookup(first, a)|
  {
    var before := |Lookup(first, a)|;
    var fs := FirstOfSymbols(first, prod);
    f := first[a := Lookup(first, a) + fs];
    grew := |Lookup(f, a)| > before;
  }

  /**
   * `f` came from `first` by joins into the keys of `keys` only, and added
   * nothing but ε to the elements already there.
   */
  ghost predicate FirstBounded(first: SetMap, f: SetMap, keys: set<string>) {
    && f.Keys <= first.Keys + keys
    && AllValues(f) <= AllValues(first) + {EPSILON}
    && forall k :: k !in keys ==> Lookup(f, k) == Lookup(first, k)
  }

  /** The update joins FIRST(prod) into FIRST(a) and changes nothing else. */
  lemma FirstUpdateBounded(first: SetMap, f: SetMap, a: string, prod: seq<string>, keys: set<string>)
    requires a in keys && FirstBounded(first, f, keys)
    ensures FirstOfString(f, prod) <= Lookup(FirstUpdate(f, a, prod), a)
    ensures FirstBounded(first, FirstUpdate(f, a, prod), keys)
  {
    var fs := FirstOfString(f, prod);
    FirstOfStringBound(f, prod);
    AllValuesGrow(f, a, fs);
    Grow(f, a, fs);
  }

  /** Joins bounded by `keys` and then by a subset of `keys` are bounded by `keys`. */
  lemma FirstBoundedTrans(first: SetMap, f: SetMap, f': SetMap, keys: set<string>, sub: set<string>)
    requires sub <= keys
    requires FirstBounded(first, f, keys) && FirstBounded(f, f', sub)
    ensures FirstBounded(first, f', keys)
  {
  }

  /** What a pass over the productions of `a` has kept so far, relative to the FIRST map it started from. */
  ghost predicate FirstRowSoFar(first: SetMap, f: SetMap, a: string, prods: seq<seq<string>>, j: int, grew: bool)
    requires 0 <= j <= |prods|
  {
    && Pairs(first) <= Pairs(f)
    && (grew ==> |Pairs(first)| < |Pairs(f)|)
    && (!grew ==> Pairs(f) == Pairs(first) && forall k :: 0 <= k < j ==> FirstOfString(first, prods[k]) <= Lookup(first, a))
  }

  lemma FirstRowStep(first: SetMap, f: SetMap, a: string, prods: seq<seq<string>>, j: int, grew: bool, g: bool)
    requires 0 <= j < |prods|
    requires FirstRowSoFar(first, f, a, prods, j, grew)
    requires g <==> |Lookup(FirstUpdate(f, a, prods[j]), a)| > |Lookup(f, a)|
    ensures FirstRowSoFar(first, FirstUpdate(f, a, prods[j]), a, prods, j + 1, grew || g)
  {
    var fs := FirstOfString(f, prods[j]);
    var f' := FirstUpdate(f, a, prods[j]);
    Grow(f, a, fs);
    if grew {
      CardMono(Pairs(f), Pairs(f'));
    } else if g {
      CardMono(Pairs(first), Pairs(f));
    } else {
      SamePairs(f, first);
      SamePairs(f', first);
      assert Lookup(f', a) == Lookup(f, a) + fs;
      assert FirstOfString(first, prods[j]) <= Lookup(first, a);
    }
  }

  /** FIRST maps with the same pairs satisfy the same FIRST rules. */
  lemma FirstRowTransfer(m1: SetMap, m2: SetMap, a: string, prods: seq<seq<string>>)
    requires Pairs(m1) == Pairs(m2)
    requires forall k :: 0 <= k < |prods| ==> FirstOfString(m1, prods[k]) <= Lookup(m1, a)
    ensures FirstClosed(m2, a, prods)
  {
    SamePairs(m1, m2);
    forall prod | prod in prods
      ensures FirstOfString(m2, prod) <= Lookup(m2, a)
    {
      var k :| 0 <= k < |prods| && prods[k] == prod;
    }
  }

  /** One pass of the FIRST loop over the productions `prods` of `a`. */
  method FirstRowPass(first: SetMap, a: string, prods: seq<seq<string>>) returns (f: SetMap, grew: bool)
    ensures Pairs(first) <= Pairs(f)
    ensures grew ==> |Pairs(first)| < |Pairs(f)|
    ensures !grew ==> Pairs(f) == Pairs(first) && FirstClosed(f, a, prods)
    ensures FirstBounded(first, f, {a})
  {
    f := first;
    grew := false;
    for j := 0 to |prods|
      invariant FirstRowSoFar(first, f, a, prods, j, grew)
      invariant FirstBounded(first, f, {a})
    {
      FirstRowStep(first, f, a, prods, j, grew, |Lookup(FirstUpdate(f, a, prods[j]), a)| > |Lookup(f, a)|);
      FirstUpdateBounded(first, f, a, prods[j], {a});
      var g;
      f, g := FirstStep(f, a, prods[j]);
      grew := grew || g;
    }
    if !grew {
      FirstRowTransfer(first, f, a, prods);
    }
  }

  /** FIRST(A) ⊇ FIRST(prod) for every production of every nonterminal in `order[..i]`. */
  ghost predicate FirstClosedUpTo(first: SetMap, p: Productions, order: seq<string>, i: int)
    requires 0 <= i <= |order|
  {
    forall k :: 0 <= k < i ==> FirstClosed(first, order[k], Prods(p, order[k]))
  }

  /** What a sweep over `order` has kept so far. */
  ghost predicate FirstSweepSoFar(first: SetMap, f: SetMap, p: Productions, order: seq<string>, i: int, grew: bool)
    requires 0 <= i <= |order|
  {
    && Pairs(first) <= Pairs(f)
    && (grew ==> |Pairs(first)| < |Pairs(f)|)
    && (!grew ==> Pairs(f) == Pairs(first) && FirstClosedUpTo(first, p, order, i))
  }

  lemma FirstSweepStep(first: SetMap, f: SetMap, f': SetMap, p: Productions, order: seq<string>, i: int, grew: bool, g: bool)
    requires 0 <= i < |order|
    requires FirstSweepSoFar(first, f, p, order, i, grew)
    requires Pairs(f) <= Pairs(f')
    requires g ==> |Pairs(f)| < |Pairs(f')|
    requires !g ==> Pairs(f') == Pairs(f) && FirstClosed(f', order[i], Prods(p, order[i]))
    ensures FirstSweepSoFar(first, f', p, order, i + 1, grew || g)
  {
    if grew {
      CardMono(Pairs(f), Pairs(f'));
    } else if g {
    } else {
      SamePairs(f', first);
      var prods := Prods(p, order[i]);
      assert FirstClosed(first, order[i], prods) by {
        forall prod | prod in prods
          ensures FirstOfString(first, prod) <= Lookup(first, order[i])
        {
          assert FirstOfString(f', prod) <= Lookup(f', order[i]);
        }
      }
    }
  }

  /** One sweep of `while changed` over `productions.items()`. */
  method FirstSweep(first: SetMap, p: Productions, order: seq<string>) returns (f: SetMap, grew: bool)
    ensures Pairs(first) <= Pairs(f)
    ensures grew ==> |Pairs(first)| < |Pairs(f)|
    ensures !grew ==> Pairs(f) == Pairs(first) && FirstClosedUpTo(f, p, order, |order|)
    ensures FirstBounded(first, f, set a | a in order)
  {
    f := first;
    grew := false;
    for i := 0 to |order|
      invariant FirstSweepSoFar(first, f, p, order, i, grew)
      invariant FirstBounded(first, f, set a | a in order)
    {
      var f', g := FirstRowPass(f, order[i], Prods(p, order[i]));
      FirstSweepStep(first, f, f', p, order, i, grew, g);
      FirstBoundedTrans(first, f, f', set a | a in order, {order[i]});
      f, grew := f', grew || g;
    }
    if !grew {
      FirstClosedTransfer(first, f, p, order);
    }
  }

  lemma FirstClosedTransfer(m1: SetMap, m2: SetMap, p: Productions, order: seq<string>)
    requires Pairs(m1) == Pairs(m2)
    requires FirstClosedUpTo(m1, p, order, |order|)
    ensures FirstClosedUpTo(m2, p, order, |order|)
  {
    SamePairs(m1, m2);
    forall k | 0 <= k < |order|
      ensures FirstClosed(m2, order[k], Prods(p, order[k]))
    {
      assert FirstClosed(m1, order[k], Prods(p, order[k]));
    }
  }

  /**
   * The `while changed` loop of `compute_first` from `init`: sweeps until
   * one changes nothing. FIRST only grows, only at the left-hand sides in
   * `order`, gains nothing but ε beyond the elements of `init`, and ends
   * closed under every production.
   */
  method FirstFixpoint(init: SetMap, p: Productions, order: seq<string>) returns (f: SetMap)
    ensures forall k :: Lookup(init, k) <= Lookup(f, k)
    ensures FirstBounded(init, f, set a | a in order)
    ensures FirstClosedUpTo(f, p, order, |order|)
  {
    ghost var box := Box(init.Keys + (set a | a in order), AllValues(init) + {EPSILON});
    f := init;
    var changed := true;
    while changed
      invariant Pairs(init) <= Pairs(f) <= box
      invariant FirstBounded(init, f, set a | a in order)
      invariant !changed ==> FirstClosedUpTo(f, p, order, |order|)
      decreases |box| - |Pairs(f)| + (if changed then 1 else 0)
    {
      var f', grew := FirstSweep(f, p, order);
      FirstBoundedTrans(init, f, f', set a | a in order, set a | a in order);
      InBox(f', init.Keys + (set a | a in order), AllValues(init) + {EPSILON});
      CardMono(Pairs(f'), box);
      f, changed := f', grew;
    }
    PairsLookup(init);
    PairsLookup(f);
  }

  // ------------------------------------------------------------ compute_follow

  /** `self.follow[self.start_symbol].add('$')`, when there is a start symbol. */
  function WithEndMarker(follow: SetMap, start: Option<string>): SetMap {
    if start.None? then follow else follow[start.value := Lookup(follow, start.value) + {ENDMARK}]
  }

  /** The end marker lands in FOLLOW(start), the map only grows, and no ε is added. */
  lemma WithEndMarkerAdds(follow: SetMap, start: Option<string>)
    ensures start.Some? ==> ENDMARK in Lookup(WithEndMarker(follow, start), start.value)
    ensures forall k :: Lookup(follow, k) <= Lookup(WithEndMarker(follow, start), k)
    ensures NoEpsilon(follow) ==> NoEpsilon(WithEndMarker(follow, start))
  {
    SpecialSymbolsAreTerminals();
    if start.Some? && NoEpsilon(follow) {
      forall k ensures EPSILON !in Lookup(WithEndMarker(follow, start), k) {
        assert EPSILON !in Lookup(follow, k);
      }
    }
  }

  /** FOLLOW rules hold at every production of `a` in `prods`. */
  ghost predicate FollowRowClosed(first: SetMap, follow: SetMap, a: string, prods: seq<seq<string>>) {
    forall prod :: prod in prods ==> FollowClosed(first, follow, a, prod)
  }

  /** Every symbol written in one of `prods`. */
  ghost function SymbolsOfProds(prods: seq<seq<string>>): set<string> {
    set prod, sym | prod in prods && sym in prod :: sym
  }

  /**
   * `f` came from `follow` by joins into the keys of `keys` only, adding
   * nothing but elements of FIRST and FOLLOW sets, and no ε when FOLLOW held none.
   */
  ghost predicate FollowBounded(first: SetMap, follow: SetMap, f: SetMap, keys: set<string>) {
    && f.Keys <= follow.Keys + keys
    && AllValues(f) <= AllValues(follow) + AllValues(first)
    && (NoEpsilon(follow) ==> NoEpsilon(f))
  }

  lemma FollowBoundedTrans(first: SetMap, follow: SetMap, f: SetMap, f': SetMap, keys: set<string>, sub: set<string>)
    requires sub <= keys
    requires FollowBounded(first, follow, f, keys) && FollowBounded(first, f, f', sub)
    ensures FollowBounded(first, follow, f', keys)
  {
  }

  /** What a pass over the productions of `a` has kept so far, relative to the FOLLOW map it started from. */
  ghost predicate FollowRowSoFar(first: SetMap, follow: SetMap, f: SetMap, a: string, prods: seq<seq<string>>, j: int, grew: bool)
    requires 0 <= j <= |prods|
  {
    && Pairs(follow) <= Pairs(f)
    && (grew ==> |Pairs(follow)| < |Pairs(f)|)
    && (!grew ==> Pairs(f) == Pairs(follow) && forall k :: 0 <= k < j ==> FollowClosed(first, follow, a, prods[k]))
  }

  lemma FollowRowStep(first: SetMap, follow: SetMap, f: SetMap, f': SetMap, a: string, prods: seq<seq<string>>, j: int, grew: bool, g: bool)
    requires 0 <= j < |prods|
    requires FollowRowSoFar(first, follow, f, a, prods, j, grew)
    requires Pairs(f) <= Pairs(f')
    requires g ==> |Pairs(f)| < |Pairs(f')|
    requires !g ==> Pairs(f') == Pairs(f) && FollowClosed(first, f', a, prods[j])
    ensures FollowRowSoFar(first, follow, f', a, prods, j + 1, grew || g)
  {
    if grew {
      CardMono(Pairs(f), Pairs(f'));
    } else if g {
    } else {
      ClosedTransfer(first, f', follow, a, prods[j]);
    }
  }

  lemma FollowRowTransfer(first: SetMap, m1: SetMap, m2: SetMap, a: string, prods: seq<seq<string>>)
    requires Pairs(m1) == Pairs(m2)
    requires forall k :: 0 <= k < |prods| ==> FollowClosed(first, m1, a, prods[k])
    ensures FollowRowClosed(first, m2, a, prods)
  {
    forall prod | prod in prods
      ensures FollowClosed(first, m2, a, prod)
    {
      var k :| 0 <= k < |prods| && prods[k] == prod;
      ClosedTransfer(first, m1, m2, a, prod);
    }
  }

  /** One pass of the FOLLOW loop over the productions `prods` of `a`. */
  method FollowRowPass(first: SetMap, follow: SetMap, a: string, prods: seq<seq<string>>) returns (f: SetMap, grew: bool)
    ensures Pairs(follow) <= Pairs(f)
    ensures grew ==> |Pairs(follow)| < |Pairs(f)|
    ensures !grew ==> Pairs(f) == Pairs(follow) && FollowRowClosed(first, f, a, prods)
    ensures FollowBounded(first, follow, f, SymbolsOfProds(prods))
  {
    f := follow;
    grew := false;
    for j := 0 to |prods|
      invariant FollowRowSoFar(first, follow, f, a, prods, j, grew)
      invariant FollowBounded(first, follow, f, SymbolsOfProds(prods))
    {
      var f', g := FollowPass(first, f, a, prods[j]);
      FollowRowStep(first, follow, f, f', a, prods, j, grew, g);
      assert (set s | s in prods[j]) <= SymbolsOfProds(prods) by {
        assert prods[j] in prods;
      }
      FollowBoundedTrans(first, follow, f, f', SymbolsOfProds(prods), set s | s in prods[j]);
      f, grew := f', grew || g;
    }
    if !grew {
      FollowRowTransfer(first, follow, f, a, prods);
    }
  }

  /** Every symbol written in a production of a nonterminal of `order`. */
  ghost function SymbolsOfOrder(p: Productions, order: seq<string>): set<string> {
    set a, prod, sym | a in order && prod in Prods(p, a) && sym in prod :: sym
  }

  /** FOLLOW rules hold at every production of every nonterminal in `order[..i]`. */
  ghost predicate FollowClosedUpTo(first: SetMap, follow: SetMap, p: Productions, order: seq<string>, i: int)
    requires 0 <= i <= |order|
  {
    forall k :: 0 <= k < i ==> FollowRowClosed(first, follow, order[k], Prods(p, order[k]))
  }

  /** What a sweep over `order` has kept so far. */
  ghost predicate FollowSweepSoFar(first: SetMap, follow: SetMap, f: SetMap, p: Productions, order: seq<string>, i: int, grew: bool)
    requires 0 <= i <= |order|
  {
    && Pairs(follow) <= Pairs(f)
    && (grew ==> |Pairs(follow)| < |Pairs(f)|)
    && (!grew ==> Pairs(f) == Pairs(follow) && FollowClosedUpTo(first, follow, p, order, i))
  }

  lemma FollowSweepStep(first: SetMap, follow: SetMap, f: SetMap, f': SetMap, p: Productions, order: seq<string>, i: int, grew: bool, g: bool)
    requires 0 <= i < |order|
    requires FollowSweepSoFar(first, follow, f, p, order, i, grew)
    requires Pairs(f) <= Pairs(f')
    requires g ==> |Pairs(f)| < |Pairs(f')|
    requires !g ==> Pairs(f') == Pairs(f) && FollowRowClosed(first, f', order[i], Prods(p, order[i]))
    ensures FollowSweepSoFar(first, follow, f', p, order, i + 1, grew || g)
  {
    if grew {
      CardMono(Pairs(f), Pairs(f'));
    } else if g {
    } else {
      var prods := Prods(p, order[i]);
      forall k | 0 <= k < |prods| ensures FollowClosed(first, f', order[i], prods[k]) {
        assert prods[k] in prods;
      }
      FollowRowTransfer(first, f', follow, order[i], prods);
    }
  }

  lemma SymbolsOfRow(p: Productions, order: seq<string>, i: int)
    requires 0 <= i < |order|
    ensures SymbolsOfProds(Prods(p, order[i])) <= SymbolsOfOrder(p, order)
  {
    forall sym | sym in SymbolsOfProds(Prods(p, order[i]))
      ensures sym in SymbolsOfOrder(p, order)
    {
      var prod :| prod in Prods(p, order[i]) && sym in prod;
      assert order[i] in order;
    }
  }

  /** One sweep of `while changed` over `productions.items()`. */
  method FollowSweep(first: SetMap, follow: SetMap, p: Productions, order: seq<string>) returns (f: SetMap, grew: bool)
    ensures Pairs(follow) <= Pairs(f)
    ensures grew ==> |Pairs(follow)| < |Pairs(f)|
    ensures !grew ==> Pairs(f) == Pairs(follow) && FollowClosedUpTo(first, f, p, order, |order|)
    ensures FollowBounded(first, follow, f, SymbolsOfOrder(p, order))
  {
    f := follow;
    grew := false;
    for i := 0 to |order|
      invariant FollowSweepSoFar(first, follow, f, p, order, i, grew)
      invariant FollowBounded(first, follow, f, SymbolsOfOrder(p, order))
    {
      var f', g := FollowRowPass(first, f, order[i], Prods(p, order[i]));
      FollowSweepStep(first, follow, f, f', p, order, i, grew, g);
      SymbolsOfRow(p, order, i);
      FollowBoundedTrans(first, follow, f, f', SymbolsOfOrder(p, order), SymbolsOfProds(Prods(p, order[i])));
      f, grew := f', grew || g;
    }
    if !grew {
      FollowClosedTransfer(first, follow, f, p, order);
    }
  }

  lemma FollowClosedTransfer(first: SetMap, m1: SetMap, m2: SetMap, p: Productions, order: seq<string>)
    requires Pairs(m1) == Pairs(m2)
    requires FollowClosedUpTo(first, m1, p, order, |order|)
    ensures FollowClosedUpTo(first, m2, p, order, |order|)
  {
    forall k | 0 <= k < |order|
      ensures FollowRowClosed(first, m2, order[k], Prods(p, order[k]))
    {
      var prods := Prods(p, order[k]);
      forall j | 0 <= j < |prods| ensures FollowClosed(first, m1, order[k], prods[j]) {
        assert prods[j] in prods;
      }
      FollowRowTransfer(first, m1, m2, order[k], prods);
    }
  }

  /**
   * The `while changed` loop of `compute_follow` from `init`: sweeps until
   * one changes nothing. FOLLOW only grows, gains nothing but elements of
   * FIRST and FOLLOW sets, never gains ε, and ends closed under the FOLLOW
   * rules at every position of every production.
   */
  method FollowFixpoint(first: SetMap, init: SetMap, p: Productions, order: seq<string>) returns (f: SetMap)
    ensures forall k :: Lookup(init, k) <= Lookup(f, k)
    ensures FollowBounded(first, init, f, SymbolsOfOrder(p, order))
    ensures FollowClosedUpTo(first, f, p, order, |order|)
  {
    ghost var keys := init.Keys + SymbolsOfOrder(p, order);
    ghost var box := Box(keys, AllValues(init) + AllValues(first));
    f := init;
    var changed := true;
    while changed
      invariant Pairs(init) <= Pairs(f) <= box
      invariant FollowBounded(first, init, f, SymbolsOfOrder(p, order))
      invariant !changed ==> FollowClosedUpTo(first, f, p, order, |order|)
      decreases |box| - |Pairs(f)| + (if changed then 1 else 0)
    {
      var f', grew := FollowSweep(first, f, p, order);
      FollowBoundedTrans(first, init, f, f', SymbolsOfOrder(p, order), SymbolsOfOrder(p, order));
      InBox(f', keys, AllValues(init) + AllValues(first));
      CardMono(Pairs(f'), box);
      f, changed := f', grew;
    }
    PairsLookup(init);
    PairsLookup(f);
  }
}
