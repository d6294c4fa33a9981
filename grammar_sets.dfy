/**
 * The set algebra behind `YaccBuilder` (generator/yacc_builder.py): the
 * nonterminal test, FIRST of a symbol string, and the finite bookkeeping
 * (pairs of a map of sets, and a box that bounds them) that makes the
 * FIRST and FOLLOW fixpoint loops terminate.
 */
module GrammarSets {
  import opened PyStr

  /** The empty-string symbol. */
  const EPSILON: string := "ε"
  /** The end-of-input marker. */
  const ENDMARK: string := "$"

  /** A map from symbols to sets, as the builder's `first` and `follow` dictionaries. */
  type SetMap = map<string, set<string>>

  /**
   * `sym.startswith("<") and sym.endswith(">")`: a nonterminal is `<`, then
   * anything, then `>`, so a lone `<` is a terminal.
   */
  function IsNonterminal(sym: string): (b: bool)
    ensures b <==> |sym| >= 2 && sym[0] == '<' && sym[|sym| - 1] == '>'
  {
    var b := StartsWith(sym, "<") && EndsWith(sym, ">");
    assert b ==> sym[..1][0] == '<' && sym[|sym| - 1..][0] == '>';
    assert |sym| >= 2 && sym[0] == '<' && sym[|sym| - 1] == '>' ==> sym[..1] == "<" && sym[|sym| - 1..] == ">";
    b
  }

  /** Neither ε nor the end marker is a nonterminal. */
  lemma SpecialSymbolsAreTerminals()
    ensures !IsNonterminal(EPSILON) && !IsNonterminal(ENDMARK)
  {
    assert EPSILON[0] != '<' && ENDMARK[0] != '<';
  }

  /** A defaultdict read: the set stored at `k`, or the empty set. */
  function Lookup(m: SetMap, k: string): set<string> {
    if k in m then m[k] else {}
  }

  /** Every element of every set in `m`. */
  ghost function AllValues(m: SetMap): set<string> {
    set k, x | k in m && x in m[k] :: x
  }

  // ------------------------------------------------------------ first_of_string

  /**
   * FIRST of a symbol string: FIRST(sym) - {ε} of each symbol from the left
   * while the symbols are nullable; ε itself when an explicit `ε` is met or
   * when every symbol is nullable.  Every other element comes from the
   * FIRST set of some ordinary symbol of the string.
   */
  function FirstOfString(first: SetMap, symbols: seq<string>): (r: set<string>)
    ensures forall x :: x in r && x != EPSILON ==>
      exists i :: 0 <= i < |symbols| && symbols[i] != EPSILON && x in Lookup(first, symbols[i])
  {
    if symbols == [] then {EPSILON}
    else if symbols[0] == EPSILON then {EPSILON}
    else
      var f := Lookup(first, symbols[0]);
      if EPSILON !in f then f - {EPSILON}
      else
        var rest := FirstOfString(first, symbols[1..]);
        assert forall i :: 0 <= i < |symbols| - 1 ==> symbols[1..][i] == symbols[i + 1];
        (f - {EPSILON}) + rest
  }

  /** Every symbol before position `i` is an ordinary symbol whose FIRST holds ε. */
  predicate NullablePrefix(first: SetMap, symbols: seq<string>, i: int)
    requires 0 <= i <= |symbols|
  {
    forall j :: 0 <= j < i ==> symbols[j] != EPSILON && EPSILON in Lookup(first, symbols[j])
  }

  lemma NullablePrefixStep(first: SetMap, symbols: seq<string>, i: int)
    requires symbols != [] && 0 <= i < |symbols|
    ensures NullablePrefix(first, symbols, i + 1) <==>
      symbols[0] != EPSILON && EPSILON in Lookup(first, symbols[0]) && NullablePrefix(first, symbols[1..], i)
  {
    if NullablePrefix(first, symbols[1..], i) && symbols[0] != EPSILON && EPSILON in Lookup(first, symbols[0]) {
      forall j | 0 <= j < i + 1
        ensures symbols[j] != EPSILON && EPSILON in Lookup(first, symbols[j])
      {
        if j > 0 {
          assert symbols[j] == symbols[1..][j - 1];
        }
      }
    }
    if NullablePrefix(first, symbols, i + 1) {
      forall j | 0 <= j < i
        ensures symbols[1..][j] != EPSILON && EPSILON in Lookup(first, symbols[1..][j])
      {
        assert symbols[1..][j] == symbols[j + 1];
      }
    }
  }

  /**
   * ε is in FIRST of a string exactly when the string reaches its end or an
   * explicit `ε` through symbols that are all nullable.
   */
  lemma {:induction false} FirstOfStringEpsilon(first: SetMap, symbols: seq<string>)
    ensures EPSILON in FirstOfString(first, symbols) <==>
      exists i :: 0 <= i <= |symbols| && NullablePrefix(first, symbols, i) && (i == |symbols| || symbols[i] == EPSILON)
  {
    if symbols == [] {
      assert NullablePrefix(first, symbols, 0);
    } else if symbols[0] == EPSILON {
      assert NullablePrefix(first, symbols, 0);
    } else {
      var f := Lookup(first, symbols[0]);
      if EPSILON !in f {
        forall i | 1 <= i <= |symbols|
          ensures !NullablePrefix(first, symbols, i)
        {
          assert !(symbols[0] != EPSILON && EPSILON in Lookup(first, symbols[0]));
        }
      } else {
        var rest := symbols[1..];
        FirstOfStringEpsilon(first, rest);
        if EPSILON in FirstOfString(first, rest) {
          var i :| 0 <= i <= |rest| && NullablePrefix(first, rest, i) && (i == |rest| || rest[i] == EPSILON);
          NullablePrefixStep(first, symbols, i);
          assert i + 1 == |symbols| || symbols[i + 1] == EPSILON;
        } else {
          forall i | 0 <= i <= |symbols| && NullablePrefix(first, symbols, i)
            ensures !(i == |symbols| || symbols[i] == EPSILON)
          {
            if i > 0 {
              NullablePrefixStep(first, symbols, i - 1);
              assert !(i - 1 == |rest| || rest[i - 1] == EPSILON);
            }
          }
        }
      }
    }
  }

  /**
   * A symbol other than ε is in FIRST of a string exactly when it is in
   * FIRST of some ordinary symbol reached through nullable symbols only.
   */
  lemma {:induction false} FirstOfStringMember(first: SetMap, symbols: seq<string>, x: string)
    requires x != EPSILON
    ensures x in FirstOfString(first, symbols) <==>
      exists i :: 0 <= i < |symbols| && NullablePrefix(first, symbols, i) && symbols[i] != EPSILON && x in Lookup(first, symbols[i])
  {
    if symbols == [] {
    } else if symbols[0] == EPSILON {
      forall i | 0 <= i < |symbols| && NullablePrefix(first, symbols, i)
        ensures symbols[i] == EPSILON || x !in Lookup(first, symbols[i])
      {
        assert i == 0;
      }
    } else {
      var f := Lookup(first, symbols[0]);
      assert NullablePrefix(first, symbols, 0);
      if EPSILON !in f {
        forall i | 1 <= i <= |symbols|
          ensures !NullablePrefix(first, symbols, i)
        {
          assert !(symbols[0] != EPSILON && EPSILON in Lookup(first, symbols[0]));
        }
      } else {
        var rest := symbols[1..];
        FirstOfStringMember(first, rest, x);
        if x in FirstOfString(first, rest) {
          var i :| 0 <= i < |rest| && NullablePrefix(first, rest, i) && rest[i] != EPSILON && x in Lookup(first, rest[i]);
          NullablePrefixStep(first, symbols, i);
          assert symbols[i + 1] == rest[i];
        }
        if x !in f && x !in FirstOfString(first, rest) {
          forall i | 0 <= i < |symbols| && NullablePrefix(first, symbols, i) && symbols[i] != EPSILON
            ensures x !in Lookup(first, symbols[i])
          {
            if i > 0 {
              NullablePrefixStep(first, symbols, i - 1);
              assert symbols[i] == rest[i - 1];
            }
          }
        }
      }
    }
  }

  /** FIRST of a string draws only on ε and the sets already in `first`. */
  lemma {:induction false} FirstOfStringBound(first: SetMap, symbols: seq<string>)
    ensures FirstOfString(first, symbols) <= AllValues(first) + {EPSILON}
  {
    if symbols != [] && symbols[0] != EPSILON {
      var f := Lookup(first, symbols[0]);
      assert f <= AllValues(first);
      if EPSILON in f {
        FirstOfStringBound(first, symbols[1..]);
      }
    }
  }

  /** FIRST of a string depends on the sets of `first` only, not on which keys hold empty sets. */
  lemma {:induction false} FirstOfStringCongruent(m1: SetMap, m2: SetMap, symbols: seq<string>)
    requires forall k :: Lookup(m1, k) == Lookup(m2, k)
    ensures FirstOfString(m1, symbols) == FirstOfString(m2, symbols)
  {
    if symbols != [] && symbols[0] != EPSILON {
      FirstOfStringCongruent(m1, m2, symbols[1..]);
    }
  }

  /** FIRST of a string grows when the FIRST sets of the symbols grow. */
  lemma {:induction false} FirstOfStringMonotone(m1: SetMap, m2: SetMap, symbols: seq<string>)
    requires forall k :: Lookup(m1, k) <= Lookup(m2, k)
    ensures FirstOfString(m1, symbols) <= FirstOfString(m2, symbols)
  {
    if symbols != [] && symbols[0] != EPSILON {
      FirstOfStringMonotone(m1, m2, symbols[1..]);
    }
  }

  // ------------------------------------------------------------ finite bookkeeping

  /** The (key, element) pairs of a map of sets. */
  ghost function Pairs(m: SetMap): set<(string, string)> {
    set k, x | k in m && x in m[k] :: (k, x)
  }

  /** All pairs with a key from `keys` and an element from `vals`. */
  ghost function Box(keys: set<string>, vals: set<string>): set<(string, string)> {
    set k, x | k in keys && x in vals :: (k, x)
  }

  lemma PairsLookup(m: SetMap)
    ensures forall k, x :: (k, x) in Pairs(m) <==> x in Lookup(m, k)
  {
    forall k, x | x in Lookup(m, k)
      ensures (k, x) in Pairs(m)
    {
      assert k in m && x in m[k];
    }
  }

  /** Two maps with the same pairs are read alike, and give the same FIRST of every string. */
  lemma SamePairs(m1: SetMap, m2: SetMap)
    requires Pairs(m1) == Pairs(m2)
    ensures forall k :: Lookup(m1, k) == Lookup(m2, k)
    ensures forall s :: FirstOfString(m1, s) == FirstOfString(m2, s)
  {
    PairsLookup(m1);
    PairsLookup(m2);
    forall k
      ensures Lookup(m1, k) == Lookup(m2, k)
    {
      assert forall x :: x in Lookup(m1, k) <==> (k, x) in Pairs(m1);
    }
    forall s
      ensures FirstOfString(m1, s) == FirstOfString(m2, s)
    {
      FirstOfStringCongruent(m1, m2, s);
    }
  }

  /**
   * `m[k] |= s`: the pairs only grow, every other key reads the same, and the
   * pairs grow strictly exactly when the set at `k` grows.
   */
  lemma Grow(m: SetMap, k: string, s: set<string>)
    ensures Pairs(m) <= Pairs(m[k := Lookup(m, k) + s])
    ensures forall j :: j != k ==> Lookup(m[k := Lookup(m, k) + s], j) == Lookup(m, j)
    ensures |Lookup(m, k) + s| > |Lookup(m, k)| ==> |Pairs(m)| < |Pairs(m[k := Lookup(m, k) + s])|
    ensures |Lookup(m, k) + s| <= |Lookup(m, k)| ==> Pairs(m[k := Lookup(m, k) + s]) == Pairs(m)
  {
    var m' := m[k := Lookup(m, k) + s];
    GrowSubset(m, k, s);
    if |Lookup(m, k) + s| > |Lookup(m, k)| {
      GrowStrict(m, k, s);
    } else {
      GrowSame(m, k, s);
    }
  }

  lemma GrowSubset(m: SetMap, k: string, s: set<string>)
    ensures Pairs(m) <= Pairs(m[k := Lookup(m, k) + s])
  {
    var m' := m[k := Lookup(m, k) + s];
    forall p | p in Pairs(m)
      ensures p in Pairs(m')
    {
      assert p.0 in m && p.1 in m[p.0];
      assert p.1 in m'[p.0];
    }
  }

  lemma GrowStrict(m: SetMap, k: string, s: set<string>)
    requires |Lookup(m, k) + s| > |Lookup(m, k)|
    ensures |Pairs(m)| < |Pairs(m[k := Lookup(m, k) + s])|
  {
    var m' := m[k := Lookup(m, k) + s];
    GrowSubset(m, k, s);
    var a, b := Lookup(m, k), Lookup(m, k) + s;
    assert b == a + (b - a);
    assert b - a != {};
    var w :| w in b - a;
    assert (k, w) in Pairs(m');
    assert (k, w) !in Pairs(m);
    CardStrict(Pairs(m), Pairs(m'), (k, w));
  }

  lemma GrowSame(m: SetMap, k: string, s: set<string>)
    requires |Lookup(m, k) + s| <= |Lookup(m, k)|
    ensures Pairs(m[k := Lookup(m, k) + s]) == Pairs(m)
  {
    var m' := m[k := Lookup(m, k) + s];
    GrowSubset(m, k, s);
    CardEq(Lookup(m, k), Lookup(m, k) + s);
    forall p | p in Pairs(m')
      ensures p in Pairs(m)
    {
      assert p.0 in m' && p.1 in m'[p.0];
      if p.0 == k {
        assert p.1 in Lookup(m, k);
      }
    }
  }

  /** `m[k] |= s` adds no element outside `s`. */
  lemma AllValuesGrow(m: SetMap, k: string, s: set<string>)
    ensures AllValues(m[k := Lookup(m, k) + s]) <= AllValues(m) + s
  {
    var m' := m[k := Lookup(m, k) + s];
    forall x | x in AllValues(m')
      ensures x in AllValues(m) + s
    {
      var j :| j in m' && x in m'[j];
      if j != k || x !in s {
        assert j in m && x in m[j];
      }
    }
  }

  /** Pairs that only grow, with a set that grew, grow strictly. */
  lemma PairsStrict(m: SetMap, m': SetMap, k: string)
    requires Pairs(m) <= Pairs(m')
    requires |Lookup(m', k)| > |Lookup(m, k)|
    ensures |Pairs(m)| < |Pairs(m')|
  {
    PairsLookup(m);
    PairsLookup(m');
    var a, b := Lookup(m, k), Lookup(m', k);
    assert a <= b;
    assert b == a + (b - a);
    assert b - a != {};
    var w :| w in b - a;
    assert (k, w) in Pairs(m');
    CardStrict(Pairs(m), Pairs(m'), (k, w));
  }

  /** A map whose keys lie in `keys` and whose elements lie in `vals` has its pairs in the box. */
  lemma InBox(m: SetMap, keys: set<string>, vals: set<string>)
    requires m.Keys <= keys && AllValues(m) <= vals
    ensures Pairs(m) <= Box(keys, vals)
  {
    forall p | p in Pairs(m)
      ensures p in Box(keys, vals)
    {
      assert p.0 in m && p.1 in m[p.0];
      assert p.1 in AllValues(m);
    }
  }

  lemma CardMono<T>(a: set<T>, b: set<T>)
    requires a <= b
    ensures |a| <= |b|
  {
    assert b == a + (b - a);
  }

  lemma CardStrict<T>(a: set<T>, b: set<T>, w: T)
    requires a <= b && w in b && w !in a
    ensures |a| < |b|
  {
    assert b == a + (b - a);
    assert w in b - a;
  }

  lemma CardEq<T>(a: set<T>, b: set<T>)
    requires a <= b && |b| <= |a|
    ensures a == b
  {
    if a != b {
      var w :| w in b && w !in a;
      CardStrict(a, b, w);
    }
  }
}
