/**
 * Abstract syntax tree nodes (src/utils/ast.py): a node keeps a type, an
 * ordered child list it can grow, an optional value and an optional token,
 * and renders its subtree as indented text, one line per node.
 */
module Ast {
  import opened Wrappers
  import opened PyStr
  import UtilToken

  /** `ASTNode`: the fields `add_child` and `get_children` work on. */
  class ASTNode {
    var nodeType: string
    var children: seq<ASTNode>
    var value: Option<string>
    var token: Option<UtilToken.Token>

    /** `ASTNode(node_type, children=None, value=None, token=None)`: no children given means none. */
    constructor (nodeType: string, children: Option<seq<ASTNode>>, value: Option<string>,
                 token: Option<UtilToken.Token>)
      ensures this.nodeType == nodeType && this.value == value && this.token == token
      ensures this.children == (if children.Some? then children.value else [])
    {
      this.nodeType := nodeType;
      this.children := if children.Some? then children.value else [];
      this.value := value;
      this.token := token;
    }

    /** `add_child`: the child goes at the end; earlier children stay where they were. */
    method AddChild(child: ASTNode)
      modifies this`children
      ensures children == old(children) + [child]
      ensures |children| == |old(children)| + 1
      ensures forall k :: 0 <= k < |old(children)| ==> children[k] == old(children)[k]
    {
      children := children + [child];
    }

    /** `get_children`: a copy of the child list; the node itself is untouched. */
    method GetChildren() returns (r: seq<ASTNode>)
      ensures r == children
    {
      r := children;
    }
  }

  /** A snapshot of a subtree, as the printers traverse it. */
  datatype Tree = Tree(nodeType: string, value: Option<string>, token: Option<UtilToken.Token>,
                       children: seq<Tree>)

  /** `"  " * d`. */
  function Indent(d: nat): (r: string)
    ensures |r| == 2 * d && forall k :: 0 <= k < |r| ==> r[k] == ' '
  {
    if d == 0 then "" else "  " + Indent(d - 1)
  }

  function ValueSuffix(value: Option<string>): string {
    if value.Some? then ": " + value.value else ""
  }

  /** The node's own line in `__str__`: one line, ended by its only newline when the labels hold none. */
  function Header(t: Tree, d: nat): (r: string)
    ensures r != [] && r[|r| - 1] == '\n'
    ensures SingleLineNode(t) ==> Count(r, '\n') == 1
  {
    var line := Indent(d) + t.nodeType + ValueSuffix(t.value);
    if SingleLineNode(t) then
      assert '\n' !in Indent(d);
      assert '\n' !in ValueSuffix(t.value);
      OneNewline(line);
      line + "\n"
    else
      line + "\n"
  }

  /**
   * `__str__(d)`: the node's own line at indent `d`, then every child's
   * rendering at `d + 1`, in order.  With single-line labels it prints
   * exactly one line per node of the subtree.
   */
  function Render(t: Tree, d: nat): (r: string)
    ensures SingleLineLabels(t) ==> Count(r, '\n') == Size(t)
    decreases t, 1
  {
    CountConcat(Header(t, d), RenderChildren(t.children, d + 1), '\n');
    Header(t, d) + RenderChildren(t.children, d + 1)
  }

  function RenderChildren(ts: seq<Tree>, d: nat): (r: string)
    ensures AllSingleLine(ts) ==> Count(r, '\n') == SizeAll(ts)
    decreases ts, 0
  {
    if ts == [] then ""
    else
      CountConcat(Render(ts[0], d), RenderChildren(ts[1..], d), '\n');
      Render(ts[0], d) + RenderChildren(ts[1..], d)
  }

  function LineSuffix(token: Option<UtilToken.Token>): string {
    if token.Some? then " (Line: " + IntToString(token.value.line) + ")" else ""
  }

  /** The node's own line in `print_tree`: still one line, since the line-number suffix holds no newline. */
  function PrintHeader(t: Tree, d: nat): (r: string)
    ensures r != [] && r[|r| - 1] == '\n'
    ensures SingleLineNode(t) ==> Count(r, '\n') == 1
  {
    var line := Indent(d) + t.nodeType + ValueSuffix(t.value) + LineSuffix(t.token);
    if SingleLineNode(t) then
      LineSuffixSingleLine(t.token);
      assert '\n' !in Indent(d);
      assert '\n' !in ValueSuffix(t.value);
      OneNewline(line);
      line + "\n"
    else
      line + "\n"
  }

  /**
   * `print_tree(d)`: as `__str__`, plus the token's line when the node has a
   * token.  It too prints exactly one line per node with single-line labels.
   */
  function PrintTree(t: Tree, d: nat): (r: string)
    ensures SingleLineLabels(t) ==> Count(r, '\n') == Size(t)
    decreases t, 1
  {
    CountConcat(PrintHeader(t, d), PrintChildren(t.children, d + 1), '\n');
    PrintHeader(t, d) + PrintChildren(t.children, d + 1)
  }

  function PrintChildren(ts: seq<Tree>, d: nat): (r: string)
    ensures AllSingleLine(ts) ==> Count(r, '\n') == SizeAll(ts)
    decreases ts, 0
  {
    if ts == [] then ""
    else
      CountConcat(PrintTree(ts[0], d), PrintChildren(ts[1..], d), '\n');
      PrintTree(ts[0], d) + PrintChildren(ts[1..], d)
  }

  /** Number of nodes in a subtree. */
  function Size(t: Tree): nat
    decreases t, 1
  {
    1 + SizeAll(t.children)
  }

  function SizeAll(ts: seq<Tree>): nat
    decreases ts, 0
  {
    if ts == [] then 0 else Size(ts[0]) + SizeAll(ts[1..])
  }

  /** Neither the node's type nor its value contains a newline. */
  predicate SingleLineNode(t: Tree) {
    '\n' !in t.nodeType && (t.value.Some? ==> '\n' !in t.value.value)
  }

  /** No node type or value in the subtree contains a newline. */
  predicate SingleLineLabels(t: Tree)
    decreases t, 1
  {
    SingleLineNode(t) && AllSingleLine(t.children)
  }

  predicate AllSingleLine(ts: seq<Tree>)
    decreases ts, 0
  {
    ts != [] ==> SingleLineLabels(ts[0]) && AllSingleLine(ts[1..])
  }

  /** No token anywhere in the subtree. */
  predicate Untokened(t: Tree)
    decreases t, 1
  {
    t.token.None? && AllUntokened(t.children)
  }

  predicate AllUntokened(ts: seq<Tree>)
    decreases ts, 0
  {
    ts != [] ==> Untokened(ts[0]) && AllUntokened(ts[1..])
  }

  /** The line-number suffix holds no newline. */
  lemma LineSuffixSingleLine(token: Option<UtilToken.Token>)
    ensures '\n' !in LineSuffix(token)
  {
    if token.Some? {
      IntToStringNoSpace(token.value.line);
    }
  }

  /** A line without a newline, then a newline, holds exactly one newline. */
  lemma OneNewline(line: string)
    requires '\n' !in line
    ensures Count(line + "\n", '\n') == 1
  {
    CountConcat(line, "\n", '\n');
  }

  /** Without tokens, `print_tree` and `__str__` print the same text. */
  lemma {:induction false} PrintTreeWithoutTokens(t: Tree, d: nat)
    requires Untokened(t)
    ensures PrintTree(t, d) == Render(t, d)
    decreases t, 1
  {
    PrintChildrenWithoutTokens(t.children, d + 1);
  }

  lemma {:induction false} PrintChildrenWithoutTokens(ts: seq<Tree>, d: nat)
    requires AllUntokened(ts)
    ensures PrintChildren(ts, d) == RenderChildren(ts, d)
    decreases ts, 0
  {
    if ts != [] {
      PrintTreeWithoutTokens(ts[0], d);
      PrintChildrenWithoutTokens(ts[1..], d);
    }
  }
}
