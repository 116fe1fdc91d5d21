/**
 The part of Python's `ast` tree that the analyser distinguishes. Every node
 kind the checkers do not look at is an `Other` node that keeps its child
 nodes in field order, so the generic descent still reaches them.
 */
module Ast {

  datatype Node =
    | Module(body: seq<Node>)
    | Try(body: seq<Node>, handlers: seq<Node>, orelse: seq<Node>, finalbody: seq<Node>)
    | Call(func: Node, args: seq<Node>, line: int)
    | Name(id: string)
    | Attribute(value: Node, attr: string)
    | Assign(targets: seq<Node>, value: Node, line: int)
    | Constant
    | Tuple(elts: seq<Node>)
    | Other(children: seq<Node>)

  /** The child nodes in the order the default `generic_visit` visits them:
      field by field, and the items of a list field in list order. */
  function Children(n: Node): seq<Node>
  {
    match n
    case Module(body) => body
    case Try(body, handlers, orelse, finalbody) => body + handlers + orelse + finalbody
    case Call(func, args, _) => [func] + args
    case Name(_) => []
    case Attribute(value, _) => [value]
    case Assign(targets, value, _) => targets + [value]
    case Constant => []
    case Tuple(elts) => elts
    case Other(children) => children
  }

  /** The number of nodes in the tree rooted at `n`; the termination measure
      of every descent through `Children`. */
  function Size(n: Node): (k: nat)
    ensures k >= 1
  {
    match n
    case Module(body) => 1 + SizeSeq(body)
    case Try(body, handlers, orelse, finalbody) =>
      1 + SizeSeq(body) + SizeSeq(handlers) + SizeSeq(orelse) + SizeSeq(finalbody)
    case Call(func, args, _) => 1 + Size(func) + SizeSeq(args)
    case Name(_) => 1
    case Attribute(value, _) => 1 + Size(value)
    case Assign(targets, value, _) => 1 + SizeSeq(targets) + Size(value)
    case Constant => 1
    case Tuple(elts) => 1 + SizeSeq(elts)
    case Other(children) => 1 + SizeSeq(children)
  }

  function SizeSeq(s: seq<Node>): nat
  {
    if s == [] then 0 else SizeSeq(s[..|s| - 1]) + Size(s[|s| - 1])
  }

  lemma {:induction false} SizeSeqAppend(a: seq<Node>, b: seq<Node>)
    ensures SizeSeq(a + b) == SizeSeq(a) + SizeSeq(b)
    decreases |b|
  {
    if b == [] {
      assert a + b == a;
    } else {
      assert (a + b)[..|a + b| - 1] == a + b[..|b| - 1];
      SizeSeqAppend(a, b[..|b| - 1]);
    }
  }

  lemma {:induction false} SizeSeqElement(s: seq<Node>, i: int)
    requires 0 <= i < |s|
    ensures Size(s[i]) <= SizeSeq(s)
    decreases |s|
  {
    if i < |s| - 1 {
      SizeSeqElement(s[..|s| - 1], i);
    }
  }

  /** The children of a node are all of its tree but the node itself. */
  lemma ChildrenSize(n: Node)
    ensures SizeSeq(Children(n)) == Size(n) - 1
  {
    match n
    case Try(body, handlers, orelse, finalbody) =>
      SizeSeqAppend(body, handlers);
      SizeSeqAppend(body + handlers, orelse);
      SizeSeqAppend(body + handlers + orelse, finalbody);
    case Call(func, args, _) =>
      SizeSeqAppend([func], args);
      assert [func][..0] == [];
    case Attribute(value, _) =>
      assert [value][..0] == [];
    case Assign(targets, value, _) =>
      SizeSeqAppend(targets, [value]);
      assert [value][..0] == [];
    case _ =>
  }

  /** Every child is a strictly smaller tree than its parent. */
  lemma ChildrenSmaller(n: Node)
    ensures forall i | 0 <= i < |Children(n)| :: Size(Children(n)[i]) < Size(n)
  {
    ChildrenSize(n);
    forall i | 0 <= i < |Children(n)|
      ensures Size(Children(n)[i]) < Size(n)
    {
      SizeSeqElement(Children(n), i);
    }
  }

  /** The statements of a `try` body come first among its children. */
  lemma TryBodyIsPrefix(n: Node, i: int)
    requires n.Try? && 0 <= i < |n.body|
    ensures i < |Children(n)| && Children(n)[i] == n.body[i]
  {
  }

  /** `p` is a sequence of child indexes that leads from `n` down to some node. */
  ghost predicate IsPath(n: Node, p: seq<nat>)
    decreases |p|
  {
    p == [] || (p[0] < |Children(n)| && IsPath(Children(n)[p[0]], p[1..]))
  }

  /** The node that path `p` leads to from `n`. */
  ghost function At(n: Node, p: seq<nat>): Node
    requires IsPath(n, p)
    decreases |p|
  {
    if p == [] then n else At(Children(n)[p[0]], p[1..])
  }

  /** Some node of the tree, the root included, is a `try` statement. */
  predicate ContainsTry(n: Node)
    decreases Size(n)
  {
    ChildrenSmaller(n);
    n.Try? || exists i | 0 <= i < |Children(n)| :: ContainsTry(Children(n)[i])
  }

  /** Every assignment has at least one target, as `ast.parse` guarantees. */
  predicate WellFormed(n: Node)
    decreases Size(n)
  {
    ChildrenSmaller(n);
    (n.Assign? ==> |n.targets| > 0) &&
    forall i | 0 <= i < |Children(n)| :: WellFormed(Children(n)[i])
  }

}
