/**
 What `LogsInTryBlockChecker` reports, as functions of the tree: the issues
 its visit appends, in order, and a path-based description of which calls
 it flags. The checker class in module `Analysis` is proved against
 `TryIssues`.
 */
module TryBlockRules {
  import opened Ast
  import opened Issues

  /** The statement type of a call: `print(...)`, `logging.<x>(...)` or neither. */
  datatype CallKind = PrintCall | LoggingCall | OtherCall

  /** The classification applied to the callee of a call inside a try body. */
  function Classify(func: Node): CallKind
  {
    if func.Name? && func.id == "print" then PrintCall
    else if func.Attribute? && func.value.Name? && func.value.id == "logging" then LoggingCall
    else OtherCall
  }

  /** Each kind is recognised by exactly one shape of callee. */
  lemma ClassifyCases(func: Node)
    ensures Classify(func) == PrintCall <==> func.Name? && func.id == "print"
    ensures Classify(func) == LoggingCall <==> func.Attribute? && func.value.Name? && func.value.id == "logging"
    ensures Classify(func) == OtherCall <==>
              !(func.Name? && func.id == "print") &&
              !(func.Attribute? && func.value.Name? && func.value.id == "logging")
  {
  }

  /** The statement type with its first letter capitalised. */
  function Capitalized(kind: CallKind): string
    requires kind != OtherCall
  {
    if kind == PrintCall then "Print" else "Logging"
  }

  const FoundInTryBlock: string := " statement found in try block"

  const TryBlockAdvice: string :=
    ". Consider using proper error logging in except or finally block instead.\nIgnore, if it serves a needed purpose."

  function Explanation(kind: CallKind): string
    requires kind != OtherCall
  {
    Capitalized(kind) + FoundInTryBlock + TryBlockAdvice
  }

  /** The explanations begin with the phrases the report is searched for. */
  lemma PrintExplanationPrefix()
    ensures "Print statement found in try block" <= Explanation(PrintCall)
  {
  }

  lemma LoggingExplanationPrefix()
    ensures "Logging statement found in try block" <= Explanation(LoggingCall)
  {
  }

  /** The issue a call produces itself, apart from what its arguments produce. */
  function OwnIssue(n: Node, inTry: bool): seq<Issue>
  {
    if inTry && n.Call? && Classify(n.func) != OtherCall
    then [Issue(n.line, Explanation(Classify(n.func)))]
    else []
  }

  /** The issues the checker appends when it visits `n` with `in_try_block == inTry`:
      a `try` descends into its body only, with the flag set; a call contributes
      its own issue before those of its children; every other node descends into
      all of its children with the flag unchanged. */
  function TryIssues(n: Node, inTry: bool): seq<Issue>
    decreases Size(n), 1
  {
    if n.Try? then
      TryIssuesSeq(n.body, true)
    else
      ChildrenSize(n);
      OwnIssue(n, inTry) + TryIssuesSeq(Children(n), inTry)
  }

  /** A node that is neither a `try` nor a call yields its children's issues. */
  lemma DescentIssues(n: Node, inTry: bool)
    requires !n.Try? && !n.Call?
    ensures TryIssues(n, inTry) == TryIssuesSeq(Children(n), inTry)
  {
  }

  /** The issues of visiting the nodes of `s` one after another. */
  function TryIssuesSeq(s: seq<Node>, inTry: bool): seq<Issue>
    decreases SizeSeq(s), 2
  {
    if s == [] then [] else TryIssuesSeq(s[..|s| - 1], inTry) + TryIssues(s[|s| - 1], inTry)
  }

  lemma {:induction false} TryIssuesSeqMember(s: seq<Node>, inTry: bool, x: Issue)
    ensures x in TryIssuesSeq(s, inTry) <==> exists i | 0 <= i < |s| :: x in TryIssues(s[i], inTry)
    decreases |s|
  {
    if s != [] {
      var init := s[..|s| - 1];
      TryIssuesSeqMember(init, inTry, x);
      if x in TryIssuesSeq(init, inTry) {
        var i :| 0 <= i < |init| && x in TryIssues(init[i], inTry);
        assert s[i] == init[i];
      }
      if exists i | 0 <= i < |s| :: x in TryIssues(s[i], inTry) {
        var i :| 0 <= i < |s| && x in TryIssues(s[i], inTry);
        if i < |s| - 1 {
          assert init[i] == s[i];
        }
      }
    }
  }

  /** The node at the end of path `p` is visited, and with the flag set:
      every `try` on the way is left through its body (the visit never enters
      a handler, an `else` or a `finally` clause), and the flag was set on
      entry or one of those `try` statements set it. */
  ghost predicate Monitored(n: Node, p: seq<nat>, inTry: bool)
    requires IsPath(n, p)
    decreases |p|
  {
    if p == [] then inTry
    else (n.Try? ==> p[0] < |n.body|) && Monitored(Children(n)[p[0]], p[1..], inTry || n.Try?)
  }

  /** Path `p` leads to a print or logging call that is visited with the flag set,
      and `x` is the issue for that call. */
  ghost predicate FlaggedAt(n: Node, p: seq<nat>, inTry: bool, x: Issue)
  {
    IsPath(n, p) && Monitored(n, p, inTry) &&
    var c := At(n, p);
    c.Call? && Classify(c.func) != OtherCall && x == Issue(c.line, Explanation(Classify(c.func)))
  }

  /** A flagged path below a child extends to a flagged path from its parent,
      provided the step into the child does not leave a `try` through a clause. */
  lemma FlaggedThroughChild(n: Node, i: nat, q: seq<nat>, inTry: bool, x: Issue)
    requires i < |Children(n)| && (n.Try? ==> i < |n.body|)
    requires FlaggedAt(Children(n)[i], q, inTry || n.Try?, x)
    ensures FlaggedAt(n, [i] + q, inTry, x)
  {
  }

  lemma {:induction false} ReportedOnlyIfFlagged(n: Node, inTry: bool, x: Issue)
    requires x in TryIssues(n, inTry)
    ensures exists p :: FlaggedAt(n, p, inTry, x)
    decreases Size(n)
  {
    ChildrenSmaller(n);
    if n.Try? {
      TryIssuesSeqMember(n.body, true, x);
      var i :| 0 <= i < |n.body| && x in TryIssues(n.body[i], true);
      TryBodyIsPrefix(n, i);
      ReportedOnlyIfFlagged(n.body[i], true, x);
      var q :| FlaggedAt(n.body[i], q, true, x);
      FlaggedThroughChild(n, i, q, inTry, x);
    } else if x in OwnIssue(n, inTry) {
      assert FlaggedAt(n, [], inTry, x);
    } else {
      TryIssuesSeqMember(Children(n), inTry, x);
      var i :| 0 <= i < |Children(n)| && x in TryIssues(Children(n)[i], inTry);
      ReportedOnlyIfFlagged(Children(n)[i], inTry, x);
      var q :| FlaggedAt(Children(n)[i], q, inTry, x);
      FlaggedThroughChild(n, i, q, inTry, x);
    }
  }

  lemma {:induction false} FlaggedIsReported(n: Node, p: seq<nat>, inTry: bool, x: Issue)
    requires FlaggedAt(n, p, inTry, x)
    ensures x in TryIssues(n, inTry)
    decreases |p|
  {
    if p != [] {
      var i := p[0];
      var child := Children(n)[i];
      FlaggedIsReported(child, p[1..], inTry || n.Try?, x);
      TryIssuesSeqMember(Children(n), inTry, x);
      if n.Try? {
        TryBodyIsPrefix(n, i);
        TryIssuesSeqMember(n.body, true, x);
      }
    }
  }

  /** The checker reports exactly the print and logging calls it reaches with the
      flag set, one issue per call at the call's line. */
  lemma ReportedIff(n: Node, inTry: bool, x: Issue)
    ensures x in TryIssues(n, inTry) <==> exists p :: FlaggedAt(n, p, inTry, x)
  {
    if x in TryIssues(n, inTry) {
      ReportedOnlyIfFlagged(n, inTry, x);
    }
    if exists p :: FlaggedAt(n, p, inTry, x) {
      var p :| FlaggedAt(n, p, inTry, x);
      FlaggedIsReported(n, p, inTry, x);
    }
  }

  /** A tree without a `try` statement, visited with the flag clear, yields no issue. */
  lemma {:induction false} NoTryNoIssues(n: Node)
    requires !ContainsTry(n)
    ensures TryIssues(n, false) == []
    decreases Size(n)
  {
    ChildrenSmaller(n);
    forall i | 0 <= i < |Children(n)|
      ensures TryIssues(Children(n)[i], false) == []
    {
      NoTryNoIssues(Children(n)[i]);
    }
    if TryIssuesSeq(Children(n), false) != [] {
      var x := TryIssuesSeq(Children(n), false)[0];
      TryIssuesSeqMember(Children(n), false, x);
    }
  }

  /** What a `try` statement yields depends on its body only: its handlers, its
      `else` and `finally` clauses (and any `try` nested in them) are never
      visited, and the flag it was entered with does not matter. */
  lemma ClausesNeverVisited(body: seq<Node>, handlers: seq<Node>, orelse: seq<Node>, finalbody: seq<Node>, inTry: bool)
    ensures TryIssues(Try(body, handlers, orelse, finalbody), inTry) == TryIssues(Try(body, [], [], []), false)
    ensures TryIssues(Try(body, handlers, orelse, finalbody), inTry) == TryIssuesSeq(body, true)
  {
  }

  /** Visiting two lists one after the other yields the issues of the first,
      then those of the second. */
  lemma {:induction false} TryIssuesSeqAppend(a: seq<Node>, b: seq<Node>, inTry: bool)
    ensures TryIssuesSeq(a + b, inTry) == TryIssuesSeq(a, inTry) + TryIssuesSeq(b, inTry)
    decreases |b|
  {
    if b == [] {
      assert a + b == a;
    } else {
      assert (a + b)[..|a + b| - 1] == a + b[..|b| - 1];
      TryIssuesSeqAppend(a, b[..|b| - 1], inTry);
    }
  }

  /** A call yields its own issue first, then those of its callee expression,
      then those of its arguments, all with the flag it was entered with. */
  lemma CallIssues(func: Node, args: seq<Node>, line: int, inTry: bool)
    ensures TryIssues(Call(func, args, line), inTry) ==
            OwnIssue(Call(func, args, line), inTry) + TryIssues(func, inTry) + TryIssuesSeq(args, inTry)
  {
    TryIssuesSeqAppend([func], args, inTry);
    assert [func][..0] == [];
  }

  /** Visiting a one-element list is visiting its element. */
  lemma TryIssuesSingleton(x: Node, inTry: bool)
    ensures TryIssuesSeq([x], inTry) == TryIssues(x, inTry)
  {
  }

  /** `print(args)` in a try body is reported, at its own line, before its arguments. */
  lemma PrintCallIssues(args: seq<Node>, line: int)
    ensures TryIssues(Call(Name("print"), args, line), true) ==
            [Issue(line, Explanation(PrintCall))] + TryIssuesSeq(args, true)
  {
    assert TryIssues(Name("print"), true) == [];
    CallIssues(Name("print"), args, line, true);
  }

  /** `logging.<attr>(args)` in a try body is reported, at its own line, before its arguments. */
  lemma LoggingCallIssues(attr: string, args: seq<Node>, line: int)
    ensures TryIssues(Call(Attribute(Name("logging"), attr), args, line), true) ==
            [Issue(line, Explanation(LoggingCall))] + TryIssuesSeq(args, true)
  {
    TryIssuesSingleton(Name("logging"), true);
    assert TryIssues(Attribute(Name("logging"), attr), true) == [];
    CallIssues(Attribute(Name("logging"), attr), args, line, true);
  }

  /** A classified call is reported before the calls nested in its arguments, and
      those are still visited with the flag set: `print(print(x))` in a try body
      yields the outer call's issue, then the inner one's, then those of `x`. */
  lemma NestedPrintOrder(x: Node, outer: int, inner: int)
    ensures TryIssues(Call(Name("print"), [Call(Name("print"), [x], inner)], outer), true) ==
            [Issue(outer, Explanation(PrintCall)), Issue(inner, Explanation(PrintCall))] + TryIssues(x, true)
  {
    var innerCall := Call(Name("print"), [x], inner);
    PrintCallIssues([x], inner);
    TryIssuesSingleton(x, true);
    PrintCallIssues([innerCall], outer);
    TryIssuesSingleton(innerCall, true);
  }
}
