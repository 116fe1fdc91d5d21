/**
 What `ConstantAreUppercaseChecker` reports, as functions of the tree, and a
 path-based description of which assignments it judges. The checker class in
 module `Analysis` is proved against `ConstIssues`.
 */
module ConstantRules {
  import opened Ast
  import opened Issues

  predicate IsUpperChar(c: char)
  {
    'A' <= c <= 'Z'
  }

  predicate IsLowerChar(c: char)
  {
    'a' <= c <= 'z'
  }

  /** `str.isupper` over ASCII: at least one cased letter, and no lower-case one. */
  predicate IsUpper(s: string)
  {
    (exists i | 0 <= i < |s| :: IsUpperChar(s[i])) && forall i | 0 <= i < |s| :: !IsLowerChar(s[i])
  }

  /** `is_constant`: a name longer than two characters, not starting with an
      underscore, bound to a literal or to a tuple display. */
  predicate IsConstant(name: string, value: Node)
  {
    |name| > 2 && name[0] != '_' && (value.Constant? || value.Tuple?)
  }

  function ConstantExplanation(name: string): string
  {
    "Constant variable '" + name + "' should be in uppercase format."
  }

  /** What `visit_Assign` reports for one assignment. Only the first target is
      judged, so in `a = B = 1` the name `B` is never looked at. */
  function AssignIssues(n: Node): seq<Issue>
    requires n.Assign? && |n.targets| > 0
  {
    var target := n.targets[0];
    if target.Name? && IsConstant(target.id, n.value) && !IsUpper(target.id)
    then [Issue(n.line, ConstantExplanation(target.id))]
    else []
  }

  /** The issues the checker appends when it visits `n`: an assignment is judged
      and not descended into; every other node descends into all its children. */
  function ConstIssues(n: Node): seq<Issue>
    requires WellFormed(n)
    decreases Size(n), 1
  {
    if n.Assign? then
      AssignIssues(n)
    else
      ChildrenSize(n);
      ConstIssuesSeq(Children(n))
  }

  function ConstIssuesSeq(s: seq<Node>): seq<Issue>
    requires forall i | 0 <= i < |s| :: WellFormed(s[i])
    decreases SizeSeq(s), 2
  {
    if s == [] then [] else ConstIssuesSeq(s[..|s| - 1]) + ConstIssues(s[|s| - 1])
  }

  lemma {:induction false} ConstIssuesSeqMember(s: seq<Node>, x: Issue)
    requires forall i | 0 <= i < |s| :: WellFormed(s[i])
    ensures x in ConstIssuesSeq(s) <==> exists i | 0 <= i < |s| :: x in ConstIssues(s[i])
    decreases |s|
  {
    if s != [] {
      var init := s[..|s| - 1];
      ConstIssuesSeqMember(init, x);
      if x in ConstIssuesSeq(init) {
        var i :| 0 <= i < |init| && x in ConstIssues(init[i]);
        assert s[i] == init[i];
      }
      if exists i | 0 <= i < |s| :: x in ConstIssues(s[i]) {
        var i :| 0 <= i < |s| && x in ConstIssues(s[i]);
        if i < |s| - 1 {
          assert init[i] == s[i];
        }
      }
    }
  }

  /** The node at the end of path `p` is visited: no assignment lies strictly
      above it. Every other kind of node, a `try` included, is descended into
      wholly, so assignments in function bodies and in `except`, `else` and
      `finally` clauses are reached as well as those at module level. */
  ghost predicate Reaches(n: Node, p: seq<nat>)
    requires IsPath(n, p)
    decreases |p|
  {
    p == [] || (!n.Assign? && Reaches(Children(n)[p[0]], p[1..]))
  }

  /** Path `p` leads to a reached assignment that reports `x`. */
  ghost predicate ConstFlaggedAt(n: Node, p: seq<nat>, x: Issue)
  {
    IsPath(n, p) && Reaches(n, p) &&
    var a := At(n, p);
    a.Assign? && |a.targets| > 0 && x in AssignIssues(a)
  }

  lemma ConstFlaggedThroughChild(n: Node, i: nat, q: seq<nat>, x: Issue)
    requires i < |Children(n)| && !n.Assign?
    requires ConstFlaggedAt(Children(n)[i], q, x)
    ensures ConstFlaggedAt(n, [i] + q, x)
  {
  }

  lemma {:induction false} ConstReportedOnlyIfFlagged(n: Node, x: Issue)
    requires WellFormed(n) && x in ConstIssues(n)
    ensures exists p :: ConstFlaggedAt(n, p, x)
    decreases Size(n)
  {
    if n.Assign? {
      assert ConstFlaggedAt(n, [], x);
    } else {
      ChildrenSmaller(n);
      ConstIssuesSeqMember(Children(n), x);
      var i :| 0 <= i < |Children(n)| && x in ConstIssues(Children(n)[i]);
      ConstReportedOnlyIfFlagged(Children(n)[i], x);
      var q :| ConstFlaggedAt(Children(n)[i], q, x);
      ConstFlaggedThroughChild(n, i, q, x);
    }
  }

  lemma {:induction false} ConstFlaggedIsReported(n: Node, p: seq<nat>, x: Issue)
    requires WellFormed(n) && ConstFlaggedAt(n, p, x)
    ensures x in ConstIssues(n)
    decreases |p|
  {
    if p != [] {
      var child := Children(n)[p[0]];
      ConstFlaggedIsReported(child, p[1..], x);
      ConstIssuesSeqMember(Children(n), x);
    }
  }

  /** The checker reports exactly the reached assignments that `visit_Assign` flags. */
  lemma ConstReportedIff(n: Node, x: Issue)
    requires WellFormed(n)
    ensures x in ConstIssues(n) <==> exists p :: ConstFlaggedAt(n, p, x)
  {
    if x in ConstIssues(n) {
      ConstReportedOnlyIfFlagged(n, x);
    }
    if exists p :: ConstFlaggedAt(n, p, x) {
      var p :| ConstFlaggedAt(n, p, x);
      ConstFlaggedIsReported(n, p, x);
    }
  }

  /** For a name that starts with an ASCII letter, as a Python identifier that
      does not start with an underscore does, `isupper` fails exactly when some
      letter is lower-case. */
  lemma NotUpperIffLowercase(name: string)
    requires |name| > 0 && (IsUpperChar(name[0]) || IsLowerChar(name[0]))
    ensures !IsUpper(name) <==> exists i | 0 <= i < |name| :: IsLowerChar(name[i])
  {
  }

  /** Only constant-looking assignments are judged: an assignment whose first
      target is not a bare name, or whose first target's name has at most two
      characters or starts with an underscore, or whose value is neither a
      literal nor a tuple display, is never reported, whatever its other
      targets and whatever the name's case. */
  lemma NonConstantsIgnored(targets: seq<Node>, value: Node, line: int)
    requires |targets| > 0
    requires !targets[0].Name? || |targets[0].id| <= 2 || targets[0].id[0] == '_' ||
             !(value.Constant? || value.Tuple?)
    ensures AssignIssues(Assign(targets, value, line)) == []
  {
  }

  /** A single-target assignment of a literal to a constant-looking name is
      reported exactly when the name has a lower-case letter, once, at the
      assignment's line. */
  lemma SingleAssignReported(name: string, value: Node, line: int)
    requires IsConstant(name, value) && (IsUpperChar(name[0]) || IsLowerChar(name[0]))
    ensures AssignIssues(Assign([Name(name)], value, line)) ==
            if exists i | 0 <= i < |name| :: IsLowerChar(name[i])
            then [Issue(line, ConstantExplanation(name))]
            else []
  {
  }

  /** In `MAX = limit = 0` only `MAX` is judged, so nothing is reported, while
      `limit = 0` on its own is reported. */
  lemma FirstTargetOnly(line: int)
    ensures ConstIssues(Assign([Name("MAX"), Name("limit")], Constant, line)) == []
    ensures ConstIssues(Assign([Name("limit")], Constant, line)) == [Issue(line, ConstantExplanation("limit"))]
  {
  }

  /** Unlike the try-block checker, this checker descends into `except`
      clauses: an assignment there is judged like one at module level. */
  lemma HandlerAssignReported(line: int)
    ensures var t := Try([], [Other([Assign([Name("limit")], Constant, line)])], [], []);
            WellFormed(t) && ConstIssues(t) == [Issue(line, ConstantExplanation("limit"))]
  {
    var assign := Assign([Name("limit")], Constant, line);
    var handler := Other([assign]);
    var t := Try([], [handler], [], []);
    FirstTargetOnly(line);
    assert Children(t) == [handler];
    assert WellFormed(Name("limit")) && WellFormed(Constant);
    assert WellFormed(assign) by {
      assert Children(assign) == [Name("limit"), Constant];
    }
    assert WellFormed(handler) && WellFormed(t);
    assert ConstIssuesSeq([assign]) == ConstIssues(assign) by {
      assert [assign][..0] == [];
    }
    assert ConstIssuesSeq([handler]) == ConstIssues(handler) by {
      assert [handler][..0] == [];
    }
  }
}
