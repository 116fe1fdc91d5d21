/**
 The analysis session, the dispatcher and the two checkers. Each checker is a
 visitor object: `Visit` dispatches on the node kind to the checker's own hook
 or to the generic descent, as `ast.NodeVisitor.visit` does, and every issue
 goes to the session's report through `ReportIssue`.
 */
module Analysis {
  import opened Ast
  import opened Issues
  import opened TryBlockRules
  import opened ConstantRules

  datatype Option<T> = None | Some(value: T)

  /** What reading and parsing the file yields: its tree, or the syntax error
      that `ast.parse` raises. */
  datatype ParseOutcome = Parsed(tree: Node) | SyntaxError(message: string)

  class StaticAnalyser {
    const filename: string
    var tree: Option<Node>
    var report: seq<Issue>

    constructor (filename: string)
      ensures this.filename == filename && tree == None && report == []
    {
      this.filename := filename;
      tree := None;
      report := [];
    }

    /** The report only ever grows by one entry at its end, so its order is the
        order in which issues were found. */
    method ReportIssue(line: int, explanation: string)
      modifies this`report
      ensures report == old(report) + [Issue(line, explanation)]
    {
      report := report + [Issue(line, explanation)];
    }

    /** Parses only while no tree is cached: `source` is what parsing would
        yield, and it is ignored once a tree is cached. A syntax error leaves the
        session as it was. Otherwise the dispatcher runs on the cached tree and
        the report grows by that run's issues. */
    method Analyse(source: ParseOutcome) returns (ok: bool)
      modifies this`tree, this`report
      ensures ok <==> old(tree).Some? || source.Parsed?
      ensures tree == if old(tree).Some? then old(tree)
                      else if source.Parsed? then Some(source.tree)
                      else None
      ensures ok ==> report == old(report) + TryIssues(tree.value, false)
      ensures !ok ==> report == old(report)
    {
      if tree == None {
        match source
        case SyntaxError(_) =>
          return false;
        case Parsed(t) =>
          tree := Some(t);
      }
      CheckPatterns(tree.value, this);
      ok := true;
    }
  }

  /** Two analyses on one fresh session: the second reuses the cached tree,
      whatever parsing would now yield, and appends the same issues again. */
  method AnalyseTwice(analyser: StaticAnalyser, source: ParseOutcome, reparsed: ParseOutcome)
    returns (first: bool, second: bool)
    requires analyser.tree == None && analyser.report == [] && source.Parsed?
    modifies analyser`tree, analyser`report
    ensures first && second
    ensures analyser.tree == Some(source.tree)
    ensures analyser.report == TryIssues(source.tree, false) + TryIssues(source.tree, false)
  {
    first := analyser.Analyse(source);
    second := analyser.Analyse(reparsed);
  }

  /** On a fresh session, a file that does not parse yields a failed analysis,
      no cached tree and no report at all. */
  method AnalyseMalformed(analyser: StaticAnalyser, message: string) returns (ok: bool)
    requires analyser.tree == None && analyser.report == []
    modifies analyser`tree, analyser`report
    ensures !ok && analyser.tree == None && analyser.report == []
  {
    ok := analyser.Analyse(SyntaxError(message));
  }

  /** `PatternIdentifier.check_patterns`: runs the active checkers on one tree,
      all reporting to the same session. Only the try-block checker is active;
      the constant checker is switched off. */
  method CheckPatterns(tree: Node, analyser: StaticAnalyser)
    modifies analyser`report
    ensures analyser.report == old(analyser.report) + TryIssues(tree, false)
  {
    var checker := new LogsInTryBlockChecker(tree, analyser);
    checker.Check();
  }

  /** Flags `print(...)` and `logging.<x>(...)` calls in the body of a `try`. */
  class LogsInTryBlockChecker {
    const tree: Node
    const analyser: StaticAnalyser
    var inTryBlock: bool

    constructor (tree: Node, analyser: StaticAnalyser)
      ensures this.tree == tree && this.analyser == analyser && !inTryBlock
    {
      this.tree := tree;
      this.analyser := analyser;
      inTryBlock := false;
    }

    method Check()
      modifies this`inTryBlock, analyser`report
      ensures inTryBlock == old(inTryBlock)
      ensures analyser.report == old(analyser.report) + TryIssues(tree, old(inTryBlock))
    {
      Visit(tree);
    }

    /** Every visit, whatever the node, leaves the flag as it found it. */
    method Visit(n: Node)
      modifies this`inTryBlock, analyser`report
      ensures inTryBlock == old(inTryBlock)
      ensures analyser.report == old(analyser.report) + TryIssues(n, old(inTryBlock))
      decreases Size(n), 2
    {
      match n
      case Try(_, _, _, _) => VisitTry(n);
      case Call(_, _, _) => VisitCall(n);
      case _ =>
        DescentIssues(n, inTryBlock);
        GenericVisit(n);
    }

    /** Saves the flag, sets it, visits the body statements only, and restores
        the saved value, so that a `try` nested in a `try` body leaves the
        outer body still flagged. */
    method VisitTry(n: Node)
      requires n.Try?
      modifies this`inTryBlock, analyser`report
      ensures inTryBlock == old(inTryBlock)
      ensures analyser.report == old(analyser.report) + TryIssues(n, old(inTryBlock))
      decreases Size(n), 1
    {
      var oldInTryBlock := inTryBlock;
      inTryBlock := true;
      for i := 0 to |n.body|
        invariant inTryBlock
        invariant analyser.report == old(analyser.report) + TryIssuesSeq(n.body[..i], true)
      {
        SizeSeqElement(n.body, i);
        Visit(n.body[i]);
        assert n.body[..i + 1][..i] == n.body[..i];
      }
      assert n.body[..|n.body|] == n.body;
      inTryBlock := oldInTryBlock;
    }

    /** Reports a print or logging call while the flag is set, then descends
        into the call's children with the flag unchanged. */
    method VisitCall(n: Node)
      requires n.Call?
      modifies this`inTryBlock, analyser`report
      ensures inTryBlock == old(inTryBlock)
      ensures analyser.report == old(analyser.report) + TryIssues(n, old(inTryBlock))
      decreases Size(n), 1
    {
      if inTryBlock {
        var stmtType := OtherCall;
        if n.func.Name? && n.func.id == "print" {
          stmtType := PrintCall;
        } else if n.func.Attribute? && n.func.value.Name? && n.func.value.id == "logging" {
          stmtType := LoggingCall;
        }
        if stmtType != OtherCall {
          analyser.ReportIssue(n.line, Explanation(stmtType));
        }
      }
      GenericVisit(n);
    }

    /** The default descent: visits every child in field order. */
    method GenericVisit(n: Node)
      modifies this`inTryBlock, analyser`report
      ensures inTryBlock == old(inTryBlock)
      ensures analyser.report == old(analyser.report) + TryIssuesSeq(Children(n), old(inTryBlock))
      decreases Size(n), 0
    {
      var children := Children(n);
      ChildrenSmaller(n);
      for i := 0 to |children|
        invariant inTryBlock == old(inTryBlock)
        invariant analyser.report == old(analyser.report) + TryIssuesSeq(children[..i], inTryBlock)
      {
        Visit(children[i]);
        assert children[..i + 1][..i] == children[..i];
      }
      assert children[..|children|] == children;
    }
  }

  /** Flags constant-looking assignments whose name is not upper-case. */
  class ConstantAreUppercaseChecker {
    const tree: Node
    const analyser: StaticAnalyser

    constructor (tree: Node, analyser: StaticAnalyser)
      ensures this.tree == tree && this.analyser == analyser
    {
      this.tree := tree;
      this.analyser := analyser;
    }

    method Check()
      requires WellFormed(tree)
      modifies analyser`report
      ensures analyser.report == old(analyser.report) + ConstIssues(tree)
    {
      Visit(tree);
    }

    method Visit(n: Node)
      requires WellFormed(n)
      modifies analyser`report
      ensures analyser.report == old(analyser.report) + ConstIssues(n)
      decreases Size(n), 2
    {
      if n.Assign? {
        VisitAssign(n);
      } else {
        GenericVisit(n);
      }
    }

    /** Judges the first target only, and does not descend into the assignment. */
    method VisitAssign(n: Node)
      requires n.Assign? && |n.targets| > 0
      modifies analyser`report
      ensures analyser.report == old(analyser.report) + AssignIssues(n)
    {
      if n.targets[0].Name? {
        var name := n.targets[0].id;
        if IsConstant(name, n.value) {
          if !IsUpper(name) {
            analyser.ReportIssue(n.line, ConstantExplanation(name));
          }
        }
      }
    }

    method GenericVisit(n: Node)
      requires WellFormed(n)
      modifies analyser`report
      ensures analyser.report == old(analyser.report) + ConstIssuesSeq(Children(n))
      decreases Size(n), 0
    {
      var children := Children(n);
      ChildrenSmaller(n);
      for i := 0 to |children|
        invariant analyser.report == old(analyser.report) + ConstIssuesSeq(children[..i])
      {
        Visit(children[i]);
        assert children[..i + 1][..i] == children[..i];
      }
      assert children[..|children|] == children;
    }
  }
}
