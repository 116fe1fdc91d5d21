/**
 The scenarios of the repository's unit tests, and a nested-`try` scenario,
 as trees, with the report the try-block checker produces for each.
 Line numbers are those of the test sources, whose first line is empty.
 */
module TryBlockExamples {
  import opened Ast
  import opened Issues
  import opened TryBlockRules

  /** An expression statement, such as a call on a line of its own. */
  function Expr(call: Node): Node
  {
    Other([call])
  }

  /** `pass`, an `import`, and other statements without calls. */
  const Pass: Node := Other([])

  function PrintStmt(line: int): Node
  {
    Expr(Call(Name("print"), [Constant], line))
  }

  function LogStmt(line: int): Node
  {
    Expr(Call(Attribute(Name("logging"), "info"), [Constant], line))
  }

  /** `num = 0` followed by `num += 1`. */
  function Counting(line: int): seq<Node>
  {
    [Assign([Name("num")], Constant, line), Other([Name("num"), Other([]), Constant])]
  }

  lemma TryIssuesSeqCons(x: Node, s: seq<Node>, inTry: bool)
    ensures TryIssuesSeq([x] + s, inTry) == TryIssues(x, inTry) + TryIssuesSeq(s, inTry)
  {
    TryIssuesSeqAppend([x], s, inTry);
    TryIssuesSingleton(x, inTry);
  }

  lemma TryIssuesPair(x: Node, y: Node, inTry: bool)
    ensures TryIssuesSeq([x, y], inTry) == TryIssues(x, inTry) + TryIssues(y, inTry)
  {
    assert [x, y] == [x] + [y];
    TryIssuesSeqCons(x, [y], inTry);
    TryIssuesSingleton(y, inTry);
  }

  lemma TryIssuesTriple(x: Node, y: Node, z: Node, inTry: bool)
    ensures TryIssuesSeq([x, y, z], inTry) == TryIssues(x, inTry) + TryIssues(y, inTry) + TryIssues(z, inTry)
  {
    assert [x, y, z] == [x] + [y, z];
    TryIssuesSeqCons(x, [y, z], inTry);
    TryIssuesPair(y, z, inTry);
  }

  lemma PrintStmtIssues(line: int, inTry: bool)
    ensures TryIssues(PrintStmt(line), inTry) == if inTry then [Issue(line, Explanation(PrintCall))] else []
  {
    var call := Call(Name("print"), [Constant], line);
    TryIssuesSingleton(call, inTry);
    TryIssuesSingleton(Constant, inTry);
    CallIssues(Name("print"), [Constant], line, inTry);
  }

  lemma LogStmtIssues(line: int, inTry: bool)
    ensures TryIssues(LogStmt(line), inTry) == if inTry then [Issue(line, Explanation(LoggingCall))] else []
  {
    var callee := Attribute(Name("logging"), "info");
    var call := Call(callee, [Constant], line);
    TryIssuesSingleton(call, inTry);
    TryIssuesSingleton(Constant, inTry);
    TryIssuesSingleton(Name("logging"), inTry);
    CallIssues(callee, [Constant], line, inTry);
  }

  lemma CountingIssues(line: int, inTry: bool)
    ensures TryIssuesSeq(Counting(line), inTry) == []
  {
    var assign := Assign([Name("num")], Constant, line);
    var augmented := Other([Name("num"), Other([]), Constant]);
    assert Children(assign) == [Name("num"), Constant];
    TryIssuesPair(Name("num"), Constant, inTry);
    assert TryIssues(assign, inTry) == [];
    TryIssuesTriple(Name("num"), Other([]), Constant, inTry);
    assert TryIssues(augmented, inTry) == [];
    TryIssuesPair(assign, augmented, inTry);
  }

  /** A module whose only statement is `s`. */
  lemma SingleStatementModule(s: Node)
    ensures TryIssues(Module([s]), false) == TryIssues(s, false)
  {
    TryIssuesSingleton(s, false);
  }

  /** A print in a try body is reported once, as a print. */
  lemma PrintInTryBlock()
    ensures TryIssues(Module([Try([PrintStmt(3)], [Other([Pass])], [], [])]), false) ==
            [Issue(3, Explanation(PrintCall))]
  {
    var t := Try([PrintStmt(3)], [Other([Pass])], [], []);
    SingleStatementModule(t);
    TryIssuesSingleton(PrintStmt(3), true);
    PrintStmtIssues(3, true);
  }

  /** A logging call in a try body is reported once, as a logging statement. */
  lemma LoggingInTryBlock()
    ensures TryIssues(Module([Pass, Try([LogStmt(4)], [Other([Pass])], [], [])]), false) ==
            [Issue(4, Explanation(LoggingCall))]
  {
    var t := Try([LogStmt(4)], [Other([Pass])], [], []);
    TryIssuesPair(Pass, t, false);
    TryIssuesSingleton(LogStmt(4), true);
    LogStmtIssues(4, true);
  }

  /** A print in an `except` clause is not reported. */
  lemma NoPrintOrLoggingInTryBlock()
    ensures TryIssues(Module([Try(Counting(3), [Other([PrintStmt(6)])], [], [])]), false) == []
  {
  }

  /** A print before a `try` statement is not reported. */
  lemma PrintOutsideTryBlock()
    ensures TryIssues(Module([PrintStmt(2), Try(Counting(4), [Other([Pass])], [], [])]), false) == []
  {
    var t := Try(Counting(4), [Other([Pass])], [], []);
    TryIssuesPair(PrintStmt(2), t, false);
    PrintStmtIssues(2, false);
    CountingIssues(4, true);
  }

  /** Of five prints and logging calls, only the three in the try body are
      reported, in source order. */
  lemma MultiplePrintsLogs()
    ensures TryIssues(Module([Try([PrintStmt(3), LogStmt(4), PrintStmt(5)],
                                  [Other([PrintStmt(7)])], [], [PrintStmt(9)])]), false) ==
            [Issue(3, Explanation(PrintCall)), Issue(4, Explanation(LoggingCall)), Issue(5, Explanation(PrintCall))]
  {
    var t := Try([PrintStmt(3), LogStmt(4), PrintStmt(5)], [Other([PrintStmt(7)])], [], [PrintStmt(9)]);
    SingleStatementModule(t);
    TryIssuesTriple(PrintStmt(3), LogStmt(4), PrintStmt(5), true);
    PrintStmtIssues(3, true);
    LogStmtIssues(4, true);
    PrintStmtIssues(5, true);
  }

  /** A `try` nested in a `try` body: the inner body's print is reported, the
      restored flag still marks the print after the inner block, and the print
      in the outer `except` clause is not reported. */
  lemma NestedTryRestoresFlag()
    ensures TryIssues(Module([Try([Try([PrintStmt(4)], [Other([Pass])], [], []), PrintStmt(6)],
                                  [Other([PrintStmt(8)])], [], [])]), false) ==
            [Issue(4, Explanation(PrintCall)), Issue(6, Explanation(PrintCall))]
  {
    var inner := Try([PrintStmt(4)], [Other([Pass])], [], []);
    var outer := Try([inner, PrintStmt(6)], [Other([PrintStmt(8)])], [], []);
    SingleStatementModule(outer);
    TryIssuesPair(inner, PrintStmt(6), true);
    TryIssuesSingleton(PrintStmt(4), true);
    PrintStmtIssues(4, true);
    PrintStmtIssues(6, true);
  }
}
