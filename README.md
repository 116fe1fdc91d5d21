# Try-block static analyser, modelled in Dafny

The analyser parses a Python file into an `ast` tree, walks the tree with
pattern checkers and collects line-numbered issues in a report. This project
models its analysis engine:

- the tree, as a closed datatype `Ast.Node` with the node kinds the checkers
  look at (`Module`, `Try`, `Call`, `Name`, `Attribute`, `Assign`, `Constant`,
  `Tuple`) and `Other(children)` for every other kind; `Ast.Children` lists a
  node's children in the order `generic_visit` visits them;
- the session `StaticAnalyser`, a class with the cached `tree` and the
  append-only `report`;
- the dispatcher `CheckPatterns`, which runs only the try-block checker;
- `LogsInTryBlockChecker`, a visitor object with the `inTryBlock` flag that
  `VisitTry` saves, sets and restores;
- `ConstantAreUppercaseChecker`, which is modelled although the dispatcher
  leaves it switched off.

Each checker method is proved against a function of the tree: `TryIssues`
and `ConstIssues` (modules `TryBlockRules` and `ConstantRules`). Each of those
functions is in turn tied, by an if-and-only-if lemma, to an independent
description by paths. A call is reported exactly when it is a print or
logging call that the visit reaches with the flag set: every `try` on its path
is left through its body, and, as the dispatcher runs it with the flag
clear, the path enters at least one `try`. An assignment is judged exactly
when no assignment lies above it. Module `TryBlockExamples` replays the
repository's unit-test scenarios on concrete trees.

In four places the code does less, or other, than a reader might expect; the
model follows the code:

- `visit_Try` visits only the body. A `try` inside an `except`, `else` or
  `finally` clause is never visited, so a print in its body is not reported
  (`ClausesNeverVisited`).
- The constant checker reaches every assignment that the generic descent
  reaches: in function bodies and in `except` clauses as well as at module
  level (`HandlerAssignReported`).
- The constant checker judges `targets[0]` of a multi-target assignment. It
  does not ignore such assignments (`FirstTargetOnly`).
- The report is not cleared between two analyses. A second `analyse` on the
  same session appends the same issues again (`AnalyseTwice`).

## Model

| member | source | states |
|---|---|---|
| `Analysis.StaticAnalyser.constructor` | static_analyser.py:6-9 | a new session has no tree and an empty report |
| `Analysis.StaticAnalyser.ReportIssue` | static_analyser.py:29-33 | the report grows by exactly one entry, (line, explanation), at its end; earlier entries are unchanged |
| `Analysis.StaticAnalyser.Analyse` | static_analyser.py:23-27 | the tree is taken from parsing only while none is cached, and a cached tree is kept; a syntax error changes nothing; otherwise the report grows by the issues of the dispatcher run on the cached tree |
| `Analysis.AnalyseTwice` | static_analyser.py:23-27 | on a fresh session, two analyses both succeed; the session keeps the first parse's tree whatever parsing would yield the second time, and its report is that tree's issues twice over |
| `Analysis.AnalyseMalformed` | static_analyser.py:19-25 | on a fresh session, a file that does not parse gives a failed analysis, leaves no tree cached and the report empty |
| `Analysis.CheckPatterns` | static_analyser.py:58-62 | the report grows by the try-block checker's issues for the tree, visited with the flag clear, and by nothing else |
| `Analysis.LogsInTryBlockChecker.constructor` | static_analyser.py:66-69 | the checker holds the tree and the session, with the flag clear |
| `Analysis.LogsInTryBlockChecker.Check` | static_analyser.py:71-72 | visiting the whole tree appends `TryIssues(tree, flag)` and leaves the flag unchanged |
| `Analysis.LogsInTryBlockChecker.Visit` | static_analyser.py:65-99 | dispatch on the node kind; any visit leaves the flag as it found it and appends `TryIssues(n, flag)` |
| `Analysis.LogsInTryBlockChecker.VisitTry` | static_analyser.py:74-80 | after the body is visited with the flag set, the flag has its value on entry again, for nested `try` statements too; only the body's issues are appended |
| `Analysis.LogsInTryBlockChecker.VisitCall` | static_analyser.py:82-99 | with the flag set, a print or logging call appends one issue at its line before its children's; the children are visited with the flag unchanged |
| `Analysis.LogsInTryBlockChecker.GenericVisit` | static_analyser.py:99 | visits the children in field order, appending their issues in that order, flag unchanged |
| `Analysis.ConstantAreUppercaseChecker.constructor` | static_analyser.py:104-106 | the checker holds the tree and the session |
| `Analysis.ConstantAreUppercaseChecker.Check` | static_analyser.py:108-109 | visiting the whole tree appends `ConstIssues(tree)` |
| `Analysis.ConstantAreUppercaseChecker.Visit` | static_analyser.py:103-117 | an assignment goes to `VisitAssign`, any other node to the generic descent; appends `ConstIssues(n)` |
| `Analysis.ConstantAreUppercaseChecker.VisitAssign` | static_analyser.py:111-117 | appends the one issue `AssignIssues` gives for the first target, or nothing, and does not descend |
| `Analysis.ConstantAreUppercaseChecker.GenericVisit` | static_analyser.py:103-109 | visits the children in field order, appending their issues in that order |
| `TryBlockRules.ReportedIff` | static_analyser.py:74-99 | an issue is in the checker's output exactly when some path leads to a print or logging call reached with the flag set (every `try` on the path left through its body, and a `try` entered or the flag set on entry), and the issue is that call's line and explanation |
| `TryBlockRules.ReportedOnlyIfFlagged` | static_analyser.py:82-97 | every reported issue comes from a flagged print or logging call |
| `TryBlockRules.FlaggedIsReported` | static_analyser.py:74-99 | every flagged print or logging call is reported |
| `TryBlockRules.NoTryNoIssues` | static_analyser.py:83-92 | a tree with no `try`, visited with the flag clear, yields no issue |
| `TryBlockRules.ClausesNeverVisited` | static_analyser.py:77-78 | a `try` yields the issues of its body visited with the flag set, whatever its handlers, `else` and `finally` clauses hold and whatever the flag was |
| `TryBlockRules.ClassifyCases` | static_analyser.py:84-90 | a bare name `print` is a print call; an attribute whose base is the bare name `logging` is a logging call; anything else is neither |
| `TryBlockRules.CallIssues` | static_analyser.py:82-99 | a call yields its own issue, then its callee's, then its arguments', all with the entry flag |
| `TryBlockRules.PrintCallIssues` | static_analyser.py:85-86 | `print(...)` in a try body is reported as a print at its line, before its arguments |
| `TryBlockRules.LoggingCallIssues` | static_analyser.py:87-90 | `logging.<x>(...)` in a try body is reported as a logging statement at its line, before its arguments |
| `TryBlockRules.NestedPrintOrder` | static_analyser.py:92-99 | `print(print(x))` in a try body yields the outer issue, then the inner one, then those of `x` |
| `TryBlockRules.TryIssuesSeqAppend` | static_analyser.py:77-78 | visiting statements one after another yields their issues in statement order |
| `TryBlockRules.PrintExplanationPrefix` | static_analyser.py:93-96 | a print issue's explanation begins with "Print statement found in try block" |
| `TryBlockRules.LoggingExplanationPrefix` | static_analyser.py:93-96 | a logging issue's explanation begins with "Logging statement found in try block" |
| `TryBlockExamples.PrintInTryBlock` | test_static_analyser.py:22-31 | a print in a try body gives exactly one print issue, at its line |
| `TryBlockExamples.LoggingInTryBlock` | test_static_analyser.py:33-43 | a logging call in a try body gives exactly one logging issue, at its line |
| `TryBlockExamples.NoPrintOrLoggingInTryBlock` | test_static_analyser.py:45-54 | a print in an `except` clause gives no issue |
| `TryBlockExamples.PrintOutsideTryBlock` | test_static_analyser.py:56-66 | a print before a `try` gives no issue |
| `TryBlockExamples.MultiplePrintsLogs` | test_static_analyser.py:68-80 | of five prints and logging calls, exactly the three in the try body are reported, in source order |
| `TryBlockExamples.NestedTryRestoresFlag` | static_analyser.py:74-80 | in a `try` nested in a `try` body, the inner print and the outer print after it are reported, the outer `except` print is not |
| `ConstantRules.ConstReportedIff` | static_analyser.py:103-117 | an issue is in the constant checker's output exactly when some path with no assignment above its end leads to an assignment that `visit_Assign` reports with that issue |
| `ConstantRules.ConstReportedOnlyIfFlagged` | static_analyser.py:111-117 | every constant issue comes from a reached assignment |
| `ConstantRules.ConstFlaggedIsReported` | static_analyser.py:103-117 | every reached assignment that `visit_Assign` flags is reported |
| `ConstantRules.NotUpperIffLowercase` | static_analyser.py:115 | for a name starting with a letter, `isupper` fails exactly when the name has a lower-case letter |
| `ConstantRules.NonConstantsIgnored` | static_analyser.py:111-123 | an assignment is reported only when its first target is a bare name that passes `is_constant`: longer than two characters, not starting with '_', bound to a Constant or a Tuple; any other assignment, multi-target ones included, is never reported, whatever its case |
| `ConstantRules.SingleAssignReported` | static_analyser.py:111-123 | a constant-looking single-target assignment is reported once, at its line, exactly when its name has a lower-case letter |
| `ConstantRules.FirstTargetOnly` | static_analyser.py:112 | in `MAX = limit = 0` only `MAX` is judged, so there is no issue, while `limit = 0` is reported |
| `ConstantRules.HandlerAssignReported` | static_analyser.py:108-117 | an assignment inside an `except` clause is reported like one at module level |

## Left out

- `read_file` and `generate_ast`: file I/O and the `ast.parse` front end are
  not modelled. `Analyse` takes what parsing would yield, a tree or a syntax
  error, as a `ParseOutcome` argument. A syntax error, which `ast.parse`
  raises as an exception, is modelled as `Analyse` returning false.
- The `sys.exit(1)` taken when the file is missing is not modelled (process
  exit).
- `analyse` takes the pattern identifier as an argument and calls whatever
  object it is given. `Analyse` always runs `CheckPatterns`, since every
  caller, `main.py` and the unit tests, passes a fresh `PatternIdentifier`.
- `print_report` and `save_report`: console and file formatting only.
- `main.py`: command-line parsing.
- The full Python `ast` node set: every other node kind is an `Other` node
  with its child nodes in field order. A call's keyword arguments are
  counted among its `args`. The `ctx` fields of `Name`, `Tuple` and others
  have no issue-relevant children and are left out. A `try`/`except*`
  statement (`ast.TryStar`) is one of those `Other` nodes: `visit_Try` does
  not handle it, so all of its clauses are visited with the flag unchanged.
- `str.isupper` is modelled over ASCII letters only. Other characters count
  as uncased.
- `ConstantAreUppercaseChecker.Visit`, `VisitAssign` and `Check` require
  every assignment to have at least one target (`Ast.WellFormed`), which
  `ast.parse` guarantees. The `IndexError` that `node.targets[0]` would raise
  on a hand-built tree is not modelled.
- Python's recursion limit is not modelled: on a tree deep enough,
  `visit` and `generic_visit` raise `RecursionError` after some issues are
  already in the report, and `analyse` ends with that exception and a partial
  report. The model's visits always complete.
