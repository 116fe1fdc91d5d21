/** The entries of an analysis report. */
module Issues {

  /** One finding: the source line of the offending node and the text shown for it. */
  datatype Issue = Issue(line: int, explanation: string)
}
