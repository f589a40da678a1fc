/**
 * The console reporter (labelPrint). Every line the program writes is a
 * Report: a severity and the text. Colours and glyphs are not modelled.
 */
module Reports {
  import opened Wrappers

  datatype Severity = Warning | Success | Error | Plain

  datatype Report = Report(severity: Severity, text: string)

  function SeverityOf(tag: string): Severity
  {
    if tag == "warning" then Warning
    else if tag == "success" then Success
    else if tag == "error" then Error
    else Plain
  }

  /** The tag a caller passes to obtain a severity; the default tag is empty. */
  function TagOf(s: Severity): string
  {
    match s
    case Warning => "warning"
    case Success => "success"
    case Error => "error"
    case Plain => ""
  }

  /** labelPrint(text, tag) on a string: the text, in the style its free-form tag selects. */
  function LabelPrint(text: string, tag: string): (r: Report)
    ensures r.text == text
    ensures r.severity == Warning <==> tag == "warning"
    ensures r.severity == Success <==> tag == "success"
    ensures r.severity == Error <==> tag == "error"
    ensures r.severity == Plain <==> tag !in {"warning", "success", "error"}
  {
    Report(SeverityOf(tag), text)
  }

  /** Every severity is reachable through its tag, so the string dispatch loses nothing. */
  lemma TagRoundTrip(s: Severity, text: string)
    ensures LabelPrint(text, TagOf(s)).severity == s
  {
  }

  /** What the program hands labelPrint: a string, or a caught sqlite3.IntegrityError object. */
  datatype Printable = Str(s: string) | IntegrityError(message: string)

  /**
   * labelPrint as written, on any value. A styled line is built by `+` on a
   * string prefix, which raises TypeError (None here) for an exception
   * object; the plain branch prints str(value).
   */
  function LabelPrintAsWritten(v: Printable, tag: string): (r: Option<Report>)
    ensures v.Str? ==> r == Some(LabelPrint(v.s, tag))
    ensures v.IntegrityError? ==> (r.None? <==> tag in {"warning", "success", "error"})
    ensures v.IntegrityError? && r.Some? ==> r.value == Report(Plain, v.message)
  {
    match v
    case Str(s) => Some(Report(SeverityOf(tag), s))
    case IntegrityError(m) => if SeverityOf(tag) == Plain then Some(Report(Plain, m)) else None
  }

  /** The program's error branches call labelPrint(e, 'error') with the exception: no line is printed, TypeError escapes. */
  lemma IntegrityErrorLabelRaises(m: string)
    ensures LabelPrintAsWritten(IntegrityError(m), "error") == None
  {
  }

  /**
   * The line the error branches evidently mean to print: labelPrint(str(e), 'error'),
   * the exception's text as an error line.
   */
  function FaultReport(m: string): (r: Report)
    ensures LabelPrintAsWritten(Str(m), "error") == Some(r)
    ensures r.severity == Error && r.text == m
  {
    LabelPrint(m, "error")
  }
}
