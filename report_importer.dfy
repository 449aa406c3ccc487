/** The report variant: a line naming the patient and a body that runs from line 2
    to the end. */
module ReportImporter {
  import opened Attributes
  import opened TextFiles

  const NAME_PREFIX := "Patient: "
  /** The body begins at this line index. */
  const BODY_START: nat := 2

  /** The body's end test, which never holds (Java's `line -> false`). */
  function NeverEnds(line: string): bool {
    false
  }

  /** The document a report import yields. */
  function ReportDocument(lines: seq<string>, join: seq<string> -> string): Result<Document> {
    if |lines| == 0 || !StartsWith(lines[0], NAME_PREFIX) then
      Err(MalformedDocument(NAME_PREFIX, 0))
    else
      Ok(map[PATIENT := StripPrefix(lines[0], NAME_PREFIX),
             BODY := join(lines[Min(BODY_START, |lines|)..StopIndex(lines, BODY_START, NeverEnds)]),
             TYPE := "REPORT"])
  }

  /** Imports a report from its lines by driving a fresh TextFile through the
      patient and body steps and then stamping the type. */
  method ImportFile(lines: seq<string>, join: seq<string> -> string) returns (r: Result<Document>)
    ensures r == ReportDocument(lines, join)
  {
    var textFile := new TextFile(lines, join);
    var found := textFile.AddLineSuffix(NAME_PREFIX, PATIENT);
    if !found {
      return Err(MalformedDocument(NAME_PREFIX, 0));
    }
    var _ := textFile.AddLines(BODY_START, NeverEnds, BODY);
    var attributes := textFile.attributes;
    attributes := attributes[TYPE := "REPORT"];
    r := Ok(attributes);
  }

  /** A report imports exactly when its first line names the patient. */
  lemma ReportSucceedsIffPatientLine(lines: seq<string>, join: seq<string> -> string)
    ensures ReportDocument(lines, join).Ok? <==> |lines| > 0 && StartsWith(lines[0], NAME_PREFIX)
    ensures ReportDocument(lines, join).Err? ==> ReportDocument(lines, join).error == MalformedDocument(NAME_PREFIX, 0)
  {
  }

  /** The keys are exactly PATIENT, BODY and TYPE (never ADDRESS), and TYPE is "REPORT". */
  lemma ReportKeysAndType(lines: seq<string>, join: seq<string> -> string)
    requires ReportDocument(lines, join).Ok?
    ensures ReportDocument(lines, join).value.Keys == {PATIENT, BODY, TYPE}
    ensures ADDRESS !in ReportDocument(lines, join).value
    ensures ReportDocument(lines, join).value[TYPE] == "REPORT"
  {
  }

  /** PATIENT is the first line with exactly the prefix removed. */
  lemma ReportPatient(lines: seq<string>, join: seq<string> -> string)
    requires ReportDocument(lines, join).Ok?
    ensures NAME_PREFIX + ReportDocument(lines, join).value[PATIENT] == lines[0]
  {
  }

  /** The body scan never stops early: it reaches the number of lines, and BODY
      joins every line from index 2 to the end. */
  lemma ReportBodyToEnd(lines: seq<string>, join: seq<string> -> string)
    requires ReportDocument(lines, join).Ok?
    ensures StopIndex(lines, BODY_START, NeverEnds) == |lines|
    ensures ReportDocument(lines, join).value[BODY] == join(lines[Min(BODY_START, |lines|)..])
  {
    NeverEndingScanReachesEnd(lines, BODY_START, NeverEnds);
    assert lines[Min(BODY_START, |lines|)..|lines|] == lines[Min(BODY_START, |lines|)..];
  }

  /** A complete report. */
  lemma ReportExample(join: seq<string> -> string)
    ensures ReportDocument(["Patient: Jane Doe", "", "Vitals normal.", "No further action."], join)
         == Ok(map[PATIENT := "Jane Doe",
                   BODY := join(["Vitals normal.", "No further action."]),
                   TYPE := "REPORT"])
  {
    var lines := ["Patient: Jane Doe", "", "Vitals normal.", "No further action."];
    assert StartsWith(lines[0], NAME_PREFIX) by { assert lines[0][..9] == NAME_PREFIX; }
    assert StripPrefix(lines[0], NAME_PREFIX) == "Jane Doe";
    NeverEndingScanReachesEnd(lines, BODY_START, NeverEnds);
    assert lines[2..4] == ["Vitals normal.", "No further action."];
  }
}
