/** The import capability, closed over the two document variants. */
module Importer {
  import opened Attributes
  import opened TextFiles
  import LetterImporter
  import ReportImporter

  datatype Variant = Letter | Report

  /** The prefix a variant's first line must carry. */
  function NamePrefix(variant: Variant): string {
    match variant
    case Letter => LetterImporter.NAME_PREFIX
    case Report => ReportImporter.NAME_PREFIX
  }

  /** The TYPE value a variant stamps on its documents. */
  function TypeName(variant: Variant): string {
    match variant
    case Letter => "LETTER"
    case Report => "REPORT"
  }

  /** The document importing `lines` as `variant` yields. */
  function Import(variant: Variant, lines: seq<string>, join: seq<string> -> string): Result<Document> {
    match variant
    case Letter => LetterImporter.LetterDocument(lines, join)
    case Report => ReportImporter.ReportDocument(lines, join)
  }

  /** Imports already-loaded lines with the chosen variant. The result depends on
      the lines and the join alone, so importing the same lines twice yields equal
      documents. */
  method ImportLines(variant: Variant, lines: seq<string>, join: seq<string> -> string) returns (r: Result<Document>)
    ensures r == Import(variant, lines, join)
  {
    match variant
    case Letter => r := LetterImporter.ImportFile(lines, join);
    case Report => r := ReportImporter.ImportFile(lines, join);
  }

  /** What every variant owes its callers: it fails exactly when the first line
      lacks the variant's prefix, and otherwise the document holds PATIENT, BODY
      and the variant's TYPE, and ADDRESS exactly for letters. */
  lemma ImportContract(variant: Variant, lines: seq<string>, join: seq<string> -> string)
    ensures Import(variant, lines, join).Ok? <==> |lines| > 0 && StartsWith(lines[0], NamePrefix(variant))
    ensures Import(variant, lines, join).Ok? ==>
      && {PATIENT, BODY, TYPE} <= Import(variant, lines, join).value.Keys
      && Import(variant, lines, join).value[TYPE] == TypeName(variant)
      && NamePrefix(variant) + Import(variant, lines, join).value[PATIENT] == lines[0]
      && (ADDRESS in Import(variant, lines, join).value <==> variant == Letter)
  {
    match variant
    case Letter =>
      if Import(variant, lines, join).Ok? {
        LetterImporter.LetterKeysAndType(lines, join);
        LetterImporter.LetterPatient(lines, join);
      }
    case Report =>
      if Import(variant, lines, join).Ok? {
        ReportImporter.ReportKeysAndType(lines, join);
        ReportImporter.ReportPatient(lines, join);
      }
  }
}
