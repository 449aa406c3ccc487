/** The letter variant: a greeting line naming the patient, an address block that
    ends at a blank line, and a body that ends at the sign-off. */
module LetterImporter {
  import opened Attributes
  import opened TextFiles

  const NAME_PREFIX := "Dear "
  const SIGN_OFF := "regards,"
  /** The address block begins at this line index. */
  const ADDRESS_START: nat := 2

  /** Ends the address block (Java's `String::isEmpty`). */
  function IsEmptyLine(line: string): bool {
    line == ""
  }

  /** Ends the body. */
  function IsSignOff(line: string): bool {
    StartsWith(line, SIGN_OFF)
  }

  /** Line ranges of the two scans: ADDRESS is lines[AddressStart..AddressEnd],
      BODY is lines[BodyStart..BodyEnd]. */
  function AddressStart(lines: seq<string>): nat {
    Min(ADDRESS_START, |lines|)
  }

  function AddressEnd(lines: seq<string>): nat {
    StopIndex(lines, ADDRESS_START, IsEmptyLine)
  }

  function BodyStart(lines: seq<string>): nat {
    Min(AddressEnd(lines) + 1, |lines|)
  }

  function BodyEnd(lines: seq<string>): nat {
    StopIndex(lines, AddressEnd(lines) + 1, IsSignOff)
  }

  /** The document a letter import yields. */
  function LetterDocument(lines: seq<string>, join: seq<string> -> string): Result<Document> {
    if |lines| == 0 || !StartsWith(lines[0], NAME_PREFIX) then
      Err(MalformedDocument(NAME_PREFIX, 0))
    else
      Ok(map[PATIENT := StripPrefix(lines[0], NAME_PREFIX),
             ADDRESS := join(lines[AddressStart(lines)..AddressEnd(lines)]),
             BODY := join(lines[BodyStart(lines)..BodyEnd(lines)]),
             TYPE := "LETTER"])
  }

  /** Imports a letter from its lines by driving a fresh TextFile through the
      greeting, address and body steps and then stamping the type. */
  method ImportFile(lines: seq<string>, join: seq<string> -> string) returns (r: Result<Document>)
    ensures r == LetterDocument(lines, join)
  {
    var textFile := new TextFile(lines, join);
    var found := textFile.AddLineSuffix(NAME_PREFIX, PATIENT);
    if !found {
      return Err(MalformedDocument(NAME_PREFIX, 0));
    }
    var lineNumber := textFile.AddLines(ADDRESS_START, IsEmptyLine, ADDRESS);
    var _ := textFile.AddLines(lineNumber + 1, IsSignOff, BODY);
    var attributes := textFile.attributes;
    attributes := attributes[TYPE := "LETTER"];
    r := Ok(attributes);
  }

  /** A letter imports exactly when its first line is the greeting. */
  lemma LetterSucceedsIffGreeting(lines: seq<string>, join: seq<string> -> string)
    ensures LetterDocument(lines, join).Ok? <==> |lines| > 0 && StartsWith(lines[0], NAME_PREFIX)
    ensures LetterDocument(lines, join).Err? ==> LetterDocument(lines, join).error == MalformedDocument(NAME_PREFIX, 0)
  {
  }

  /** The keys are exactly PATIENT, ADDRESS, BODY and TYPE, and TYPE is "LETTER". */
  lemma LetterKeysAndType(lines: seq<string>, join: seq<string> -> string)
    requires LetterDocument(lines, join).Ok?
    ensures LetterDocument(lines, join).value.Keys == {PATIENT, ADDRESS, BODY, TYPE}
    ensures LetterDocument(lines, join).value[TYPE] == "LETTER"
  {
  }

  /** PATIENT is the first line with exactly the greeting removed. */
  lemma LetterPatient(lines: seq<string>, join: seq<string> -> string)
    requires LetterDocument(lines, join).Ok?
    ensures NAME_PREFIX + LetterDocument(lines, join).value[PATIENT] == lines[0]
  {
  }

  /** The greeting line, the address block, the line that ends it and the body
      come in that order and do not overlap: the cursor never goes back. */
  lemma LetterRangesOrdered(lines: seq<string>)
    requires |lines| > 0
    ensures 0 < AddressStart(lines) <= AddressEnd(lines) <= BodyStart(lines) <= BodyEnd(lines) <= |lines|
    ensures AddressEnd(lines) < |lines| ==> BodyStart(lines) == AddressEnd(lines) + 1
  {
  }

  /** ADDRESS is the block from line 2 up to, not including, the first empty line
      at or after it (or to the end), whichever index `a` describes that stop. */
  lemma LetterAddress(lines: seq<string>, join: seq<string> -> string, a: nat)
    requires LetterDocument(lines, join).Ok?
    requires IsStop(lines, ADDRESS_START, a, IsEmptyLine)
    ensures LetterDocument(lines, join).value[ADDRESS] == join(lines[Min(ADDRESS_START, |lines|)..a])
  {
    StopIndexUnique(lines, ADDRESS_START, IsEmptyLine, a);
  }

  /** BODY starts just past the line that ended the address block `a` and runs up
      to, not including, the first sign-off line `b` (or to the end). */
  lemma LetterBody(lines: seq<string>, join: seq<string> -> string, a: nat, b: nat)
    requires LetterDocument(lines, join).Ok?
    requires IsStop(lines, ADDRESS_START, a, IsEmptyLine)
    requires IsStop(lines, a + 1, b, IsSignOff)
    ensures LetterDocument(lines, join).value[BODY] == join(lines[Min(a + 1, |lines|)..b])
  {
    StopIndexUnique(lines, ADDRESS_START, IsEmptyLine, a);
    StopIndexUnique(lines, a + 1, IsSignOff, b);
  }

  /** With no empty line after line 2 the address runs to the end and the body is empty. */
  lemma LetterWithoutBlankLine(lines: seq<string>, join: seq<string> -> string)
    requires LetterDocument(lines, join).Ok?
    requires forall i :: ADDRESS_START <= i < |lines| ==> lines[i] != ""
    ensures LetterDocument(lines, join).value[ADDRESS] == join(lines[Min(ADDRESS_START, |lines|)..])
    ensures LetterDocument(lines, join).value[BODY] == join([])
  {
    StopIndexUnique(lines, ADDRESS_START, IsEmptyLine, |lines|);
    StopIndexUnique(lines, |lines| + 1, IsSignOff, |lines|);
    assert lines[|lines|..|lines|] == [];
    assert lines[Min(ADDRESS_START, |lines|)..|lines|] == lines[Min(ADDRESS_START, |lines|)..];
  }

  /** A complete letter. */
  lemma LetterExample(join: seq<string> -> string)
    ensures LetterDocument(["Dear John Smith", "", "123 Main St", "Springfield", "",
                            "Please find attached...", "regards,", "Alice"], join)
         == Ok(map[PATIENT := "John Smith",
                   ADDRESS := join(["123 Main St", "Springfield"]),
                   BODY := join(["Please find attached..."]),
                   TYPE := "LETTER"])
  {
    var lines := ["Dear John Smith", "", "123 Main St", "Springfield", "",
                  "Please find attached...", "regards,", "Alice"];
    assert StartsWith(lines[0], NAME_PREFIX) by { assert lines[0][..5] == NAME_PREFIX; }
    assert StripPrefix(lines[0], NAME_PREFIX) == "John Smith";
    assert AddressEnd(lines) == 4 by {
      assert lines[2] != "" && lines[3] != "" && lines[4] == "";
      StopIndexUnique(lines, ADDRESS_START, IsEmptyLine, 4);
    }
    assert BodyEnd(lines) == 6 by {
      assert !IsSignOff(lines[5]) by { assert lines[5][0] != SIGN_OFF[0]; }
      assert IsSignOff(lines[6]) by { assert lines[6][..8] == SIGN_OFF; }
      StopIndexUnique(lines, 5, IsSignOff, 6);
    }
    assert lines[2..4] == ["123 Main St", "Springfield"];
    assert lines[5..6] == ["Please find attached..."];
  }

  /** A first line without the greeting yields no document. */
  lemma LetterMissingGreetingExample(join: seq<string> -> string)
    ensures LetterDocument(["Hello John", "", "1 Elm St"], join) == Err(MalformedDocument(NAME_PREFIX, 0))
  {
    assert !StartsWith("Hello John", NAME_PREFIX) by {
      assert "Hello John"[..5] != NAME_PREFIX by { assert "Hello John"[0] != NAME_PREFIX[0]; }
    }
  }
}
