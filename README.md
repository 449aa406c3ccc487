# Document importer model

A Dafny model of the document-import engine of `com.company.importer`. Each importer
variant turns an ordered sequence of text lines into a string-to-string attribute
mapping. It does this by driving a line-scanning helper, `TextFile`, through a fixed
list of extraction steps and then stamping the TYPE attribute.

- `attributes.dfy` (module `Attributes`): the attribute names PATIENT, ADDRESS, BODY
  and TYPE, the document (its final `map<string, string>`), and the `MalformedDocument` error.
- `text_file.dfy` (module `TextFiles`): the `TextFile` class. It holds the lines, a read
  position and the attribute mapping. `AddLineSuffix` and `AddLines` update that state
  in place, and `AddLines` scans in a loop. Beside the class are the specification
  functions `StopIndex` (where a scan stops) and `IsStop` (the same thing stated
  declaratively), with a lemma proving that the two agree.
- `letter_importer.dfy` and `report_importer.dfy`: the two variants. Each has its
  `ImportFile` method, which drives a fresh `TextFile` through the Java code's steps,
  and a function `LetterDocument` / `ReportDocument` that gives the resulting
  document. The lemmas about those functions state the variant's properties.
- `importer.dfy` (module `Importer`): the `Importer` interface as a closed datatype
  `Variant = Letter | Report`, with one `ImportLines` method and the contract every
  variant meets.

`TextFile` is not part of this model's source: its Java file is not available. The
`TextFile` here is built from how the importers call it, and is assumed to behave
as follows:
- `addLineSuffix(prefix, key)` reads the line at the read position, which is line 0.
  If that line is missing or does not start with `prefix`, it fails; the importer then
  returns `MalformedDocument` and no document.
- On success it stores the line with exactly the prefix removed and moves past it.
  The model does not trim this remainder (see "## Left out").
- `addLines(start, isEnd, key)` moves to `start`, clamped to the number of lines. It
  accumulates lines until one satisfies `isEnd` or the lines run out, stores the joined
  block, and returns the index where it stopped. The matching line is not part of the block.

How a scanned block of lines is joined and trimmed is not visible. It is therefore a
parameter, `join: seq<string> -> string`. Every property about ADDRESS and BODY holds
for any join.

The attribute key strings come from `Attributes`, whose Java file is also not part of
this model. Here they are the distinct strings "PATIENT", "ADDRESS", "BODY" and "TYPE".
The proofs use only that they are distinct.

If a letter has no empty line at or after line 2, the address runs to the end and the
body is `join([])`. Lemma `LetterWithoutBlankLine` states this.

## Model

| member | source | states |
|---|---|---|
| TextFiles.StripPrefix | realWorldSoftwareDevelopment/src/com/company/importer/LetterImporter.java:17 | the stored value is the line with exactly the prefix removed: prefix + result == line |
| TextFiles.StopIndex | realWorldSoftwareDevelopment/src/com/company/importer/LetterImporter.java:19-20 | a scan stops at or after its (clamped) start and at most at the end; no line before the stop matches the end test; a stop before the end is a matching line |
| TextFiles.StopIndexUnique | realWorldSoftwareDevelopment/src/com/company/importer/LetterImporter.java:19-20 | the declarative stop description IsStop has exactly one solution, the one StopIndex gives |
| TextFiles.NeverEndingScanReachesEnd | realWorldSoftwareDevelopment/src/com/company/importer/ReportImporter.java:18 | a scan whose end test never holds stops at the number of lines |
| TextFiles.TextFile.constructor | realWorldSoftwareDevelopment/src/com/company/importer/LetterImporter.java:15 | a fresh TextFile holds the lines, position 0 and no attributes |
| TextFiles.TextFile.AddLineSuffix | realWorldSoftwareDevelopment/src/com/company/importer/LetterImporter.java:17 | succeeds exactly when the line at the position starts with the prefix; then it stores that line less the prefix under the key and advances by one; otherwise it changes nothing |
| TextFiles.TextFile.AddLines | realWorldSoftwareDevelopment/src/com/company/importer/LetterImporter.java:19-20 | returns StopIndex and leaves the position there; stores the join of the lines from the clamped start up to, not including, the stop under the key; no other attribute changes |
| LetterImporter.ImportFile | realWorldSoftwareDevelopment/src/com/company/importer/LetterImporter.java:14-25 | greeting, address and body steps on a fresh TextFile, the body scan starting at the address stop plus one, then TYPE put last: the result equals LetterDocument |
| LetterImporter.LetterSucceedsIffGreeting | realWorldSoftwareDevelopment/src/com/company/importer/LetterImporter.java:10-17 | a letter imports exactly when line 0 starts with "Dear "; otherwise the error is MalformedDocument("Dear ", 0) |
| LetterImporter.LetterKeysAndType | realWorldSoftwareDevelopment/src/com/company/importer/LetterImporter.java:17-24 | the document's keys are exactly PATIENT, ADDRESS, BODY and TYPE, and TYPE is "LETTER" |
| LetterImporter.LetterPatient | realWorldSoftwareDevelopment/src/com/company/importer/LetterImporter.java:10-17 | PATIENT is line 0 with exactly "Dear " removed |
| LetterImporter.LetterRangesOrdered | realWorldSoftwareDevelopment/src/com/company/importer/LetterImporter.java:17-20 | the greeting line, the address range, the line that ends it and the body range are in increasing order and disjoint; the body starts one past the address stop unless the address ran to the end |
| LetterImporter.LetterAddress | realWorldSoftwareDevelopment/src/com/company/importer/LetterImporter.java:19 | ADDRESS joins the lines from index 2 up to the first empty line at or after it, or to the end; the empty line is excluded |
| LetterImporter.LetterBody | realWorldSoftwareDevelopment/src/com/company/importer/LetterImporter.java:19-20 | BODY joins the lines from one past the address stop up to the first line starting with "regards,", or to the end; that line and all after it are excluded |
| LetterImporter.LetterWithoutBlankLine | realWorldSoftwareDevelopment/src/com/company/importer/LetterImporter.java:19-20 | with no empty line from index 2 on, ADDRESS joins all lines from index 2 and BODY is join([]) |
| LetterImporter.LetterExample | realWorldSoftwareDevelopment/src/com/company/importer/LetterImporter.java:14-25 | a complete eight-line letter yields PATIENT "John Smith", the two address lines, the one body line and TYPE "LETTER" |
| LetterImporter.LetterMissingGreetingExample | realWorldSoftwareDevelopment/src/com/company/importer/LetterImporter.java:17 | a letter whose first line is "Hello John" yields MalformedDocument and no document |
| ReportImporter.ImportFile | realWorldSoftwareDevelopment/src/com/company/importer/ReportImporter.java:15-23 | patient and body steps on a fresh TextFile, then TYPE put last: the result equals ReportDocument |
| ReportImporter.ReportSucceedsIffPatientLine | realWorldSoftwareDevelopment/src/com/company/importer/ReportImporter.java:12-17 | a report imports exactly when line 0 starts with "Patient: "; otherwise the error is MalformedDocument("Patient: ", 0) |
| ReportImporter.ReportKeysAndType | realWorldSoftwareDevelopment/src/com/company/importer/ReportImporter.java:17-22 | the document's keys are exactly PATIENT, BODY and TYPE; ADDRESS is absent; TYPE is "REPORT" |
| ReportImporter.ReportPatient | realWorldSoftwareDevelopment/src/com/company/importer/ReportImporter.java:12-17 | PATIENT is line 0 with exactly "Patient: " removed |
| ReportImporter.ReportBodyToEnd | realWorldSoftwareDevelopment/src/com/company/importer/ReportImporter.java:18 | the body scan stops at the number of lines, and BODY joins every line from index 2 to the end |
| ReportImporter.ReportExample | realWorldSoftwareDevelopment/src/com/company/importer/ReportImporter.java:15-23 | a four-line report yields PATIENT "Jane Doe", BODY joining its last two lines, and TYPE "REPORT" |
| Importer.ImportLines | realWorldSoftwareDevelopment/src/com/company/importer/Importer.java:7-9 | dispatching on the variant gives that importer's document; the result depends only on the lines and the join, so importing the same lines twice gives equal documents |
| Importer.ImportContract | realWorldSoftwareDevelopment/src/com/company/importer/Importer.java:7-9 | for every variant: failure exactly when line 0 lacks the variant's prefix; on success PATIENT, BODY and the variant's TYPE are present, PATIENT is line 0 less the prefix, and ADDRESS is present exactly for letters |

## Left out

- Reading a `java.io.File` into lines, and the `IOException` path: this is I/O. The input is a `seq<string>` that is already loaded.
- Joining, trimming and line separators for the blocks that `addLines` accumulates: they are not visible, so `join` is a parameter and is never interpreted.
- `AddLineSuffix`/`StripPrefix`: the remainder is not trimmed; how `TextFile` trims is not visible, so PATIENT is fixed as the line with exactly the prefix removed (for "Dear  John " it is " John ").
- `LetterImporter.ImportFile`, `ReportImporter.ImportFile`: `importFile` itself ignores what `addLineSuffix` does and declares only `IOException`; the failure that `TextFile` would raise on a missing or unprefixed line 0 is modelled as an early `Err(MalformedDocument(prefix, 0))` returned by `ImportFile`, and which exception the Java code would raise is not modelled.
- `Document`: it only wraps the mapping, so the model uses the final `map<string, string>`.
- Aliasing of the live map that `getAttributes` returns: the model copies the field and adds TYPE to the copy. The `TextFile` is not used after that, so nothing else can tell the difference.
- `bankAnalyzer` (`Main`, `BankTransactionSummarizer`): CSV and HTML plumbing and floating-point summing, outside the importer.
