/** Attribute names, the document value and the import error shared by every importer. */
module Attributes {

  /** The attribute names an importer may store; they are pairwise distinct. */
  const PATIENT := "PATIENT"
  const ADDRESS := "ADDRESS"
  const BODY := "BODY"
  const TYPE := "TYPE"

  /** A document is its final attribute mapping. */
  type Document = map<string, string>

  /** Why an import produced no document: the line at `lineIndex` is missing or
      does not begin with the required `prefix`. */
  datatype ImportError = MalformedDocument(prefix: string, lineIndex: nat)

  datatype Result<T> = Ok(value: T) | Err(error: ImportError)
}
