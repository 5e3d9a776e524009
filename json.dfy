/** The nested, JSON-like document the extractor returns. */
module Json {

  /**
   * A value in the document. Numbers that the source converts with `float()`
   * are kept as the decimal text that was matched; `int()` results are exact.
   */
  datatype Value =
    | Null
    | Str(s: string)
    | Int(n: nat)
    | Num(text: string)
    | Obj(fields: map<string, Value>)

  /** A mapping from keys to values, as a Python dict. */
  type Doc = map<string, Value>
}
