/**
 * The Python values that flow through the feature records: numbers, strings,
 * lists (awk output, file-list parsers) and dictionaries.
 */
module Values {
  import opened Wrappers

  datatype Value =
    | Int(i: int)
    | Real(r: real)
    | Str(s: string)
    | List(items: seq<Value>)
    | Dict(entries: map<string, Value>)

  /**
   * Python's `float(text)`. Its grammar (signs, exponents, `inf`, `nan`,
   * surrounding whitespace, underscores) is not modelled: the model takes the
   * conversion as a parameter, `None` standing for the ValueError it raises.
   */
  type FloatParser = string -> Option<real>

  /** Python's `int(text)` for decimal text, taken as a parameter like `float`. */
  type IntParser = string -> Option<int>

  /** A byte of a file's contents. */
  type byte = b: int | 0 <= b < 256

  const NEWLINE: byte := 10
}
