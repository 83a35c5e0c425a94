/** The values a parsed log record holds and the ways a parse can fail. */
module LogTypes {

  import opened Wrappers

  /**
   * The faults that abort the parse of one line. Python raises these as
   * IndexError, KeyError or TypeError; the model keeps only what went wrong.
   */
  datatype Fault =
    | MalformedLine          // fewer than four header tokens
    | EmptyMessage           // pop(0) or [0] on an empty message list
    | UnterminatedBrace      // the brace span runs past the last token
    | MissingKey(key: string)
    | NotAString(key: string) // `+=` of a string onto a non-string field
    | MissingAttribute(name: string) // an attribute read before it was ever set

  /**
   * What `yaml.load` may return for the `locks` block. The loader itself is
   * a parameter of the model; this is only the shape of its answer.
   */
  datatype Yaml =
    | YNull
    | YBool(b: bool)
    | YInt(i: int)
    | YStr(s: string)
    | YList(items: seq<Yaml>)
    | YMap(entries: seq<(Yaml, Yaml)>)

  /** One field of the record: `self.log[key]`. */
  datatype Value =
    | Str(s: string)
    | Int(n: int)
    | StrList(items: seq<string>)
    | Doc(doc: Yaml)

  /** The lenient `yaml.load`: `None` when it raises. */
  type LocksLoader = string -> Option<Yaml>
}
