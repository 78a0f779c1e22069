/** The values a model's function call can carry as arguments: JSON strings and
    arrays of strings, as the tool schemas declare them. */
module Values {
  datatype Value = Str(text: string) | StrList(items: seq<string>)

  /** `type(v).__name__`. */
  function TypeName(v: Value): string {
    match v
    case Str(_) => "str"
    case StrList(_) => "list"
  }
}
