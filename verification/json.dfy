/** JSON.stringify and JSON.parse for the values of one type; None is a parse error. */
module Json {
  import opened Wrappers
  import opened Text
  import opened Lines

  datatype Codec<!T> = Codec(encode: T -> string, decode: string -> Option<T>)

  /** Section 7 of RFC 8259: control characters are escaped, so no raw newline in the text. */
  ghost predicate Faithful<T(!new)>(codec: Codec<T>) {
    forall x :: codec.decode(codec.encode(x)) == Some(x) && NoNewline(codec.encode(x)) && !IsBlank(codec.encode(x))
  }

  /** White space by section 2 of RFC 8259. */
  predicate IsJsonBlank(s: string) {
    forall k :: 0 <= k < |s| ==> s[k] == ' ' || s[k] == '\t' || s[k] == '\n' || s[k] == '\r'
  }

  /** The texts are those of objects that are not empty: they open with a brace and a name, so with
      any other text than white space in front they are no JSON text. */
  ghost predicate ObjectTexts<T(!new)>(codec: Codec<T>) {
    && (forall x :: codec.encode(x) != "" && codec.encode(x)[0] == '{')
    && (forall x, s :: codec.decode(s + codec.encode(x)) == if IsJsonBlank(s) then Some(x) else None)
  }
}
