/**
 * JSON.stringify and JSON.parse, kept abstract. A `Codec<V>` pairs a
 * serializer and a parser over some value type `V`; `None` from either means
 * the call throws (a cyclic value, text that is not JSON). The only facts the
 * wrapper relies on are those of `Lawful`.
 */
module Json {
  import opened Wrappers

  datatype Codec<!V> = Codec(stringify: V -> Option<string>, parse: string -> Option<V>, nullValue: V)

  /** The text `JSON.parse` sees when it is handed `null`: it converts its argument to a string first. */
  const NullText: string := "null"

  /**
   * Parsing what was serialized gives the value back, and the text "null"
   * parses to the JSON null value.
   */
  ghost predicate Lawful<V(!new)>(json: Codec<V>)
  {
    && (forall v :: json.stringify(v).Some? ==> json.parse(json.stringify(v).value) == Some(v))
    && json.parse(NullText) == Some(json.nullValue)
  }

  /** What `JSON.parse(x)` parses when `x` is what getItem returned. */
  function TextOf(raw: Option<string>): (text: string)
    ensures raw.Some? ==> text == raw.value
    ensures raw.None? ==> text == NullText
  {
    match raw
    case Some(t) => t
    case None => NullText
  }
}
