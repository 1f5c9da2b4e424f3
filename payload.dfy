/**
 * The payload codec of `src/lib/utils.ts`: a node's metrics travel as the base 64 encoding of
 * their JSON text. The JSON serialiser and parser stay abstract: they are parameters of the
 * two functions, and only their outcomes (a text, `undefined`, an exception) matter here.
 */
module Payload {
  import opened Wrappers
  import opened Base64

  /** The outcome of `JSON.stringify(data)`: a text, `undefined` (nothing serialisable), or a throw. */
  datatype Serialized = Text(text: string) | Undefined | Thrown

  /** The outcome of `JSON.parse(text)`: a value, or a throw on malformed text. */
  datatype Parsed<V> = Value(value: V) | Malformed

  /** The JSON text of the empty string, which both functions treat as no payload. */
  const EmptyJson: string := "\"\""

  /** A serialisation `compressData` refuses: no text, the empty text, or `""`. */
  predicate IsEmptyText(s: Serialized) {
    !s.Text? || s.text == "" || s.text == EmptyJson
  }

  /**
   * `compressData(data)`: `None` (JavaScript's `null`) for falsy data, for an empty
   * serialisation and for every exception, including `btoa` refusing a character above U+00FF;
   * otherwise the encoding of the JSON text.
   */
  function CompressData<D>(data: D, falsy: D -> bool, stringify: D -> Serialized): (r: Option<string>)
    ensures falsy(data) ==> r.None?
    ensures !falsy(data) && IsEmptyText(stringify(data)) ==> r.None?
    ensures r.Some? <==>
              !falsy(data) && !IsEmptyText(stringify(data)) && IsByteString(stringify(data).text)
    ensures r.Some? ==> r.value == Encode(BytesOf(stringify(data).text))
  {
    if falsy(data) then None
    else
      var json := stringify(data);
      if IsEmptyText(json) then None
      else Btoa(json.text)
  }

  /**
   * `decompressData(compressed)`: `None` for a missing or empty input, for input `atob`
   * rejects, for a decoded text that is empty or `""`, and for text the parser rejects;
   * otherwise the parsed value.
   */
  function DecompressData<V>(compressed: Option<string>, parse: string -> Parsed<V>): (r: Option<V>)
    ensures compressed.None? || compressed.value == "" ==> r.None?
    ensures compressed.Some? && Atob(compressed.value).None? ==> r.None?
    ensures r.Some? <==>
              compressed.Some? && compressed.value != "" && Atob(compressed.value).Some? &&
              !IsEmptyText(Text(Atob(compressed.value).value)) && parse(Atob(compressed.value).value).Value?
    ensures r.Some? ==> r.value == parse(Atob(compressed.value).value).value
  {
    if compressed.None? || compressed.value == "" then None
    else
      match Atob(compressed.value)
      case None => None
      case Some(json) =>
        if IsEmptyText(Text(json)) then None
        else
          match parse(json)
          case Malformed => None
          case Value(v) => Some(v)
  }

  /**
   * The round trip: whenever `compressData` yields a payload, `decompressData` of it gives what
   * the parser makes of the JSON text of the data.
   */
  lemma DecompressCompress<D, V>(data: D, falsy: D -> bool, stringify: D -> Serialized, parse: string -> Parsed<V>)
    requires CompressData(data, falsy, stringify).Some?
    ensures var text := stringify(data).text;
            DecompressData(CompressData(data, falsy, stringify), parse) ==
              (if parse(text).Value? then Some(parse(text).value) else None)
  {
    var text := stringify(data).text;
    AtobBtoa(text);
    assert Atob(Btoa(text).value) == Some(text);
  }

  /** Every payload `compressData` yields is non-empty, so `decompressData` never refuses it as empty. */
  lemma CompressedIsNonEmpty<D>(data: D, falsy: D -> bool, stringify: D -> Serialized)
    requires CompressData(data, falsy, stringify).Some?
    ensures CompressData(data, falsy, stringify).value != ""
  {
    var text := stringify(data).text;
    assert |BytesOf(text)| > 0;
    assert Sextets(BytesOf(text)) != [];
  }
}
