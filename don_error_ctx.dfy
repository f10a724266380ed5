/** `don_error::DonErrorContext`: an ordered list of key/value pairs that is
    attached to an error later, and its `Debug` rendering. */
module DonErrorCtx {

  import opened Text

  /** A `serde_json::Value`, represented by its serialised text
      (what `serde_json::to_string` gives for it). */
  datatype Json = Json(text: string)

  /** An owned context pair, as `to_owned` produces it: the key rendered as a
      string and the value converted to JSON. */
  datatype Pair = Pair(key: string, value: Json)

  /** Rendered values longer than this are cut in the `Debug` output. */
  const DebugValueLimit: nat := 100

  /** The `Debug` text of one value: longer than 100 characters becomes its
      first 100 characters followed by "...". */
  function RenderValue(v: Json): (r: string)
    ensures |v.text| <= DebugValueLimit ==> r == v.text
    ensures |v.text| > DebugValueLimit ==> |r| == DebugValueLimit + 3 && r == v.text[..DebugValueLimit] + "..."
    ensures |r| <= DebugValueLimit + 3
  {
    if |v.text| > DebugValueLimit then Truncate(v.text, DebugValueLimit) + "..." else v.text
  }

  /** `DonErrorContextValueSerialize { serializable }` turned into a value;
      `serialize` stands for `serde_json::to_value`. */
  function Serialized<S>(serializable: S, serialize: S -> Json): Json
  {
    serialize(serializable)
  }

  class DonErrorContext {
    /** The pairs in insertion order (`inner: Vec<Box<dyn ...>>`). */
    var inner: seq<Pair>

    /** `DonErrorContext::new()` */
    constructor New()
      ensures inner == []
    {
      inner := [];
    }

    /** `add`: pushes one pair at the end. */
    method Add(pair: Pair) returns (self: DonErrorContext)
      modifies this
      ensures self == this
      ensures inner == old(inner) + [pair]
    {
      inner := inner + [pair];
      self := this;
    }

    /** `add_val`: pushes the pair `key`/`value`. */
    method AddVal(key: string, value: Json) returns (self: DonErrorContext)
      modifies this
      ensures self == this
      ensures inner == old(inner) + [Pair(key, value)]
    {
      self := Add(Pair(key, value));
    }

    /** `add_ser`: pushes `key` with the serialised `serializable`. */
    method AddSer<S>(key: string, serializable: S, serialize: S -> Json) returns (self: DonErrorContext)
      modifies this
      ensures self == this
      ensures inner == old(inner) + [Pair(key, Serialized(serializable, serialize))]
    {
      self := AddVal(key, Serialized(serializable, serialize));
    }

    /** `with`: the by-value builder form of `add`. */
    method With(pair: Pair) returns (self: DonErrorContext)
      modifies this
      ensures self == this
      ensures inner == old(inner) + [pair]
    {
      inner := inner + [pair];
      self := this;
    }

    /** `with_val` */
    method WithVal(key: string, value: Json) returns (self: DonErrorContext)
      modifies this
      ensures self == this
      ensures inner == old(inner) + [Pair(key, value)]
    {
      self := Add(Pair(key, value));
    }

    /** `with_ser` */
    method WithSer<S>(key: string, serializable: S, serialize: S -> Json) returns (self: DonErrorContext)
      modifies this
      ensures self == this
      ensures inner == old(inner) + [Pair(key, Serialized(serializable, serialize))]
    {
      self := AddVal(key, Serialized(serializable, serialize));
    }

    /** The fields of the `Debug` output, in insertion order: each key with its
        rendered value, every value cut to at most 103 characters. Each field
        holds the string handed to `field`; the quoting and escaping its own
        `Debug` rendering then adds is not modelled. */
    method DebugFields() returns (fields: seq<(string, string)>)
      ensures |fields| == |inner|
      ensures forall i :: 0 <= i < |inner| ==> fields[i] == (inner[i].key, RenderValue(inner[i].value))
      ensures forall i :: 0 <= i < |fields| ==> |fields[i].1| <= DebugValueLimit + 3
    {
      fields := [];
      for i := 0 to |inner|
        invariant |fields| == i
        invariant forall j :: 0 <= j < i ==> fields[j] == (inner[j].key, RenderValue(inner[j].value))
      {
        var value := inner[i].value.text;
        if |value| > DebugValueLimit {
          value := Truncate(value, DebugValueLimit);
          value := value + "...";
        }
        fields := fields + [(inner[i].key, value)];
      }
    }
  }
}
