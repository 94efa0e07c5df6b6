/** Value types shared by all crates: bytes, timestamps, JSON values and map iteration orders. */
module Types {

  /** A `u8`. */
  type byte = x: int | 0 <= x < 256

  /** A `Vec<u8>` / `&[u8]`. */
  type Bytes = seq<byte>

  /** A `u32`. */
  type u32 = x: int | 0 <= x < 0x1_0000_0000

  /** A `u64`. */
  type u64 = x: int | 0 <= x < 0x1_0000_0000_0000_0000

  /** A `DateTime<Utc>`, in seconds; a `chrono::Duration` is a difference of two. */
  type Timestamp = int

  /** A `serde_json::Value`; numbers are integers (floating point is not modelled). */
  datatype Json =
    | Null
    | Bool(b: bool)
    | Number(n: int)
    | Str(s: string)
    | Array(items: seq<Json>)
    | Object(fields: map<string, Json>)

  /** A sequence in which no element occurs twice. */
  predicate NoDuplicates<T(==)>(s: seq<T>) {
    forall i, j :: 0 <= i < j < |s| ==> s[i] != s[j]
  }

  /** `order` lists every key of the set exactly once: a `HashMap` iteration order. */
  ghost predicate Enumerates(order: seq<string>, keys: set<string>) {
    && NoDuplicates(order)
    && (forall k :: k in order <==> k in keys)
  }

  lemma {:induction false} EnumerationSize(order: seq<string>, keys: set<string>)
    requires Enumerates(order, keys)
    ensures |order| == |keys|
  {
    if |order| > 0 {
      var init := order[..|order| - 1];
      var last := order[|order| - 1];
      assert forall i :: 0 <= i < |init| ==> init[i] == order[i];
      assert last !in init;
      assert forall k :: k in order <==> k in init || k == last;
      EnumerationSize(init, keys - {last});
    }
  }
}
