/**
 * Decoded JSON values, as the standard library hands them to the scripts, with the two ways in which
 * the scripts look a key up: whether an object has it, and what it holds. A missing key and a null
 * value read alike through the second, which is why several scripts ask for the first as well; the
 * one lemma here says so.
 */
module Json {
  /** An object lists its members in the order they were read; a decoder that keeps duplicates out is not needed. */
  datatype Json =
    | Null
    | Bool(b: bool)
    | Int(n: int)
    | Float(x: real)
    | Str(s: string)
    | Arr(items: seq<Json>)
    | Obj(members: seq<(string, Json)>)

  predicate Has(members: seq<(string, Json)>, key: string) {
    members != [] && (members[0].0 == key || Has(members[1..], key))
  }

  /** `dict.get`: a missing key reads as null. */
  function Get(members: seq<(string, Json)>, key: string): Json {
    if members == [] then Null
    else if members[0].0 == key then members[0].1
    else Get(members[1..], key)
  }

  lemma {:induction false} AbsentIsNull(members: seq<(string, Json)>, key: string)
    requires !Has(members, key)
    ensures Get(members, key) == Null
  {
    if members != [] {
      AbsentIsNull(members[1..], key);
    }
  }
}
