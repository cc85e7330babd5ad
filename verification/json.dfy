/**
 * A decoded JSON value, as Python's `json.loads` hands it to the handler, and the
 * Python truthiness the handler tests on such values.
 */
module JsonData {
  import opened Wrappers

  /** Numbers are kept as mantissa * 10^exponent: the handler only asks whether a
      number is zero, which is the same question for Python's int and float. */
  datatype Json =
    | JNull
    | JBool(b: bool)
    | JNumber(mantissa: int, exponent: int)
    | JString(str: string)
    | JArray(items: seq<Json>)
    | JObject(fields: map<string, Json>)

  /** Python's `bool(v)`: None, False, zero and empty strings, lists and dicts are false. */
  predicate Truthy(j: Json) {
    match j
    case JNull => false
    case JBool(b) => b
    case JNumber(m, _) => m != 0
    case JString(s) => s != []
    case JArray(xs) => xs != []
    case JObject(m) => m != map[]
  }

  /** A Python list of strings, as JSON. */
  function JsonStrings(ss: seq<string>): (r: seq<Json>)
    ensures |r| == |ss| && forall i :: 0 <= i < |ss| ==> r[i] == JString(ss[i])
  {
    seq(|ss|, i requires 0 <= i < |ss| => JString(ss[i]))
  }

  /** The strings of a JSON list, when every item is a string. */
  function AsStrings(xs: seq<Json>): (r: Option<seq<string>>)
    ensures r.Some? <==> forall i :: 0 <= i < |xs| ==> xs[i].JString?
    ensures r.Some? ==> JsonStrings(r.value) == xs
  {
    if forall i :: 0 <= i < |xs| ==> xs[i].JString? then
      Some(seq(|xs|, i requires 0 <= i < |xs| => xs[i].str))
    else None
  }

  /** Reading back a list of strings written as JSON gives the same strings. */
  lemma StringsRoundTrip(ss: seq<string>)
    ensures AsStrings(JsonStrings(ss)) == Some(ss)
  {
    var r := AsStrings(JsonStrings(ss));
    assert r.Some?;
    assert |r.value| == |ss|;
    forall i | 0 <= i < |ss| ensures r.value[i] == ss[i] {
      assert JsonStrings(r.value)[i] == JsonStrings(ss)[i];
    }
    assert r.value == ss;
  }
}
