/**
 * Decoded JSON values as Go's `encoding/json` stores them in an `any`, and
 * what `fmt.Sprint` prints for them (the `%v` verb): strings bare, `<nil>`
 * for null, arrays as `[a b]` and objects as `map[k:v ...]` with the keys in
 * increasing order.
 */
module Json {
  import opened Strs

  /** A JSON number keeps the text `%v` prints for its float64 value. */
  datatype Value =
    | Null
    | Bool(b: bool)
    | Number(text: string)
    | Str(s: string)
    | Array(items: seq<Value>)
    | Object(fields: map<string, Value>)

  ghost function Sprint(v: Value): string
    decreases v
  {
    match v
    case Null => "<nil>"
    case Bool(b) => if b then "true" else "false"
    case Number(t) => t
    case Str(s) => s
    case Array(xs) => "[" + Join(seq(|xs|, i requires 0 <= i < |xs| => Sprint(xs[i])), " ") + "]"
    case Object(m) =>
      var ks := SortedSet(m.Keys);
      "map[" + Join(seq(|ks|, i requires 0 <= i < |ks| => ks[i] + ":" + Sprint(m[ks[i]])), " ") + "]"
  }

  /** `fmt.Sprint`, computed: arrays element by element, objects over their sorted keys. */
  method SprintValue(v: Value) returns (t: string)
    ensures t == Sprint(v)
    decreases v
  {
    match v
    case Null => t := "<nil>";
    case Bool(b) => t := if b then "true" else "false";
    case Number(n) => t := n;
    case Str(s) => t := s;
    case Array(xs) =>
      var parts: seq<string> := [];
      for i := 0 to |xs|
        invariant |parts| == i
        invariant forall k :: 0 <= k < i ==> parts[k] == Sprint(xs[k])
      {
        var p := SprintValue(xs[i]);
        parts := parts + [p];
      }
      assert parts == seq(|xs|, i requires 0 <= i < |xs| => Sprint(xs[i]));
      t := "[" + Join(parts, " ") + "]";
    case Object(m) =>
      var ks := SortSet(m.Keys);
      var parts: seq<string> := [];
      for i := 0 to |ks|
        invariant |parts| == i
        invariant forall k :: 0 <= k < i ==> parts[k] == ks[k] + ":" + Sprint(m[ks[k]])
      {
        var p := SprintValue(m[ks[i]]);
        parts := parts + [ks[i] + ":" + p];
      }
      assert parts == seq(|ks|, i requires 0 <= i < |ks| => ks[i] + ":" + Sprint(m[ks[i]]));
      t := "map[" + Join(parts, " ") + "]";
  }

  /** `x, _ := data[key].(string)`: the string under `key`, or "" when absent or not a string. */
  function StringField(data: map<string, Value>, key: string): string {
    if key in data && data[key].Str? then data[key].s else ""
  }
}
