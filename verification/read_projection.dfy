/** The read side of the field: each connection record the reader returns is cut down to the
    property names of the per-connection schema, and `id` is forced to the string form of
    the record's `unique_id`. */
module ReadProjection {

  /** The scalar values a connection record carries. */
  datatype Value = Str(s: string) | Int(i: int) | Bool(b: bool)

  /** A connection as the reader returns it: an associative array that may carry more keys
      than the schema names, and may lack some of them. */
  type Record = map<string, Value>

  /** The property names of the per-connection schema, in schema order. */
  const Properties: seq<string> := ["id", "service_name", "display_name", "enabled", "done", "toggleable"]

  /** The decimal digits of a natural number. */
  function NatDecimal(n: nat): (digits: string)
    ensures |digits| > 0
    ensures forall k :: 0 <= k < |digits| ==> '0' <= digits[k] <= '9'
  {
    var last := [(48 + n % 10) as char];
    if n < 10 then last else NatDecimal(n / 10) + last
  }

  /** The number a string of decimal digits denotes. */
  function DecimalValue(digits: string): nat
  {
    if digits == [] then 0
    else
      var d := digits[|digits| - 1] as int - 48;
      DecimalValue(digits[..|digits| - 1]) * 10 + (if 0 <= d then d else 0)
  }

  /** `NatDecimal` spells `n` in decimal, without leading zeros. */
  lemma {:induction false} NatDecimalValue(n: nat)
    ensures DecimalValue(NatDecimal(n)) == n
    ensures |NatDecimal(n)| > 1 ==> NatDecimal(n)[0] != '0'
  {
    if n >= 10 {
      NatDecimalValue(n / 10);
      var digits := NatDecimal(n);
      assert digits[..|digits| - 1] == NatDecimal(n / 10);
    }
  }

  /** A PHP `(string)` cast of a scalar: integers in decimal, `true` as "1", `false` as "". */
  function CastToString(v: Value): string
  {
    match v
    case Str(s) => s
    case Int(i) => if i < 0 then "-" + NatDecimal(-i) else NatDecimal(i)
    case Bool(b) => if b then "1" else ""
  }

  /** `(string) $connection['unique_id']`; a missing key reads as null, which casts to "". */
  function UniqueIdString(connection: Record): string
  {
    if "unique_id" in connection then CastToString(connection["unique_id"]) else ""
  }

  /** The inner loop of `get`: copy each of `props` that the record sets. */
  function CopySet(connection: Record, props: seq<string>): (out: Record)
    ensures forall p :: p in out <==> p in props && p in connection
    ensures forall p :: p in out ==> out[p] == connection[p]
  {
    if props == [] then map[]
    else
      var p := props[|props| - 1];
      var out := CopySet(connection, props[..|props| - 1]);
      assert props == props[..|props| - 1] + [p];
      if p in connection then out[p := connection[p]] else out
  }

  /** One output entry of `get`. */
  function Project(connection: Record): (out: Record)
    ensures forall p :: p in out ==> p in Properties
    ensures "id" in out && out["id"] == Str(UniqueIdString(connection))
    ensures forall p :: p in Properties && p != "id" ==>
      (p in out <==> p in connection) && (p in out ==> out[p] == connection[p])
  {
    CopySet(connection, Properties)["id" := Str(UniqueIdString(connection))]
  }
}
