/** JSON values and Python's equality on them. */
module Json {

  datatype Json =
    | JNull
    | JBool(b: bool)
    | JInt(n: int)
    | JStr(s: string)
    | JList(items: seq<Json>)
    | JObj(fields: map<string, Json>)

  predicate Numeric(j: Json) {
    j.JBool? || j.JInt?
  }

  function Number(j: Json): int
    requires Numeric(j)
  {
    match j
    case JBool(b) => if b then 1 else 0
    case JInt(n) => n
  }

  /** Python's `==`: structural, except that a boolean equals the integer 0 or 1. */
  predicate PyEq(a: Json, b: Json) {
    if a.JObj? && b.JObj? then
      a.fields.Keys == b.fields.Keys && forall k | k in a.fields :: PyEq(a.fields[k], b.fields[k])
    else if a.JList? && b.JList? then
      |a.items| == |b.items| && forall i | 0 <= i < |a.items| :: PyEq(a.items[i], b.items[i])
    else if Numeric(a) && Numeric(b) then Number(a) == Number(b)
    else a == b
  }

  lemma {:induction false} PyEqReflexive(a: Json)
    ensures PyEq(a, a)
  {
    match a
    case JObj(fields) => forall k | k in fields ensures PyEq(fields[k], fields[k]) { PyEqReflexive(fields[k]); }
    case JList(items) => forall i | 0 <= i < |items| ensures PyEq(items[i], items[i]) { PyEqReflexive(items[i]); }
    case _ =>
  }
}
