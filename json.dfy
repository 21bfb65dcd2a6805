/**
 * The JSON values a request body parses to, and `Object.assign` of such a
 * value into a plain object. Parsing itself is not modelled: callers pass
 * the outcome of `JSON.parse` in.
 */
module JsonValue {

  /** A parsed JSON value; an object is a map from property name to value. */
  datatype Json =
    | JNull
    | JBool(b: bool)
    | JNumber(n: int)
    | JString(s: string)
    | JArray(items: seq<Json>)
    | JObject(fields: map<string, Json>)

  /** The outcome of `JSON.parse`: a value, or the SyntaxError it throws. */
  datatype Parsed = Parsed(value: Json) | Malformed

  /** `String(n)` for a natural number: its decimal digits, no leading zero. */
  function Decimal(n: nat): (r: string)
    ensures |r| >= 1 && (n >= 10 <==> |r| >= 2)
    ensures r[|r| - 1] == Digit(n % 10)
  {
    if n < 10 then [Digit(n)] else Decimal(n / 10) + [Digit(n % 10)]
  }

  function Digit(d: nat): char
    requires d < 10
  {
    "0123456789"[d]
  }

  lemma {:induction false} DecimalInjective(a: nat, b: nat)
    requires Decimal(a) == Decimal(b)
    ensures a == b
  {
    if a >= 10 && b >= 10 {
      var da, db := Decimal(a), Decimal(b);
      assert Digit(a % 10) == Digit(b % 10);
      assert da[..|da| - 1] == Decimal(a / 10);
      assert db[..|db| - 1] == Decimal(b / 10);
      DecimalInjective(a / 10, b / 10);
    }
  }

  /** The property names `String(j)` for `lo <= j < hi`. */
  ghost function IndexNames(lo: nat, hi: nat): set<string> {
    set j | lo <= j < hi :: Decimal(j)
  }

  /** Assign `items[i]` under the property name `String(start + i)`, in order. */
  function AssignIndexed(target: map<string, Json>, items: seq<Json>, start: nat): map<string, Json>
    decreases |items|
  {
    if |items| == 0 then target
    else AssignIndexed(target[Decimal(start) := items[0]], items[1..], start + 1)
  }

  lemma IndexNamesSplit(lo: nat, hi: nat)
    requires lo < hi
    ensures IndexNames(lo, hi) == {Decimal(lo)} + IndexNames(lo + 1, hi)
    ensures Decimal(lo) !in IndexNames(lo + 1, hi)
  {
    if Decimal(lo) in IndexNames(lo + 1, hi) {
      var j :| lo + 1 <= j < hi && Decimal(j) == Decimal(lo);
      DecimalInjective(j, lo);
    }
  }

  lemma {:induction false} AssignIndexedKeys(target: map<string, Json>, items: seq<Json>, start: nat)
    decreases |items|
    ensures AssignIndexed(target, items, start).Keys == target.Keys + IndexNames(start, start + |items|)
  {
    if |items| == 0 {
      assert IndexNames(start, start) == {};
    } else {
      AssignIndexedKeys(target[Decimal(start) := items[0]], items[1..], start + 1);
      IndexNamesSplit(start, start + |items|);
    }
  }

  lemma {:induction false} AssignIndexedKeeps(target: map<string, Json>, items: seq<Json>, start: nat, k: string)
    requires k in target && k !in IndexNames(start, start + |items|)
    decreases |items|
    ensures k in AssignIndexed(target, items, start) && AssignIndexed(target, items, start)[k] == target[k]
  {
    if |items| > 0 {
      IndexNamesSplit(start, start + |items|);
      AssignIndexedKeeps(target[Decimal(start) := items[0]], items[1..], start + 1, k);
    }
  }

  lemma {:induction false} AssignIndexedAt(target: map<string, Json>, items: seq<Json>, start: nat, j: nat)
    requires start <= j < start + |items|
    decreases |items|
    ensures Decimal(j) in AssignIndexed(target, items, start)
    ensures AssignIndexed(target, items, start)[Decimal(j)] == items[j - start]
  {
    var first := target[Decimal(start) := items[0]];
    IndexNamesSplit(start, start + |items|);
    if j == start {
      AssignIndexedKeeps(first, items[1..], start + 1, Decimal(start));
    } else {
      AssignIndexedAt(first, items[1..], start + 1, j);
    }
  }

  /** Assigning a whole sequence from index 0: exactly its index names are set, each to its item. */
  lemma AssignIndexedFromZero(target: map<string, Json>, items: seq<Json>)
    ensures AssignIndexed(target, items, 0).Keys == target.Keys + IndexNames(0, |items|)
    ensures forall i :: 0 <= i < |items| ==>
      Decimal(i) in AssignIndexed(target, items, 0) && AssignIndexed(target, items, 0)[Decimal(i)] == items[i]
    ensures forall k :: k in target && k !in IndexNames(0, |items|) ==> AssignIndexed(target, items, 0)[k] == target[k]
  {
    AssignIndexedKeys(target, items, 0);
    forall i | 0 <= i < |items|
      ensures Decimal(i) in AssignIndexed(target, items, 0) && AssignIndexed(target, items, 0)[Decimal(i)] == items[i]
    {
      AssignIndexedAt(target, items, 0, i);
    }
    forall k | k in target && k !in IndexNames(0, |items|)
      ensures AssignIndexed(target, items, 0)[k] == target[k]
    {
      AssignIndexedKeeps(target, items, 0, k);
    }
  }

  /** The one-character strings of `s`, the values `Object.assign` copies from a string source. */
  function Characters(s: string): (r: seq<Json>)
    ensures |r| == |s| && forall i :: 0 <= i < |s| ==> r[i] == JString([s[i]])
  {
    seq(|s|, i requires 0 <= i < |s| => JString([s[i]]))
  }

  /**
   * `Object.assign(target, source)`: the own enumerable properties of the
   * source overwrite those of the target. An object contributes its fields,
   * an array and a string their indices; `null`, booleans and numbers have
   * none, so the target is returned unchanged.
   */
  function ObjectAssign(target: map<string, Json>, source: Json): (r: map<string, Json>)
    ensures source.JObject? ==> r.Keys == target.Keys + source.fields.Keys
    ensures source.JObject? ==> forall k :: k in source.fields ==> r[k] == source.fields[k]
    ensures source.JObject? ==> forall k :: k in target && k !in source.fields ==> r[k] == target[k]
    ensures source.JArray? ==> r.Keys == target.Keys + IndexNames(0, |source.items|)
    ensures source.JArray? ==> forall i :: 0 <= i < |source.items| ==> Decimal(i) in r && r[Decimal(i)] == source.items[i]
    ensures source.JArray? ==> forall k :: k in target && k !in IndexNames(0, |source.items|) ==> r[k] == target[k]
    ensures source.JString? ==> r.Keys == target.Keys + IndexNames(0, |source.s|)
    ensures source.JString? ==> forall i :: 0 <= i < |source.s| ==> Decimal(i) in r && r[Decimal(i)] == JString([source.s[i]])
    ensures source.JString? ==> forall k :: k in target && k !in IndexNames(0, |source.s|) ==> r[k] == target[k]
    ensures source.JNull? || source.JBool? || source.JNumber? ==> r == target
    ensures target.Keys <= r.Keys
  {
    match source
    case JObject(fields) => target + fields
    case JArray(items) =>
      AssignIndexedFromZero(target, items);
      AssignIndexed(target, items, 0)
    case JString(s) =>
      AssignIndexedFromZero(target, Characters(s));
      AssignIndexed(target, Characters(s), 0)
    case _ => target
  }
}
