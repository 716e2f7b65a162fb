/**
 * JSON values as the endpoints see them after `JSON.parse`, and the few
 * JavaScript operations the endpoints apply to them: truthiness, property
 * reads, conversion to text in a template literal, and `Array.prototype.join`.
 */
module Json {
  import opened Wrappers
  import opened Text

  /** A parsed JSON value. Object keys are kept as a map; numbers are integers. */
  datatype Json =
    | JNull
    | JBool(b: bool)
    | JNum(n: int)
    | JString(s: string)
    | JArray(items: seq<Json>)
    | JObject(fields: map<string, Json>)

  /** JavaScript truthiness of a property value, `None` standing for `undefined`:
      `undefined`, `null`, `false`, `0` and `""` are falsy, everything else truthy. */
  predicate Truthy(v: Option<Json>)
    ensures Truthy(v) ==> v.Some? && !v.value.JNull?
    ensures v.Some? && (v.value.JArray? || v.value.JObject?) ==> Truthy(v)
  {
    match v
    case None => false
    case Some(JNull) => false
    case Some(JBool(b)) => b
    case Some(JNum(n)) => n != 0
    case Some(JString(s)) => s != ""
    case Some(JArray(_)) => true
    case Some(JObject(_)) => true
  }

  /** `v[key]` for a value that is not `null` (reading from `null` throws).
      Strings and arrays answer `length`; objects answer their own keys; numbers
      and booleans answer nothing. Index properties of strings and arrays are
      not read by this model. */
  function Read(v: Json, key: string): (r: Option<Json>)
    requires !v.JNull?
    ensures r.Some? && !v.JObject? ==> key == "length"
    ensures v.JObject? ==> (r.Some? <==> key in v.fields)
  {
    match v
    case JObject(m) => if key in m then Some(m[key]) else None
    case JString(s) => if key == "length" then Some(JNum(|s|)) else None
    case JArray(items) => if key == "length" then Some(JNum(|items|)) else None
    case _ => None
  }

  /** `String(v)`, the text a template literal interpolates for `v`.
      An array is its items joined with ",". */
  function ToText(v: Json): (r: string)
    ensures v.JArray? && v.items == [] ==> r == ""
    ensures v.JArray? && |v.items| == 1 ==> r == ItemText(v.items[0])
    decreases v, 2
  {
    match v
    case JNull => "null"
    case JBool(b) => if b then "true" else "false"
    case JNum(n) => IntToString(n)
    case JString(s) => s
    case JArray(items) =>
      Join(seq(|items|, i requires 0 <= i < |items| => ItemText(items[i])), ",")
    case JObject(_) => "[object Object]"
  }

  /** The message of the TypeError a conversion to text throws when an object
      cannot be converted to a primitive value. */
  const ConvertFailure := "Cannot convert object to primitive value"

  /** `String(v)` does not throw. An object converts by calling its `toString`
      (or else its `valueOf`); a JSON object with its own `toString` key hides
      the inherited method behind a value that is not callable, and its
      inherited `valueOf` gives back the object itself, so the conversion
      throws. An array converts by joining its items, so it throws when an
      item does. */
  predicate Printable(v: Json)
    ensures v.JArray? && Printable(v) ==>
      forall i :: 0 <= i < |v.items| ==> !(v.items[i].JObject? && "toString" in v.items[i].fields)
    decreases v
  {
    match v
    case JObject(fields) => "toString" !in fields
    case JArray(items) => forall i :: 0 <= i < |items| ==> Printable(items[i])
    case _ => true
  }

  /** `String(v)` as a template literal applies it: the text when the
      conversion succeeds, the TypeError otherwise. */
  function Stringify(v: Json): (r: Outcome<string>)
    ensures r.Value? <==> Printable(v)
    ensures r.Value? ==> r.value == ToText(v)
    ensures r.Throw? ==> r.message == ConvertFailure
  {
    if Printable(v) then Value(ToText(v)) else Throw(ConvertFailure)
  }

  /** An object with its own `toString` key cannot be interpolated, neither on
      its own nor as any item of any array; without that key it prints as
      "[object Object]". */
  lemma OwnToStringThrows(fields: map<string, Json>, items: seq<Json>, i: nat)
    ensures "toString" in fields ==> Stringify(JObject(fields)) == Throw(ConvertFailure)
    ensures "toString" in fields && i < |items| && items[i] == JObject(fields) ==>
      Stringify(JArray(items)) == Throw(ConvertFailure)
    ensures "toString" !in fields ==> Stringify(JObject(fields)) == Value("[object Object]")
  {
    if "toString" in fields && i < |items| && items[i] == JObject(fields) {
      assert !Printable(items[i]);
    }
  }

  /** An array converts exactly when every item converts, at any depth: one
      item that throws makes the whole array throw. */
  lemma {:induction false} ArrayThrowsWithItem(items: seq<Json>)
    ensures Stringify(JArray(items)).Throw? <==> exists i :: 0 <= i < |items| && Stringify(items[i]).Throw?
  {
    if Stringify(JArray(items)).Throw? {
      var i :| 0 <= i < |items| && !Printable(items[i]);
      assert Stringify(items[i]).Throw?;
    }
  }

  /** The text `Array.prototype.join` uses for one item: `null` becomes empty. */
  function ItemText(v: Json): string
    decreases v, 3
  {
    if v.JNull? then "" else ToText(v)
  }

  /** `items.join(sep)`. */
  function JoinItems(items: seq<Json>, sep: string): (r: string)
    ensures items == [] ==> r == ""
    ensures |items| == 1 ==> r == ItemText(items[0])
  {
    Join(seq(|items|, i requires 0 <= i < |items| => ItemText(items[i])), sep)
  }

  /** Labels as the client sends them: every item a string. */
  function Strings(labels: seq<string>): (r: seq<Json>)
    ensures |r| == |labels|
    ensures forall i :: 0 <= i < |r| ==> r[i] == JString(labels[i])
  {
    seq(|labels|, i requires 0 <= i < |labels| => JString(labels[i]))
  }

  /** An array of strings is joined exactly as the strings themselves. */
  lemma JoinStrings(labels: seq<string>, sep: string)
    ensures JoinItems(Strings(labels), sep) == Join(labels, sep)
  {
    var items := Strings(labels);
    var texts := seq(|items|, i requires 0 <= i < |items| => ItemText(items[i]));
    forall i | 0 <= i < |labels| ensures texts[i] == labels[i] {
      assert items[i] == JString(labels[i]);
      assert ToText(items[i]) == labels[i];
      assert texts[i] == ItemText(items[i]);
    }
    assert texts == labels;
  }

  /** The own properties an array-like value contributes to an object spread:
      item `i` under the key `String(i)`. */
  function IndexFields(xs: seq<Json>): map<string, Json>
    decreases |xs|
  {
    if xs == [] then map[]
    else IndexFields(xs[..|xs| - 1])[NatToString(|xs| - 1) := xs[|xs| - 1]]
  }

  /** Only index keys occur. */
  lemma {:induction false} IndexFieldsKeys(xs: seq<Json>, k: string)
    requires k in IndexFields(xs)
    ensures exists i :: 0 <= i < |xs| && k == NatToString(i)
    decreases |xs|
  {
    var last := |xs| - 1;
    if k == NatToString(last) {
      assert 0 <= last < |xs| && k == NatToString(last);
    } else {
      IndexFieldsKeys(xs[..last], k);
    }
  }

  /** Every item sits under its own index. */
  lemma {:induction false} IndexFieldsAt(xs: seq<Json>, i: nat)
    requires i < |xs|
    ensures NatToString(i) in IndexFields(xs) && IndexFields(xs)[NatToString(i)] == xs[i]
    decreases |xs|
  {
    var last := |xs| - 1;
    if i != last {
      var init := xs[..last];
      IndexFieldsAt(init, i);
      if NatToString(i) == NatToString(last) {
        NatToStringInjective(i, last);
      }
    }
  }

  /** The characters of a string, each as a one-character string. */
  function Chars(s: string): (r: seq<Json>)
    ensures |r| == |s|
    ensures forall i :: 0 <= i < |s| ==> r[i] == JString([s[i]])
  {
    seq(|s|, i requires 0 <= i < |s| => JString([s[i]]))
  }

  /** The own enumerable properties `{...v}` copies: an object's fields, the
      indexed items of an array or the indexed characters of a string, and
      nothing for `null`, booleans and numbers. */
  function Spread(v: Json): (m: map<string, Json>)
    ensures v.JObject? ==> m == v.fields
    ensures v.JNull? || v.JBool? || v.JNum? ==> m == map[]
  {
    match v
    case JObject(f) => f
    case JArray(items) => IndexFields(items)
    case JString(s) => IndexFields(Chars(s))
    case _ => map[]
  }
}
