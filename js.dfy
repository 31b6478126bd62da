/** The JavaScript values the scripts handle: whatever `response.json()` produced from a
    translation bundle or fixture, plus `undefined` for a property that is not there.
    Three JavaScript rules are spelled out here because every decision in the scripts
    goes through them: truthiness (what `||` and `if (x)` test), property access
    (`v[k]`, which throws on `null` and `undefined`), and `String(v)` (what a template
    literal or `textContent` shows). */
module Js {
  import opened Text

  datatype Option<+T> = None | Some(value: T)

  /** A value from parsed JSON, or `undefined`. A number is carried as the text
      `String(n)` gives for it: the scripts only test and display numbers, never compute
      with them. An object is its own properties in enumeration order. */
  datatype Value =
    | Undefined
    | Null
    | Bool(b: bool)
    | Num(shown: string)
    | Str(s: string)
    | Arr(items: seq<Value>)
    | Obj(fields: seq<(string, Value)>)

  /** `!!v`. A JSON number is falsy exactly when it is zero, and `String` shows every
      zero (also `-0`) as "0". */
  predicate Truthy(v: Value)
  {
    match v
    case Undefined => false
    case Null => false
    case Bool(b) => b
    case Num(shown) => shown != "0"
    case Str(s) => s != ""
    case Arr(_) => true
    case Obj(_) => true
  }

  /** `v == null`: true of `null` and of `undefined`. */
  predicate IsNullish(v: Value)
  {
    v.Undefined? || v.Null?
  }

  /** `typeof v === 'object'`: `null`, arrays and objects. */
  predicate IsObjectType(v: Value)
  {
    v.Null? || v.Arr? || v.Obj?
  }

  /** `a || b`. */
  function Or(a: Value, b: Value): Value
  {
    if Truthy(a) then a else b
  }

  /** What `||` promises: the result is truthy exactly when one operand is, a truthy
      first operand is the result, and a chain `a || b || c` may be grouped either way. */
  lemma {:induction false} OrChain(a: Value, b: Value, c: Value)
    ensures Truthy(Or(a, b)) <==> Truthy(a) || Truthy(b)
    ensures Or(a, b) == a || Or(a, b) == b
    ensures Truthy(a) ==> Or(a, b) == a
    ensures Or(Or(a, b), c) == Or(a, Or(b, c))
  {
    if !Truthy(a) {
      assert Or(a, b) == b;
    }
  }

  /** The value of the first property named `k`, or `undefined`. */
  function Lookup(fields: seq<(string, Value)>, k: string): (r: Value)
    ensures (exists i :: 0 <= i < |fields| && fields[i].0 == k) || r == Undefined
    ensures r != Undefined ==> exists i :: 0 <= i < |fields| && fields[i] == (k, r)
    ensures forall i :: 0 <= i < |fields| && fields[i].0 == k && IsFirstKey(fields, i) ==> r == fields[i].1
  {
    if fields == [] then Undefined
    else if fields[0].0 == k then fields[0].1
    else
      assert forall i :: 1 <= i < |fields| && IsFirstKey(fields, i) ==> IsFirstKey(fields[1..], i - 1);
      Lookup(fields[1..], k)
  }

  /** No property before the one at `i` has its key. */
  predicate IsFirstKey(fields: seq<(string, Value)>, i: nat)
    requires i < |fields|
  {
    forall m :: 0 <= m < i ==> fields[m].0 != fields[i].0
  }

  predicate HasKey(fields: seq<(string, Value)>, k: string)
  {
    exists i :: 0 <= i < |fields| && fields[i].0 == k
  }

  /** `v[k]`; `None` is the `TypeError` JavaScript throws when `v` is `null` or `undefined`.
      An array answers its index keys and `length`, a string its characters and `length`;
      properties inherited from prototypes are not part of the model. */
  function Member(v: Value, k: string): (r: Option<Value>)
    ensures r.None? <==> IsNullish(v)
    ensures v.Obj? ==> r == Some(Lookup(v.fields, k))
    ensures v.Obj? && !HasKey(v.fields, k) ==> r == Some(Undefined)
    ensures v.Arr? && IsIndexKey(k) && DigitsValue(k) < |v.items| ==> r == Some(v.items[DigitsValue(k)])
    ensures v.Arr? && k != "length" && !(IsIndexKey(k) && DigitsValue(k) < |v.items|) ==> r == Some(Undefined)
    ensures v.Arr? && k == "length" ==> r == Some(Num(NatToString(|v.items|)))
    ensures v.Str? && k == "length" ==> r == Some(Num(NatToString(|v.s|)))
    ensures v.Str? && IsIndexKey(k) && DigitsValue(k) < |v.s| ==> r == Some(Str([v.s[DigitsValue(k)]]))
    ensures v.Str? && k != "length" && !(IsIndexKey(k) && DigitsValue(k) < |v.s|) ==> r == Some(Undefined)
    ensures v.Bool? || v.Num? ==> r == Some(Undefined)
  {
    match v
    case Undefined => None
    case Null => None
    case Obj(fields) => Some(Lookup(fields, k))
    case Arr(items) =>
      Some(if k == "length" then Num(NatToString(|items|))
           else if IsIndexKey(k) && DigitsValue(k) < |items| then items[DigitsValue(k)]
           else Undefined)
    case Str(s) =>
      Some(if k == "length" then Num(NatToString(|s|))
           else if IsIndexKey(k) && DigitsValue(k) < |s| then Str([s[DigitsValue(k)]])
           else Undefined)
    case _ => Some(Undefined)
  }

  /** `v[k]` where `v` is known not to be `null` or `undefined`, so the access cannot throw. */
  function Get(v: Value, k: string): Value
    requires !IsNullish(v)
  {
    Member(v, k).value
  }

  /** `items[i]` on an array: `undefined` past the end. */
  function At(items: seq<Value>, i: nat): Value
  {
    if i < |items| then items[i] else Undefined
  }

  /** Reading element `i` of an array by its decimal property name is reading it by position. */
  lemma {:induction false} GetIndex(items: seq<Value>, i: nat)
    ensures Get(Arr(items), NatToString(i)) == At(items, i)
  {
    IndexKeyOfNat(i);
  }

  /** `String(v)`, as a template literal or `textContent` shows a value. An array shows its
      elements joined with ",", `null` and `undefined` elements as empty. */
  function Stringify(v: Value): string
    decreases v
  {
    match v
    case Undefined => "undefined"
    case Null => "null"
    case Bool(b) => if b then "true" else "false"
    case Num(shown) => shown
    case Str(s) => s
    case Obj(_) => "[object Object]"
    case Arr(items) =>
      Join(seq(|items|, i requires 0 <= i < |items| =>
             if IsNullish(items[i]) then "" else Stringify(items[i])), ",")
  }

  /** `Object.values(v)[0]` for an object. */
  function FirstValue(fields: seq<(string, Value)>): Value
  {
    if fields == [] then Undefined else fields[0].1
  }

  /** `localStorage.getItem(k) || fallback`: a stored string is used unless absent or empty. */
  function StoredOr(stored: Option<string>, fallback: string): string
  {
    if stored.Some? && stored.value != "" then stored.value else fallback
  }
}
