/** lib/check-string-array.js: `chkStrArray(data, key, msg)` accepts a falsy
    value, a string, or an array whose elements are all falsy or strings, and
    returns an array; it throws on anything else. */
module CheckStringArray {
  import opened Js
  import opened CheckString

  /** `msg`, or `${key} must be a string or an array of strings` with `key`
      defaulting to `'key'`; `""` stands for an omitted argument. */
  function ArrayMessage(key: string, msg: string): (m: string)
    ensures m != ""
  {
    var k := if key == "" then "key" else key;
    if msg == "" then k + " must be a string or an array of strings" else msg
  }

  /** An element the `for-of` check lets through. */
  predicate StringLike(v: JsValue) {
    !Truthy(v) || v.Str?
  }

  /** `a.filter(el => el !== null)` */
  function WithoutNulls(a: seq<JsValue>): seq<JsValue> {
    if a == [] then [] else (if a[0].Null? then [] else [a[0]]) + WithoutNulls(a[1..])
  }

  /** `chkStrArray(data, key, msg)`. */
  function ChkStrArray(data: JsValue, key: string, msg: string): (r: Result<seq<JsValue>>)
    ensures !Truthy(data) ==> r == Ok([])
    ensures data.Str? && data.s != "" ==> r == Ok([data])
    ensures data.Arr? ==> (r.Ok? <==> forall i :: 0 <= i < |data.elems| ==> StringLike(data.elems[i]))
    ensures data.Arr? && r.Ok? ==> r.value == WithoutNulls(data.elems)
    ensures Truthy(data) && !data.Arr? && !data.Str? ==> r.Err?
    ensures r.Err? ==> r.error == ValidationError(ArrayMessage(key, msg))
  {
    var m := ArrayMessage(key, msg);
    var d := Or(data, Arr([]));
    if d.Arr? then
      if forall i :: 0 <= i < |d.elems| ==> ChkStr(d.elems[i], "", m).Ok? then Ok(WithoutNulls(d.elems))
      else Err(ValidationError(StrMessage("", m)))
    else if TypeOf(d) == "string" then
      var a := [d];
      assert WithoutNulls(a) == a by { assert a[1..] == []; }
      Ok(WithoutNulls(a))
    else Err(ValidationError(m))
  }

  /** The filter removes the `null` elements and nothing else, and keeps the
      order (it is built front to back). */
  lemma {:induction false} WithoutNullsRemovesOnlyNulls(a: seq<JsValue>)
    ensures Null !in WithoutNulls(a)
    ensures multiset(WithoutNulls(a)) == multiset(a)[Null := 0]
    ensures |WithoutNulls(a)| <= |a|
    ensures Null !in a ==> WithoutNulls(a) == a
  {
    if a != [] {
      WithoutNullsRemovesOnlyNulls(a[1..]);
      var head := if a[0].Null? then [] else [a[0]];
      assert WithoutNulls(a) == head + WithoutNulls(a[1..]);
      assert a == [a[0]] + a[1..];
      assert multiset(a) == multiset([a[0]]) + multiset(a[1..]);
    }
  }

  /** The elements an accepted array holds after the filter: never `null`, and
      each falsy or a string. */
  predicate IsChecked(a: seq<JsValue>) {
    forall i :: 0 <= i < |a| ==> StringLike(a[i]) && !a[i].Null?
  }

  lemma {:induction false} WithoutNullsChecked(a: seq<JsValue>)
    requires forall i :: 0 <= i < |a| ==> StringLike(a[i])
    ensures IsChecked(WithoutNulls(a))
  {
    if a != [] {
      WithoutNullsChecked(a[1..]);
      var rest := WithoutNulls(a[1..]);
      var r := (if a[0].Null? then [] else [a[0]]) + rest;
      assert forall i :: 0 <= i < |r| ==> r[i] == (if a[0].Null? then rest[i] else if i == 0 then a[0] else rest[i - 1]);
    }
  }

  /** Every array `chkStrArray` returns is checked. */
  lemma ChkStrArrayChecked(data: JsValue, key: string, msg: string)
    requires ChkStrArray(data, key, msg).Ok?
    ensures IsChecked(ChkStrArray(data, key, msg).value)
  {
    if data.Arr? {
      WithoutNullsChecked(data.elems);
    }
  }

  /** `chkStrArray` returns an array it accepts unchanged, whatever the key and message. */
  lemma ChkStrArrayIdempotent(data: JsValue, key: string, msg: string, key': string, msg': string)
    requires ChkStrArray(data, key, msg).Ok?
    ensures ChkStrArray(Arr(ChkStrArray(data, key, msg).value), key', msg') == ChkStrArray(data, key, msg)
  {
    var r := ChkStrArray(data, key, msg).value;
    ChkStrArrayChecked(data, key, msg);
    WithoutNullsRemovesOnlyNulls(r);
  }

  /** An array it returned, given back, comes back unchanged. */
  lemma ChkStrArrayOfChecked(a: seq<JsValue>, key: string, msg: string)
    requires IsChecked(a)
    ensures ChkStrArray(Arr(a), key, msg) == Ok(a)
  {
    WithoutNullsRemovesOnlyNulls(a);
  }

  /** The array `JSON.parse(JSON.stringify(a))` leaves has `null` where `a` had
      `undefined`; the filter then drops those. */
  function WithoutUndefined(a: seq<JsValue>): seq<JsValue> {
    if a == [] then [] else (if a[0].Undefined? then [] else [a[0]]) + WithoutUndefined(a[1..])
  }

  lemma {:induction false} JsonCopyOfChecked(a: seq<JsValue>)
    requires IsChecked(a)
    ensures WithoutNulls(JsonCopyElems(a)) == WithoutUndefined(a)
    ensures forall i :: 0 <= i < |JsonCopyElems(a)| ==> StringLike(JsonCopyElems(a)[i])
  {
    if a != [] {
      assert IsChecked(a[1..]) by {
        forall i | 0 <= i < |a[1..]| ensures StringLike(a[1..][i]) && !a[1..][i].Null? {
          assert a[1..][i] == a[i + 1];
        }
      }
      JsonCopyOfChecked(a[1..]);
      assert JsonCopyElems(a) == [if Unserializable(a[0]) then Null else JsonCopy(a[0])] + JsonCopyElems(a[1..]);
      assert Unserializable(a[0]) <==> a[0].Undefined?;
    }
  }

  /** Reading back a stored list from its JSON form gives the list without its
      `undefined` elements; a list of strings comes back unchanged. */
  lemma ChkStrArrayAfterJsonCopy(a: seq<JsValue>, key: string, msg: string)
    requires IsChecked(a)
    ensures ChkStrArray(JsonCopy(Arr(a)), key, msg) == Ok(WithoutUndefined(a))
  {
    JsonCopyOfChecked(a);
  }
}
