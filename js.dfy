/** The JavaScript values that reach the configuration core, and the few language
    operations its code relies on: truthiness, `typeof`, reading and assigning an
    object property, `for (k in v)`, the `Array.prototype` methods `indexOf` and
    `splice`, and the deep copy `JSON.parse(JSON.stringify(v))`.  Exceptions and
    promise rejections are both modelled as an `Err` carrying an `Error`. */
module Js {

  // ---------------------------------------------------------------------------
  // Errors and results
  // ---------------------------------------------------------------------------

  /** Every error the core raises or rejects with. */
  datatype Error =
    | ValidationError(message: string) // `new Error(msg)` thrown by an argument check
    | NotFound(name: string)           // `${name} does not exist.`
    | IndexOutOfRange(index: int)      // `Index ${index} out of range.`
    | AlreadyExists(name: string)      // `${name} already exists.`
    | AlreadyExits(name: string)       // `'${name}' already exits.`, rename's wording of the same error
    | SelfRename                       // "Can't move to itself."
    | NotInitialized                   // 'rsbkp not properly initialized; will not save.'
    | AlreadyInitialized               // 'rsbkp already initialized'
    | SyntaxError                      // `JSON.parse` of a configuration file that is not JSON
    | NullConfig                       // reading `hosts` of a configuration that is `null`
    | DirectoryNotEmpty(path: string)  // `fs.rmdirSync` on a directory with entries: `ENOTEMPTY`
    | NotADirectory(path: string)      // `fs.rmdirSync` on a file: `ENOTDIR`

  datatype Result<+R> = Ok(value: R) | Err(error: Error) {
    predicate IsFailure() { Err? }
    function PropagateFailure<U>(): Result<U> requires Err? { Err(error) }
    function Extract(): R requires Ok? { value }
  }

  datatype Outcome = Pass | Fail(error: Error) {
    predicate IsFailure() { Fail? }
    function PropagateFailure(): Outcome requires Fail? { this }
  }

  // ---------------------------------------------------------------------------
  // Values
  // ---------------------------------------------------------------------------

  /** A JavaScript value.  Numbers are integers; an object is the list of its own
      enumerable properties in enumeration order, with distinct keys as in
      JavaScript (the functions below give a repeated key its first value). */
  datatype JsValue =
    | Undefined
    | Null
    | Bool(b: bool)
    | Num(n: int)
    | Str(s: string)
    | Arr(elems: seq<JsValue>)
    | Obj(props: seq<(string, JsValue)>)
    | Func

  /** The values that `!v` makes true are exactly the non-truthy ones. */
  predicate Truthy(v: JsValue) {
    match v
    case Undefined => false
    case Null => false
    case Bool(b) => b
    case Num(n) => n != 0
    case Str(s) => s != ""
    case _ => true
  }

  /** `v || d` */
  function Or(v: JsValue, d: JsValue): (r: JsValue)
    ensures Truthy(v) ==> r == v
    ensures !Truthy(v) ==> r == d
  {
    if Truthy(v) then v else d
  }

  /** `typeof v` */
  function TypeOf(v: JsValue): string {
    match v
    case Undefined => "undefined"
    case Bool(_) => "boolean"
    case Num(_) => "number"
    case Str(_) => "string"
    case Func => "function"
    case _ => "object"
  }

  // ---------------------------------------------------------------------------
  // Objects as ordered property lists
  // ---------------------------------------------------------------------------

  function Keys<V>(ps: seq<(string, V)>): (ks: seq<string>)
    ensures |ks| == |ps|
    ensures forall i :: 0 <= i < |ps| ==> ks[i] == ps[i].0
  {
    if ps == [] then [] else [ps[0].0] + Keys(ps[1..])
  }

  predicate NoDuplicates<X(==)>(s: seq<X>) {
    forall i, j :: 0 <= i < j < |s| ==> s[i] != s[j]
  }

  predicate DistinctKeys<V>(ps: seq<(string, V)>) {
    NoDuplicates(Keys(ps))
  }

  predicate HasKey<V>(ps: seq<(string, V)>, key: string) {
    key in Keys(ps)
  }

  /** `o[key]` on an object whose properties are `ps`, as an optional value. */
  function Lookup<V>(ps: seq<(string, V)>, key: string): (r: Option<V>)
    ensures r.Some? <==> HasKey(ps, key)
  {
    if ps == [] then None
    else if ps[0].0 == key then Some(ps[0].1)
    else Lookup(ps[1..], key)
  }

  /** `o[key] = value`: an existing property keeps its place, a new one is appended. */
  function Assign<V>(ps: seq<(string, V)>, key: string, value: V): (r: seq<(string, V)>)
    ensures Lookup(r, key) == Some(value)
    ensures Keys(r) == if HasKey(ps, key) then Keys(ps) else Keys(ps) + [key]
    decreases |ps|
  {
    if ps == [] then [(key, value)]
    else if ps[0].0 == key then
      var r := [(key, value)] + ps[1..];
      ConsParts((key, value), ps[1..]);
      r
    else
      var rest := Assign(ps[1..], key, value);
      var r := [ps[0]] + rest;
      ConsParts(ps[0], rest);
      ConsAssoc(ps[0].0, Keys(ps[1..]), key);
      r
  }

  lemma EmptyPrefix<X>(s: seq<X>)
    ensures [] + s == s
  {
  }

  lemma SamePointwise<X>(a: seq<X>, b: seq<X>)
    requires |a| == |b| && forall i :: 0 <= i < |a| ==> a[i] == b[i]
    ensures a == b
  {
  }

  lemma ConsParts<X>(x: X, a: seq<X>)
    ensures ([x] + a)[0] == x && ([x] + a)[1..] == a
  {
  }

  lemma ConsAssoc<X>(x: X, b: seq<X>, y: X)
    ensures [x] + (b + [y]) == ([x] + b) + [y]
  {
  }

  datatype Option<+T> = None | Some(value: T)

  lemma {:induction false} KeysAppend<V>(a: seq<(string, V)>, b: seq<(string, V)>)
    ensures Keys(a + b) == Keys(a) + Keys(b)
  {
    if a != [] {
      assert (a + b)[1..] == a[1..] + b;
      KeysAppend(a[1..], b);
    }
  }

  lemma SeqAssoc<X>(a: seq<X>, b: seq<X>, c: seq<X>)
    ensures (a + b) + c == a + (b + c)
  {
  }

  /** Assigning a key an object does not have appends it. */
  lemma {:induction false} AssignNewKey<V>(ps: seq<(string, V)>, key: string, value: V)
    requires !HasKey(ps, key)
    ensures Assign(ps, key, value) == ps + [(key, value)]
  {
    if ps != [] {
      KeysTail(ps, key);
      AssignLater(ps, key, value);
      AssignNewKey(ps[1..], key, value);
      ConsAppend(ps, (key, value));
    }
  }

  lemma ConsAppend<X>(a: seq<X>, y: X)
    requires a != []
    ensures [a[0]] + (a[1..] + [y]) == a + [y]
  {
    assert a == [a[0]] + a[1..];
  }

  lemma KeysTail<V>(ps: seq<(string, V)>, key: string)
    requires ps != [] && !HasKey(ps, key)
    ensures ps[0].0 != key && !HasKey(ps[1..], key)
  {
    assert Keys(ps) == [ps[0].0] + Keys(ps[1..]);
  }

  lemma AssignLater<V>(ps: seq<(string, V)>, key: string, value: V)
    requires ps != [] && ps[0].0 != key
    ensures Assign(ps, key, value) == [ps[0]] + Assign(ps[1..], key, value)
  {
  }

  // ---------------------------------------------------------------------------
  // Building an object in a for-in loop
  // ---------------------------------------------------------------------------

  /** The properties `o` ends with after `for (let k in v) o[k] = f(v[k]);`,
      starting from `acc`, where `visit` is `ForIn(v)` and `f` may throw. */
  function MapProps<V>(acc: seq<(string, V)>, visit: seq<(string, JsValue)>, f: JsValue -> Result<V>): (r: Result<seq<(string, V)>>)
    ensures r.Ok? ==> forall k :: HasKey(acc, k) ==> HasKey(r.value, k)
    decreases |visit|
  {
    if visit == [] then Ok(acc)
    else match f(visit[0].1)
      case Err(e) => Err(e)
      case Ok(x) => MapProps(Assign(acc, visit[0].0, x), visit[1..], f)
  }

  /** The loop itself, run on a fresh object. */
  method BuildProps<V>(visit: seq<(string, JsValue)>, f: JsValue -> Result<V>) returns (r: Result<seq<(string, V)>>)
    ensures r == MapProps([], visit, f)
  {
    var acc: seq<(string, V)> := [];
    var i := 0;
    while i < |visit|
      invariant 0 <= i <= |visit|
      invariant MapProps(acc, visit[i..], f) == MapProps([], visit, f)
    {
      var x := f(visit[i].1);
      assert visit[i..][1..] == visit[i + 1..];
      if x.Err? {
        return Err(x.error);
      }
      acc := Assign(acc, visit[i].0, x.value);
      i := i + 1;
    }
    r := Ok(acc);
  }

  /** An assignment keeps the keys of an object distinct. */
  lemma AssignDistinct<V>(ps: seq<(string, V)>, key: string, value: V)
    requires DistinctKeys(ps)
    ensures DistinctKeys(Assign(ps, key, value))
  {
    if !HasKey(ps, key) {
      var ks := Keys(ps) + [key];
      assert forall i :: 0 <= i < |Keys(ps)| ==> ks[i] == Keys(ps)[i];
    }
  }

  /** Whatever it visits, the loop leaves an object with distinct keys. */
  lemma {:induction false} MapPropsDistinct<V>(acc: seq<(string, V)>, visit: seq<(string, JsValue)>, f: JsValue -> Result<V>)
    requires DistinctKeys(acc)
    ensures MapProps(acc, visit, f).Ok? ==> DistinctKeys(MapProps(acc, visit, f).value)
    decreases |visit|
  {
    if visit != [] && f(visit[0].1).Ok? {
      AssignDistinct(acc, visit[0].0, f(visit[0].1).value);
      MapPropsDistinct(Assign(acc, visit[0].0, f(visit[0].1).value), visit[1..], f);
    }
  }

  /** A property of every value survives an assignment of a value that has it. */
  lemma {:induction false} AssignValues<V>(ps: seq<(string, V)>, key: string, value: V, P: V -> bool)
    requires forall i :: 0 <= i < |ps| ==> P(ps[i].1)
    requires P(value)
    ensures forall i :: 0 <= i < |Assign(ps, key, value)| ==> P(Assign(ps, key, value)[i].1)
    decreases |ps|
  {
    if ps != [] && ps[0].0 != key {
      assert forall i :: 0 <= i < |ps[1..]| ==> ps[1..][i] == ps[i + 1];
      AssignValues(ps[1..], key, value, P);
      var rest := Assign(ps[1..], key, value);
      assert forall i :: 1 <= i < |[ps[0]] + rest| ==> ([ps[0]] + rest)[i] == rest[i - 1];
    }
  }

  /** When every result `f` returns has a property, every value of the object the
      loop builds has it. */
  lemma {:induction false} MapPropsValues<V>(acc: seq<(string, V)>, visit: seq<(string, JsValue)>, f: JsValue -> Result<V>, P: V -> bool)
    requires forall i :: 0 <= i < |acc| ==> P(acc[i].1)
    requires forall i :: 0 <= i < |visit| && f(visit[i].1).Ok? ==> P(f(visit[i].1).value)
    ensures MapProps(acc, visit, f).Ok? ==>
      forall i :: 0 <= i < |MapProps(acc, visit, f).value| ==> P(MapProps(acc, visit, f).value[i].1)
    decreases |visit|
  {
    if visit != [] && f(visit[0].1).Ok? {
      AssignValues(acc, visit[0].0, f(visit[0].1).value, P);
      assert forall i :: 0 <= i < |visit[1..]| ==> visit[1..][i] == visit[i + 1];
      MapPropsValues(Assign(acc, visit[0].0, f(visit[0].1).value), visit[1..], f, P);
    }
  }

  /** Each visited key with `f` applied to its value. */
  function MapValues<V>(visit: seq<(string, JsValue)>, f: JsValue -> Result<V>): (r: seq<(string, V)>)
    requires forall i :: 0 <= i < |visit| ==> f(visit[i].1).Ok?
    ensures |r| == |visit|
    ensures forall i :: 0 <= i < |visit| ==> r[i] == (visit[i].0, f(visit[i].1).value)
  {
    if visit == [] then []
    else
      var r := [(visit[0].0, f(visit[0].1).value)] + MapValues(visit[1..], f);
      ConsParts((visit[0].0, f(visit[0].1).value), MapValues(visit[1..], f));
      r
  }

  /** The loop completes exactly when no call of `f` throws. */
  lemma {:induction false} MapPropsOk<V>(acc: seq<(string, V)>, visit: seq<(string, JsValue)>, f: JsValue -> Result<V>)
    ensures MapProps(acc, visit, f).Ok? <==> forall i :: 0 <= i < |visit| ==> f(visit[i].1).Ok?
    decreases |visit|
  {
    if visit != [] && f(visit[0].1).Ok? {
      MapPropsStep(acc, visit, f);
      MapPropsOk(Assign(acc, visit[0].0, f(visit[0].1).value), visit[1..], f);
      TailElements(visit);
    }
  }

  /** A loop that throws throws the error of the first value `f` rejects. */
  lemma {:induction false} MapPropsFirstError<V>(acc: seq<(string, V)>, visit: seq<(string, JsValue)>, f: JsValue -> Result<V>)
    ensures MapProps(acc, visit, f).Err? ==>
      exists j :: 0 <= j < |visit| && f(visit[j].1).Err? && MapProps(acc, visit, f).error == f(visit[j].1).error &&
        forall i :: 0 <= i < j ==> f(visit[i].1).Ok?
    decreases |visit|
  {
    if visit != [] && f(visit[0].1).Ok? {
      var acc1 := Assign(acc, visit[0].0, f(visit[0].1).value);
      MapPropsStep(acc, visit, f);
      MapPropsFirstError(acc1, visit[1..], f);
      if MapProps(acc1, visit[1..], f).Err? {
        var j :| 0 <= j < |visit[1..]| && f(visit[1..][j].1).Err? && MapProps(acc1, visit[1..], f).error == f(visit[1..][j].1).error &&
          forall i :: 0 <= i < j ==> f(visit[1..][i].1).Ok?;
        FirstErrorShift(visit, f, j);
        assert f(visit[j + 1].1).Err? && MapProps(acc, visit, f).error == f(visit[j + 1].1).error;
      }
    }
  }

  /** The first rejected value of `visit[1..]`, seen in `visit`. */
  lemma FirstErrorShift<V>(visit: seq<(string, JsValue)>, f: JsValue -> Result<V>, j: int)
    requires visit != [] && f(visit[0].1).Ok?
    requires 0 <= j < |visit| - 1 && forall i :: 0 <= i < j ==> f(visit[1..][i].1).Ok?
    ensures visit[j + 1] == visit[1..][j]
    ensures forall i :: 0 <= i < j + 1 ==> f(visit[i].1).Ok?
  {
    TailElements(visit);
  }

  /** One round of the loop, on a value `f` accepts. */
  lemma MapPropsStep<V>(acc: seq<(string, V)>, visit: seq<(string, JsValue)>, f: JsValue -> Result<V>)
    requires visit != [] && f(visit[0].1).Ok?
    ensures MapProps(acc, visit, f) == MapProps(Assign(acc, visit[0].0, f(visit[0].1).value), visit[1..], f)
  {
  }

  lemma TailElements<X>(a: seq<X>)
    requires a != []
    ensures |a[1..]| == |a| - 1 && forall i :: 0 < i < |a| ==> a[i] == a[1..][i - 1]
    ensures forall i :: 0 <= i < |a[1..]| ==> a[1..][i] == a[i + 1]
  {
  }

  /** On keys that are all distinct and new, the loop appends each key with
      `f` of its value, in visiting order. */
  lemma {:induction false} MapPropsFresh<V>(acc: seq<(string, V)>, visit: seq<(string, JsValue)>, f: JsValue -> Result<V>)
    requires forall i :: 0 <= i < |visit| ==> f(visit[i].1).Ok?
    requires DistinctKeys(visit)
    requires forall i :: 0 <= i < |visit| ==> !HasKey(acc, visit[i].0)
    ensures MapProps(acc, visit, f) == Ok(acc + MapValues(visit, f))
    decreases |visit|
  {
    if visit != [] {
      var k, x := visit[0].0, f(visit[0].1).value;
      AssignNewKey(acc, k, x);
      var acc' := acc + [(k, x)];
      var rest := visit[1..];
      KeysAppend(acc, [(k, x)]);
      assert Keys([(k, x)]) == [k];
      forall i | 0 <= i < |rest| ensures !HasKey(acc', rest[i].0) && f(rest[i].1).Ok? {
        assert rest[i] == visit[i + 1];
        assert Keys(visit)[0] != Keys(visit)[i + 1];
      }
      assert DistinctKeys(rest) by {
        forall i, j | 0 <= i < j < |rest| ensures Keys(rest)[i] != Keys(rest)[j] {
          assert Keys(visit)[i + 1] != Keys(visit)[j + 1];
        }
      }
      MapPropsFresh(acc', rest, f);
      var mr := MapValues(rest, f);
      assert MapValues(visit, f) == [(k, x)] + mr;
      SeqAssoc(acc, [(k, x)], mr);
      assert MapProps(acc, visit, f) == MapProps(acc', rest, f);
    } else {
      assert MapValues(visit, f) == [];
      assert acc + [] == acc;
    }
  }


  /** `v.key` for a key that is not an array index, on a value that is neither
      `null` nor `undefined` (every caller applies `|| {}` first). */
  function Prop(v: JsValue, key: string): JsValue {
    if v.Obj? then
      match Lookup(v.props, key)
      case Some(x) => x
      case None => Undefined
    else Undefined
  }

  /** The `(k, v[k])` pairs that `for (let k in v)` visits, in order. */
  function ForIn(v: JsValue): (r: seq<(string, JsValue)>)
    ensures v.Obj? ==> r == v.props
    ensures v.Arr? ==> |r| == |v.elems|
    ensures v.Str? ==> |r| == |v.s|
    ensures !v.Obj? ==> forall i :: 0 <= i < |r| ==> r[i].0 == NatToString(i)
    ensures !v.Obj? && !v.Arr? && !v.Str? ==> r == []
  {
    match v
    case Obj(ps) => ps
    case Arr(es) => seq(|es|, i requires 0 <= i < |es| => (NatToString(i), es[i]))
    case Str(s) => seq(|s|, i requires 0 <= i < |s| => (NatToString(i), Str([s[i]])))
    case _ => []
  }

  /** The decimal spelling of an array index, as `for-in` produces it. */
  function NatToString(n: nat): string
    decreases n
  {
    if n < 10 then ["0123456789"[n]]
    else NatToString(n / 10) + ["0123456789"[n % 10]]
  }

  // ---------------------------------------------------------------------------
  // Arrays
  // ---------------------------------------------------------------------------

  /** `a.indexOf(x)` */
  function IndexOf<X(==)>(a: seq<X>, x: X): (r: int)
    ensures x in a ==> 0 <= r < |a| && a[r] == x && x !in a[..r]
    ensures x !in a ==> r == -1
  {
    if a == [] then -1
    else if a[0] == x then 0
    else var k := IndexOf(a[1..], x); if k < 0 then -1 else k + 1
  }

  /** The position `a.splice(start, …)` works at: a negative start counts from
      the end and every start is limited to `[0, |a|]`. */
  function SpliceStart(start: int, len: nat): (r: nat)
    ensures r <= len
    ensures 0 <= start <= len ==> r == start
  {
    if start < 0 then (if len + start < 0 then 0 else len + start)
    else if start > len then len
    else start
  }

  /** `a.splice(start, 0, x)`, the array it leaves. */
  function SpliceInsert<X>(a: seq<X>, start: int, x: X): (r: seq<X>)
    ensures |r| == |a| + 1
    ensures 0 <= SpliceStart(start, |a|) < |r| && r[SpliceStart(start, |a|)] == x
  {
    var k := SpliceStart(start, |a|);
    a[..k] + [x] + a[k..]
  }

  /** `a.splice(start, 1)` for a start inside the array, the array it leaves. */
  function SpliceRemove<X>(a: seq<X>, start: nat): (r: seq<X>)
    requires start < |a|
    ensures |r| == |a| - 1
    ensures forall i :: 0 <= i < |r| ==> r[i] == a[if i < start then i else i + 1]
  {
    a[..start] + a[start + 1..]
  }

  // ---------------------------------------------------------------------------
  // JSON.parse(JSON.stringify(v))
  // ---------------------------------------------------------------------------

  /** The values `JSON.stringify` leaves out of an object and writes as `null` in an array. */
  predicate Unserializable(v: JsValue) {
    v.Undefined? || v.Func?
  }

  /** The deep copy `JSON.parse(JSON.stringify(v))` of an object or array `v`. */
  function JsonCopy(v: JsValue): (r: JsValue)
    ensures v.Arr? ==> r.Arr? && |r.elems| == |v.elems|
    ensures v.Obj? ==> r.Obj? && |r.props| <= |v.props|
    ensures !v.Arr? && !v.Obj? ==> r == v
    decreases v, 1
  {
    match v
    case Arr(es) => Arr(JsonCopyElems(es))
    case Obj(ps) => Obj(JsonCopyProps(v, ps))
    case _ => v
  }

  function JsonCopyElems(es: seq<JsValue>): (r: seq<JsValue>)
    ensures |r| == |es|
    decreases es, 0
  {
    if es == [] then []
    else [if Unserializable(es[0]) then Null else JsonCopy(es[0])] + JsonCopyElems(es[1..])
  }

  function JsonCopyProps(ghost parent: JsValue, ps: seq<(string, JsValue)>): (r: seq<(string, JsValue)>)
    requires forall p :: p in ps ==> p.1 < parent
    ensures |r| <= |ps|
    decreases parent, 0, |ps|
  {
    if ps == [] then []
    else if Unserializable(ps[0].1) then JsonCopyProps(parent, ps[1..])
    else [(ps[0].0, JsonCopy(ps[0].1))] + JsonCopyProps(parent, ps[1..])
  }

  /** The values `JSON.parse` can produce: nothing undefined and no function, at any depth. */
  predicate IsJson(v: JsValue)
    decreases v, 1
  {
    match v
    case Undefined => false
    case Func => false
    case Arr(es) => ElemsAreJson(es)
    case Obj(ps) => PropsAreJson(v, ps)
    case _ => true
  }

  predicate ElemsAreJson(es: seq<JsValue>)
    decreases es, 0
  {
    es == [] || (IsJson(es[0]) && ElemsAreJson(es[1..]))
  }

  predicate PropsAreJson(ghost parent: JsValue, ps: seq<(string, JsValue)>)
    requires forall p :: p in ps ==> p.1 < parent
    decreases parent, 0, |ps|
  {
    ps == [] || (IsJson(ps[0].1) && PropsAreJson(parent, ps[1..]))
  }

  /** A value `JSON.parse` could have produced survives the copy unchanged. */
  lemma {:induction false} JsonCopyOfJson(v: JsValue)
    requires IsJson(v)
    ensures JsonCopy(v) == v
    decreases v, 1
  {
    match v
    case Arr(es) => ElemsCopyOfJson(es);
    case Obj(ps) => PropsCopyOfJson(v, ps);
    case _ =>
  }

  lemma {:induction false} ElemsCopyOfJson(es: seq<JsValue>)
    requires ElemsAreJson(es)
    ensures JsonCopyElems(es) == es
    decreases es, 0
  {
    if es != [] {
      JsonCopyOfJson(es[0]);
      ElemsCopyOfJson(es[1..]);
    }
  }

  lemma {:induction false} PropsCopyOfJson(parent: JsValue, ps: seq<(string, JsValue)>)
    requires forall p :: p in ps ==> p.1 < parent
    requires PropsAreJson(parent, ps)
    ensures JsonCopyProps(parent, ps) == ps
    decreases parent, 0, |ps|
  {
    if ps != [] {
      assert ps[0] in ps;
      JsonCopyOfJson(ps[0].1);
      PropsCopyOfJson(parent, ps[1..]);
    }
  }

  /** What the copy produces is JSON. */
  lemma {:induction false} JsonCopyIsJson(v: JsValue)
    requires !Unserializable(v)
    ensures IsJson(JsonCopy(v))
    decreases v, 1
  {
    match v
    case Arr(es) => ElemsCopyIsJson(es);
    case Obj(ps) => PropsCopyIsJson(v, ps, JsonCopy(v));
    case _ =>
  }

  lemma {:induction false} ElemsCopyIsJson(es: seq<JsValue>)
    ensures ElemsAreJson(JsonCopyElems(es))
    decreases es, 0
  {
    if es != [] {
      if !Unserializable(es[0]) {
        JsonCopyIsJson(es[0]);
      }
      ElemsCopyIsJson(es[1..]);
      var r := JsonCopyElems(es);
      assert r[1..] == JsonCopyElems(es[1..]);
    }
  }

  lemma {:induction false} PropsCopyIsJson(parent: JsValue, ps: seq<(string, JsValue)>, w: JsValue)
    requires forall p :: p in ps ==> p.1 < parent
    requires forall p :: p in JsonCopyProps(parent, ps) ==> p.1 < w
    ensures PropsAreJson(w, JsonCopyProps(parent, ps))
    decreases parent, 0, |ps|
  {
    if ps != [] {
      var qs := JsonCopyProps(parent, ps);
      var rest := JsonCopyProps(parent, ps[1..]);
      if Unserializable(ps[0].1) {
        PropsCopyIsJson(parent, ps[1..], w);
      } else {
        assert ps[0] in ps;
        JsonCopyIsJson(ps[0].1);
        assert qs[1..] == rest;
        assert forall p :: p in rest ==> p in qs;
        PropsCopyIsJson(parent, ps[1..], w);
      }
    }
  }

  /** What the copy produces is JSON, so copying twice is copying once. */
  lemma JsonCopyIdempotent(v: JsValue)
    requires !Unserializable(v)
    ensures JsonCopy(JsonCopy(v)) == JsonCopy(v)
  {
    JsonCopyIsJson(v);
    JsonCopyOfJson(JsonCopy(v));
  }

  /** An object whose properties are all serializable keeps every key, in order,
      each value copied. */
  lemma {:induction false} JsonCopyPropsSerializable(parent: JsValue, ps: seq<(string, JsValue)>)
    requires forall p :: p in ps ==> p.1 < parent
    requires forall i :: 0 <= i < |ps| ==> !Unserializable(ps[i].1)
    ensures |JsonCopyProps(parent, ps)| == |ps|
    ensures forall i :: 0 <= i < |ps| ==> JsonCopyProps(parent, ps)[i] == (ps[i].0, JsonCopy(ps[i].1))
    decreases |ps|
  {
    if ps != [] {
      assert forall i :: 0 <= i < |ps[1..]| ==> ps[1..][i] == ps[i + 1];
      JsonCopyPropsSerializable(parent, ps[1..]);
    }
  }

  /** `JSON.parse(JSON.stringify(o))` of an object none of whose values is
      dropped: the same keys in the same order, each value copied. */
  lemma JsonCopyObjSerializable(ps: seq<(string, JsValue)>)
    requires forall i :: 0 <= i < |ps| ==> !Unserializable(ps[i].1)
    ensures JsonCopy(Obj(ps)).Obj?
    ensures Keys(JsonCopy(Obj(ps)).props) == Keys(ps)
    ensures forall i :: 0 <= i < |ps| ==> JsonCopy(Obj(ps)).props[i].1 == JsonCopy(ps[i].1)
  {
    var w := Obj(ps);
    JsonCopyPropsSerializable(w, ps);
    var r := JsonCopyProps(w, ps);
    assert JsonCopy(w).props == r;
    assert forall i :: 0 <= i < |r| ==> Keys(r)[i] == Keys(ps)[i];
  }

  /** In an object with distinct keys, each key reads its own value. */
  lemma {:induction false} LookupDistinct<V>(ps: seq<(string, V)>, i: nat)
    requires DistinctKeys(ps)
    requires i < |ps|
    ensures Lookup(ps, ps[i].0) == Some(ps[i].1)
  {
    if i > 0 {
      assert Keys(ps)[0] != Keys(ps)[i];
      assert DistinctKeys(ps[1..]) by {
        forall a, b | 0 <= a < b < |ps[1..]| ensures Keys(ps[1..])[a] != Keys(ps[1..])[b] {
          assert Keys(ps)[a + 1] != Keys(ps)[b + 1];
        }
      }
      LookupDistinct(ps[1..], i - 1);
    }
  }
}
