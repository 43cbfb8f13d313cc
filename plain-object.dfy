/** lib/collection.js as written, where it leans on a plain JavaScript object.
    `Data = {}` is read with `Data[name]`, which also finds the methods every
    object inherits from `Object.prototype`; and the `data` export assigns the
    entries in `Names` order into `{}`, whose keys JavaScript lists array
    indices first, ascending.  The members here model those two behaviours;
    the collection in `Collections`, which the store uses, is the corrected
    one: a name is present when it is an own key, and the export keeps
    `Names` order. */
module PlainObject {
  import opened Js
  import opened Numeric
  import opened Collections

  // ---------------------------------------------------------------------------
  // Names inherited from Object.prototype
  // ---------------------------------------------------------------------------

  /** The properties a plain object inherits from `Object.prototype` in Node. */
  const Inherited: set<string> := {
    "constructor", "hasOwnProperty", "isPrototypeOf", "propertyIsEnumerable",
    "toLocaleString", "toString", "valueOf", "__defineGetter__",
    "__defineSetter__", "__lookupGetter__", "__lookupSetter__", "__proto__"}

  /** Every inherited name has at least seven letters. */
  lemma ShortNotInherited(s: string)
    requires |s| < 7
    ensures s !in Inherited
  {
    forall n | n in Inherited ensures |n| >= 7 {
    }
  }

  /** `Data[name]` is truthy, for payloads that are objects: an own key, or an
      inherited method. */
  predicate Held<T>(c: Contents<T>, n: string) {
    n in c.data || n in Inherited
  }

  /** What `Data[name]` holds: an own payload, or the inherited method. */
  datatype Slot<T> = Own(value: T) | Builtin(name: string)

  /** The record `get` resolves with, as written. */
  datatype Found<T> = Found(index: int, name: string, data: Slot<T>)

  /** A record of the corrected collection, as the source would report it. */
  function AsFound<T>(el: Record<T>): Found<T> {
    Found(el.index, el.name, Own(el.data))
  }

  /** A reference that `chkRef` takes as an inherited name the collection
      does not hold: a string that `isNaN` rejects as a number is a name. */
  predicate InheritedRef<T>(c: Contents<T>, r: Ref) {
    r.ByName? && !LooksNumeric(r.name) && r.name in Inherited && r.name !in c.data
  }

  /** `get(ref)` as written: a name is found when `Data[name]` is truthy, at
      `Names.indexOf(name)`, which is -1 for an inherited name. */
  function FindAsWritten<T>(c: Contents<T>, r: Ref): (res: Result<Found<T>>)
    requires c.Valid()
    ensures InheritedRef(c, r) ==> res == Ok(Found(-1, r.name, Builtin(r.name)))
    ensures CheckRef(r).Err? ==> res == Err(CheckRef(r).error)
  {
    var k :- CheckRef(r);
    match k
    case Named(n) =>
      if !Held(c, n) then Err(NotFound(n))
      else Ok(Found(IndexOf(c.names, n), n, if n in c.data then Own(c.data[n]) else Builtin(n)))
    case AtIndex(i) =>
      if i < 0 || i >= |c.names| then Err(IndexOutOfRange(i))
      else Ok(Found(i, c.names[i], Own(c.data[c.names[i]])))
  }

  /** Off the inherited names, `get` as written finds what the corrected one finds. */
  lemma FindAgrees<T>(c: Contents<T>, r: Ref)
    requires c.Valid()
    ensures !InheritedRef(c, r) ==>
      FindAsWritten(c, r) == if FindIn(c, r).Ok? then Ok(AsFound(FindIn(c, r).value)) else Err(FindIn(c, r).error)
  {
  }

  /** `a.splice(start, 1)` for any start, the array it leaves: a negative
      start counts from the end, and a start at or past the end removes nothing. */
  function SpliceDelete<X>(a: seq<X>, start: int): (r: seq<X>)
    ensures 0 <= start < |a| ==> r == SpliceRemove(a, start)
    ensures start == -1 && a != [] ==> r == a[..|a| - 1]
    ensures start >= |a| ==> r == a
  {
    var k := SpliceStart(start, |a|);
    if k == |a| then a else a[..k] + a[k + 1..]
  }

  /** `remove(ref)` as written: `Names.splice(el.index, 1)` and `delete
      Data[el.name]`. */
  function RemoveAsWritten<T>(c: Contents<T>, r: Ref): (ch: Change<Found<T>, T>)
    requires c.Valid()
    ensures InheritedRef(c, r) && c.names != [] ==>
      ch.after == Contents(c.names[..|c.names| - 1], c.data)
    ensures !InheritedRef(c, r) ==>
      ch.after == RemoveFrom(c, r).after &&
      ch.result == if RemoveFrom(c, r).result.Ok? then Ok(AsFound(RemoveFrom(c, r).result.value)) else Err(RemoveFrom(c, r).result.error)
  {
    match FindAsWritten(c, r)
    case Err(e) => Change(Err(e), c)
    case Ok(el) => Change(Ok(el), Contents(SpliceDelete(c.names, el.index), c.data - {el.name}))
  }

  /** `update(ref, data)` as written: `Data[el.name] = data`.  For the name
      `__proto__` that assignment runs the prototype setter and creates no own
      key, so the names and own payloads stay as they were. */
  function UpdateAsWritten<T>(c: Contents<T>, r: Ref, d: T): (ch: Change<Found<T>, T>)
    requires c.Valid()
    ensures InheritedRef(c, r) && r.name != "__proto__" ==>
      ch.after == Contents(c.names, c.data[r.name := d]) && !ch.after.Valid()
    ensures InheritedRef(c, r) && r.name == "__proto__" ==>
      ch == Change(Ok(Found(-1, "__proto__", Own(d))), c)
    ensures !InheritedRef(c, r) ==>
      ch.after == UpdateIn(c, r, d).after &&
      ch.result == if UpdateIn(c, r, d).result.Ok? then Ok(AsFound(UpdateIn(c, r, d).result.value)) else Err(UpdateIn(c, r, d).result.error)
  {
    match FindAsWritten(c, r)
    case Err(e) => Change(Err(e), c)
    case Ok(el) =>
      if el.data.Builtin? && el.name == "__proto__" then Change(Ok(el.(data := Own(d))), c)
      else Change(Ok(el.(data := Own(d))), Contents(c.names, c.data[el.name := d]))
  }

  /** `add(name, data, index)` as written: an inherited name counts as taken. */
  function AddAsWritten<T>(c: Contents<T>, name: string, d: T, at: Option<int>): (ch: Change<Record<T>, T>)
    requires c.Valid()
    ensures var index := if at.Some? then at.value else |c.names|;
      ch.result.Ok? <==> CheckName(name).Pass? && !Held(c, name) && 0 <= index <= |c.names|
    ensures CheckName(name).Pass? && name in Inherited ==> ch == Change(Err(AlreadyExists(name)), c)
    ensures name !in Inherited ==> ch == AddTo(c, name, d, at)
  {
    if CheckName(name).Pass? && name in Inherited && name !in c.data then Change(Err(AlreadyExists(name)), c)
    else AddTo(c, name, d, at)
  }

  /** The collection as written once `Data` may hold an inherited method
      under an own key, which only `rename` of an inherited name does. */
  datatype Plain<T> = Plain(names: seq<string>, data: map<string, Slot<T>>)

  /** A change of the collection as written. */
  datatype PlainChange<T> = PlainChange(result: Result<Found<T>>, after: Plain<T>)

  /** A collection seen as written: every payload an own one. */
  function Lift<T>(c: Contents<T>): (p: Plain<T>)
    ensures p.names == c.names && p.data.Keys == c.data.Keys
    ensures forall n :: n in c.data ==> p.data[n] == Own(c.data[n])
  {
    Plain(c.names, map n | n in c.data :: Own(c.data[n]))
  }

  /** `rename(ref, name)` as written: `chkRef` and `chkName`, then `get`, the
      two tests, and `remove(el)` followed by `add(el)` under the new name, so
      `Names.splice(el.index, 1)`, `Names.splice(el.index, 0, name)` and
      `Data[name] = el.data`.  An inherited reference resolves at index -1:
      the last name goes, the new one is put before the name that is then
      last, and the new key holds the inherited method. */
  function RenameAsWritten<T>(c: Contents<T>, r: Ref, name: string): (ch: PlainChange<T>)
    requires c.Valid()
    ensures !InheritedRef(c, r) && name !in Inherited ==>
      var rn := RenameIn(c, r, name);
      ch.after == Lift(rn.after) &&
      ch.result == if rn.result.Ok? then Ok(AsFound(rn.result.value)) else Err(rn.result.error)
    ensures InheritedRef(c, r) && CheckName(name).Pass? && name != r.name && !Held(c, name) && c.names != [] ==>
      ch.result == Ok(Found(-1, name, Builtin(r.name))) &&
      ch.after.names == SpliceInsert(c.names[..|c.names| - 1], -1, name) &&
      ch.after.data == Lift(c).data[name := Builtin(r.name)]
    ensures name in Inherited && CheckName(name).Pass? && FindAsWritten(c, r).Ok? && FindAsWritten(c, r).value.name != name ==>
      ch == PlainChange(Err(AlreadyExits(name)), Lift(c))
    ensures InheritedRef(c, r) && CheckName(name).Pass? && name == r.name ==>
      ch == PlainChange(Err(SelfRename), Lift(c))
    ensures InheritedRef(c, r) && CheckName(name).Pass? && name != r.name && name in c.data ==>
      ch == PlainChange(Err(AlreadyExits(name)), Lift(c))
  {
    if CheckRef(r).Err? then PlainChange(Err(CheckRef(r).error), Lift(c))
    else if CheckName(name).Fail? then PlainChange(Err(CheckName(name).error), Lift(c))
    else
      FindAgrees(c, r);
      match FindAsWritten(c, r)
      case Err(e) => PlainChange(Err(e), Lift(c))
      case Ok(el) =>
        if el.name == name then PlainChange(Err(SelfRename), Lift(c))
        else if Held(c, name) then PlainChange(Err(AlreadyExits(name)), Lift(c))
        else
          RenameAgreesStep(c, r, name, el);
          PlainChange(Ok(el.(name := name)),
            Plain(SpliceInsert(SpliceDelete(c.names, el.index), el.index, name), (Lift(c).data - {el.name})[name := el.data]))
  }

  /** The successful branch of `RenameAsWritten`, compared with `RenameIn`. */
  lemma RenameAgreesStep<T>(c: Contents<T>, r: Ref, name: string, el: Found<T>)
    requires c.Valid() && CheckRef(r).Ok? && CheckName(name).Pass?
    requires FindAsWritten(c, r) == Ok(el) && el.name != name && !Held(c, name)
    ensures !InheritedRef(c, r) ==>
      var rn := RenameIn(c, r, name);
      rn.result.Ok? && AsFound(rn.result.value) == el.(name := name) &&
      Lift(rn.after) == Plain(SpliceInsert(SpliceDelete(c.names, el.index), el.index, name), (Lift(c).data - {el.name})[name := el.data])
    ensures InheritedRef(c, r) && c.names != [] ==>
      el == Found(-1, r.name, Builtin(r.name)) &&
      SpliceDelete(c.names, el.index) == c.names[..|c.names| - 1] &&
      (Lift(c).data - {el.name})[name := el.data] == Lift(c).data[name := Builtin(r.name)]
  {
    if !InheritedRef(c, r) {
      RenameOwn(c, r, name, el);
    } else if c.names != [] {
      assert Lift(c).data - {el.name} == Lift(c).data;
    }
  }

  lemma RenameOwn<T>(c: Contents<T>, r: Ref, name: string, el: Found<T>)
    requires c.Valid() && CheckRef(r).Ok? && CheckName(name).Pass? && !InheritedRef(c, r)
    requires FindAsWritten(c, r) == Ok(el) && el.name != name && !Held(c, name)
    ensures var rn := RenameIn(c, r, name);
      rn.result.Ok? && AsFound(rn.result.value) == el.(name := name) &&
      Lift(rn.after) == Plain(SpliceInsert(SpliceDelete(c.names, el.index), el.index, name), (Lift(c).data - {el.name})[name := el.data])
  {
    FindAgrees(c, r);
    var f := FindIn(c, r).value;
    assert el == AsFound(f);
    var rn := RenameIn(c, r, name);
    assert rn.result.Ok?;
    RelinkInPlace(c.names, f.index, name);
    assert SpliceDelete(c.names, el.index) == SpliceRemove(c.names, f.index);
    LiftRelink(c, rn.after, f.name, name, f.data);
  }

  /** Lifting commutes with moving a payload to a new key. */
  lemma LiftRelink<T>(c: Contents<T>, d: Contents<T>, o: string, n: string, v: T)
    requires d.data == (c.data - {o})[n := v]
    ensures Lift(d).data == (Lift(c).data - {o})[n := Own(v)]
  {
  }

  /** `move(el, index)` as written: `Names.splice(el.index, 1)`, then
      `Names.splice(index, 0, el.name)`. */
  function MoveAsWritten<T>(c: Contents<T>, el: Found<T>, index: int): (d: Contents<T>)
    ensures d.data == c.data
    ensures el.index == -1 && c.names != [] ==> d.names == SpliceInsert(c.names[..|c.names| - 1], index, el.name)
    ensures el.index == -1 && c.names != [] && index == 0 ==> d.names == [el.name] + c.names[..|c.names| - 1]
  {
    Contents(SpliceInsert(SpliceDelete(c.names, el.index), index, el.name), c.data)
  }

  /** `moveTo(ref, index)` as written. */
  function MoveToAsWritten<T>(c: Contents<T>, r: Ref, to: int): (ch: Change<Found<T>, T>)
    requires c.Valid()
    ensures InheritedRef(c, r) && c.names != [] ==>
      var t := ClampIndex(to, |c.names|);
      ch.result == Ok(Found(t, r.name, Builtin(r.name))) &&
      ch.after == Contents(SpliceInsert(c.names[..|c.names| - 1], t, r.name), c.data)
  {
    var t := ClampIndex(to, |c.names|);
    match FindAsWritten(c, r)
    case Err(e) => Change(Err(e), c)
    case Ok(el) => Change(Ok(el.(index := t)), MoveAsWritten(c, el, t))
  }

  /** `moveUp(ref, count)` as written. */
  function MoveUpAsWritten<T>(c: Contents<T>, r: Ref, count: int): (ch: Change<Found<T>, T>)
    requires c.Valid()
    ensures InheritedRef(c, r) && c.names != [] && count >= 0 ==>
      ch.result == Ok(Found(0, r.name, Builtin(r.name))) &&
      ch.after == MoveAsWritten(c, Found(-1, r.name, Builtin(r.name)), 0)
    ensures InheritedRef(c, r) && c.names != [] && count < 0 ==>
      ch.result == Ok(Found(-1 - count, r.name, Builtin(r.name))) &&
      ch.after == MoveAsWritten(c, Found(-1, r.name, Builtin(r.name)), -1 - count)
  {
    match FindAsWritten(c, r)
    case Err(e) =>
      assert !InheritedRef(c, r);
      Change(Err(e), c)
    case Ok(el) =>
      assert InheritedRef(c, r) ==> el == Found(-1, r.name, Builtin(r.name));
      var t := if el.index - count < 0 then 0 else el.index - count;
      assert InheritedRef(c, r) ==> t == if count < 0 then -1 - count else 0;
      Change(Ok(el.(index := t)), MoveAsWritten(c, el, t))
  }

  /** `moveDown(ref, count)` as written; an inherited name's index is the
      number -1, so its target is a sum. */
  function MoveDownAsWritten<T>(c: Contents<T>, r: Ref, count: int): (ch: Change<Found<T>, T>)
    requires c.Valid()
    ensures InheritedRef(c, r) && c.names != [] ==>
      var t := if count - 1 >= |c.names| then |c.names| - 1 else count - 1;
      ch.result == Ok(Found(t, r.name, Builtin(r.name))) &&
      ch.after == MoveAsWritten(c, Found(-1, r.name, Builtin(r.name)), t)
  {
    match FindAsWritten(c, r)
    case Err(e) => Change(Err(e), c)
    case Ok(el) =>
      var t := if el.index < 0 then (if el.index + count >= |c.names| then |c.names| - 1 else el.index + count)
               else DownTarget(el.index, IsTextIndex(r), count, |c.names|);
      Change(Ok(el.(index := t)), MoveAsWritten(c, el, t))
  }

  /** The loop of `addMany` as written: a name that is inherited stops it like
      a name that is taken. */
  function InsertEachAsWritten<T>(c: Contents<T>, many: seq<(string, T)>, index: nat): (ch: Change<(), T>)
    requires c.Valid() && index <= |c.names|
    ensures ch.after.Valid()
    ensures many != [] && many[0].0 in Inherited ==> ch == Change(Err(AlreadyExists(many[0].0)), c)
    decreases |many|
  {
    if many == [] then Change(Ok(()), c)
    else if Held(c, many[0].0) then Change(Err(AlreadyExists(many[0].0)), c)
    else InsertEachAsWritten(Link(c, Record(index, many[0].0, many[0].1)), many[1..], index + 1)
  }

  /** `addMany(many, index)` as written. */
  function AddManyAsWritten<T>(c: Contents<T>, many: seq<(string, T)>, at: Option<int>): (ch: Change<(), T>)
    requires c.Valid()
    ensures var index := if at.Some? then at.value else |c.names|;
      (index < 0 || index > |c.names| ==> ch == Change(Err(IndexOutOfRange(index)), c)) &&
      (0 <= index <= |c.names| ==> ch == InsertEachAsWritten(c, many, index))
  {
    var index := if at.Some? then at.value else |c.names|;
    if index < 0 || index > |c.names| then Change(Err(IndexOutOfRange(index)), c)
    else InsertEachAsWritten(c, many, index)
  }

  /** Off the inherited names, the loop as written does what the corrected one does. */
  lemma {:induction false} InsertEachAgrees<T>(c: Contents<T>, many: seq<(string, T)>, index: nat)
    requires c.Valid() && index <= |c.names|
    requires forall i :: 0 <= i < |many| ==> many[i].0 !in Inherited
    ensures InsertEachAsWritten(c, many, index) == InsertEach(c, many, index)
    decreases |many|
  {
    if many != [] && many[0].0 !in c.data {
      assert forall i :: 0 <= i < |many[1..]| ==> many[1..][i] == many[i + 1];
      InsertEachAgrees(Link(c, Record(index, many[0].0, many[0].1)), many[1..], index + 1);
    }
  }

  /** A string that starts with a lower-case letter and ends in no white
      space is not numeric. */
  lemma LowerCaseName(s: string)
    requires |s| > 0 && 'a' <= s[0] <= 'z' && !IsWhiteSpace(s[|s| - 1])
    ensures !LooksNumeric(s)
  {
    assert Trim(s) == s;
    assert DigitsEnd(s, 0) == 0;
  }

  /** `'toString'` is a name to `chkRef`. */
  lemma ToStringIsName()
    ensures CheckRef(ByName("toString")) == Ok(Named("toString"))
  {
    LowerCaseName("toString");
  }

  /** `update('__proto__', y)` on `[a]`: `get` finds the inherited accessor at
      index -1, and the assignment replaces the prototype of `Data` rather than
      adding an own key, so the names and own keys stay `[a]`. */
  lemma UpdateProtoKeepsKeys<T>(x: T, y: T)
    ensures var c := Contents(["a"], map["a" := x]);
      var ch := UpdateAsWritten(c, ByName("__proto__"), y);
      ch.result == Ok(Found(-1, "__proto__", Own(y))) && ch.after.names == ["a"] && ch.after.data.Keys == {"a"}
  {
    var c := Contents(["a"], map["a" := x]);
    assert !LooksNumeric("__proto__") by {
      assert Trim("__proto__") == "__proto__";
      assert DigitsEnd("__proto__", 0) == 0;
    }
    assert c.Valid();
    assert InheritedRef(c, ByName("__proto__"));
  }

  /** `removeHost('toString')` on `[a, b]`: the corrected collection rejects;
      as written, `get` finds the inherited method at index -1, and
      `Names.splice(-1, 1)` drops `b`, whose payload stays. */
  lemma RemoveInheritedDropsLast<T>(x: T)
    ensures var c := Contents(["a", "b"], map["a" := x, "b" := x]);
      RemoveFrom(c, ByName("toString")).result == Err(NotFound("toString")) &&
      RemoveAsWritten(c, ByName("toString")).result == Ok(Found(-1, "toString", Builtin("toString"))) &&
      RemoveAsWritten(c, ByName("toString")).after == Contents(["a"], map["a" := x, "b" := x]) &&
      !RemoveAsWritten(c, ByName("toString")).after.Valid()
  {
    var c := Contents(["a", "b"], map["a" := x, "b" := x]);
    ToStringInherited(c, x);
    var after := Contents(["a"], map["a" := x, "b" := x]);
    assert c.names[..|c.names| - 1] == after.names;
    assert "b" in after.data && "b" !in after.names;
  }

  /** `renameHost('toString', 'x')` on `[a, b]`: the corrected collection
      rejects; as written, `get` finds the inherited method at index -1,
      `Names.splice(-1, 1)` drops `b`, `Names.splice(-1, 0, 'x')` puts `x`
      before `a`, and `Data.x` becomes the inherited method. */
  lemma RenameInheritedRef<T>(x: T)
    ensures var c := Contents(["a", "b"], map["a" := x, "b" := x]);
      RenameIn(c, ByName("toString"), "x").result == Err(NotFound("toString")) &&
      RenameAsWritten(c, ByName("toString"), "x") ==
        PlainChange(Ok(Found(-1, "x", Builtin("toString"))),
                    Plain(["x", "a"], map["a" := Own(x), "b" := Own(x), "x" := Builtin("toString")]))
  {
    var c := Contents(["a", "b"], map["a" := x, "b" := x]);
    RenameToStringRejected(c, x);
    RenameInheritedAt(c, x);
  }
  /** On `[a]`, renaming the inherited `toString` to itself or to `a` is
      rejected as the source rejects it, where `RenameIn` finds no `toString`. */
  lemma RenameInheritedRejected<T>(x: T)
    ensures var c := Contents(["a"], map["a" := x]);
      RenameIn(c, ByName("toString"), "toString").result == Err(NotFound("toString")) &&
      RenameIn(c, ByName("toString"), "a").result == Err(NotFound("toString")) &&
      RenameAsWritten(c, ByName("toString"), "toString").result == Err(SelfRename) &&
      RenameAsWritten(c, ByName("toString"), "a").result == Err(AlreadyExits("a"))
  {
    var c := Contents(["a"], map["a" := x]);
    ToStringIsName();
    assert c.Valid() && InheritedRef(c, ByName("toString"));
    LowerCaseName("toString");
    LowerCaseName("a");
  }
  lemma RenameToStringRejected<T>(c: Contents<T>, x: T)
    requires c == Contents(["a", "b"], map["a" := x, "b" := x])
    ensures c.Valid() && InheritedRef(c, ByName("toString"))
    ensures RenameIn(c, ByName("toString"), "x").result == Err(NotFound("toString"))
  {
    ToStringInherited(c, x);
    LowerCaseName("x");
  }
  lemma ToStringInherited<T>(c: Contents<T>, x: T)
    requires c == Contents(["a", "b"], map["a" := x, "b" := x])
    ensures c.Valid() && InheritedRef(c, ByName("toString"))
    ensures FindIn(c, ByName("toString")) == Err(NotFound("toString"))
  {
    ToStringIsName();
    assert c.Valid();
  }

  lemma RenameInheritedAt<T>(c: Contents<T>, x: T)
    requires c == Contents(["a", "b"], map["a" := x, "b" := x]) && c.Valid() && InheritedRef(c, ByName("toString"))
    ensures RenameAsWritten(c, ByName("toString"), "x") ==
      PlainChange(Ok(Found(-1, "x", Builtin("toString"))),
                  Plain(["x", "a"], map["a" := Own(x), "b" := Own(x), "x" := Builtin("toString")]))
  {
    RenameInheritedParts(c, x);
    RenameInheritedShape(c, ByName("toString"), "x");
  }

  /** The pieces of the `[a, b]` example, apart from the rename itself. */
  lemma RenameInheritedParts<T>(c: Contents<T>, x: T)
    requires c == Contents(["a", "b"], map["a" := x, "b" := x])
    ensures CheckName("x").Pass? && !Held(c, "x")
    ensures SpliceInsert(c.names[..|c.names| - 1], -1, "x") == ["x", "a"]
    ensures Lift(c).data["x" := Builtin("toString")] == map["a" := Own(x), "b" := Own(x), "x" := Builtin("toString")]
  {
    LowerCaseName("x");
    ShortNotInherited("x");
    assert c.names[..|c.names| - 1] == ["a"];
    assert SpliceInsert(["a"], -1, "x") == ["x", "a"];
    assert Lift(c).data == map["a" := Own(x), "b" := Own(x)];
  }

  /** The whole change an inherited reference makes, as one value. */
  lemma RenameInheritedShape<T>(c: Contents<T>, r: Ref, name: string)
    requires c.Valid() && InheritedRef(c, r) && CheckName(name).Pass? && name != r.name && !Held(c, name) && c.names != []
    ensures RenameAsWritten(c, r, name) ==
      PlainChange(Ok(Found(-1, name, Builtin(r.name))),
                  Plain(SpliceInsert(c.names[..|c.names| - 1], -1, name), Lift(c).data[name := Builtin(r.name)]))
  {
  }

  /** `setHost('constructor', …)`: the corrected collection adds it; as
      written it is already there. */
  lemma AddInheritedRejected<T>(x: T)
    ensures AddTo(Contents([], map[]), "constructor", x, None).result.Ok?
    ensures AddAsWritten(Contents([], map[]), "constructor", x, None) == Change(Err(AlreadyExists("constructor")), Contents([], map[]))
  {
    LowerCaseName("constructor");
  }

  /** A configuration whose hosts start with `constructor`: the corrected
      `addMany` loads them all, the one as written stops at once, and `init`
      then loads no task and no profile. */
  lemma LoadInheritedStops<T>(x: T, y: T)
    ensures var many := [("constructor", x), ("b", y)];
      AddManyTo(Contents([], map[]), many, None).result.Ok? &&
      AddManyAsWritten(Contents([], map[]), many, None) == Change(Err(AlreadyExists("constructor")), Contents([], map[]))
  {
    var e: Contents<T> := Contents([], map[]);
    var many := [("constructor", x), ("b", y)];
    assert Keys(many) == ["constructor", "b"];
    assert Fresh(e, many);
    InsertEachOk(e, many, 0);
  }

  // ---------------------------------------------------------------------------
  // Key order
  // ---------------------------------------------------------------------------

  /** `0` or a decimal numeral without leading zeros. */
  predicate IsIndexNumeral(k: string) {
    k == "0" || IsPositiveNumeral(k)
  }

  /** An array index: the way JavaScript writes an integer below 2^32 - 1.
      An object lists such keys first, in ascending order. */
  predicate IsArrayIndex(k: string) {
    IsIndexNumeral(k) && DigitsValue(k) < 0xFFFF_FFFF
  }

  /** Putting a new array-index key among the leading array-index keys, by value. */
  function InsertIndexKey<V>(ps: seq<(string, V)>, key: string, value: V): (r: seq<(string, V)>)
    requires IsArrayIndex(key)
    ensures |r| == |ps| + 1
    ensures ps != [] && !IsArrayIndex(ps[0].0) ==> r == [(key, value)] + ps
  {
    if ps == [] || !IsArrayIndex(ps[0].0) || DigitsValue(key) < DigitsValue(ps[0].0) then [(key, value)] + ps
    else [ps[0]] + InsertIndexKey(ps[1..], key, value)
  }

  /** `o[key] = value` on a plain object whose properties `ps` are listed in
      enumeration order: an existing key keeps its place; a new array index
      goes among the leading array indices by value; any other new key goes last. */
  function AssignInOrder<V>(ps: seq<(string, V)>, key: string, value: V): (r: seq<(string, V)>)
    ensures !HasKey(ps, key) && !IsArrayIndex(key) ==> r == ps + [(key, value)]
    ensures HasKey(ps, key) ==> r == Assign(ps, key, value)
  {
    if HasKey(ps, key) then Assign(ps, key, value)
    else if IsArrayIndex(key) then InsertIndexKey(ps, key, value)
    else ps + [(key, value)]
  }

  /** The loop of `data` as written: `data[key] = Data[key]` for each name, in
      `Names` order, into `{}`. */
  function FillInOrder<T>(names: seq<string>, data: map<string, T>): (ps: seq<(string, T)>)
    requires forall i :: 0 <= i < |names| ==> names[i] in data
    ensures |ps| <= |names|
  {
    if names == [] then []
    else
      var last := names[|names| - 1];
      var before := FillInOrder(names[..|names| - 1], data);
      AssignInOrder(before, last, data[last])
  }

  /** One more step of the loop: a new key that is not an array index goes last. */
  lemma FillStep<T>(names: seq<string>, data: map<string, T>)
    requires names != [] && forall i :: 0 <= i < |names| ==> names[i] in data
    requires !IsArrayIndex(names[|names| - 1])
    requires names[|names| - 1] !in Keys(FillInOrder(names[..|names| - 1], data))
    ensures FillInOrder(names, data) ==
      FillInOrder(names[..|names| - 1], data) + [(names[|names| - 1], data[names[|names| - 1]])]
  {
  }

  /** With no name an array index, the loop as written lists the entries in
      `Names` order, as the comment on `getData` intends. */
  lemma {:induction false} FillPlain<T>(names: seq<string>, data: map<string, T>)
    requires NoDuplicates(names) && forall i :: 0 <= i < |names| ==> names[i] in data && !IsArrayIndex(names[i])
    ensures FillInOrder(names, data) == Entries(names, data)
  {
    if names != [] {
      var n := |names| - 1;
      var front := names[..n];
      FillPlain(front, data);
      EntriesSnoc(names, data);
      assert names[n] !in Keys(FillInOrder(front, data)) by {
        assert names[n] !in front;
      }
      FillStep(names, data);
    }
  }

  /** `Entries` grows by one entry at the end, and lists the names as its keys. */
  lemma EntriesSnoc<T>(names: seq<string>, data: map<string, T>)
    requires names != [] && forall i :: 0 <= i < |names| ==> names[i] in data
    ensures var n := |names| - 1;
      Keys(Entries(names[..n], data)) == names[..n] &&
      Entries(names, data) == Entries(names[..n], data) + [(names[n], data[names[n]])]
  {
    var n := |names| - 1;
    var front, all := Entries(names[..n], data), Entries(names, data);
    SamePointwise(Keys(front), names[..n]);
    SamePointwise(all, front + [(names[n], data[names[n]])]);
  }

  /** For a collection without array-index names, the export as written is the
      corrected one. */
  lemma ExportAgrees<T>(c: Contents<T>)
    requires c.Valid() && forall i :: 0 <= i < |c.names| ==> !IsArrayIndex(c.names[i])
    ensures FillInOrder(c.names, c.data) == Ordered(c)
  {
    FillPlain(c.names, c.data);
  }

  /** `'1'` is an array index and `'b'` is not. */
  lemma OneIsIndex()
    ensures IsArrayIndex("1") && !IsArrayIndex("b")
  {
    assert DigitsValue("1") == DigitsValue("") * 10 + 1;
  }

  /** The export as written of `[b, 1]` lists `1` first. */
  lemma FillIndexFirst<T>(x: T)
    ensures FillInOrder(["b", "1"], map["b" := x, "1" := x]) == [("1", x), ("b", x)]
  {
    var names, data := ["b", "1"], map["b" := x, "1" := x];
    OneIsIndex();
    assert names[..1] == ["b"] && names[..1][..0] == [];
    var before := FillInOrder(["b"], data);
    assert before == [("b", x)];
    assert Keys(before) == ["b"];
    assert !HasKey(before, "1");
  }

  /** Hosts `b` then `1`, an order `hostTo('b', 0)` can give after a
      configuration listed `1` first: the corrected export keeps `[b, 1]`; the
      export as written lists `1` first, and reading it back gives `[1, b]`. */
  lemma ExportIndexFirst<T>(x: T)
    ensures var c := Contents(["b", "1"], map["b" := x, "1" := x]);
      Keys(Ordered(c)) == ["b", "1"] &&
      FillInOrder(c.names, c.data) == [("1", x), ("b", x)] &&
      AddManyTo(Contents([], map[]), FillInOrder(c.names, c.data), None).after.names == ["1", "b"]
  {
    FillIndexFirst(x);
    var back := Contents(["1", "b"], map["b" := x, "1" := x]);
    assert back.Valid();
    assert Ordered(back) == [("1", x), ("b", x)];
    OrderedRoundTrip(back);
  }
}
