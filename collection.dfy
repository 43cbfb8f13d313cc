/** lib/collection.js: an ordered dictionary.  `Names` keeps the order of the
    entries, `Data` maps each name to its payload; an entry is addressed by its
    position or by its name.  Every operation checks its arguments, then either
    fails or changes the two in place. */
module Collections {
  import opened Js
  import opened Numeric

  const RefMessage := "ref must be an integer or a string"
  const NameMessage := "name must be a string"

  // ---------------------------------------------------------------------------
  // Arguments
  // ---------------------------------------------------------------------------

  /** A reference as the caller passes it: an integer or a string.  (Other
      JavaScript values, fractions and `NaN` among them, have no form here.) */
  datatype Ref = ByIndex(index: int) | ByName(name: string)

  /** What a reference addresses once `chkRef` has accepted it. */
  datatype Key = AtIndex(i: int) | Named(n: string)

  /** A run of decimal digits not starting with `0`. */
  predicate IsPositiveNumeral(s: string) {
    |s| > 0 && '1' <= s[0] <= '9' && forall k :: 0 <= k < |s| ==> IsDecimalDigit(s[k])
  }

  /** `s === '' + parseInt(s)`: `s` is the way JavaScript writes some integer. */
  predicate IsCanonicalInt(s: string) {
    s == "0" || IsPositiveNumeral(s) || (|s| > 1 && s[0] == '-' && IsPositiveNumeral(s[1..]))
  }

  function DigitsValue(s: string): nat
    requires forall k :: 0 <= k < |s| ==> IsDecimalDigit(s[k])
  {
    if s == [] then 0
    else
      assert IsDecimalDigit(s[|s| - 1]);
      DigitsValue(s[..|s| - 1]) * 10 + (s[|s| - 1] as int - '0' as int)
  }

  /** `parseInt(s)` of a canonical integer. */
  function CanonicalValue(s: string): int
    requires IsCanonicalInt(s)
  {
    if s[0] == '-' then 0 - DigitsValue(s[1..]) as int else DigitsValue(s)
  }

  /** `chkRef(ref)`: a string that `isNaN` rejects as a number is a name (and
      must not be empty); any other string must be the spelling of an integer,
      and then addresses a position like a number does. */
  function CheckRef(r: Ref): (k: Result<Key>)
    ensures k.Ok? <==> r.ByIndex? || !LooksNumeric(r.name) || IsCanonicalInt(r.name)
    ensures k.Ok? && k.value.Named? ==> r == ByName(k.value.n) && k.value.n != "" && !LooksNumeric(k.value.n)
    ensures r.ByIndex? ==> k == Ok(AtIndex(r.index))
    ensures k.Err? ==> k.error == ValidationError(RefMessage)
  {
    match r
    case ByIndex(i) => Ok(AtIndex(i))
    case ByName(s) =>
      if !LooksNumeric(s) then
        assert s != "" by { assert Trim("") == ""; }
        Ok(Named(s))
      else if IsCanonicalInt(s) then Ok(AtIndex(CanonicalValue(s)))
      else Err(ValidationError(RefMessage))
  }

  /** `chkName(name)`: a name is a non-empty string that does not read as a number. */
  function CheckName(name: string): (o: Outcome)
    ensures o.Pass? <==> name != "" && !LooksNumeric(name)
    ensures o.Fail? ==> o.error == ValidationError(NameMessage)
  {
    if name == "" || LooksNumeric(name) then Fail(ValidationError(NameMessage)) else Pass
  }

  /** A name `chkName` accepts addresses the entry of that name when used as a
      reference: it cannot be taken for a position. */
  lemma CheckedNameIsName(name: string)
    requires CheckName(name).Pass?
    ensures CheckRef(ByName(name)) == Ok(Named(name))
  {
  }

  // ---------------------------------------------------------------------------
  // Contents
  // ---------------------------------------------------------------------------

  /** The state of a collection: `Names` and `Data`. */
  datatype Contents<T> = Contents(names: seq<string>, data: map<string, T>) {
    /** Every name once, and the names are exactly the keys of the payloads. */
    predicate Valid() {
      NoDuplicates(names) && (forall n :: n in data ==> n in names) && (forall n :: n in names ==> n in data)
    }
  }

  /** What `get` resolves with: `{index, name, data}`. */
  datatype Record<T> = Record(index: int, name: string, data: T)

  /** What an operation resolves or rejects with, and the contents it leaves. */
  datatype Change<R, T> = Change(result: Result<R>, after: Contents<T>)

  /** `Names.splice(i, 0, x)` on distinct names, inserting a new one. */
  lemma InsertDistinct(a: seq<string>, k: int, x: string)
    requires NoDuplicates(a) && x !in a && 0 <= k <= |a|
    ensures NoDuplicates(SpliceInsert(a, k, x))
    ensures forall n :: n in SpliceInsert(a, k, x) <==> n in a || n == x
  {
    var r := SpliceInsert(a, k, x);
    assert r == a[..k] + [x] + a[k..];
    assert forall i :: 0 <= i < |r| ==> r[i] == if i < k then a[i] else if i == k then x else a[i - 1];
    assert forall n :: n in a ==> n in r by {
      forall n | n in a ensures n in r {
        var i :| 0 <= i < |a| && a[i] == n;
        assert r[if i < k then i else i + 1] == n;
      }
    }
  }

  /** `Names.splice(i, 1)` on distinct names removes exactly `a[i]`. */
  lemma RemoveDistinct(a: seq<string>, k: nat)
    requires NoDuplicates(a) && k < |a|
    ensures NoDuplicates(SpliceRemove(a, k))
    ensures forall n :: n in SpliceRemove(a, k) <==> n in a && n != a[k]
  {
    var r := SpliceRemove(a, k);
    assert forall i :: 0 <= i < |r| ==> r[i] == if i < k then a[i] else a[i + 1];
    assert forall n :: n in a && n != a[k] ==> n in r by {
      forall n | n in a && n != a[k] ensures n in r {
        var i :| 0 <= i < |a| && a[i] == n;
        assert r[if i < k then i else i - 1] == n;
      }
    }
  }

  /** `get(ref)`: by name, the entry of that name and its position; by index,
      the entry at a position inside `[0, length)`. */
  function FindIn<T>(c: Contents<T>, r: Ref): (res: Result<Record<T>>)
    requires c.Valid()
    ensures res.Ok? ==> 0 <= res.value.index < |c.names| && c.names[res.value.index] == res.value.name
    ensures res.Ok? ==> res.value.name in c.data && res.value.data == c.data[res.value.name]
    ensures CheckRef(r).Err? ==> res == Err(CheckRef(r).error)
    ensures CheckRef(r).Ok? && CheckRef(r).value.Named? ==>
      var n := CheckRef(r).value.n;
      (res.Ok? <==> n in c.data) && (res.Ok? ==> res.value.name == n) && (res.Err? ==> res.error == NotFound(n))
    ensures CheckRef(r).Ok? && CheckRef(r).value.AtIndex? ==>
      var i := CheckRef(r).value.i;
      (res.Ok? <==> 0 <= i < |c.names|) && (res.Ok? ==> res.value.index == i) && (res.Err? ==> res.error == IndexOutOfRange(i))
  {
    var k :- CheckRef(r);
    match k
    case Named(n) =>
      if n !in c.data then Err(NotFound(n)) else Ok(Record(IndexOf(c.names, n), n, c.data[n]))
    case AtIndex(i) =>
      if i < 0 || i >= |c.names| then Err(IndexOutOfRange(i)) else Ok(Record(i, c.names[i], c.data[c.names[i]]))
  }

  /** The part of `remove`, `rename` and `move` that takes an entry out. */
  function Unlink<T>(c: Contents<T>, el: Record<T>): (d: Contents<T>)
    requires c.Valid() && 0 <= el.index < |c.names| && c.names[el.index] == el.name
    ensures d.Valid()
    ensures forall n :: n in d.names <==> n in c.names && n != el.name
  {
    RemoveDistinct(c.names, el.index);
    Contents(SpliceRemove(c.names, el.index), c.data - {el.name})
  }

  /** The part of `add` and `rename` that puts an entry in. */
  function Link<T>(c: Contents<T>, el: Record<T>): (d: Contents<T>)
    requires c.Valid() && el.name !in c.data && 0 <= el.index <= |c.names|
    ensures d.Valid()
    ensures forall n :: n in d.names <==> n in c.names || n == el.name
  {
    InsertDistinct(c.names, el.index, el.name);
    Contents(SpliceInsert(c.names, el.index, el.name), c.data[el.name := el.data])
  }

  /** `remove(ref)`: resolves with what `get(ref)` resolves with and takes that
      entry out; later names move down by one and every other payload stays. */
  function RemoveFrom<T>(c: Contents<T>, r: Ref): (ch: Change<Record<T>, T>)
    requires c.Valid()
    ensures ch.after.Valid()
    ensures ch.result == FindIn(c, r)
    ensures ch.result.Err? ==> ch.after == c
    ensures ch.result.Ok? ==>
      var i, n := ch.result.value.index, ch.result.value.name;
      ch.after.names == c.names[..i] + c.names[i + 1..] &&
      n !in ch.after.data &&
      forall m :: m != n ==> (m in ch.after.data <==> m in c.data) && (m in c.data ==> ch.after.data[m] == c.data[m])
  {
    match FindIn(c, r)
    case Err(e) => Change(Err(e), c)
    case Ok(el) => Change(Ok(el), Unlink(c, el))
  }

  /** `add(name, data, index = length)`: rejects a bad name, then a name that
      exists, then an index outside `[0, length]`; otherwise inserts the entry at
      `index`. */
  function AddTo<T>(c: Contents<T>, name: string, d: T, at: Option<int>): (ch: Change<Record<T>, T>)
    requires c.Valid()
    ensures ch.after.Valid()
    ensures var index := if at.Some? then at.value else |c.names|;
      ch.result.Ok? <==> CheckName(name).Pass? && name !in c.data && 0 <= index <= |c.names|
    ensures ch.result.Err? ==> ch.after == c
    ensures ch.result.Err? ==>
      ch.result.error == (if CheckName(name).Fail? then ValidationError(NameMessage)
                          else if name in c.data then AlreadyExists(name)
                          else IndexOutOfRange(if at.Some? then at.value else |c.names|))
    ensures ch.result.Ok? ==>
      var i := ch.result.value.index;
      ch.result.value == Record(i, name, d) &&
      i == (if at.Some? then at.value else |c.names|) &&
      ch.after.names == c.names[..i] + [name] + c.names[i..] &&
      ch.after.data == c.data[name := d]
  {
    var index := if at.Some? then at.value else |c.names|;
    if CheckName(name).Fail? then Change(Err(CheckName(name).error), c)
    else if name in c.data then Change(Err(AlreadyExists(name)), c)
    else if index < 0 || index > |c.names| then Change(Err(IndexOutOfRange(index)), c)
    else
      var el := Record(index, name, d);
      Change(Ok(el), Link(c, el))
  }

  /** `update(ref, data)`: replaces the payload of the resolved entry; the names,
      and so the entry's position, stay. */
  function UpdateIn<T>(c: Contents<T>, r: Ref, d: T): (ch: Change<Record<T>, T>)
    requires c.Valid()
    ensures ch.after.Valid()
    ensures ch.result.Ok? <==> FindIn(c, r).Ok?
    ensures ch.result.Err? ==> ch.result == FindIn(c, r) && ch.after == c
    ensures ch.result.Ok? ==>
      ch.result.value == FindIn(c, r).value.(data := d) &&
      ch.after.names == c.names &&
      ch.after.data == c.data[ch.result.value.name := d]
  {
    match FindIn(c, r)
    case Err(e) => Change(Err(e), c)
    case Ok(el) => Change(Ok(el.(data := d)), Contents(c.names, c.data[el.name := d]))
  }

  /** `rename(ref, name)`: checks the reference, then the new name; rejects when
      the entry already has that name or the name is taken; otherwise takes the
      entry out and puts it back, under the new name, at the same position. */
  function RenameIn<T>(c: Contents<T>, r: Ref, name: string): (ch: Change<Record<T>, T>)
    requires c.Valid()
    ensures ch.after.Valid()
    ensures ch.result.Ok? <==>
      CheckRef(r).Ok? && CheckName(name).Pass? && FindIn(c, r).Ok? && FindIn(c, r).value.name != name && name !in c.data
    ensures ch.result.Err? ==> ch.after == c
    ensures ch.result.Err? && CheckRef(r).Ok? && CheckName(name).Pass? && FindIn(c, r).Ok? ==>
      ch.result.error == if FindIn(c, r).value.name == name then SelfRename else AlreadyExits(name)
    ensures ch.result.Ok? ==>
      var el := FindIn(c, r).value;
      ch.result.value == el.(name := name) &&
      ch.after.names == c.names[el.index := name] &&
      ch.after.data == (c.data - {el.name})[name := el.data]
  {
    if CheckRef(r).Err? then Change(Err(CheckRef(r).error), c)
    else if CheckName(name).Fail? then Change(Err(CheckName(name).error), c)
    else match FindIn(c, r)
      case Err(e) => Change(Err(e), c)
      case Ok(el) =>
        if el.name == name then Change(Err(SelfRename), c)
        else if name in c.data then Change(Err(AlreadyExits(name)), c)
        else
          var out := Unlink(c, el);
          var el' := el.(name := name);
          var d := Link(out, el');
          RelinkInPlace(c.names, el.index, name);
          Change(Ok(el'), d)
  }

  /** Taking the name at `i` out and putting another in at `i` replaces it. */
  lemma RelinkInPlace<X>(a: seq<X>, i: nat, x: X)
    requires i < |a|
    ensures SpliceInsert(SpliceRemove(a, i), i, x) == a[i := x]
  {
    var b := SpliceRemove(a, i);
    assert b[..i] == a[..i] && b[i..] == a[i + 1..];
  }

  /** In distinct names, `indexOf` finds each name at its position. */
  lemma IndexOfDistinct(a: seq<string>, i: nat)
    requires NoDuplicates(a) && i < |a|
    ensures IndexOf(a, a[i]) == i
  {
    var k := IndexOf(a, a[i]);
    assert a[k] == a[i];
  }

  lemma MapRenameBack<V>(m: map<string, V>, a: string, b: string)
    requires a in m && b !in m
    ensures (((m - {a})[b := m[a]]) - {b})[a := m[a]] == m
  {
    var m' := (((m - {a})[b := m[a]]) - {b})[a := m[a]];
    assert forall k :: k in m' <==> k in m;
    assert forall k :: k in m ==> m'[k] == m[k];
  }

  /** Renaming the entry called `name`, at position `i`, to `name'`. */
  lemma {:induction false} RenameByName<T>(c: Contents<T>, i: nat, name: string, name': string)
    requires c.Valid() && i < |c.names| && c.names[i] == name
    requires CheckName(name).Pass? && CheckName(name').Pass? && name' !in c.data
    ensures RenameIn(c, ByName(name), name') ==
      Change(Ok(Record(i, name', c.data[name])), Contents(c.names[i := name'], (c.data - {name})[name' := c.data[name]]))
  {
    IndexOfDistinct(c.names, i);
    CheckedNameIsName(name);
  }

  /** Renaming back undoes a rename (when the old name is one `chkName` accepts:
      `addMany` inserts names without that check). */
  lemma {:induction false} RenameBack<T>(c: Contents<T>, r: Ref, name: string)
    requires c.Valid() && RenameIn(c, r, name).result.Ok?
    requires CheckName(FindIn(c, r).value.name).Pass?
    ensures RenameIn(RenameIn(c, r, name).after, ByName(name), FindIn(c, r).value.name) == Change(Ok(FindIn(c, r).value), c)
  {
    var el := FindIn(c, r).value;
    var c1 := RenameIn(c, r, name).after;
    assert c1 == Contents(c.names[el.index := name], (c.data - {el.name})[name := el.data]);
    RenameByName(c1, el.index, name, el.name);
    UpdateBack(c.names, el.index, name);
    MapRenameBack(c.data, el.name, name);
  }

  lemma UpdateBack<X>(a: seq<X>, i: nat, x: X)
    requires i < |a|
    ensures a[i := x][i := a[i]] == a
  {
  }


  // ---------------------------------------------------------------------------
  // Moves
  // ---------------------------------------------------------------------------

  /** `splice(i, 1)` then `splice(i, 0, a[i])` gives the array back. */
  lemma InsertRemoved<X>(a: seq<X>, i: nat)
    requires i < |a|
    ensures SpliceInsert(SpliceRemove(a, i), i, a[i]) == a
  {
    var b := SpliceRemove(a, i);
    assert b[..i] == a[..i] && b[i..] == a[i + 1..];
    assert a == a[..i] + [a[i]] + a[i + 1..];
  }

  /** `splice(k, 0, x)` then `splice(k, 1)` at the position it used gives the array back. */
  lemma RemoveInserted<X>(b: seq<X>, k: int, x: X)
    ensures SpliceRemove(SpliceInsert(b, k, x), SpliceStart(k, |b|)) == b
    ensures SpliceInsert(b, k, x)[SpliceStart(k, |b|)] == x
  {
    var j := SpliceStart(k, |b|);
    var a := SpliceInsert(b, k, x);
    assert a[..j] == b[..j] && a[j + 1..] == b[j..];
    assert b == b[..j] + b[j..];
  }

  /** `d` is `c` with the entry `el` moved to position `k`: no payload changes,
      the names are the same multiset, `el` sits at `k`, and taking it out of
      either leaves the same order. */
  ghost predicate MovedTo<T>(c: Contents<T>, d: Contents<T>, el: Record<T>, k: int) {
    0 <= el.index < |c.names| && 0 <= k < |d.names| && |d.names| == |c.names| &&
    d.names[k] == el.name && d.data == c.data &&
    multiset(d.names) == multiset(c.names) &&
    SpliceRemove(d.names, k) == SpliceRemove(c.names, el.index)
  }

  /** `move(el, index)`: the name leaves its place and goes back in at `index`,
      a `splice` start in the shortened array (a negative one counts from its
      end, a large one stands for its end). */
  function MoveIn<T>(c: Contents<T>, el: Record<T>, index: int): (d: Contents<T>)
    requires c.Valid() && 0 <= el.index < |c.names| && c.names[el.index] == el.name
    ensures d.Valid()
    ensures MovedTo(c, d, el, SpliceStart(index, |c.names| - 1))
  {
    MoveInPlaces(c, el, index);
    Contents(SpliceInsert(Unlink(c, el).names, index, el.name), c.data)
  }

  lemma MoveInPlaces<T>(c: Contents<T>, el: Record<T>, index: int)
    requires c.Valid() && 0 <= el.index < |c.names| && c.names[el.index] == el.name
    ensures var d := Contents(SpliceInsert(Unlink(c, el).names, index, el.name), c.data);
      d.Valid() && MovedTo(c, d, el, SpliceStart(index, |c.names| - 1))
  {
    var out := Unlink(c, el);
    var d := Contents(SpliceInsert(out.names, index, el.name), c.data);
    InsertDistinct(out.names, SpliceStart(index, |out.names|), el.name);
    RemoveInserted(out.names, index, el.name);
    SpliceMultiset(c.names, el.index, SpliceStart(index, |out.names|), d.names);
  }

  lemma SpliceMultiset<X>(a: seq<X>, i: nat, k: nat, r: seq<X>)
    requires i < |a| && k < |r| && r[k] == a[i] && SpliceRemove(r, k) == SpliceRemove(a, i)
    ensures multiset(r) == multiset(a)
  {
    assert a == a[..i] + [a[i]] + a[i + 1..];
    assert r == r[..k] + [r[k]] + r[k + 1..];
    calc {
      multiset(r);
      multiset(r[..k]) + multiset([r[k]]) + multiset(r[k + 1..]);
      multiset(SpliceRemove(r, k)) + multiset([a[i]]);
      multiset(SpliceRemove(a, i)) + multiset([a[i]]);
      multiset(a[..i]) + multiset([a[i]]) + multiset(a[i + 1..]);
      multiset(a);
    }
  }

  /** Moving an entry to where it is changes nothing. */
  lemma MoveInPlace<T>(c: Contents<T>, el: Record<T>)
    requires c.Valid() && 0 <= el.index < |c.names| && c.names[el.index] == el.name
    ensures MoveIn(c, el, el.index) == c
  {
    InsertRemoved(c.names, el.index);
  }

  /** Moving an entry from `i` to `j`, then from `j` back to `i`, restores the order. */
  lemma MoveInBack<T>(c: Contents<T>, el: Record<T>, j: nat)
    requires c.Valid() && 0 <= el.index < |c.names| && c.names[el.index] == el.name && j < |c.names|
    ensures MoveIn(MoveIn(c, el, j), el.(index := j), el.index) == c
  {
    var d := MoveIn(c, el, j);
    assert SpliceRemove(d.names, j) == SpliceRemove(c.names, el.index);
    InsertRemoved(c.names, el.index);
  }

  /** `moveTo`'s target: below 0 becomes 0, from `length` up becomes `length - 1`. */
  function ClampIndex(to: int, len: nat): (t: int)
    ensures len > 0 ==> 0 <= t < len
    ensures 0 <= to < len ==> t == to
    ensures to < 0 && len > 0 ==> t == 0
    ensures to >= len ==> t == len - 1
  {
    var t := if to < 0 then 0 else to;
    if t >= len then len - 1 else t
  }

  /** `moveTo(ref, index)`: the resolved entry ends at the clamped target, which
      the record reports; the other names keep their order and no payload changes. */
  function MoveToIn<T>(c: Contents<T>, r: Ref, to: int): (ch: Change<Record<T>, T>)
    requires c.Valid()
    ensures ch.after.Valid()
    ensures ch.result.Ok? <==> FindIn(c, r).Ok?
    ensures ch.result.Err? ==> ch.result == FindIn(c, r) && ch.after == c
    ensures ch.result.Ok? ==>
      var t := ch.result.value.index;
      ch.result.value == FindIn(c, r).value.(index := t) &&
      (0 <= to < |c.names| ==> t == to) && (to < 0 ==> t == 0) && (to >= |c.names| ==> t == |c.names| - 1) &&
      MovedTo(c, ch.after, FindIn(c, r).value, t)
  {
    var t := ClampIndex(to, |c.names|);
    match FindIn(c, r)
    case Err(e) => Change(Err(e), c)
    case Ok(el) => Change(Ok(el.(index := t)), MoveIn(c, el, t))
  }

  /** `moveUp(ref, count = 1)`: the target is `index - count`, at least 0; the
      record reports that target, and the entry goes there (a negative count
      moves it down, as far as the end). */
  function MoveUpIn<T>(c: Contents<T>, r: Ref, count: int): (ch: Change<Record<T>, T>)
    requires c.Valid()
    ensures ch.after.Valid()
    ensures ch.result.Ok? <==> FindIn(c, r).Ok?
    ensures ch.result.Err? ==> ch.result == FindIn(c, r) && ch.after == c
  {
    match FindIn(c, r)
    case Err(e) => Change(Err(e), c)
    case Ok(el) =>
      var t := if el.index - count < 0 then 0 else el.index - count;
      Change(Ok(el.(index := t)), MoveIn(c, el, t))
  }

  lemma MoveUpInMoves<T>(c: Contents<T>, r: Ref, count: int)
    requires c.Valid() && FindIn(c, r).Ok?
    ensures var el, ch := FindIn(c, r).value, MoveUpIn(c, r, count);
      var t := ch.result.value.index;
      ch.result == Ok(el.(index := t)) &&
      t == (if el.index - count < 0 then 0 else el.index - count) &&
      (count >= 0 ==> SpliceStart(t, |c.names| - 1) == t) &&
      MovedTo(c, ch.after, el, SpliceStart(t, |c.names| - 1))
  {
  }

  /** A reference `get` reads as a position but keeps as text, a numeric
      string: `el.index` is then that string, so `el.index + count` joins text. */
  predicate IsTextIndex(r: Ref) {
    r.ByName? && CheckRef(r).Ok? && CheckRef(r).value.AtIndex?
  }

  /** `10` to the power `k`. */
  function Pow10(k: nat): (p: nat)
    ensures p >= 1
  {
    if k == 0 then 1 else 10 * Pow10(k - 1)
  }

  /** The decimal digit of `d`, as `'' + d` writes it. */
  lemma DigitChar(d: nat)
    requires d < 10
    ensures IsDecimalDigit("0123456789"[d]) && "0123456789"[d] as int - '0' as int == d
  {
    if d < 5 {
      if d == 0 {} else if d == 1 {} else if d == 2 {} else if d == 3 {} else {}
    } else {
      if d == 5 {} else if d == 6 {} else if d == 7 {} else if d == 8 {} else {}
    }
  }

  /** `'' + n` is a run of decimal digits that reads back as `n`. */
  lemma {:induction false} NatToStringDigits(n: nat)
    ensures |NatToString(n)| > 0
    ensures forall k :: 0 <= k < |NatToString(n)| ==> IsDecimalDigit(NatToString(n)[k])
    ensures DigitsValue(NatToString(n)) == n
    decreases n
  {
    var s := NatToString(n);
    if n < 10 {
      DigitChar(n);
      assert s[..|s| - 1] == [];
    } else {
      NatToStringDigits(n / 10);
      DigitChar(n % 10);
      assert s[..|s| - 1] == NatToString(n / 10);
    }
  }

  /** The digits of `a + b` spell `a` shifted left by the length of `b`, plus `b`. */
  lemma {:induction false} DigitsAppend(a: string, b: string)
    requires forall k :: 0 <= k < |a| ==> IsDecimalDigit(a[k])
    requires forall k :: 0 <= k < |b| ==> IsDecimalDigit(b[k])
    ensures forall k :: 0 <= k < |a + b| ==> IsDecimalDigit((a + b)[k])
    ensures DigitsValue(a + b) == DigitsValue(a) * Pow10(|b|) + DigitsValue(b)
    decreases |b|
  {
    if b == [] {
      assert a + b == a;
    } else {
      var ab, b' := a + b, b[..|b| - 1];
      assert ab[..|ab| - 1] == a + b' && ab[|ab| - 1] == b[|b| - 1];
      DigitsAppend(a, b');
      var d := b[|b| - 1] as int - '0' as int;
      assert DigitsValue(ab) == DigitsValue(a + b') * 10 + d;
      assert DigitsValue(b) == DigitsValue(b') * 10 + d;
      ShiftStep(DigitsValue(a), DigitsValue(b'), Pow10(|b'|), d);
    }
  }

  lemma ShiftStep(x: int, y: int, p: int, d: int)
    ensures (x * p + y) * 10 + d == x * (10 * p) + (y * 10 + d)
  {
  }

  lemma MulAtLeast(x: nat, p: nat)
    requires p >= 1
    ensures x * p >= x
  {
  }

  /** `i + c` when `i` is the text of a position and `c` a number that is not
      negative: `+` joins `'' + i` and `'' + c`, and the comparison with
      `length` and `splice` read the joined text as the number it spells. */
  function JoinedValue(i: nat, c: nat): (v: nat)
    ensures v == i * Pow10(|NatToString(c)|) + c
    ensures v >= i + c
  {
    NatToStringDigits(i);
    NatToStringDigits(c);
    DigitsAppend(NatToString(i), NatToString(c));
    MulAtLeast(i, Pow10(|NatToString(c)|));
    DigitsValue(NatToString(i) + NatToString(c))
  }

  /** The target of `moveDown`: `el.index + count`, at most `length - 1`.
      For a position reference `el.index` is the reference itself, so after a
      numeric string it is text, and `+` joins: `'1' + 1` is `'11'`.  With a negative count the
      joined text (`'1-1'`) is no number: it is not `>= length`, and `splice`
      reads it as 0. */
  function DownTarget(index: nat, text: bool, count: int, len: nat): (t: int)
    ensures len > 0 && (count >= 0 || text) ==> t < len
    ensures index < len && count >= 0 ==> t >= index
    ensures !text && count >= 0 && index + count < len ==> t == index + count
    ensures text && count >= 0 ==> t >= DownTarget(index, false, count, len)
  {
    if text && count < 0 then 0
    else
      var sum := if text then JoinedValue(index, count) else index + count;
      if sum >= len then len - 1 else sum
  }

  /** `moveDown(ref, count = 1)`: the target is `index + count` (joined as
      text after a numeric string reference, see `IsTextIndex`), at most
      `length - 1`; the record
      reports that target, and the entry goes there (a negative count leads to
      a negative `splice` start, counted from the end). */
  function MoveDownIn<T>(c: Contents<T>, r: Ref, count: int): (ch: Change<Record<T>, T>)
    requires c.Valid()
    ensures ch.after.Valid()
    ensures ch.result.Ok? <==> FindIn(c, r).Ok?
    ensures ch.result.Err? ==> ch.result == FindIn(c, r) && ch.after == c
  {
    match FindIn(c, r)
    case Err(e) => Change(Err(e), c)
    case Ok(el) =>
      var t := DownTarget(el.index, IsTextIndex(r), count, |c.names|);
      Change(Ok(el.(index := t)), MoveIn(c, el, t))
  }

  lemma MoveDownInMoves<T>(c: Contents<T>, r: Ref, count: int)
    requires c.Valid() && FindIn(c, r).Ok?
    ensures var el, ch := FindIn(c, r).value, MoveDownIn(c, r, count);
      var t := ch.result.value.index;
      ch.result == Ok(el.(index := t)) &&
      t == (if IsTextIndex(r) && count < 0 then 0
            else
              var sum := if IsTextIndex(r) then el.index * Pow10(|NatToString(count)|) + count else el.index + count;
              if sum >= |c.names| then |c.names| - 1 else sum) &&
      (count >= 0 ==> SpliceStart(t, |c.names| - 1) == t) &&
      MovedTo(c, ch.after, el, SpliceStart(t, |c.names| - 1))
  {
  }

  /** `moveDown('1')` and `moveDown(1)` on `[a, b, c, d]`: the text sends `b`
      to the end, since `'1' + 1` is `'11'`; the number moves it one place. */
  lemma MoveDownTextRef<T>(x: T)
    ensures var c := Contents(["a", "b", "c", "d"], map["a" := x, "b" := x, "c" := x, "d" := x]);
      var text, number := MoveDownIn(c, ByName("1"), 1), MoveDownIn(c, ByIndex(1), 1);
      text.result == Ok(Record(3, "b", x)) && text.after.names[3] == "b" &&
      number.result == Ok(Record(2, "b", x)) && number.after.names[2] == "b"
  {
    var c := Contents(["a", "b", "c", "d"], map["a" := x, "b" := x, "c" := x, "d" := x]);
    var el := Record(1, "b", x);
    assert c.Valid();
    assert c.names[1] == "b" && "b" in c.data && c.data["b"] == x;
    assert FindIn(c, ByIndex(1)) == Ok(el);
    TextOneIsPosition();
    FindTextAsIndex(c, "1", 1);
    assert DownTarget(1, true, 1, 4) == 3 by {
      JoinedOneOne();
    }
    MoveDownInFound(c, ByName("1"), 1, el, 3);
    MoveDownInFound(c, ByIndex(1), 1, el, 2);
  }

  /** A text reference that `chkRef` reads as a position finds what that
      position finds. */
  lemma FindTextAsIndex<T>(c: Contents<T>, s: string, i: int)
    requires c.Valid() && CheckRef(ByName(s)) == Ok(AtIndex(i))
    ensures FindIn(c, ByName(s)) == FindIn(c, ByIndex(i))
  {
  }

  /** `chkRef('1')` takes the text for position 1. */
  lemma TextOneIsPosition()
    ensures CheckRef(ByName("1")) == Ok(AtIndex(1))
  {
    assert Trim("1") == "1";
    assert DigitsEnd("1", 0) == 1;
    assert IsDecimalLiteral("1");
    assert IsPositiveNumeral("1");
    assert DigitsValue("1") == DigitsValue("") * 10 + 1;
  }

  /** `'1' + 1` spells 11. */
  lemma JoinedOneOne()
    ensures JoinedValue(1, 1) == 11
  {
    assert NatToString(1) == "1";
    assert Pow10(1) == 10;
  }

  /** `moveUp` on the first entry leaves the order as it is. */
  lemma MoveUpFirst<T>(c: Contents<T>, r: Ref, count: nat)
    requires c.Valid() && FindIn(c, r).Ok? && FindIn(c, r).value.index == 0
    ensures MoveUpIn(c, r, count).after == c
  {
    var el := FindIn(c, r).value;
    MoveUpInFound(c, r, count, el, 0);
    MoveInPlace(c, el);
  }

  /** `moveDown` on the last entry leaves the order as it is. */
  lemma MoveDownLast<T>(c: Contents<T>, r: Ref, count: nat)
    requires c.Valid() && FindIn(c, r).Ok? && FindIn(c, r).value.index == |c.names| - 1
    ensures MoveDownIn(c, r, count).after == c
  {
    var el := FindIn(c, r).value;
    MoveDownInFound(c, r, count, el, |c.names| - 1);
    MoveInPlace(c, el);
  }

  /** Moving an entry back, by its name, to the position it came from undoes
      `moveTo`. */
  lemma MoveToBack<T>(c: Contents<T>, r: Ref, to: int)
    requires c.Valid() && MoveToIn(c, r, to).result.Ok?
    requires CheckName(FindIn(c, r).value.name).Pass?
    ensures MoveToIn(MoveToIn(c, r, to).after, ByName(FindIn(c, r).value.name), FindIn(c, r).value.index).after == c
  {
    var el := FindIn(c, r).value;
    var ch := MoveToIn(c, r, to);
    var t := ch.result.value.index;
    CheckedNameIsName(el.name);
    IndexOfDistinct(ch.after.names, t);
    assert FindIn(ch.after, ByName(el.name)) == Ok(el.(index := t));
    MoveInBack(c, el, t);
  }

  // ---------------------------------------------------------------------------
  // addMany and the export
  // ---------------------------------------------------------------------------

  /** The loop of `addMany`: for each `(name, data)` in turn, reject if the name
      exists, otherwise insert it at `index` and go on one position further. */
  function InsertEach<T>(c: Contents<T>, many: seq<(string, T)>, index: nat): (ch: Change<(), T>)
    requires c.Valid() && index <= |c.names|
    ensures ch.after.Valid()
    decreases |many|
  {
    if many == [] then Change(Ok(()), c)
    else if many[0].0 in c.data then Change(Err(AlreadyExists(many[0].0)), c)
    else InsertEach(Link(c, Record(index, many[0].0, many[0].1)), many[1..], index + 1)
  }

  /** `addMany(many, index = length)`: rejects an index outside `[0, length]`
      and changes nothing; otherwise runs the loop, which may stop part-way. */
  function AddManyTo<T>(c: Contents<T>, many: seq<(string, T)>, at: Option<int>): (ch: Change<(), T>)
    requires c.Valid()
    ensures ch.after.Valid()
    ensures var index := if at.Some? then at.value else |c.names|;
      (index < 0 || index > |c.names| ==> ch == Change(Err(IndexOutOfRange(index)), c)) &&
      (0 <= index <= |c.names| ==> ch == InsertEach(c, many, index))
  {
    var index := if at.Some? then at.value else |c.names|;
    if index < 0 || index > |c.names| then Change(Err(IndexOutOfRange(index)), c)
    else InsertEach(c, many, index)
  }

  /** None of the names is in the collection, and none repeats. */
  predicate Fresh<T>(c: Contents<T>, many: seq<(string, T)>) {
    DistinctKeys(many) && forall i :: 0 <= i < |many| ==> many[i].0 !in c.data
  }

  lemma FreshTail<T>(c: Contents<T>, many: seq<(string, T)>, index: nat)
    requires c.Valid() && index <= |c.names| && many != [] && many[0].0 !in c.data
    ensures Fresh(c, many) <==> Fresh(Link(c, Record(index, many[0].0, many[0].1)), many[1..])
  {
    var c1 := Link(c, Record(index, many[0].0, many[0].1));
    assert Keys(many) == [many[0].0] + Keys(many[1..]);
    assert forall i :: 0 <= i < |many[1..]| ==> many[1..][i] == many[i + 1];
    if Fresh(c1, many[1..]) {
      forall i, j | 0 <= i < j < |many| ensures Keys(many)[i] != Keys(many)[j] {
        if i > 0 {
          assert Keys(many[1..])[i - 1] != Keys(many[1..])[j - 1];
        } else {
          assert many[j].0 == many[1..][j - 1].0;
        }
      }
    }
    if Fresh(c, many) {
      forall i | 0 <= i < |many[1..]| ensures many[1..][i].0 !in c1.data {
        assert Keys(many)[0] != Keys(many)[i + 1];
      }
    }
  }

  /** The loop completes exactly when the names are fresh. */
  lemma {:induction false} InsertEachOk<T>(c: Contents<T>, many: seq<(string, T)>, index: nat)
    requires c.Valid() && index <= |c.names|
    ensures InsertEach(c, many, index).result.Ok? <==> Fresh(c, many)
    decreases |many|
  {
    if many != [] && many[0].0 !in c.data {
      FreshTail(c, many, index);
      InsertEachOk(Link(c, Record(index, many[0].0, many[0].1)), many[1..], index + 1);
    }
  }

  /** One round of the loop, on a name that is not there yet. */
  lemma InsertEachStep<T>(c: Contents<T>, many: seq<(string, T)>, index: nat)
    requires c.Valid() && index <= |c.names| && many != [] && many[0].0 !in c.data
    ensures var c1 := Link(c, Record(index, many[0].0, many[0].1));
      c1.names == c.names[..index] + [many[0].0] + c.names[index..] &&
      c1.data == c.data[many[0].0 := many[0].1] &&
      InsertEach(c, many, index) == InsertEach(c1, many[1..], index + 1)
  {
  }

  lemma TakeTail<X>(a: seq<X>, j: nat)
    requires 0 < j <= |a|
    ensures a[..j][0] == a[0] && a[..j][1..] == a[1..][..j - 1]
  {
  }

  /** Every payload the loop leaves was there before or came from `many`, so a
      property that all of those have survives it. */
  lemma {:induction false} InsertEachKeeps<T>(c: Contents<T>, many: seq<(string, T)>, index: nat, P: T -> bool)
    requires c.Valid() && index <= |c.names|
    requires forall n :: n in c.data ==> P(c.data[n])
    requires forall i :: 0 <= i < |many| ==> P(many[i].1)
    ensures forall n :: n in InsertEach(c, many, index).after.data ==> P(InsertEach(c, many, index).after.data[n])
    decreases |many|
  {
    if many != [] && many[0].0 !in c.data {
      InsertEachStep(c, many, index);
      var c1 := Link(c, Record(index, many[0].0, many[0].1));
      TailElements(many);
      InsertEachKeeps(c1, many[1..], index + 1, P);
    }
  }

  /** When the loop completes, the entries have gone in, in order, at
      consecutive positions from `index`. */
  lemma {:induction false} InsertEachNames<T>(c: Contents<T>, many: seq<(string, T)>, index: nat)
    requires c.Valid() && index <= |c.names| && InsertEach(c, many, index).result.Ok?
    ensures InsertEach(c, many, index).after.names == c.names[..index] + Keys(many) + c.names[index..]
    decreases |many|
  {
    if many != [] {
      var c1 := Link(c, Record(index, many[0].0, many[0].1));
      InsertEachStep(c, many, index);
      InsertEachNames(c1, many[1..], index + 1);
      InsertedThenAppended(c.names, index, many[0].0, Keys(many[1..]), InsertEach(c, many, index).after.names);
      assert Keys(many) == [many[0].0] + Keys(many[1..]);
    }
  }

  lemma InsertedThenAppended(s: seq<string>, index: nat, x: string, k: seq<string>, d: seq<string>)
    requires index <= |s|
    requires d == (s[..index] + [x] + s[index..])[..index + 1] + k + (s[..index] + [x] + s[index..])[index + 1..]
    ensures d == s[..index] + ([x] + k) + s[index..]
  {
    var t := s[..index] + [x] + s[index..];
    assert t[..index + 1] == s[..index] + [x];
    assert t[index + 1..] == s[index..];
  }

  /** When the loop completes, every entry has gone in with its payload and the
      existing payloads stay. */
  lemma {:induction false} InsertEachData<T>(c: Contents<T>, many: seq<(string, T)>, index: nat)
    requires c.Valid() && index <= |c.names| && InsertEach(c, many, index).result.Ok?
    ensures forall n :: n in c.data ==> n in InsertEach(c, many, index).after.data && InsertEach(c, many, index).after.data[n] == c.data[n]
    ensures forall i :: 0 <= i < |many| ==> many[i].0 in InsertEach(c, many, index).after.data && InsertEach(c, many, index).after.data[many[i].0] == many[i].1
    decreases |many|
  {
    if many != [] {
      assert many[0].0 !in c.data;
      var c1 := Link(c, Record(index, many[0].0, many[0].1));
      InsertEachStep(c, many, index);
      InsertEachData(c1, many[1..], index + 1);
      var d := InsertEach(c1, many[1..], index + 1).after;
      assert c1.data == c.data[many[0].0 := many[0].1];
      TailElements(many);
    }
  }


  /** At the first name that exists or repeats an earlier one, the loop rejects
      with that name, leaving the earlier entries inserted. */
  lemma {:induction false} InsertEachStops<T>(c: Contents<T>, many: seq<(string, T)>, index: nat, j: nat)
    requires c.Valid() && index <= |c.names| && j < |many| && Fresh(c, many[..j])
    requires many[j].0 in c.data || HasKey(many[..j], many[j].0)
    ensures InsertEach(c, many, index) == Change(Err(AlreadyExists(many[j].0)), InsertEach(c, many[..j], index).after)
    decreases j
  {
    if j > 0 {
      StopsStep(c, many, index, j);
      var c1, rest := Link(c, Record(index, many[0].0, many[0].1)), many[1..];
      assert c1.Valid() && index + 1 <= |c1.names|;
      assert Fresh(c1, rest[..j - 1]) && (rest[j - 1].0 in c1.data || HasKey(rest[..j - 1], rest[j - 1].0));
      InsertEachStops(c1, rest, index + 1, j - 1);
      assert InsertEach(c, many, index) == InsertEach(c1, rest, index + 1);
      assert InsertEach(c, many[..j], index).after == InsertEach(c1, rest[..j - 1], index + 1).after;
    } else {
      assert many[..j] == [];
    }
  }

  /** One round of the loop before the clash, with the clash one place nearer. */
  lemma StopsStep<T>(c: Contents<T>, many: seq<(string, T)>, index: nat, j: nat)
    requires c.Valid() && index <= |c.names| && 0 < j < |many| && Fresh(c, many[..j])
    requires many[j].0 in c.data || HasKey(many[..j], many[j].0)
    ensures many[0].0 !in c.data
    ensures var c1, rest := Link(c, Record(index, many[0].0, many[0].1)), many[1..];
      Fresh(c1, rest[..j - 1]) && (rest[j - 1].0 in c1.data || HasKey(rest[..j - 1], rest[j - 1].0)) &&
      InsertEach(c, many, index) == InsertEach(c1, rest, index + 1) &&
      InsertEach(c, many[..j], index).after == InsertEach(c1, rest[..j - 1], index + 1).after &&
      rest[j - 1] == many[j]
  {
    var pre, rest := many[..j], many[1..];
    TakeTail(many, j);
    InsertEachStep(c, many, index);
    InsertEachStep(c, pre, index);
    FreshTail(c, pre, index);
    assert Keys(pre) == [many[0].0] + Keys(rest[..j - 1]);
  }

  /** The entries of a collection, in `Names` order, as `data` (and `toJSON`)
      list them before the JSON copy. */
  function Ordered<T>(c: Contents<T>): (ps: seq<(string, T)>)
    requires c.Valid()
    ensures Keys(ps) == c.names
    ensures forall i :: 0 <= i < |ps| ==> ps[i].1 == c.data[c.names[i]]
  {
    var ps := Entries(c.names, c.data);
    SamePointwise(Keys(ps), c.names);
    ps
  }

  /** The entries of `names`, in that order, each with its payload. */
  function Entries<T>(names: seq<string>, data: map<string, T>): (ps: seq<(string, T)>)
    requires forall i :: 0 <= i < |names| ==> names[i] in data
    ensures |ps| == |names| && forall i :: 0 <= i < |names| ==> ps[i] == (names[i], data[names[i]])
  {
    if names == [] then [] else [(names[0], data[names[0]])] + Entries(names[1..], data)
  }

  /** Looking a name up in the export gives its payload. */
  lemma OrderedLookup<T>(c: Contents<T>, n: string)
    requires c.Valid()
    ensures Lookup(Ordered(c), n) == if n in c.data then Some(c.data[n]) else None
  {
    if n in c.data {
      LookupDistinct(Ordered(c), IndexOf(c.names, n));
    }
  }

  /** Rebuilding a collection from its export with `addMany` gives it back: the
      same names in the same order, with the same payloads. */
  lemma OrderedRoundTrip<T>(c: Contents<T>)
    requires c.Valid()
    ensures AddManyTo(Contents([], map[]), Ordered(c), None).result.Ok?
    ensures AddManyTo(Contents([], map[]), Ordered(c), None).after == c
  {
    var e: Contents<T> := Contents([], map[]);
    var ps := Ordered(c);
    assert Fresh(e, ps);
    InsertEachOk(e, ps, 0);
    InsertEachNames(e, ps, 0);
    InsertEachData(e, ps, 0);
    var d := InsertEach(e, ps, 0).after;
    assert e.names[..0] == [] && e.names[0..] == [];
    ConcatEmpty(Keys(ps));
    assert d.Valid();
    assert forall i :: 0 <= i < |ps| ==> ps[i].0 in d.data && d.data[ps[i].0] == ps[i].1;
    OrderedEntries(c, d);
  }

  lemma ConcatEmpty<X>(s: seq<X>)
    ensures [] + s + [] == s
  {
  }

  /** Valid contents holding the entries of `Ordered(c)` under the same names
      are `c`. */
  lemma OrderedEntries<T>(c: Contents<T>, d: Contents<T>)
    requires c.Valid() && d.Valid() && d.names == c.names
    requires forall i :: 0 <= i < |Ordered(c)| ==> Ordered(c)[i].0 in d.data && d.data[Ordered(c)[i].0] == Ordered(c)[i].1
    ensures d == c
  {
    var ps := Ordered(c);
    assert d.data.Keys == c.data.Keys;
    forall n | n in c.data ensures d.data[n] == c.data[n] {
      assert ps[IndexOf(c.names, n)].0 == n;
    }
  }

  /** A collection holds as many payloads as names (`length`). */
  lemma LengthIsSize<T>(c: Contents<T>)
    requires c.Valid()
    ensures |c.data| == |c.names|
  {
    assert c.data.Keys == set n | n in c.names;
    DistinctSize(c.names);
  }

  lemma {:induction false} DistinctSize(s: seq<string>)
    requires NoDuplicates(s)
    ensures |set n | n in s| == |s|
  {
    if s != [] {
      assert NoDuplicates(s[1..]) by {
        forall i, j | 0 <= i < j < |s[1..]| ensures s[1..][i] != s[1..][j] {
          assert s[i + 1] != s[j + 1];
        }
      }
      DistinctSize(s[1..]);
      assert (set n | n in s) == {s[0]} + (set n | n in s[1..]);
      assert s[0] !in s[1..];
    }
  }

  // ---------------------------------------------------------------------------
  // Operations against each other
  // ---------------------------------------------------------------------------

  /** After `add`, `get` by the new name and by the index it resolved with both
      give the new record. */
  lemma AddThenGet<T>(c: Contents<T>, name: string, d: T, at: Option<int>)
    requires c.Valid() && AddTo(c, name, d, at).result.Ok?
    ensures FindIn(AddTo(c, name, d, at).after, ByName(name)) == AddTo(c, name, d, at).result
    ensures FindIn(AddTo(c, name, d, at).after, ByIndex(AddTo(c, name, d, at).result.value.index)) == AddTo(c, name, d, at).result
  {
    var ch := AddTo(c, name, d, at);
    var i := ch.result.value.index;
    assert ch.after.names[i] == name;
    IndexOfDistinct(ch.after.names, i);
    CheckedNameIsName(name);
  }

  /** `remove` by name undoes `add`, and resolves with the record `add` resolved with. */
  lemma AddThenRemove<T>(c: Contents<T>, name: string, d: T, at: Option<int>)
    requires c.Valid() && AddTo(c, name, d, at).result.Ok?
    ensures RemoveFrom(AddTo(c, name, d, at).after, ByName(name)) == Change(AddTo(c, name, d, at).result, c)
  {
    var ch := AddTo(c, name, d, at);
    var i := ch.result.value.index;
    AddThenGet(c, name, d, at);
    RemoveInserted(c.names, i, name);
    assert ch.after.data - {name} == c.data;
  }

  /** Putting a removed entry back where it was, under its name, restores the
      collection. */
  lemma RemoveThenAdd<T>(c: Contents<T>, r: Ref)
    requires c.Valid() && RemoveFrom(c, r).result.Ok?
    requires CheckName(RemoveFrom(c, r).result.value.name).Pass?
    ensures var el := RemoveFrom(c, r).result.value;
      AddTo(RemoveFrom(c, r).after, el.name, el.data, Some(el.index)) == Change(Ok(el), c)
  {
    var el := RemoveFrom(c, r).result.value;
    InsertRemoved(c.names, el.index);
    assert (c.data - {el.name})[el.name := el.data] == c.data;
  }

  /** After `update`, `get` by the same reference sees the new payload. */
  lemma UpdateThenGet<T>(c: Contents<T>, r: Ref, d: T)
    requires c.Valid() && UpdateIn(c, r, d).result.Ok?
    ensures FindIn(UpdateIn(c, r, d).after, r) == UpdateIn(c, r, d).result
  {
  }

  // ---------------------------------------------------------------------------
  // The object
  // ---------------------------------------------------------------------------

  /** One round of the loop of `data`: the next name is new to the object
      built so far, so assigning it appends the next entry. */
  lemma OrderedStep<T>(c: Contents<T>, i: nat)
    requires c.Valid() && i < |c.names|
    ensures Assign(Ordered(c)[..i], c.names[i], c.data[c.names[i]]) == Ordered(c)[..i + 1]
  {
    var ps := Ordered(c);
    KeysPrefix(ps, i);
    FreshAtIndex(c.names, i);
    AssignNewKey(ps[..i], c.names[i], c.data[c.names[i]]);
    TakeOneMore(ps, i);
  }

  lemma KeysPrefix<V>(ps: seq<(string, V)>, i: nat)
    requires i <= |ps|
    ensures Keys(ps[..i]) == Keys(ps)[..i]
  {
  }

  lemma FreshAtIndex(a: seq<string>, i: nat)
    requires NoDuplicates(a) && i < |a|
    ensures a[i] !in a[..i]
  {
  }

  lemma TakeOneMore<X>(a: seq<X>, i: nat)
    requires i < |a|
    ensures a[..i + 1] == a[..i] + [a[i]]
  {
  }

  /** What `moveUp` does on an entry `get` has found. */
  lemma MoveUpInFound<T>(c: Contents<T>, r: Ref, count: int, el: Record<T>, index: int)
    requires c.Valid() && FindIn(c, r) == Ok(el)
    requires index == if el.index - count < 0 then 0 else el.index - count
    ensures MoveUpIn(c, r, count) == Change(Ok(el.(index := index)), MoveIn(c, el, index))
  {
    var t := if el.index - count < 0 then 0 else el.index - count;
    assert t == index;
  }

  /** What `moveDown` does on an entry `get` has found. */
  lemma MoveDownInFound<T>(c: Contents<T>, r: Ref, count: int, el: Record<T>, index: int)
    requires c.Valid() && FindIn(c, r) == Ok(el)
    requires index == DownTarget(el.index, IsTextIndex(r), count, |c.names|)
    ensures MoveDownIn(c, r, count) == Change(Ok(el.(index := index)), MoveIn(c, el, index))
  {
  }

  /** What `rename` does on an entry `get` has found, with a new name that is free. */
  lemma RenameInFound<T>(c: Contents<T>, r: Ref, name: string, el: Record<T>)
    requires c.Valid() && FindIn(c, r) == Ok(el) && CheckName(name).Pass? && el.name != name && name !in c.data
    ensures RenameIn(c, r, name) == Change(Ok(el.(name := name)), Link(Unlink(c, el), el.(name := name)))
  {
  }

  /** A `Collection`: `Names` and `Data`, private to the object and changed in
      place by its methods. */
  class Collection<T> {
    var names: seq<string>
    var data: map<string, T>

    function Value(): Contents<T>
      reads this
    {
      Contents(names, data)
    }

    predicate Valid()
      reads this
    {
      Value().Valid()
    }

    /** `new Collection()`, and `Collection()` without `new`: no entries. */
    constructor ()
      ensures Valid() && names == [] && data == map[]
    {
      names := [];
      data := map[];
    }

    /** `length`: the number of names, which is the number of payloads. */
    function Length(): (n: nat)
      reads this
      requires Valid()
      ensures n == |names| && n == |data|
    {
      LengthIsSize(Value());
      |names|
    }

    /** `names`: a copy of `Names`, each name once, exactly the names with a payload. */
    function Names(): (ns: seq<string>)
      reads this
      requires Valid()
      ensures NoDuplicates(ns) && |ns| == |data|
      ensures forall n :: n in ns <==> n in data
    {
      LengthIsSize(Value());
      names
    }

    /** `data` (and `toJSON`): a fresh object filled in `Names` order. */
    method GetData() returns (ps: seq<(string, T)>)
      requires Valid()
      ensures ps == Ordered(Value())
    {
      ps := [];
      var i := 0;
      while i < |names|
        invariant 0 <= i <= |names|
        invariant ps == Ordered(Value())[..i]
      {
        OrderedStep(Value(), i);
        ps := Assign(ps, names[i], data[names[i]]);
        i := i + 1;
      }
    }

    /** `get(ref)` */
    method Get(r: Ref) returns (res: Result<Record<T>>)
      requires Valid()
      ensures res == FindIn(Value(), r)
    {
      var k := CheckRef(r);
      if k.Err? {
        return Err(k.error);
      }
      match k.value
      case Named(n) =>
        if n !in data {
          res := Err(NotFound(n));
        } else {
          res := Ok(Record(IndexOf(names, n), n, data[n]));
        }
      case AtIndex(i) =>
        if i < 0 || i >= |names| {
          res := Err(IndexOutOfRange(i));
        } else {
          res := Ok(Record(i, names[i], data[names[i]]));
        }
    }

    /** `remove(ref)` */
    method Remove(r: Ref) returns (res: Result<Record<T>>)
      requires Valid()
      modifies this
      ensures Valid()
      ensures res == RemoveFrom(old(Value()), r).result && Value() == RemoveFrom(old(Value()), r).after
    {
      ghost var c := Value();
      res := Get(r);
      if res.Ok? {
        var el := res.value;
        names := names[..el.index] + names[el.index + 1..];
        data := data - {el.name};
        assert Value() == Unlink(c, el);
      }
    }

    /** `add(name, data, index = length)`; `None` stands for an omitted index. */
    method Add(name: string, d: T, at: Option<int>) returns (res: Result<Record<T>>)
      requires Valid()
      modifies this
      ensures Valid()
      ensures res == AddTo(old(Value()), name, d, at).result && Value() == AddTo(old(Value()), name, d, at).after
    {
      var index := if at.Some? then at.value else |names|;
      var check := CheckName(name);
      if check.Fail? {
        return Err(check.error);
      }
      if name in data {
        return Err(AlreadyExists(name));
      }
      if index < 0 || index > |names| {
        return Err(IndexOutOfRange(index));
      }
      names := names[..index] + [name] + names[index..];
      data := data[name := d];
      res := Ok(Record(index, name, d));
    }

    /** `addMany(many, index = length)`: inserts `many` in order from `index`,
        stopping at the first name that exists, with the earlier ones inserted. */
    method AddMany(many: seq<(string, T)>, at: Option<int>) returns (res: Result<()>)
      requires Valid()
      modifies this
      ensures Valid()
      ensures res == AddManyTo(old(Value()), many, at).result && Value() == AddManyTo(old(Value()), many, at).after
    {
      var index := if at.Some? then at.value else |names|;
      if index < 0 || index > |names| {
        return Err(IndexOutOfRange(index));
      }
      ghost var start := index;
      var i := 0;
      while i < |many|
        invariant 0 <= i <= |many| && Valid() && 0 <= index <= |names|
        invariant InsertEach(Value(), many[i..], index) == InsertEach(old(Value()), many, start)
      {
        var (name, d) := many[i];
        assert many[i..][0] == many[i] && many[i..][1..] == many[i + 1..];
        if name in data {
          return Err(AlreadyExists(name));
        }
        names := names[..index] + [name] + names[index..];
        data := data[name := d];
        index := index + 1;
        i := i + 1;
      }
      res := Ok(());
    }

    /** `update(ref, data)` */
    method Update(r: Ref, d: T) returns (res: Result<Record<T>>)
      requires Valid()
      modifies this
      ensures Valid()
      ensures res == UpdateIn(old(Value()), r, d).result && Value() == UpdateIn(old(Value()), r, d).after
    {
      res := Get(r);
      if res.Ok? {
        var el := res.value.(data := d);
        data := data[el.name := d];
        res := Ok(el);
      }
    }

    /** `rename(ref, name)`: the entry is taken out and put back under the new
        name at its position. */
    method Rename(r: Ref, name: string) returns (res: Result<Record<T>>)
      requires Valid()
      modifies this
      ensures Valid()
      ensures res == RenameIn(old(Value()), r, name).result && Value() == RenameIn(old(Value()), r, name).after
    {
      var k := CheckRef(r);
      if k.Err? {
        return Err(k.error);
      }
      var check := CheckName(name);
      if check.Fail? {
        return Err(check.error);
      }
      res := Get(r);
      if res.Err? {
        return;
      }
      var el := res.value;
      if el.name == name {
        return Err(SelfRename);
      }
      if name in data {
        return Err(AlreadyExits(name));
      }
      ghost var c := Value();
      names := names[..el.index] + names[el.index + 1..];
      data := data - {el.name};
      assert Value() == Unlink(c, el);
      el := el.(name := name);
      names := names[..el.index] + [el.name] + names[el.index..];
      data := data[el.name := el.data];
      assert Value() == Link(Unlink(c, res.value), el);
      RenameInFound(c, r, name, res.value);
      res := Ok(el);
    }

    /** `move(el, index)` on a record `get` resolved with: returns the record
        with its new `index`. */
    method Move(el: Record<T>, index: int) returns (moved: Record<T>)
      requires Valid() && 0 <= el.index < |names| && names[el.index] == el.name
      modifies this
      ensures Valid()
      ensures moved == el.(index := index) && Value() == MoveIn(old(Value()), el, index)
    {
      ghost var c := Value();
      names := SpliceRemove(names, el.index);
      moved := el.(index := index);
      names := SpliceInsert(names, moved.index, moved.name);
      assert Value() == MoveIn(c, el, index);
    }

    /** `moveTo(ref, index)` */
    method MoveTo(r: Ref, to: int) returns (res: Result<Record<T>>)
      requires Valid()
      modifies this
      ensures Valid()
      ensures res == MoveToIn(old(Value()), r, to).result && Value() == MoveToIn(old(Value()), r, to).after
    {
      var index := to;
      if index < 0 {
        index := 0;
      }
      if index >= |names| {
        index := |names| - 1;
      }
      res := Get(r);
      if res.Ok? {
        var el := Move(res.value, index);
        res := Ok(el);
      }
    }

    /** `moveUp(ref, count = 1)` */
    method MoveUp(r: Ref, count: int) returns (res: Result<Record<T>>)
      requires Valid()
      modifies this
      ensures Valid()
      ensures res == MoveUpIn(old(Value()), r, count).result && Value() == MoveUpIn(old(Value()), r, count).after
    {
      ghost var c := Value();
      res := Get(r);
      if res.Ok? {
        var index := res.value.index - count;
        if index < 0 {
          index := 0;
        }
        MoveUpInFound(c, r, count, res.value, index);
        var el := Move(res.value, index);
        res := Ok(el);
      }
    }

    /** `moveDown(ref, count = 1)` */
    method MoveDown(r: Ref, count: int) returns (res: Result<Record<T>>)
      requires Valid()
      modifies this
      ensures Valid()
      ensures res == MoveDownIn(old(Value()), r, count).result && Value() == MoveDownIn(old(Value()), r, count).after
    {
      ghost var c := Value();
      res := Get(r);
      if res.Ok? {
        var index;
        if IsTextIndex(r) && count < 0 {
          index := 0;
        } else {
          index := if IsTextIndex(r) then JoinedValue(res.value.index, count) else res.value.index + count;
          if index >= |names| {
            index := |names| - 1;
          }
        }
        MoveDownInFound(c, r, count, res.value, index);
        var el := Move(res.value, index);
        res := Ok(el);
      }
    }
  }
}
