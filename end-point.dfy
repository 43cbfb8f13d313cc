/** lib/end-point.js: one end of a transfer, `usr@host:path`.  The three fields
    sit behind setters that pass every value through `chkStr`, so they always
    hold strings. */
module EndPoints {
  import opened Js
  import opened CheckString
  import opened CheckStringArray

  /** The fields of an endpoint, as `export()` returns them. */
  datatype EndPointValue = EndPointValue(host: string, usr: string, path: string)

  /** What `new EndPoint(tpl)` holds, or what it throws: with `tpl || {}`, it
      assigns `host`, then `usr`, then `path`, and the first setter to throw
      ends construction. */
  function EndPointOf(tpl: JsValue): (r: Result<EndPointValue>)
    ensures !Truthy(tpl) ==> r == Ok(EndPointValue("", "", ""))
    ensures r.Err? ==>
      r.error.ValidationError? && r.error.message in {StrMessage("host", ""), StrMessage("usr", ""), StrMessage("path", "")}
  {
    var t := Or(tpl, Obj([]));
    var host :- ChkStr(Prop(t, "host"), "host", "");
    var usr :- ChkStr(Prop(t, "usr"), "usr", "");
    var path :- ChkStr(Prop(t, "path"), "path", "");
    Ok(EndPointValue(host, usr, path))
  }

  /** `export()` and `toJSON()`: a plain object with exactly `host`, `usr`, `path`. */
  function EndPointToJs(e: EndPointValue): (v: JsValue)
    ensures v.Obj? && Keys(v.props) == ["host", "usr", "path"]
    ensures forall i :: 0 <= i < |v.props| ==> v.props[i].1.Str?
  {
    Obj([("host", Str(e.host)), ("usr", Str(e.usr)), ("path", Str(e.path))])
  }

  class EndPoint {
    var host: string
    var usr: string
    var path: string

    /** `export()` */
    function Export(): EndPointValue
      reads this
    {
      EndPointValue(host, usr, path)
    }

    /** The object before its template is applied. */
    constructor ()
      ensures Export() == EndPointValue("", "", "")
    {
      host, usr, path := "", "", "";
    }

    /** `this.host = v`: stores `chkStr(v, 'host')`, or throws and keeps the old value. */
    method SetHost(v: JsValue) returns (o: Outcome)
      modifies this
      ensures ChkStr(v, "host", "").Ok? ==> o == Pass && Export() == old(Export()).(host := ChkStr(v, "host", "").value)
      ensures ChkStr(v, "host", "").Err? ==> o == Fail(ChkStr(v, "host", "").error) && Export() == old(Export())
    {
      var r := ChkStr(v, "host", "");
      if r.Err? {
        return Fail(r.error);
      }
      host := r.value;
      o := Pass;
    }

    /** `this.usr = v` */
    method SetUsr(v: JsValue) returns (o: Outcome)
      modifies this
      ensures ChkStr(v, "usr", "").Ok? ==> o == Pass && Export() == old(Export()).(usr := ChkStr(v, "usr", "").value)
      ensures ChkStr(v, "usr", "").Err? ==> o == Fail(ChkStr(v, "usr", "").error) && Export() == old(Export())
    {
      var r := ChkStr(v, "usr", "");
      if r.Err? {
        return Fail(r.error);
      }
      usr := r.value;
      o := Pass;
    }

    /** `this.path = v` */
    method SetPath(v: JsValue) returns (o: Outcome)
      modifies this
      ensures ChkStr(v, "path", "").Ok? ==> o == Pass && Export() == old(Export()).(path := ChkStr(v, "path", "").value)
      ensures ChkStr(v, "path", "").Err? ==> o == Fail(ChkStr(v, "path", "").error) && Export() == old(Export())
    {
      var r := ChkStr(v, "path", "");
      if r.Err? {
        return Fail(r.error);
      }
      path := r.value;
      o := Pass;
    }
  }

  /** `new EndPoint(tpl)`: a fresh endpoint holding `EndPointOf(tpl)`, or its error. */
  method NewEndPoint(tpl: JsValue) returns (r: Result<EndPoint>)
    ensures r.Ok? <==> EndPointOf(tpl).Ok?
    ensures r.Ok? ==> fresh(r.value) && r.value.Export() == EndPointOf(tpl).value
    ensures r.Err? ==> r.error == EndPointOf(tpl).error
  {
    var t := Or(tpl, Obj([]));
    var e := new EndPoint();
    var o := e.SetHost(Prop(t, "host"));
    if o.Fail? {
      return Err(o.error);
    }
    o := e.SetUsr(Prop(t, "usr"));
    if o.Fail? {
      return Err(o.error);
    }
    o := e.SetPath(Prop(t, "path"));
    if o.Fail? {
      return Err(o.error);
    }
    r := Ok(e);
  }

  /** `EndPoint(tpl)` without `new` calls `new EndPoint()`, dropping `tpl`. */
  method CallEndPoint(tpl: JsValue) returns (e: EndPoint)
    ensures fresh(e) && e.Export() == EndPointValue("", "", "")
  {
    var r := NewEndPoint(Undefined);
    e := r.value;
  }

  /** A template that `new EndPoint(tpl)` applies and `EndPoint(tpl)` drops:
      `{host: 'srv'}` gives host `srv` with `new`, `''` without. */
  lemma CallDropsTemplate()
    ensures EndPointOf(Obj([("host", Str("srv"))])) == Ok(EndPointValue("srv", "", ""))
    ensures EndPointOf(Obj([("host", Str("srv"))])).value != EndPointValue("", "", "")
  {
    var t := Obj([("host", Str("srv"))]);
    assert Prop(t, "host") == Str("srv");
    assert "usr" != "host" && "path" != "host";
    assert Prop(t, "usr") == Undefined && Prop(t, "path") == Undefined;
  }

  /** Each field is `chkStr` of the template's field: construction succeeds
      exactly when all three are falsy or strings, and otherwise throws the
      message `${key} must be a string` of the first one that is not. */
  lemma EndPointOfFields(tpl: JsValue, host: JsValue, usr: JsValue, path: JsValue)
    requires host == Prop(Or(tpl, Obj([])), "host")
    requires usr == Prop(Or(tpl, Obj([])), "usr")
    requires path == Prop(Or(tpl, Obj([])), "path")
    ensures EndPointOf(tpl).Ok? <==> StringLike(host) && StringLike(usr) && StringLike(path)
    ensures EndPointOf(tpl).Ok? ==>
      EndPointOf(tpl).value == EndPointValue(ChkStr(host, "", "").value, ChkStr(usr, "", "").value, ChkStr(path, "", "").value)
    ensures EndPointOf(tpl).Err? ==>
      EndPointOf(tpl).error == ValidationError(StrMessage(
        if !StringLike(host) then "host" else if !StringLike(usr) then "usr" else "path", ""))
  {
    var h, u, p := ChkStr(host, "host", ""), ChkStr(usr, "usr", ""), ChkStr(path, "path", "");
    assert h.Ok? <==> StringLike(host);
    assert u.Ok? <==> StringLike(usr);
    assert p.Ok? <==> StringLike(path);
    if h.Ok? && u.Ok? && p.Ok? {
      assert EndPointOf(tpl) == Ok(EndPointValue(h.value, u.value, p.value));
    } else if h.Ok? && u.Ok? {
      assert EndPointOf(tpl) == Err(p.error);
    } else if h.Ok? {
      assert EndPointOf(tpl) == Err(u.error);
    } else {
      assert EndPointOf(tpl) == Err(h.error);
    }
  }

  /** A falsy template, or one without the fields, gives all-empty fields. */
  lemma EndPointOfEmpty(tpl: JsValue)
    requires !Truthy(tpl) || tpl == Obj([])
    ensures EndPointOf(tpl) == Ok(EndPointValue("", "", ""))
  {
  }

  /** Constructing from `export()` gives equal fields, also after the round trip
      through JSON text. */
  lemma EndPointRoundTrip(e: EndPointValue)
    ensures EndPointOf(EndPointToJs(e)) == Ok(e)
    ensures IsJson(EndPointToJs(e))
    ensures EndPointOf(JsonCopy(EndPointToJs(e))) == Ok(e)
  {
    var v := EndPointToJs(e);
    var ps := v.props;
    assert ps[1..] == [("usr", Str(e.usr)), ("path", Str(e.path))];
    assert ps[1..][1..] == [("path", Str(e.path))];
    assert ps[1..][1..][1..] == [];
    assert Prop(v, "host") == Str(e.host);
    assert "host" != "usr" && "host" != "path" && "usr" != "path";
    assert Lookup(ps, "usr") == Lookup(ps[1..], "usr");
    assert Prop(v, "usr") == Str(e.usr);
    assert Lookup(ps, "path") == Lookup(ps[1..][1..], "path");
    assert Prop(v, "path") == Str(e.path);
    assert IsJson(v) by {
      assert PropsAreJson(v, ps[1..][1..]);
      assert PropsAreJson(v, ps[1..]);
    }
    JsonCopyOfJson(v);
  }
}
