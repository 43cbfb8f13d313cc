/** lib/host.js: a backup host, identified by its name in the store and holding
    the root directory backups go to on it. */
module Hosts {
  import opened Js
  import opened CheckString
  import opened CheckStringArray

  datatype Host = Host(bkpRoot: string)

  /** `new Host(tpl)` (and `Host(tpl)`): `bkpRoot` is `chkStr(tpl.bkpRoot)` of `tpl || {}`. */
  function HostOf(tpl: JsValue): (r: Result<Host>)
    ensures r.Ok? <==> StringLike(Prop(Or(tpl, Obj([])), "bkpRoot"))
    ensures r.Err? ==> r.error == ValidationError(StrMessage("", ""))
  {
    var root :- ChkStr(Prop(Or(tpl, Obj([])), "bkpRoot"), "", "");
    Ok(Host(root))
  }

  /** `export()` and `toJSON()`: a plain object with exactly `bkpRoot`. */
  function HostToJs(h: Host): (v: JsValue)
    ensures v.Obj? && Keys(v.props) == ["bkpRoot"] && v.props[0].1.Str?
  {
    Obj([("bkpRoot", Str(h.bkpRoot))])
  }

  /** A missing template or field gives `''`, and a string is kept. */
  lemma HostOfField(tpl: JsValue, root: JsValue)
    requires root == Prop(Or(tpl, Obj([])), "bkpRoot")
    ensures HostOf(tpl).Ok? ==> HostOf(tpl).value.bkpRoot == (if root.Str? then root.s else "")
    ensures !Truthy(tpl) ==> HostOf(tpl) == Ok(Host(""))
  {
  }

  /** `Host(h.export())` has the same `bkpRoot`, also after the round trip
      through JSON text. */
  lemma HostRoundTrip(h: Host)
    ensures HostOf(HostToJs(h)) == Ok(h)
    ensures IsJson(HostToJs(h))
    ensures HostOf(JsonCopy(HostToJs(h))) == Ok(h)
  {
    var v := HostToJs(h);
    assert IsJson(v) by {
      assert PropsAreJson(v, v.props[1..]);
    }
    JsonCopyOfJson(v);
  }
}
