/** lib/date-formats.js: the date formats of a task, one per runner.  A template
    object maps runner names to format strings; a template string is the format
    of the `node` runner. */
module DateFormatting {
  import opened Js
  import opened CheckString
  import opened CheckStringArray

  /** The message of every error the constructor throws. */
  const WrongDateFormat := "wrong date format"

  /** A `DateFormats` object: its own properties (runner name, format), in order. */
  datatype DateFormats = DateFormats(entries: seq<(string, string)>)

  /** `chkStr(value, null, msg)`, the check of one template property. */
  function CheckFormat(v: JsValue): Result<string> {
    ChkStr(v, "", WrongDateFormat)
  }

  /** `new DateFormats(tpl)`, and `DateFormats(tpl)` without `new`, which
      forwards `tpl`. */
  function DateFormatsOf(tpl: JsValue): (r: Result<DateFormats>)
    ensures !Truthy(tpl) ==> r == Ok(DateFormats([("node", "")]))
    ensures tpl.Str? ==> r == Ok(DateFormats([("node", tpl.s)]))
    ensures Truthy(tpl) && (tpl.Num? || tpl.Bool? || tpl.Func?) ==> r == Err(ValidationError(WrongDateFormat))
  {
    var t := Or(tpl, Str(""));
    if TypeOf(t) == "object" then
      var ps :- MapProps([], ForIn(t), CheckFormat);
      Ok(DateFormats(ps))
    else if TypeOf(t) == "string" then
      Ok(DateFormats([("node", t.s)]))
    else
      Err(ValidationError(WrongDateFormat))
  }

  /** The constructor, filling the new object key by key. */
  method NewDateFormats(tpl: JsValue) returns (r: Result<DateFormats>)
    ensures r == DateFormatsOf(tpl)
  {
    var t := Or(tpl, Str(""));
    if TypeOf(t) == "object" {
      var ps := BuildProps(ForIn(t), CheckFormat);
      if ps.Err? {
        return Err(ps.error);
      }
      r := Ok(DateFormats(ps.value));
    } else if TypeOf(t) == "string" {
      r := Ok(DateFormats([("node", t.s)]));
    } else {
      r := Err(ValidationError(WrongDateFormat));
    }
  }

  /** The properties a template value gives, when it gives any. */
  predicate Formattable(v: JsValue) {
    !Truthy(v) || v.Str? || ((v.Obj? || v.Arr?) && forall i :: 0 <= i < |ForIn(v)| ==> StringLike(ForIn(v)[i].1))
  }

  /** The constructor succeeds exactly on a falsy value, a string, or an object
      (or array) whose values are all falsy or strings; otherwise it throws
      `wrong date format`.  Its result never repeats a runner. */
  lemma DateFormatsOfAccepts(tpl: JsValue)
    ensures DateFormatsOf(tpl).Ok? <==> Formattable(tpl)
    ensures DateFormatsOf(tpl).Err? ==> DateFormatsOf(tpl).error == ValidationError(WrongDateFormat)
    ensures DateFormatsOf(tpl).Ok? ==> DistinctKeys(DateFormatsOf(tpl).value.entries)
  {
    var t := Or(tpl, Str(""));
    if TypeOf(t) == "object" {
      MapPropsOk([], ForIn(t), CheckFormat);
      MapPropsFirstError([], ForIn(t), CheckFormat);
      MapPropsDistinct([], ForIn(t), CheckFormat);
    }
  }

  /** A falsy template gives `node === ''`, a string `s` gives `node === s`. */
  lemma DateFormatsOfString(tpl: JsValue)
    requires !Truthy(tpl) || tpl.Str?
    ensures DateFormatsOf(tpl) == Ok(DateFormats([("node", if tpl.Str? then tpl.s else "")]))
  {
  }

  /** An object template is copied key by key, in order, each value through
      `chkStr`: a falsy value becomes `''`. */
  lemma DateFormatsOfObject(ps: seq<(string, JsValue)>)
    requires DistinctKeys(ps)
    requires forall i :: 0 <= i < |ps| ==> StringLike(ps[i].1)
    ensures DateFormatsOf(Obj(ps)).Ok?
    ensures |DateFormatsOf(Obj(ps)).value.entries| == |ps|
    ensures forall i :: 0 <= i < |ps| ==>
      DateFormatsOf(Obj(ps)).value.entries[i] == (ps[i].0, if ps[i].1.Str? then ps[i].1.s else "")
  {
    forall i | 0 <= i < |ps| ensures CheckFormat(ps[i].1).Ok? {
    }
    MapPropsFresh([], ps, CheckFormat);
    var r := MapValues(ps, CheckFormat);
    EmptyPrefix(r);
    DateFormatsOfProps(ps);
  }

  /** An object template is checked by the loop over its own properties. */
  lemma DateFormatsOfProps(ps: seq<(string, JsValue)>)
    ensures DateFormatsOf(Obj(ps)) ==
      var m := MapProps([], ps, CheckFormat);
      if m.Ok? then Ok(DateFormats(m.value)) else Err(m.error)
  {
  }

  /** `JSON.stringify` of a `DateFormats`: its own properties, as strings. */
  function DateFormatsToJs(df: DateFormats): (v: JsValue)
    ensures v.Obj? && Keys(v.props) == Keys(df.entries)
    ensures forall i :: 0 <= i < |df.entries| ==> v.props[i].1 == Str(df.entries[i].1)
  {
    Obj(seq(|df.entries|, i requires 0 <= i < |df.entries| => (df.entries[i].0, Str(df.entries[i].1))))
  }

  /** The form a `DateFormats` is saved in is JSON. */
  lemma DateFormatsToJsIsJson(df: DateFormats)
    ensures IsJson(DateFormatsToJs(df))
  {
    var v := DateFormatsToJs(df);
    StrPropsAreJson(v, v.props);
  }

  lemma {:induction false} StrPropsAreJson(parent: JsValue, ps: seq<(string, JsValue)>)
    requires forall p :: p in ps ==> p.1 < parent
    requires forall i :: 0 <= i < |ps| ==> ps[i].1.Str?
    ensures PropsAreJson(parent, ps)
    decreases |ps|
  {
    if ps != [] {
      assert forall i :: 0 <= i < |ps[1..]| ==> ps[1..][i] == ps[i + 1];
      StrPropsAreJson(parent, ps[1..]);
    }
  }

  /** Reconstructing a `DateFormats` from its saved form gives it back, also
      after the round trip through JSON text. */
  lemma DateFormatsRoundTrip(df: DateFormats)
    requires DistinctKeys(df.entries)
    ensures DateFormatsOf(DateFormatsToJs(df)) == Ok(df)
    ensures DateFormatsOf(JsonCopy(DateFormatsToJs(df))) == Ok(df)
  {
    var v := DateFormatsToJs(df);
    DateFormatsOfObject(v.props);
    assert DateFormatsOf(v).value.entries == df.entries;
    DateFormatsToJsIsJson(df);
    JsonCopyOfJson(v);
  }
}
