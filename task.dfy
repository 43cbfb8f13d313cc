/** lib/task.js: a backup task, copying `src` to `dest` with rsync-style
    include and exclude lists, flags and options, and a date format per runner. */
module Tasks {
  import opened Js
  import opened CheckString
  import opened CheckStringArray
  import opened EndPoints
  import opened DateFormatting

  /** The state of a task: its endpoints' fields, the four lists, and its date formats. */
  datatype TaskValue = TaskValue(
    src: EndPointValue,
    dest: EndPointValue,
    includes: seq<JsValue>,
    excludes: seq<JsValue>,
    flags: seq<JsValue>,
    options: seq<JsValue>,
    dateFormats: DateFormats)

  /** What `new Task(tpl)` holds, or the first error it throws: with `tpl || {}`
      it builds `src`, `dest`, the four lists and the date formats, in that order. */
  function TaskOf(tpl: JsValue): (r: Result<TaskValue>)
    ensures var t := Or(tpl, Obj([]));
      r.Ok? <==>
        EndPointOf(Prop(t, "src")).Ok? && EndPointOf(Prop(t, "dest")).Ok? &&
        ChkStrArray(Prop(t, "include"), "", "").Ok? && ChkStrArray(Prop(t, "exclude"), "", "").Ok? &&
        ChkStrArray(Prop(t, "flags"), "", "").Ok? && ChkStrArray(Prop(t, "options"), "", "").Ok? &&
        DateFormatsOf(Prop(t, "dateFormats")).Ok?
  {
    var t := Or(tpl, Obj([]));
    var src :- EndPointOf(Prop(t, "src"));
    var dest :- EndPointOf(Prop(t, "dest"));
    var includes :- ChkStrArray(Prop(t, "include"), "", "");
    var excludes :- ChkStrArray(Prop(t, "exclude"), "", "");
    var flags :- ChkStrArray(Prop(t, "flags"), "", "");
    var options :- ChkStrArray(Prop(t, "options"), "", "");
    var dateFormats :- DateFormatsOf(Prop(t, "dateFormats"));
    Ok(TaskValue(src, dest, includes, excludes, flags, options, dateFormats))
  }

  /** The `dateFormat` getter: the `node` format, or `''` when there is none. */
  function DateFormatOf(df: DateFormats): (f: string)
    ensures !HasKey(df.entries, "node") ==> f == ""
    ensures HasKey(df.entries, "node") ==> Lookup(df.entries, "node") == Some(f)
  {
    match Lookup(df.entries, "node")
    case Some(f) => f
    case None => ""
  }

  /** `export()`: exactly `src`, `dest`, `include`, `exclude`, `flags`, `options`,
      the endpoints as their own `toJSON()` gives them. */
  function TaskExportJs(v: TaskValue): (w: JsValue)
    ensures w.Obj? && Keys(w.props) == ["src", "dest", "include", "exclude", "flags", "options"]
  {
    Obj([("src", EndPointToJs(v.src)), ("dest", EndPointToJs(v.dest)),
         ("include", Arr(v.includes)), ("exclude", Arr(v.excludes)),
         ("flags", Arr(v.flags)), ("options", Arr(v.options))])
  }

  /** `toJSON()`: `export()` plus `dateFormats`. */
  function TaskToJs(v: TaskValue): (w: JsValue)
    ensures w.Obj? && Keys(w.props) == ["src", "dest", "include", "exclude", "flags", "options", "dateFormats"]
  {
    Obj(TaskExportJs(v).props + [("dateFormats", DateFormatsToJs(v.dateFormats))])
  }

  /** What every constructed task satisfies: the lists hold only falsy values
      and strings, never `null`, and no runner has two formats. */
  predicate WellFormedTask(v: TaskValue) {
    IsChecked(v.includes) && IsChecked(v.excludes) && IsChecked(v.flags) && IsChecked(v.options)
    && DistinctKeys(v.dateFormats.entries)
  }

  class Task {
    var src: EndPoint
    var dest: EndPoint
    var includes: seq<JsValue>
    var excludes: seq<JsValue>
    var flags: seq<JsValue>
    var options: seq<JsValue>
    var dateFormats: DateFormats

    function Value(): TaskValue
      reads this, src, dest
    {
      TaskValue(src.Export(), dest.Export(), includes, excludes, flags, options, dateFormats)
    }

    /** The fields the constructor assigns, once each is built. */
    constructor (src: EndPoint, dest: EndPoint, includes: seq<JsValue>, excludes: seq<JsValue>,
                 flags: seq<JsValue>, options: seq<JsValue>, dateFormats: DateFormats)
      ensures this.src == src && this.dest == dest
      ensures this.includes == includes && this.excludes == excludes && this.flags == flags && this.options == options
      ensures this.dateFormats == dateFormats
    {
      this.src, this.dest := src, dest;
      this.includes, this.excludes, this.flags, this.options := includes, excludes, flags, options;
      this.dateFormats := dateFormats;
    }

    /** The `dateFormat` getter. */
    function DateFormat(): (f: string)
      reads this
      ensures !HasKey(dateFormats.entries, "node") ==> f == ""
      ensures HasKey(dateFormats.entries, "node") ==> Lookup(dateFormats.entries, "node") == Some(f)
    {
      DateFormatOf(dateFormats)
    }

    /** The `dateFormat` setter: stores `chkStr(format)` as the `node` format,
        or throws and changes nothing. */
    method SetDateFormat(format: JsValue) returns (o: Outcome)
      modifies this
      ensures ChkStr(format, "", "").Ok? ==>
        o == Pass && dateFormats == DateFormats(Assign(old(dateFormats).entries, "node", ChkStr(format, "", "").value))
      ensures ChkStr(format, "", "").Ok? ==> DateFormat() == ChkStr(format, "", "").value
      ensures ChkStr(format, "", "").Err? ==> o == Fail(ValidationError(StrMessage("", ""))) && dateFormats == old(dateFormats)
      ensures src == old(src) && dest == old(dest)
      ensures includes == old(includes) && excludes == old(excludes) && flags == old(flags) && options == old(options)
    {
      var c := ChkStr(format, "", "");
      if c.Err? {
        return Fail(c.error);
      }
      dateFormats := DateFormats(Assign(dateFormats.entries, "node", c.value));
      o := Pass;
    }

    /** `export()` */
    function Export(): JsValue
      reads this, src, dest
    {
      TaskExportJs(Value())
    }

    /** `toJSON()` */
    function ToJson(): JsValue
      reads this, src, dest
    {
      TaskToJs(Value())
    }
  }

  /** The setter keeps a constructed task well formed. */
  lemma SetDateFormatKeepsWellFormed(v: TaskValue, f: string)
    requires WellFormedTask(v)
    ensures WellFormedTask(v.(dateFormats := DateFormats(Assign(v.dateFormats.entries, "node", f))))
  {
    AssignDistinct(v.dateFormats.entries, "node", f);
  }

  /** `new Task(tpl)`: a fresh task with fresh, distinct endpoints holding
      `TaskOf(tpl)`, or its error. */
  method NewTask(tpl: JsValue) returns (r: Result<Task>)
    ensures r.Ok? <==> TaskOf(tpl).Ok?
    ensures r.Ok? ==> fresh(r.value) && fresh(r.value.src) && fresh(r.value.dest) && r.value.src != r.value.dest
    ensures r.Ok? ==> r.value.Value() == TaskOf(tpl).value
    ensures r.Err? ==> r.error == TaskOf(tpl).error
  {
    var t := Or(tpl, Obj([]));
    var src :- NewEndPoint(Prop(t, "src"));
    var dest :- NewEndPoint(Prop(t, "dest"));
    var includes :- ChkStrArray(Prop(t, "include"), "", "");
    var excludes :- ChkStrArray(Prop(t, "exclude"), "", "");
    var flags :- ChkStrArray(Prop(t, "flags"), "", "");
    var options :- ChkStrArray(Prop(t, "options"), "", "");
    var dateFormats :- NewDateFormats(Prop(t, "dateFormats"));
    var task := new Task(src, dest, includes, excludes, flags, options, dateFormats);
    r := Ok(task);
  }

  /** A falsy template gives empty endpoints, empty lists and `dateFormat === ''`. */
  lemma TaskOfEmpty(tpl: JsValue)
    requires !Truthy(tpl)
    ensures TaskOf(tpl) == Ok(TaskValue(EndPointValue("", "", ""), EndPointValue("", "", ""), [], [], [], [], DateFormats([("node", "")])))
    ensures DateFormatOf(TaskOf(tpl).value.dateFormats) == ""
  {
    EndPointOfEmpty(Undefined);
  }

  /** Every constructed task is well formed. */
  lemma TaskOfWellFormed(tpl: JsValue)
    requires TaskOf(tpl).Ok?
    ensures WellFormedTask(TaskOf(tpl).value)
  {
    var t := Or(tpl, Obj([]));
    ChkStrArrayChecked(Prop(t, "include"), "", "");
    ChkStrArrayChecked(Prop(t, "exclude"), "", "");
    ChkStrArrayChecked(Prop(t, "flags"), "", "");
    ChkStrArrayChecked(Prop(t, "options"), "", "");
    DateFormatsOfAccepts(Prop(t, "dateFormats"));
  }

  /** The getter returns what the date formats hold for `node`: a falsy template
      or a string template `s` gives `''` or `s`. */
  lemma DateFormatOfString(tpl: JsValue)
    requires !Truthy(tpl) || tpl.Str?
    ensures DateFormatOf(DateFormatsOf(tpl).value) == if tpl.Str? then tpl.s else ""
  {
    DateFormatsOfString(tpl);
  }

  /** The keys of `toJSON()`, in order. */
  const TaskJsonKeys := ["src", "dest", "include", "exclude", "flags", "options", "dateFormats"]

  lemma TaskJsonKeysDistinct()
    ensures NoDuplicates(TaskJsonKeys)
  {
    forall i, j | 0 <= i < j < |TaskJsonKeys| ensures TaskJsonKeys[i] != TaskJsonKeys[j] {
      assert TaskJsonKeys[i][0] != TaskJsonKeys[j][0] || TaskJsonKeys[i][1] != TaskJsonKeys[j][1];
    }
  }

  /** The fields of a `toJSON()`-shaped object whose keys are `TaskJsonKeys`. */
  lemma TaskJsonProps(w: JsValue, src: JsValue, dest: JsValue, incl: JsValue, excl: JsValue, flags: JsValue, options: JsValue, df: JsValue)
    requires w.Obj? && |w.props| == 7
    requires w.props[0] == ("src", src) && w.props[1] == ("dest", dest)
    requires w.props[2] == ("include", incl) && w.props[3] == ("exclude", excl)
    requires w.props[4] == ("flags", flags) && w.props[5] == ("options", options)
    requires w.props[6] == ("dateFormats", df)
    ensures Prop(w, "src") == src && Prop(w, "dest") == dest
    ensures Prop(w, "include") == incl && Prop(w, "exclude") == excl
    ensures Prop(w, "flags") == flags && Prop(w, "options") == options
    ensures Prop(w, "dateFormats") == df
  {
    TaskJsonKeysDistinct();
    assert Keys(w.props) == TaskJsonKeys;
    LookupDistinct(w.props, 0);
    LookupDistinct(w.props, 1);
    LookupDistinct(w.props, 2);
    LookupDistinct(w.props, 3);
    LookupDistinct(w.props, 4);
    LookupDistinct(w.props, 5);
    LookupDistinct(w.props, 6);
  }

  /** The properties of `toJSON()`, one by one. */
  lemma TaskToJsProps(v: TaskValue)
    ensures var w := TaskToJs(v);
      w.Obj? && |w.props| == 7 &&
      w.props[0] == ("src", EndPointToJs(v.src)) && w.props[1] == ("dest", EndPointToJs(v.dest)) &&
      w.props[2] == ("include", Arr(v.includes)) && w.props[3] == ("exclude", Arr(v.excludes)) &&
      w.props[4] == ("flags", Arr(v.flags)) && w.props[5] == ("options", Arr(v.options)) &&
      w.props[6] == ("dateFormats", DateFormatsToJs(v.dateFormats))
  {
  }

  /** Reconstructing a task from its `toJSON()` gives the same fields. */
  lemma TaskRoundTrip(v: TaskValue)
    requires WellFormedTask(v)
    ensures TaskOf(TaskToJs(v)) == Ok(v)
  {
    var w := TaskToJs(v);
    TaskToJsProps(v);
    TaskJsonProps(w, EndPointToJs(v.src), EndPointToJs(v.dest), Arr(v.includes), Arr(v.excludes),
      Arr(v.flags), Arr(v.options), DateFormatsToJs(v.dateFormats));
    EndPointRoundTrip(v.src);
    EndPointRoundTrip(v.dest);
    ChkStrArrayOfChecked(v.includes, "", "");
    ChkStrArrayOfChecked(v.excludes, "", "");
    ChkStrArrayOfChecked(v.flags, "", "");
    ChkStrArrayOfChecked(v.options, "", "");
    DateFormatsRoundTrip(v.dateFormats);
    TaskOfFields(w, v);
  }

  /** `TaskOf` of an object whose fields each check to the matching part of `v`. */
  lemma TaskOfFields(w: JsValue, v: TaskValue)
    requires w.Obj?
    requires EndPointOf(Prop(w, "src")) == Ok(v.src) && EndPointOf(Prop(w, "dest")) == Ok(v.dest)
    requires ChkStrArray(Prop(w, "include"), "", "") == Ok(v.includes)
    requires ChkStrArray(Prop(w, "exclude"), "", "") == Ok(v.excludes)
    requires ChkStrArray(Prop(w, "flags"), "", "") == Ok(v.flags)
    requires ChkStrArray(Prop(w, "options"), "", "") == Ok(v.options)
    requires DateFormatsOf(Prop(w, "dateFormats")) == Ok(v.dateFormats)
    ensures TaskOf(w) == Ok(v)
  {
  }


  /** The JSON text of `toJSON()` parses back to the same keys, each value copied. */
  lemma TaskJsonCopy(v: TaskValue)
    ensures var c := JsonCopy(TaskToJs(v));
      c.Obj? && |c.props| == 7 &&
      c.props[0] == ("src", JsonCopy(EndPointToJs(v.src))) && c.props[1] == ("dest", JsonCopy(EndPointToJs(v.dest))) &&
      c.props[2] == ("include", JsonCopy(Arr(v.includes))) && c.props[3] == ("exclude", JsonCopy(Arr(v.excludes))) &&
      c.props[4] == ("flags", JsonCopy(Arr(v.flags))) && c.props[5] == ("options", JsonCopy(Arr(v.options))) &&
      c.props[6] == ("dateFormats", JsonCopy(DateFormatsToJs(v.dateFormats)))
  {
    var w := TaskToJs(v);
    TaskToJsProps(v);
    assert forall i :: 0 <= i < |w.props| ==> !Unserializable(w.props[i].1);
    JsonCopyPropsSerializable(w, w.props);
  }

  /** Reconstructing a task from the JSON text of its `toJSON()` gives the same
      fields, except that an `undefined` list element is gone (it was written as
      `null`, which `chkStrArray` drops); a task whose lists hold only strings
      comes back unchanged. */
  lemma TaskJsonRoundTrip(v: TaskValue)
    requires WellFormedTask(v)
    ensures TaskOf(JsonCopy(TaskToJs(v))) == Ok(v.(
      includes := WithoutUndefined(v.includes), excludes := WithoutUndefined(v.excludes),
      flags := WithoutUndefined(v.flags), options := WithoutUndefined(v.options)))
  {
    var c := JsonCopy(TaskToJs(v));
    TaskJsonFields(v);
    EndPointRoundTrip(v.src);
    EndPointRoundTrip(v.dest);
    DateFormatsRoundTrip(v.dateFormats);
    ChkStrArrayAfterJsonCopy(v.includes, "", "");
    ChkStrArrayAfterJsonCopy(v.excludes, "", "");
    ChkStrArrayAfterJsonCopy(v.flags, "", "");
    ChkStrArrayAfterJsonCopy(v.options, "", "");
    TaskOfFields(c, v.(
      includes := WithoutUndefined(v.includes), excludes := WithoutUndefined(v.excludes),
      flags := WithoutUndefined(v.flags), options := WithoutUndefined(v.options)));
  }

  /** Each field of the JSON copy of `toJSON()` is the copy of that field. */
  lemma TaskJsonFields(v: TaskValue)
    ensures var c := JsonCopy(TaskToJs(v));
      c.Obj? &&
      Prop(c, "src") == JsonCopy(EndPointToJs(v.src)) && Prop(c, "dest") == JsonCopy(EndPointToJs(v.dest)) &&
      Prop(c, "include") == JsonCopy(Arr(v.includes)) && Prop(c, "exclude") == JsonCopy(Arr(v.excludes)) &&
      Prop(c, "flags") == JsonCopy(Arr(v.flags)) && Prop(c, "options") == JsonCopy(Arr(v.options)) &&
      Prop(c, "dateFormats") == JsonCopy(DateFormatsToJs(v.dateFormats))
  {
    TaskJsonCopy(v);
    TaskJsonProps(JsonCopy(TaskToJs(v)), JsonCopy(EndPointToJs(v.src)), JsonCopy(EndPointToJs(v.dest)),
      JsonCopy(Arr(v.includes)), JsonCopy(Arr(v.excludes)), JsonCopy(Arr(v.flags)), JsonCopy(Arr(v.options)),
      JsonCopy(DateFormatsToJs(v.dateFormats)));
  }
}
