# rsbkp configuration core in Dafny

rsbkp keeps the configuration of rsync-style backups: backup hosts, backup
tasks and profiles. This project models the part of it that holds and checks
that configuration:

- **The ordered collection** (`Collections`, lib/collection.js). `Names` fixes
  the order and `Data` maps each name to its payload. An entry is addressed by
  position or by name. The class `Collection` changes its two fields in place.
  Each method is proved equal to a pure transition function on `Contents`
  (`FindIn`, `AddTo`, `RemoveFrom`, `UpdateIn`, `RenameIn`, `MoveToIn`,
  `MoveUpIn`, `MoveDownIn`, `AddManyTo`). Lemmas about those functions state the
  promised behaviour: the invariant (distinct names, exactly the keys of
  `Data`), the error cases, inverse pairs and the round trip through the
  export.
- **The collection as written** (`PlainObject`, lib/collection.js). The
  source keeps `Data` in a plain JavaScript object. This module models the
  operations the way that object behaves: `Data[name]` is truthy for the
  names it inherits from `Object.prototype`, and array-index keys come first
  in its key order. Lemmas show where that departs from `Collections` (see
  Findings) and that the two agree on every other input.
- **The store** (`Store`, rsbkp.js). The class `Rsbkp` holds three collections
  and the fields `initialized`, `Saved`, `AutoSave`, `DefaultDateFormat`, the
  task template's date format, the deletion queue, an event log and the disk.
  Every mutator is proved against `Announce`, `OnChanged`, `Saving` and
  `Settled`, which are functions of the old state. A save first runs the
  deletion queue, whose `rmdirSync` can throw; the model follows that
  failure into the mutator's promise. The configuration file it writes is proved to
  read back.
- **The value constructors** (`CheckString`, `CheckStringArray`, `Hosts`,
  `EndPoints`, `DateFormatting`, `Tasks`). These are the normalise-or-throw
  checks. Each comes with its accept/reject conditions and its export and
  reconstruct round trip, including the trip through JSON text.
- **The JavaScript layer** (`Js`, `Numeric`). It models the language operations
  the code relies on:
  - truthiness, `||` and `typeof`;
  - objects as ordered property lists, property assignment and `for-in`;
  - `indexOf` and `splice` (including negative and large starts);
  - `JSON.parse(JSON.stringify(v))`;
  - `isNaN` on strings.

Exceptions and promise rejections are both `Err` values carrying an `Error`
with the source's messages. Events are an appended log of event names. The
file system is a `Disk` value: the set of existing directories and the files,
each held as `JSON.parse` would read it. `process.env.HOME` and the settings are
constructor parameters.

## Model

| member | source | states |
|---|---|---|
| CheckString.ChkStr | lib/check-string.js:3-11 | a falsy value gives `''`; a string is returned unchanged; it fails exactly on a truthy non-string, with `msg` or `${key} must be a string` |
| CheckString.DefaultStrMessage | lib/check-string.js:4-5 | with neither key nor message the error reads `key must be a string` |
| CheckString.ChkStrIdempotent | lib/check-string.js:7-10 | checking a result again returns it unchanged, whatever key and message |
| CheckStringArray.ArrayMessage | lib/check-string-array.js:6-7 | the error message is never empty |
| CheckStringArray.ChkStrArray | lib/check-string-array.js:5-18 | falsy gives `[]`; a non-empty string `s` gives `[s]`; an array is accepted iff every element is falsy or a string, and then gives the array without its `null`s; any other truthy value fails; every error carries the message |
| CheckStringArray.WithoutNullsRemovesOnlyNulls | lib/check-string-array.js:17 | the filter leaves no `null`, keeps every other element by multiset, never lengthens, and is the identity on an array without `null` |
| CheckStringArray.ChkStrArrayChecked | lib/check-string-array.js:11-17 | every accepted array holds only falsy values and strings, and no `null` |
| CheckStringArray.ChkStrArrayIdempotent | lib/check-string-array.js:11-17 | an array it returned is returned unchanged when checked again |
| CheckStringArray.ChkStrArrayOfChecked | lib/check-string-array.js:11-17 | a checked array is accepted as it is |
| CheckStringArray.ChkStrArrayAfterJsonCopy | lib/check-string-array.js:11-17 | a checked list read back from its JSON copy is the list without its `undefined` elements |
| Hosts.HostOf | lib/host.js:7-16 | `new Host(tpl)` succeeds iff `(tpl \|\| {}).bkpRoot` is falsy or a string; its only error is `key must be a string` |
| Hosts.HostOfField | lib/host.js:13-15 | `bkpRoot` is `chkStr(tpl.bkpRoot)`: a string is kept and a falsy value gives `''`; a missing template gives `Host('')` |
| Hosts.HostRoundTrip | lib/host.js:15-22 | `export()` is JSON, and `Host(h.export())` equals `h`, also after the JSON copy |
| EndPoints.EndPoint.constructor | lib/end-point.js:21-41 | the fields start as empty strings |
| EndPoints.EndPoint.SetHost | lib/end-point.js:17-19 | stores `chkStr(v, 'host')`, or fails with its error and keeps every field |
| EndPoints.EndPoint.SetUsr | lib/end-point.js:25-27 | stores `chkStr(v, 'usr')`, or fails and keeps every field |
| EndPoints.EndPoint.SetPath | lib/end-point.js:33-35 | stores `chkStr(v, 'path')`, or fails and keeps every field |
| EndPoints.NewEndPoint | lib/end-point.js:7-48 | a fresh endpoint holding `EndPointOf(tpl)`, or exactly its error |
| EndPoints.CallEndPoint | lib/end-point.js:9-11 | `EndPoint(tpl)` without `new` gives all-empty fields whatever `tpl` is |
| EndPoints.CallDropsTemplate | lib/end-point.js:9-11 | `{host: 'srv'}` gives host `srv` with `new`, which differs from the all-empty result without `new` |
| EndPoints.EndPointOf | lib/end-point.js:7-48 | a falsy template gives all-empty fields; every error is a validation error naming `host`, `usr` or `path` |
| EndPoints.EndPointOfFields | lib/end-point.js:17-47 | construction succeeds iff all three fields are falsy or strings; each field is `chkStr` of the template's; an error names the first bad field |
| EndPoints.EndPointOfEmpty | lib/end-point.js:44-47 | a falsy template or `{}` gives all-empty fields |
| EndPoints.EndPointRoundTrip | lib/end-point.js:44-56 | `export()` is JSON, and constructing from it gives equal fields, also after the JSON copy |
| DateFormatting.NewDateFormats | lib/date-formats.js:7-30 | the constructor's loop gives exactly `DateFormatsOf(tpl)` |
| DateFormatting.DateFormatsOf | lib/date-formats.js:17-29 | a falsy template gives `node: ''`; a string `s` gives `node: s`; a truthy number, boolean or function throws `wrong date format` |
| DateFormatting.DateFormatsOfAccepts | lib/date-formats.js:17-29 | succeeds iff the template is falsy, a string, or an object whose values are all falsy or strings; every error is `wrong date format`; runners never repeat |
| DateFormatting.DateFormatsOfString | lib/date-formats.js:17-26 | a falsy template gives `node === ''`; a string `s` gives `node === s` |
| DateFormatting.DateFormatsOfObject | lib/date-formats.js:19-23 | an object template is copied key by key in order, each value through `chkStr`, so a falsy value becomes `''` |
| DateFormatting.DateFormatsToJs | lib/task.js:56-60 | the saved form has the runners as keys, in order, with string values |
| DateFormatting.DateFormatsToJsIsJson | lib/task.js:56-60 | the saved form is JSON |
| DateFormatting.DateFormatsRoundTrip | lib/date-formats.js:19-23 | rebuilding from the saved form gives the same formats, also after the JSON copy |
| Tasks.Task.constructor | lib/task.js:18-26 | the fields are the endpoints, lists and date formats given |
| Tasks.Task.SetDateFormat | lib/task.js:30-32 | stores `chkStr(format)` as the `node` format, after which the getter returns it; on a truthy non-string it fails and changes nothing; no other field changes |
| Tasks.SetDateFormatKeepsWellFormed | lib/task.js:30-32 | the setter keeps a task well formed |
| Tasks.NewTask | lib/task.js:10-37 | a fresh task with two fresh, distinct endpoints holding `TaskOf(tpl)`, or its first error |
| Tasks.TaskOf | lib/task.js:16-26 | construction succeeds iff both endpoints, the four lists and the date formats are accepted, each read from `tpl \|\| {}` |
| Tasks.TaskOfEmpty | lib/task.js:16-29 | a falsy template gives empty endpoints, empty lists and `dateFormat === ''` |
| Tasks.TaskOfWellFormed | lib/task.js:21-26 | every constructed task's lists hold only falsy values and strings and no `null`; its runners are distinct |
| Tasks.DateFormatOfString | lib/task.js:27-29 | the getter gives `''` for a falsy template and `s` for a string template `s` |
| Tasks.TaskJsonKeysDistinct | lib/task.js:39-60 | the seven keys of `toJSON()` are distinct |
| Tasks.TaskToJsProps | lib/task.js:39-60 | `toJSON()` has exactly the keys `src`, `dest`, `include`, `exclude`, `flags`, `options`, `dateFormats`, each holding its field's form |
| Tasks.TaskRoundTrip | lib/task.js:16-60 | a well-formed task rebuilt from its `toJSON()` is the same task |
| Tasks.TaskJsonCopy | lib/task.js:56-60 | the JSON copy of `toJSON()` keeps the seven keys in order, each value copied |
| Tasks.TaskJsonRoundTrip | lib/task.js:16-60 | after the JSON copy it is the same task, minus the `undefined` list elements |
| Collections.CheckRef | lib/collection.js:13-20 | accepts every integer, every name `isNaN` rejects as a number (non-empty), and every canonical integer string, which then addresses a position; otherwise fails with `ref must be an integer or a string` |
| Collections.CheckName | lib/collection.js:5-7 | a name is accepted iff it is non-empty and does not read as a number |
| Collections.CheckedNameIsName | lib/collection.js:5-16 | a name `chkName` accepts is taken as a name, never as a position |
| Collections.FindIn | lib/collection.js:51-73 | by name: found iff present, at its position, with its payload, else `does not exist`; by index: found iff inside `[0, length)`, else `out of range` (presence is own-key membership; see Findings for the inherited names the source's `Data[name]` test admits) |
| Collections.RemoveFrom | lib/collection.js:75-89 | resolves as `get`, takes out exactly that name (later names shift down) and keeps every other payload; on failure nothing changes |
| Collections.AddTo | lib/collection.js:91-111 | rejects a bad name, then an existing name, then an index outside `[0, length]`, changing nothing; else inserts the name at the index and adds its payload |
| Collections.UpdateIn | lib/collection.js:131-144 | replaces only the resolved entry's payload; names and index stay |
| Collections.RenameIn | lib/collection.js:146-169 | rejects the same name and a taken name, changing nothing; else the new name takes the old one's position and its payload |
| Collections.RenameByName | lib/collection.js:146-169 | renaming by name at a known position, stated outright |
| Collections.RenameBack | lib/collection.js:146-169 | renaming back restores the collection |
| Collections.MoveIn | lib/collection.js:171-175 | the name goes to the `splice` position of the target; payloads stay; the names stay a permutation; the other names keep their order |
| Collections.MoveInPlace | lib/collection.js:171-175 | moving an entry to where it is changes nothing |
| Collections.MoveInBack | lib/collection.js:171-175 | moving to `j` and back restores the order |
| Collections.ClampIndex | lib/collection.js:179-180 | below 0 gives 0, from `length` up gives `length - 1`, and a position inside stays |
| Collections.MoveToIn | lib/collection.js:177-189 | the entry ends at the clamped target the record reports; the names stay a permutation; payloads stay; on failure nothing changes |
| Collections.MoveUpIn | lib/collection.js:191-203 | succeeds iff `get` does; on failure nothing changes |
| Collections.MoveUpInMoves | lib/collection.js:191-203 | the target is `max(index - count, 0)`, which the record reports, and the entry goes there |
| Collections.MoveDownIn | lib/collection.js:205-217 | succeeds iff `get` does; on failure nothing changes; the collection stays valid |
| Collections.MoveDownInMoves | lib/collection.js:205-217 | the target is `index + count` (after a numeric string reference, the text `'' + index + count` read as a number; with a negative count then 0), at most `length - 1`; the record reports it and the entry goes to its `splice` position |
| Collections.JoinedValue | lib/collection.js:209 | the number the joined text `'' + i + c` spells is `i * 10^digits(c) + c`, never below `i + c` |
| Collections.MoveDownTextRef | lib/collection.js:205-217 | on `[a, b, c, d]`, `moveDown('1')` sends `b` to position 3 (`'1' + 1` is `'11'`), while `moveDown(1)` sends it to 2 |
| Collections.FindTextAsIndex | lib/collection.js:55-69 | a string reference that `chkRef` reads as a position finds what that position finds |
| Collections.TextOneIsPosition | lib/collection.js:13-20 | `chkRef('1')` takes the text for position 1 |
| Collections.MoveUpFirst | lib/collection.js:191-203 | `moveUp` on the first entry is a no-op |
| Collections.MoveDownLast | lib/collection.js:205-217 | `moveDown` on the last entry is a no-op |
| Collections.MoveToBack | lib/collection.js:177-189 | moving an entry back to where it came from undoes `moveTo` |
| Collections.AddManyTo | lib/collection.js:112-117 | an index outside `[0, length]` rejects and changes nothing; otherwise the insertion loop runs |
| Collections.InsertEach | lib/collection.js:118-127 | the insertion loop keeps the collection valid, whether it completes or stops at a taken name |
| Collections.InsertEachOk | lib/collection.js:118-127 | the loop completes iff the names are new and distinct |
| Collections.InsertEachNames | lib/collection.js:118-127 | when it completes, the names went in, in order, at consecutive positions from `index` |
| Collections.InsertEachData | lib/collection.js:118-127 | when it completes, each entry has its payload and the old payloads stay |
| Collections.InsertEachStops | lib/collection.js:118-122 | at the first clashing name it rejects with that name, leaving the earlier entries inserted |
| Collections.InsertEachKeeps | lib/collection.js:118-127 | a property of all old and all new payloads holds of every payload after the loop |
| Collections.Ordered | lib/collection.js:35-43 | the export lists the names in `Names` order, each with its payload |
| Collections.OrderedLookup | lib/collection.js:35-43 | each name reads its payload in the export, and an absent name reads nothing |
| Collections.OrderedRoundTrip | lib/collection.js:112-129 | `addMany` of the export into an empty collection rebuilds it exactly |
| Collections.LengthIsSize | lib/collection.js:48 | `length` counts the payloads as well as the names |
| Collections.AddThenGet | lib/collection.js:91-111 | after `add`, `get` by the new name and by its index both give the new record |
| Collections.AddThenRemove | lib/collection.js:75-111 | `remove` by name undoes `add` |
| Collections.RemoveThenAdd | lib/collection.js:75-111 | adding a removed entry back at its index restores the collection |
| Collections.UpdateThenGet | lib/collection.js:131-144 | after `update`, `get` sees the new payload |
| Collections.Collection.constructor | lib/collection.js:22-34 | a new collection is empty and valid |
| Collections.Collection.Length | lib/collection.js:48 | `length` is the number of names and of payloads |
| Collections.Collection.Names | lib/collection.js:29-32 | the names, each once, exactly those with a payload |
| Collections.Collection.GetData | lib/collection.js:35-43 | the getter's loop builds exactly the ordered export |
| Collections.Collection.Get | lib/collection.js:51-73 | resolves or rejects exactly as `FindIn` |
| Collections.Collection.Remove | lib/collection.js:75-89 | result and new state are those of `RemoveFrom`; valid afterwards |
| Collections.Collection.Add | lib/collection.js:91-111 | result and new state are those of `AddTo`; valid afterwards |
| Collections.Collection.AddMany | lib/collection.js:112-129 | its loop gives result and new state of `AddManyTo`; valid afterwards |
| Collections.Collection.Update | lib/collection.js:131-144 | result and new state are those of `UpdateIn` |
| Collections.Collection.Rename | lib/collection.js:146-169 | result and new state are those of `RenameIn` |
| Collections.Collection.Move | lib/collection.js:171-175 | the record gets the new index and `Names` becomes `MoveIn` |
| Collections.Collection.MoveTo | lib/collection.js:177-189 | result and new state are those of `MoveToIn` |
| Collections.Collection.MoveUp | lib/collection.js:191-203 | result and new state are those of `MoveUpIn` |
| Collections.Collection.MoveDown | lib/collection.js:205-217 | result and new state are those of `MoveDownIn`, including the joined-text target after a numeric string reference |
| PlainObject.FindAsWritten | lib/collection.js:51-73 | `get` as written: an inherited name such as `toString` that is not an own key resolves at index -1 with the inherited method; a bad reference fails as `chkRef` does |
| PlainObject.FindAgrees | lib/collection.js:51-73 | off the inherited names, `get` as written finds what `FindIn` finds |
| PlainObject.SpliceDelete | lib/collection.js:76 | `splice(start, 1)` removes the entry at a start inside the array, the last one at -1, and nothing at or past the end |
| PlainObject.RemoveAsWritten | lib/collection.js:75-89 | on an inherited name, `Names` loses its last name and `Data` is untouched; otherwise it is `RemoveFrom` |
| PlainObject.UpdateAsWritten | lib/collection.js:131-144 | on an inherited name other than `__proto__`, `Data` gains an own key that `Names` lacks, so the collection is no longer valid; on `__proto__` it resolves at index -1 with the new payload and the names and own keys are unchanged, since the assignment goes to the prototype setter; otherwise it is `UpdateIn` |
| PlainObject.UpdateProtoKeepsKeys | lib/collection.js:131-134 | `update('__proto__', y)` on `[a]` resolves at index -1 and leaves the names and own keys `[a]` |
| PlainObject.AddAsWritten | lib/collection.js:91-111 | an inherited name is rejected as `already exists`; any other name gives `AddTo` |
| PlainObject.RenameAsWritten | lib/collection.js:146-169 | resolves the reference through `get` as written. When neither the reference nor the new name is inherited, it gives `RenameIn`. An inherited reference (not an own key) on a non-empty collection, renamed to a fresh, valid, different name, resolves at index -1, drops the last name, inserts the new name before the name that is then last (`[a, b, c]` gives `[a, x, b]`) and stores the inherited method under it. An inherited reference renamed to itself is rejected with `Can't move to itself.`, and one renamed to an own name with `already exits`. In both cases `RenameIn` reports `does not exist`. Renaming to a different inherited name is rejected as `already exits` whenever `get` as written resolves |
| PlainObject.RenameInheritedRejected | lib/collection.js:154-162 | on `[a]`, `rename('toString', 'toString')` is rejected as a self-rename and `rename('toString', 'a')` as `'a' already exits.`, where `RenameIn` reports `does not exist` for both |
| PlainObject.Lift | lib/collection.js:34 | a collection's `Data` as a plain object: the same names and keys, every key holding its own payload |
| PlainObject.RenameInheritedRef | lib/collection.js:146-169 | `rename('toString', 'x')` on `[a, b]`: `RenameIn` reports `does not exist`, while the source resolves with index -1, leaves names `[x, a]` and gives `Data.x` the inherited method |
| PlainObject.MoveAsWritten | lib/collection.js:171-175 | `move` keeps the payloads; a record at index -1 first drops the last name, then inserts its own |
| PlainObject.MoveToAsWritten | lib/collection.js:177-189 | `moveTo` of an inherited name drops the last name and inserts the inherited one |
| PlainObject.MoveUpAsWritten | lib/collection.js:191-203 | `moveUp` of an inherited name with `count >= 0` inserts it at position 0 in place of the last name; with a negative `count` it resolves at `-1 - count` and is moved there |
| PlainObject.MoveDownAsWritten | lib/collection.js:205-217 | `moveDown` of an inherited name (index -1) sends it to `count - 1`, at most `length - 1`, in place of the last name |
| PlainObject.InsertEachAsWritten | lib/collection.js:118-127 | an inherited first name stops the loop with `already exists` and changes nothing; the collection stays valid |
| PlainObject.AddManyAsWritten | lib/collection.js:112-129 | an index outside `[0, length]` rejects; otherwise the loop as written runs |
| PlainObject.InsertEachAgrees | lib/collection.js:118-127 | with no inherited name among the entries, the loop as written is `InsertEach` |
| PlainObject.ToStringIsName | lib/collection.js:13-20 | `chkRef('toString')` takes it as a name |
| PlainObject.RemoveInheritedDropsLast | lib/collection.js:51-89 | `remove('toString')` on `[a, b]` resolves and leaves `Names` `[a]` with `b`'s payload still in `Data`, where `RemoveFrom` rejects |
| PlainObject.AddInheritedRejected | lib/collection.js:95-101 | `add('constructor', …)` on an empty collection is rejected as written and accepted by `AddTo` |
| PlainObject.LoadInheritedStops | lib/collection.js:118-122 | `addMany` of `constructor` then `b` stops at once as written, while `InsertEach` adds both |
| PlainObject.InsertIndexKey | lib/collection.js:39 | a new array-index key goes among the leading array-index keys, ahead of every other key |
| PlainObject.AssignInOrder | lib/collection.js:39 | `o[key] = v` appends a new key that is not an array index, and overwrites an existing key in place |
| PlainObject.FillInOrder | lib/collection.js:37-40 | the export loop as written lists at most one entry per name |
| PlainObject.FillPlain | lib/collection.js:37-40 | with no array-index name, the loop as written lists the names in order, each with its payload |
| PlainObject.ExportAgrees | lib/collection.js:35-43 | for such a collection the export as written is `Ordered` |
| PlainObject.FillIndexFirst | lib/collection.js:37-40 | the export loop as written lists `1` before `b` for names `[b, 1]` |
| PlainObject.ExportIndexFirst | lib/collection.js:35-43 | hosts `[b, 1]` are written as `{1, b}` and read back as `[1, b]`; the corrected export keeps `[b, 1]` |
| Js.Or | lib/check-string.js:7 | `v \|\| d` is `v` when truthy and `d` otherwise |
| Js.Assign | lib/date-formats.js:21 | after `o[k] = v`, `k` reads `v`; an existing key keeps its place and a new one is appended |
| Js.AssignNewKey | lib/date-formats.js:21 | assigning a new key appends it |
| Js.AssignDistinct | lib/date-formats.js:21 | assignment keeps the keys distinct |
| Js.BuildProps | lib/date-formats.js:20-22 | the `for-in` loop gives `MapProps`, stopping at the first throw |
| Js.MapPropsOk | rsbkp.js:136-139 | the loop completes iff no visited value throws |
| Js.MapPropsFirstError | rsbkp.js:136-137 | a failing loop throws the error of the first value that throws, all earlier ones accepted |
| Js.MapPropsDistinct | lib/date-formats.js:20-22 | the object built has distinct keys |
| Js.MapPropsValues | rsbkp.js:136-137 | a property of every result of `f` holds of every value built |
| Js.MapPropsFresh | rsbkp.js:136-139 | on new, distinct keys the loop appends each key with its converted value, in order |
| Js.MapProps | rsbkp.js:136-139 | a loop that completes keeps every key the object already had |
| Js.ForIn | rsbkp.js:136 | `for-in` over an object visits its properties in order; over an array or a string, the keys `'0'`, `'1'`, … one per element; over anything else, nothing |
| Js.IndexOf | lib/collection.js:57 | `indexOf` finds the first occurrence, or -1 |
| Js.SpliceInsert | lib/collection.js:92 | `splice(start, 0, x)` puts `x` at the clamped start and otherwise keeps the elements |
| Js.SpliceRemove | lib/collection.js:76 | `splice(start, 1)` inside the array takes out exactly the element at `start` |
| Js.SpliceStart | lib/collection.js:171-175 | a `splice` start lies in `[0, length]`, and one inside is kept |
| Js.JsonCopyOfJson | lib/collection.js:42 | a value `JSON.parse` can produce survives the copy unchanged |
| Js.JsonCopyIsJson | lib/collection.js:42 | the copy of a serializable value is JSON |
| Js.JsonCopyIdempotent | lib/collection.js:42 | copying twice is copying once |
| Js.JsonCopyObjSerializable | lib/collection.js:42 | an object none of whose values is dropped keeps its keys in order, each value copied |
| Js.JsonCopy | lib/collection.js:42 | an array keeps its length, an object stays an object with no more keys, and any other value is unchanged |
| Numeric.LooksNumeric | lib/collection.js:15 | `!isNaN(s)`: blank text reads as 0 and so as a number; other numeric text starts with a digit, a sign, `.` or `I` (`Infinity`) |
| Js.LookupDistinct | lib/collection.js:39 | with distinct keys each key reads its own value |
| Js.Lookup | lib/collection.js:39 | `o[key]` has a value iff `key` is one of the object's keys |
| Hosts.HostToJs | lib/host.js:18-30 | `export()` and `toJSON()` give an object with the one key `bkpRoot`, holding a string |
| EndPoints.EndPointToJs | lib/end-point.js:50-64 | `export()` and `toJSON()` give an object with exactly the keys `host`, `usr`, `path`, in that order, each holding a string |
| Tasks.TaskExportJs | lib/task.js:39-48 | `export()` gives an object with exactly the keys `src`, `dest`, `include`, `exclude`, `flags`, `options`, in that order |
| Tasks.TaskToJs | lib/task.js:56-60 | `toJSON()` is `export()` with `dateFormats` added last: exactly seven keys in that order |
| Tasks.DateFormatOf | lib/task.js:27-29 | the getter gives `dateFormats.node` when that key is present and `''` when it is absent |
| Tasks.Task.DateFormat | lib/task.js:27-29 | the task's `dateFormat` is its `dateFormats.node` when present and `''` otherwise |
| Store.SnapsDir | rsbkp.js:283-285 | `snapsDir(name)` is the settings directory, `/`, then the name |
| Store.SnapsPath | rsbkp.js:286-289 | `snapsPath(name)` lies beneath `snapsDir(name)` |
| Collections.Link | lib/collection.js:91-94 | `add(el)` keeps the collection valid and its names become the old ones plus `el.name` |
| Collections.Unlink | lib/collection.js:75-78 | `remove(el)` keeps the collection valid and its names become the old ones minus `el.name` |
| Collections.DownTarget | lib/collection.js:209-210 | the `moveDown` target is never past the last position, never above the entry for a non-negative count, is `index + count` when that fits, and the text join of a numeric string reference sends the entry at least as far as the numeric sum |
| Store.SnapsDirInjective | rsbkp.js:283-285 | distinct task names give distinct snapshot directory path strings |
| Store.SnapsPathInDir | rsbkp.js:286-289 | `snapsPath(name)` is `snapsDir(name) + '/snapshots.json'` |
| Store.Snaps | rsbkp.js:290-293 | an absent file gives `[]`; a present one is parsed, and text that is not JSON throws |
| Store.Deleted | rsbkp.js:92-96 | after a run that completes, no queued directory exists and every other one still does |
| Store.RunDeletions | rsbkp.js:92-96 | the loop over the queue, stopping at the first `rmdirSync` that throws, leaves exactly `Deletions` |
| Store.RemoveDir | rsbkp.js:94 | an absent path is passed over; a file throws `ENOTDIR`; a directory with entries throws `ENOTEMPTY`; an empty directory is removed; on a throw nothing changes |
| Store.Deletions | rsbkp.js:92-96 | a run never creates a directory |
| Store.DeletionsFailKeeps | rsbkp.js:92-96 | once a prefix of the queue throws, the whole run ends as that prefix did |
| Store.DeletionsPass | rsbkp.js:92-96 | a run that completes removes exactly the queued directories, and no queued path was a file |
| Store.DeletionsKeep | rsbkp.js:92-96 | a run keeps every directory that is not queued |
| Store.DeletionsAbsent | rsbkp.js:92-96 | a run over paths none of which exists removes nothing and completes |
| Store.DeletionsBlocked | rsbkp.js:92-96 | a queued directory that holds a file makes the run throw |
| Store.DeletionsHitFile | rsbkp.js:92-96 | a queued path that is a file makes the run throw |
| Store.DeletionsClear | rsbkp.js:92-96 | a queue of empty directories, none a file, runs to the end and removes them all |
| Store.DeletionsFailAgain | rsbkp.js:92-96 | a run that threw throws again, the same way, when run on what it left |
| Store.Exported | lib/collection.js:35-43 | each collection is written in `Names` order with each payload's form |
| Store.CollectionJson | lib/collection.js:35-43 | a collection's `toJSON()` is an object, and JSON |
| Store.Snapshot | rsbkp.js:100 | the file holds an object with exactly the keys `hosts`, `tasks`, `profiles`, in that order |
| Store.CollectionJsonOrder | rsbkp.js:100-101 | the written collection keeps every entry, in order, each payload copied |
| Store.SnapshotIsJson | rsbkp.js:100-101 | the file written is JSON: reading it back gives the same value |
| Store.LoadConfigAccepts | rsbkp.js:133-139 | reading fails on unparsable text and on `null`; otherwise it fails iff a host or task template is rejected; every task read is well formed |
| Store.LoadConfig | rsbkp.js:133-139 | text that is not JSON throws `SyntaxError`; `null` throws on `cfg.hosts`; a file that loads holds JSON other than `null` |
| Store.HostsAreJson | lib/host.js:18-30 | every host's `toJSON()` is JSON |
| Store.CollectionJsonOfJson | rsbkp.js:100-101 | payload forms that are JSON are written as they are |
| Store.RebuildOrdered | rsbkp.js:136 | a rebuild whose every value maps back to its payload gives the entries in order |
| Store.SavedHostsLoad | rsbkp.js:133-136 | the hosts a save writes are read back as the same entries in the same order |
| Store.SavedTasksLoad | rsbkp.js:133-137 | every task a save writes is accepted again by the `Task` constructor |
| Store.SavedConfigLoads | rsbkp.js:98-142 | the file a save writes loads without error; its hosts come back exactly, and `addMany` into an empty store restores them |
| Store.LoadConfigOf | rsbkp.js:133-139 | reading a configuration whose three loops complete gives their results |
| Store.SavingWrites | rsbkp.js:98-104 | a save whose deletions complete writes the snapshot, removes every queued directory, keeps every other file and directory, and keeps the queue |
| Store.Saving | rsbkp.js:98-104 | the queue, `initialized` and autosave stay; when the deletions complete the file holds the snapshot and the store is saved; when one throws, no file is written and `Saved` and the log stay |
| Store.SavingFails | rsbkp.js:98-104 | a save whose deletions throw writes nothing, keeps `Saved` and the log, removes only queued directories and changes nothing else |
| Store.SavingFailsAgain | rsbkp.js:87-104 | after a save throws, the next save throws the same error, the queue never being emptied |
| Store.QueuedConfigBlocksSave | rsbkp.js:87-104 | a queued path that is the configuration file makes every save throw |
| Store.SnapshotsBlockSave | rsbkp.js:87-104 | a queued task directory that still holds its `snapshots.json` makes the save throw |
| Store.RemoveWithSnapshotsRejects | rsbkp.js:307-318 | `removeTask` of a task whose directory holds `snapshots.json`, under autosave: the promise rejects, the log ends at `changed`, nothing is written, and later saves throw the same error |
| Store.SavingIdempotent | rsbkp.js:87-104 | saving twice leaves the disk as saving once |
| Store.AnnounceSaves | rsbkp.js:116-119 | after a successful operation the store is saved iff autosave is on and the save completes; the log gains `changed`, `saved` when that save completes, then the event unless the save threw; the disk changes only by that save; nothing else changes |
| Store.OnChanged | rsbkp.js:116-119 | the log gains `changed` first; the store ends saved iff autosave is on and its save completes; without autosave the disk is untouched |
| Store.Announce | rsbkp.js:116-119 | `changed` is logged first; the mutator's event ends the log iff the `changed` handler did not throw |
| Store.Settled | rsbkp.js:191-201 | a mutator's promise resolves iff the operation succeeded and the save `changed` ran did not throw; otherwise it rejects with the operation's error, or else with the save's |
| Store.AddKeepsTasks | rsbkp.js:320-331 | adding a well-formed task keeps every stored task well formed |
| Store.UpdateKeepsTasks | rsbkp.js:333-344 | so does updating |
| Store.RemoveKeepsTasks | rsbkp.js:307-318 | so does removing |
| Store.MoveToKeepsTasks | rsbkp.js:346-357 | so does `moveTo` |
| Store.MoveUpKeepsTasks | rsbkp.js:359-370 | so does `moveUp` |
| Store.MoveDownKeepsTasks | rsbkp.js:372-383 | so does `moveDown` |
| Store.HostCopy | rsbkp.js:183 | `new Host(host.data)` equals the stored host |
| Store.TaskCopy | rsbkp.js:298 | `new Task(task.data)` equals a stored, well-formed task |
| Store.Restored | rsbkp.js:141-147 | the three collections stay valid |
| Store.RestoredInOrder | rsbkp.js:141-147 | the hosts are what `addMany` leaves; when the hosts fail, tasks and profiles are untouched; profiles change only after the hosts and tasks both went in |
| Store.Rsbkp.constructor | rsbkp.js:22-58 | the directory and file come from the settings or their defaults; the collections are empty; the store is saved and not initialized |
| Store.Rsbkp.RunToDelete | rsbkp.js:92-96 | `toDelete.run()` on the store's disk: it throws what `Deletions` throws, and the directories it removed before that stay removed; nothing else changes |
| Store.Rsbkp.Commit | rsbkp.js:101-103 | the configuration file gets the snapshot, the store is saved, and `saved` is logged when asked; nothing else changes |
| Store.Rsbkp.Write | rsbkp.js:98-104 | the internal save: it throws what the deletions throw, and its new state is `Saving` |
| Store.Rsbkp.Save | rsbkp.js:105-114 | rejects and changes nothing when not initialized; else saves with `saved`, resolving `true` or rejecting with what the deletions threw |
| Store.Rsbkp.Changed | rsbkp.js:116-119 | `changed` clears `Saved` and saves at once under autosave; it throws what that save throws |
| Store.Rsbkp.Announced | rsbkp.js:194-195 | `changed`, then the mutator's event unless the `changed` handler threw |
| Store.Rsbkp.Emit | rsbkp.js:195 | `self.emit(event)` appends the event to the log and changes nothing else |
| Store.Rsbkp.AnnouncedIf | rsbkp.js:191-201 | announces only after a successful operation; the promise settles as `Settled` |
| Store.Rsbkp.SetAutoSave | rsbkp.js:67-71 | throws on a non-boolean and changes nothing; turning it on while unsaved saves (when initialized) |
| Store.Rsbkp.SetDefaultDateFormat | rsbkp.js:77-79 | stores `chkStr(value, 'dateFormat')` as the default and in the task template, or throws and changes nothing |
| Store.Rsbkp.ReadConfig | rsbkp.js:133-147 | a rejected file changes nothing; otherwise hosts, then tasks, then profiles are added, each only after the previous one succeeded |
| Store.Rsbkp.Restore | rsbkp.js:141-147 | the `addMany` chain leaves the three collections as `Restored` says, and keeps every stored task well formed |
| Store.Rsbkp.Start | rsbkp.js:152-156 | autosave on, default date format `YYYY-MM-DD HH:mm:ss`, initialized |
| Store.Rsbkp.Init | rsbkp.js:124-158 | rejects when initialized; creates the directory; a missing file is written without `saved`, and a throwing deletion rejects; a rejected file rejects and leaves the store uninitialized; otherwise it loads, then starts |
| Store.Rsbkp.GetHosts | rsbkp.js:168-170 | the hosts' forms, in collection order |
| Store.Rsbkp.GetHostNames | rsbkp.js:172-174 | the host names, each once |
| Store.Rsbkp.GetHostCount | rsbkp.js:176-178 | the number of hosts |
| Store.Rsbkp.GetHost | rsbkp.js:180-189 | what `get` resolves with |
| Store.Rsbkp.RemoveHost | rsbkp.js:191-201 | `RemoveFrom` on the hosts; announces `hostRemoved` only on success; the promise settles as `Settled` |
| Store.Rsbkp.SetHost | rsbkp.js:203-214 | `new Host(data)` first, whose error changes nothing; then `AddTo`; `hostSet` only on success; the promise settles as `Settled` |
| Store.Rsbkp.UpdateHost | rsbkp.js:216-227 | `new Host(data)` first; then `UpdateIn`; `hostUpdated` only on success; the promise settles as `Settled` |
| Store.Rsbkp.HostTo | rsbkp.js:229-240 | `MoveToIn` on the hosts; `hostTo` only on success; the promise settles as `Settled` |
| Store.Rsbkp.HostUp | rsbkp.js:242-253 | `MoveUpIn` with `count` defaulting to 1; `hostUp` only on success; the promise settles as `Settled` |
| Store.Rsbkp.HostDown | rsbkp.js:255-266 | `MoveDownIn` with `count` defaulting to 1; `hostDown` only on success; the promise settles as `Settled` |
| Store.Rsbkp.GetTasks | rsbkp.js:271-273 | the tasks' forms after the JSON copy, in collection order |
| Store.Rsbkp.GetTaskNames | rsbkp.js:275-277 | the task names, each once |
| Store.Rsbkp.GetTaskCount | rsbkp.js:279-281 | the number of tasks |
| Store.Rsbkp.GetTask | rsbkp.js:295-305 | what `get` resolves with, plus the task's snapshot list; an unparsable list rejects |
| Store.Rsbkp.RemoveTask | rsbkp.js:307-318 | `RemoveFrom` on the tasks; on success queues `rsbkpDir + '/' + name`, then announces `taskRemoved`; the promise settles as `Settled` |
| Store.Rsbkp.SetTask | rsbkp.js:320-331 | `new Task(data)` first, whose error changes nothing; then `AddTo`; `taskSet` only on success; the promise settles as `Settled` |
| Store.Rsbkp.UpdateTask | rsbkp.js:333-344 | `new Task(data)` first; then `UpdateIn`; `taskUpdated` only on success; the promise settles as `Settled` |
| Store.Rsbkp.TaskTo | rsbkp.js:346-357 | `MoveToIn` on the tasks; `taskTo` only on success; the promise settles as `Settled` |
| Store.Rsbkp.TaskUp | rsbkp.js:359-370 | `MoveUpIn` with `count` defaulting to 1; `taskUp` only on success; the promise settles as `Settled` |
| Store.Rsbkp.TaskDown | rsbkp.js:372-383 | `MoveDownIn` with `count` defaulting to 1; `taskDown` only on success; the promise settles as `Settled` |

## Left out

- Promises and the event emitter collapse to direct results and an event log. The order of asynchronous steps is not modelled; in particular `init` resolves before its `addMany` chain settles, so the model ignores a late failure there (rsbkp.js:141-147).
- File-system calls, JSON text and formatting are not modelled. The disk is a value with parsed files; `writeFileSync` stores the snapshot value; `rmdirSync` is modelled by its outcomes (absent path skipped, `ENOTDIR`, `ENOTEMPTY`, removal), not by its error objects.
- `process.env.HOME` and the settings object are constructor parameters. An absent setting is written `""`.
- Collections.CheckRef: a reference is an integer or a string. Other values (`null`, objects) have no form here.
- Collections.CheckRef: numbers are integers; fractions (`chkRef(1.5)`, which throws), `NaN` and `±Infinity` are not modelled, and neither is the double arithmetic of `'' + parseInt(s)`. `IsCanonicalInt` accepts every canonical integer numeral, so a numeral a double cannot spell back (above 2^53, such as `'9007199254740993'`, or of 22 digits or more) is accepted here and then reported as `out of range`, where the source throws `ref must be an integer or a string`.
- CheckStringArray: list elements are the modelled JavaScript values; a `NaN` element, which is falsy, has no form here.
- Collections.FindIn: after a numeric string reference the source's record holds that string as `index`; the model reports its integer value, which is what every later use reads except the `+` of `moveDown`, and that one is modelled (`JoinedValue`).
- Collections.Collection: `chkInt` on `index` and `count` is not modelled, because an index and a count are integers here. A missing `index` or `count` is `None` or defaults to 1. A string `count`, which `chkInt` lets through and `+` would then join as text, is not modelled.
- Collections.MoveUpIn and Collections.MoveDownIn: a negative `count` is modelled as the source runs it, through `splice`'s handling of negative and large starts; no precondition excludes it.
- Collections.FindIn: presence is own-key membership in `Data`; the source's truthiness test of `Data[name]` also admits the names a plain object inherits (see Findings). It also treats a name whose payload is falsy (`0`, `''`, `false`, `null`) as absent, so `get` rejects it and a second `add` of it duplicates the name; the store is unaffected, because hosts and tasks are objects and profiles are only loaded, with distinct keys, and saved.
- Collections.RemoveFrom: presence is own-key membership in `Data`; the source's truthiness test of `Data[name]` also admits the names a plain object inherits (see Findings). It also treats a name whose payload is falsy (`0`, `''`, `false`, `null`) as absent, so `get` rejects it and a second `add` of it duplicates the name; the store is unaffected, because hosts and tasks are objects and profiles are only loaded, with distinct keys, and saved.
- Collections.AddTo: presence is own-key membership in `Data`; the source's truthiness test of `Data[name]` also admits the names a plain object inherits (see Findings). It also treats a name whose payload is falsy (`0`, `''`, `false`, `null`) as absent, so `get` rejects it and a second `add` of it duplicates the name; the store is unaffected, because hosts and tasks are objects and profiles are only loaded, with distinct keys, and saved.
- Collections.UpdateIn: presence is own-key membership in `Data`; the source's truthiness test of `Data[name]` also admits the names a plain object inherits (see Findings). It also treats a name whose payload is falsy (`0`, `''`, `false`, `null`) as absent, so `get` rejects it and a second `add` of it duplicates the name; the store is unaffected, because hosts and tasks are objects and profiles are only loaded, with distinct keys, and saved.
- Collections.RenameIn: presence is own-key membership in `Data`; the source's truthiness test of `Data[name]` also admits the names a plain object inherits (see Findings). It also treats a name whose payload is falsy (`0`, `''`, `false`, `null`) as absent, so `get` rejects it and a second `add` of it duplicates the name; the store is unaffected, because hosts and tasks are objects and profiles are only loaded, with distinct keys, and saved.
- Collections.MoveToIn: presence is own-key membership in `Data`; the source's truthiness test of `Data[name]` also admits the names a plain object inherits (see Findings). It also treats a name whose payload is falsy (`0`, `''`, `false`, `null`) as absent, so `get` rejects it and a second `add` of it duplicates the name; the store is unaffected, because hosts and tasks are objects and profiles are only loaded, with distinct keys, and saved.
- Collections.MoveUpIn: presence is own-key membership in `Data`; the source's truthiness test of `Data[name]` also admits the names a plain object inherits (see Findings). It also treats a name whose payload is falsy (`0`, `''`, `false`, `null`) as absent, so `get` rejects it and a second `add` of it duplicates the name; the store is unaffected, because hosts and tasks are objects and profiles are only loaded, with distinct keys, and saved.
- Collections.MoveDownIn: presence is own-key membership in `Data`; the source's truthiness test of `Data[name]` also admits the names a plain object inherits (see Findings). It also treats a name whose payload is falsy (`0`, `''`, `false`, `null`) as absent, so `get` rejects it and a second `add` of it duplicates the name; the store is unaffected, because hosts and tasks are objects and profiles are only loaded, with distinct keys, and saved.
- Collections.AddManyTo: presence is own-key membership in `Data`; the source's truthiness test of `Data[name]` also admits the names a plain object inherits (see Findings). It also treats a name whose payload is falsy (`0`, `''`, `false`, `null`) as absent, so `get` rejects it and a second `add` of it duplicates the name; the store is unaffected, because hosts and tasks are objects and profiles are only loaded, with distinct keys, and saved.
- Collections.InsertEach: presence is own-key membership in `Data`; the source's truthiness test of `Data[name]` also admits the names a plain object inherits (see Findings). It also treats a name whose payload is falsy (`0`, `''`, `false`, `null`) as absent, so `get` rejects it and a second `add` of it duplicates the name; the store is unaffected, because hosts and tasks are objects and profiles are only loaded, with distinct keys, and saved.
- Collections.InsertEachOk: presence is own-key membership in `Data`; the source's truthiness test of `Data[name]` also admits the names a plain object inherits (see Findings). It also treats a name whose payload is falsy (`0`, `''`, `false`, `null`) as absent, so `get` rejects it and a second `add` of it duplicates the name; the store is unaffected, because hosts and tasks are objects and profiles are only loaded, with distinct keys, and saved.
- Collections.Collection.Get: presence is own-key membership in `Data`; the source's truthiness test of `Data[name]` also admits the names a plain object inherits (see Findings). It also treats a name whose payload is falsy (`0`, `''`, `false`, `null`) as absent, so `get` rejects it and a second `add` of it duplicates the name; the store is unaffected, because hosts and tasks are objects and profiles are only loaded, with distinct keys, and saved.
- Collections.Collection.Remove: presence is own-key membership in `Data`; the source's truthiness test of `Data[name]` also admits the names a plain object inherits (see Findings). It also treats a name whose payload is falsy (`0`, `''`, `false`, `null`) as absent, so `get` rejects it and a second `add` of it duplicates the name; the store is unaffected, because hosts and tasks are objects and profiles are only loaded, with distinct keys, and saved.
- Collections.Collection.Add: presence is own-key membership in `Data`; the source's truthiness test of `Data[name]` also admits the names a plain object inherits (see Findings). It also treats a name whose payload is falsy (`0`, `''`, `false`, `null`) as absent, so `get` rejects it and a second `add` of it duplicates the name; the store is unaffected, because hosts and tasks are objects and profiles are only loaded, with distinct keys, and saved.
- Collections.Collection.AddMany: presence is own-key membership in `Data`; the source's truthiness test of `Data[name]` also admits the names a plain object inherits (see Findings). It also treats a name whose payload is falsy (`0`, `''`, `false`, `null`) as absent, so `get` rejects it and a second `add` of it duplicates the name; the store is unaffected, because hosts and tasks are objects and profiles are only loaded, with distinct keys, and saved.
- Collections.Collection.Update: presence is own-key membership in `Data`; the source's truthiness test of `Data[name]` also admits the names a plain object inherits (see Findings). It also treats a name whose payload is falsy (`0`, `''`, `false`, `null`) as absent, so `get` rejects it and a second `add` of it duplicates the name; the store is unaffected, because hosts and tasks are objects and profiles are only loaded, with distinct keys, and saved.
- Collections.Collection.Rename: presence is own-key membership in `Data`; the source's truthiness test of `Data[name]` also admits the names a plain object inherits (see Findings). It also treats a name whose payload is falsy (`0`, `''`, `false`, `null`) as absent, so `get` rejects it and a second `add` of it duplicates the name; the store is unaffected, because hosts and tasks are objects and profiles are only loaded, with distinct keys, and saved.
- Collections.Collection.MoveTo: presence is own-key membership in `Data`; the source's truthiness test of `Data[name]` also admits the names a plain object inherits (see Findings). It also treats a name whose payload is falsy (`0`, `''`, `false`, `null`) as absent, so `get` rejects it and a second `add` of it duplicates the name; the store is unaffected, because hosts and tasks are objects and profiles are only loaded, with distinct keys, and saved.
- Collections.Collection.MoveUp: presence is own-key membership in `Data`; the source's truthiness test of `Data[name]` also admits the names a plain object inherits (see Findings). It also treats a name whose payload is falsy (`0`, `''`, `false`, `null`) as absent, so `get` rejects it and a second `add` of it duplicates the name; the store is unaffected, because hosts and tasks are objects and profiles are only loaded, with distinct keys, and saved.
- Collections.Collection.MoveDown: presence is own-key membership in `Data`; the source's truthiness test of `Data[name]` also admits the names a plain object inherits (see Findings). It also treats a name whose payload is falsy (`0`, `''`, `false`, `null`) as absent, so `get` rejects it and a second `add` of it duplicates the name; the store is unaffected, because hosts and tasks are objects and profiles are only loaded, with distinct keys, and saved.
- Store.Rsbkp.ReadConfig: presence is own-key membership in `Data`; the source's truthiness test of `Data[name]` also admits the names a plain object inherits (see Findings). It also treats a name whose payload is falsy (`0`, `''`, `false`, `null`) as absent, so `get` rejects it and a second `add` of it duplicates the name; the store is unaffected, because hosts and tasks are objects and profiles are only loaded, with distinct keys, and saved.
- Store.Rsbkp.Init: presence is own-key membership in `Data`; the source's truthiness test of `Data[name]` also admits the names a plain object inherits (see Findings). It also treats a name whose payload is falsy (`0`, `''`, `false`, `null`) as absent, so `get` rejects it and a second `add` of it duplicates the name; the store is unaffected, because hosts and tasks are objects and profiles are only loaded, with distinct keys, and saved.
- Store.Rsbkp.GetHost: presence is own-key membership in `Data`; the source's truthiness test of `Data[name]` also admits the names a plain object inherits (see Findings). It also treats a name whose payload is falsy (`0`, `''`, `false`, `null`) as absent, so `get` rejects it and a second `add` of it duplicates the name; the store is unaffected, because hosts and tasks are objects and profiles are only loaded, with distinct keys, and saved.
- Store.Rsbkp.RemoveHost: presence is own-key membership in `Data`; the source's truthiness test of `Data[name]` also admits the names a plain object inherits (see Findings). It also treats a name whose payload is falsy (`0`, `''`, `false`, `null`) as absent, so `get` rejects it and a second `add` of it duplicates the name; the store is unaffected, because hosts and tasks are objects and profiles are only loaded, with distinct keys, and saved.
- Store.Rsbkp.SetHost: presence is own-key membership in `Data`; the source's truthiness test of `Data[name]` also admits the names a plain object inherits (see Findings). It also treats a name whose payload is falsy (`0`, `''`, `false`, `null`) as absent, so `get` rejects it and a second `add` of it duplicates the name; the store is unaffected, because hosts and tasks are objects and profiles are only loaded, with distinct keys, and saved.
- Store.Rsbkp.UpdateHost: presence is own-key membership in `Data`; the source's truthiness test of `Data[name]` also admits the names a plain object inherits (see Findings). It also treats a name whose payload is falsy (`0`, `''`, `false`, `null`) as absent, so `get` rejects it and a second `add` of it duplicates the name; the store is unaffected, because hosts and tasks are objects and profiles are only loaded, with distinct keys, and saved.
- Store.Rsbkp.HostTo: presence is own-key membership in `Data`; the source's truthiness test of `Data[name]` also admits the names a plain object inherits (see Findings). It also treats a name whose payload is falsy (`0`, `''`, `false`, `null`) as absent, so `get` rejects it and a second `add` of it duplicates the name; the store is unaffected, because hosts and tasks are objects and profiles are only loaded, with distinct keys, and saved.
- Store.Rsbkp.HostUp: presence is own-key membership in `Data`; the source's truthiness test of `Data[name]` also admits the names a plain object inherits (see Findings). It also treats a name whose payload is falsy (`0`, `''`, `false`, `null`) as absent, so `get` rejects it and a second `add` of it duplicates the name; the store is unaffected, because hosts and tasks are objects and profiles are only loaded, with distinct keys, and saved.
- Store.Rsbkp.HostDown: presence is own-key membership in `Data`; the source's truthiness test of `Data[name]` also admits the names a plain object inherits (see Findings). It also treats a name whose payload is falsy (`0`, `''`, `false`, `null`) as absent, so `get` rejects it and a second `add` of it duplicates the name; the store is unaffected, because hosts and tasks are objects and profiles are only loaded, with distinct keys, and saved.
- Store.Rsbkp.GetTask: presence is own-key membership in `Data`; the source's truthiness test of `Data[name]` also admits the names a plain object inherits (see Findings). It also treats a name whose payload is falsy (`0`, `''`, `false`, `null`) as absent, so `get` rejects it and a second `add` of it duplicates the name; the store is unaffected, because hosts and tasks are objects and profiles are only loaded, with distinct keys, and saved.
- Store.Rsbkp.RemoveTask: presence is own-key membership in `Data`; the source's truthiness test of `Data[name]` also admits the names a plain object inherits (see Findings). It also treats a name whose payload is falsy (`0`, `''`, `false`, `null`) as absent, so `get` rejects it and a second `add` of it duplicates the name; the store is unaffected, because hosts and tasks are objects and profiles are only loaded, with distinct keys, and saved.
- Store.Rsbkp.SetTask: presence is own-key membership in `Data`; the source's truthiness test of `Data[name]` also admits the names a plain object inherits (see Findings). It also treats a name whose payload is falsy (`0`, `''`, `false`, `null`) as absent, so `get` rejects it and a second `add` of it duplicates the name; the store is unaffected, because hosts and tasks are objects and profiles are only loaded, with distinct keys, and saved.
- Store.Rsbkp.UpdateTask: presence is own-key membership in `Data`; the source's truthiness test of `Data[name]` also admits the names a plain object inherits (see Findings). It also treats a name whose payload is falsy (`0`, `''`, `false`, `null`) as absent, so `get` rejects it and a second `add` of it duplicates the name; the store is unaffected, because hosts and tasks are objects and profiles are only loaded, with distinct keys, and saved.
- Store.Rsbkp.TaskTo: presence is own-key membership in `Data`; the source's truthiness test of `Data[name]` also admits the names a plain object inherits (see Findings). It also treats a name whose payload is falsy (`0`, `''`, `false`, `null`) as absent, so `get` rejects it and a second `add` of it duplicates the name; the store is unaffected, because hosts and tasks are objects and profiles are only loaded, with distinct keys, and saved.
- Store.Rsbkp.TaskUp: presence is own-key membership in `Data`; the source's truthiness test of `Data[name]` also admits the names a plain object inherits (see Findings). It also treats a name whose payload is falsy (`0`, `''`, `false`, `null`) as absent, so `get` rejects it and a second `add` of it duplicates the name; the store is unaffected, because hosts and tasks are objects and profiles are only loaded, with distinct keys, and saved.
- Store.Rsbkp.TaskDown: presence is own-key membership in `Data`; the source's truthiness test of `Data[name]` also admits the names a plain object inherits (see Findings). It also treats a name whose payload is falsy (`0`, `''`, `false`, `null`) as absent, so `get` rejects it and a second `add` of it duplicates the name; the store is unaffected, because hosts and tasks are objects and profiles are only loaded, with distinct keys, and saved.
- Collections.Ordered: the export keeps `Names` order; a plain object lists array-index keys such as `'1'` first (see Findings).
- Collections.OrderedRoundTrip: the export keeps `Names` order; a plain object lists array-index keys such as `'1'` first (see Findings).
- Collections.Collection.GetData: the export keeps `Names` order; a plain object lists array-index keys such as `'1'` first (see Findings).
- Js.Assign: the export keeps `Names` order; a plain object lists array-index keys such as `'1'` first (see Findings).
- Js.AssignNewKey: the export keeps `Names` order; a plain object lists array-index keys such as `'1'` first (see Findings).
- Js.MapPropsFresh: the export keeps `Names` order; a plain object lists array-index keys such as `'1'` first (see Findings).
- Store.Exported: the export keeps `Names` order; a plain object lists array-index keys such as `'1'` first (see Findings).
- Store.CollectionJsonOrder: the export keeps `Names` order; a plain object lists array-index keys such as `'1'` first (see Findings).
- Store.RebuildOrdered: the export keeps `Names` order; a plain object lists array-index keys such as `'1'` first (see Findings).
- Store.SavedHostsLoad: the export keeps `Names` order; a plain object lists array-index keys such as `'1'` first (see Findings).
- Store.SavedConfigLoads: the export keeps `Names` order; a plain object lists array-index keys such as `'1'` first (see Findings).
- Store.Rsbkp.GetHosts: the export keeps `Names` order; a plain object lists array-index keys such as `'1'` first (see Findings).
- Store.Rsbkp.GetTasks: the export keeps `Names` order; a plain object lists array-index keys such as `'1'` first (see Findings).
- Store: the profile wrappers (rsbkp.js:410-445) are not modelled. They call getters as functions and emit `changed` before the operation. The profile collection itself is modelled: it is loaded and saved.
- Store: `testTask`, `runTask` and `runDiff` are stubs, and the `inspect` methods are debugging hooks; they are left out.
- Hosts, Tasks, EndPoints: `Host(tpl)` and `Task(tpl)` without `new` forward to `new`, as in the source, so they are the same functions.
- Store.Rsbkp.Init: the directory is created with mode 0700; file modes are not modelled.
- PlainObject.UpdateAsWritten: `update('__proto__', d)` makes `d` the prototype of `Data`; the model keeps the names and own payloads, but not the names `d` then lends to `get` (such as `bkpRoot` and `export` of a host), which resolve at index -1.
- Js.Assign: the key `__proto__` is treated as an ordinary own key; in JavaScript `o['__proto__'] = v` runs the prototype setter and creates no key.
- Js.AssignNewKey: the key `__proto__` is treated as an ordinary own key and appended; JavaScript appends nothing.
- Js.MapPropsFresh: the key `__proto__` is treated as an ordinary own key and appended; JavaScript appends nothing.
- DateFormatting.DateFormatsOfObject: a template key `__proto__` is copied as an entry; JavaScript's setter ignores the string value, so the source keeps no such entry.
- Store.LoadConfig: a key `__proto__` under `hosts`, `tasks` or `profiles` becomes an own key of `h`, `t` or `p`; in the source `h[name] = …` sets their prototype instead, and the `for-in` of `addMany` then loads the prototype's enumerable keys (for a host: `bkpRoot`, `export`, `inspect`, `toJSON`).
- Store.Rsbkp.ReadConfig: a key `__proto__` in the configuration file is loaded as an ordinary name (and the inherited-name test of `addMany` as written would reject it); the source sets the prototype of the loaded object instead, as the Store.LoadConfig line says.
- Collections.CheckName: names are strings; a non-string name (`setHost(5, …)`, which `chkName` rejects with `name must be a string`) has no form here.
- Js.ForIn: a string is a sequence of Unicode scalar values, so `for-in` over `'😀'` yields one key here and two in JavaScript, which counts UTF-16 code units.
- Store.SnapsDirInjective: paths are compared as strings and never resolved (a trailing `/`, `./`, `..`), so tasks `a` and `a/` have distinct path strings although they share one directory on disk.
- Numeric: `isNaN` is modelled on strings only; the StringNumericLiteral grammar does not cover numeric separators, which `Number` rejects anyway.

## Findings

| source | as written | input that shows it | evidently intended | confidence | as-written member | corrected member |
|---|---|---|---|---|---|---|
| lib/end-point.js:9-11 | `EndPoint(tpl)` without `new` returns `new EndPoint()`, dropping `tpl` | `EndPoint({host: 'srv'})` has host `''` | `return new EndPoint(tpl)`, as `Host`, `Task` and `DateFormats` do | high, not executed | EndPoints.CallEndPoint | EndPoints.NewEndPoint |
| lib/collection.js:51-89 | presence is the truthiness of `Data[name]` on a plain object `{}`, which inherits `toString`, `constructor` and the other `Object.prototype` names | `removeHost('toString')` on hosts `[a, b]` resolves with index -1 and drops `b` from the names while its payload stays | an own-key test, as `Object.prototype.hasOwnProperty.call(Data, name)` or a `Map` | high, not executed | PlainObject.RemoveInheritedDropsLast | Collections.RemoveFrom |
| lib/collection.js:35-43 | the export builds a plain object key by key, and a plain object lists array-index keys first whatever the insertion order | hosts `b`, `1` (`1` loaded from a file, then `hostTo('b', 0)`) are saved as `{1, b}` and read back as `[1, b]` | the saved file keeps `Names` order | medium, not executed | PlainObject.ExportIndexFirst | Collections.OrderedRoundTrip |
