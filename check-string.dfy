/** lib/check-string.js: `chkStr(str, key, msg)` turns a falsy value into the
    empty string, returns a string unchanged and throws on anything else. */
module CheckString {
  import opened Js

  /** The message of the error `chkStr` throws: `msg`, or `${key} must be a string`
      with `key` defaulting to `'key'`.  The empty string stands for an omitted
      (or otherwise falsy) `key` or `msg`. */
  function StrMessage(key: string, msg: string): string {
    var k := if key == "" then "key" else key;
    if msg == "" then k + " must be a string" else msg
  }

  /** With neither key nor message, the error reads `key must be a string`. */
  lemma DefaultStrMessage()
    ensures StrMessage("", "") == "key must be a string"
  {
    assert "key" + " must be a string" == "key must be a string";
  }

  /** `chkStr(str, key, msg)`. */
  function ChkStr(str: JsValue, key: string, msg: string): (r: Result<string>)
    ensures !Truthy(str) ==> r == Ok("")
    ensures str.Str? ==> r == Ok(str.s)
    ensures r.Ok? <==> !Truthy(str) || str.Str?
    ensures r.Err? ==> r.error == ValidationError(StrMessage(key, msg))
  {
    var s := Or(str, Str(""));
    if TypeOf(s) != "string" then Err(ValidationError(StrMessage(key, msg))) else Ok(s.s)
  }

  /** Whatever `chkStr` returns, it returns again when given it back, whatever
      the key and message. */
  lemma ChkStrIdempotent(str: JsValue, key: string, msg: string, key': string, msg': string)
    requires ChkStr(str, key, msg).Ok?
    ensures ChkStr(Str(ChkStr(str, key, msg).value), key', msg') == ChkStr(str, key, msg)
  {
  }
}
