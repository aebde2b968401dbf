/** Dynamic JavaScript values as they arrive in a request body or query, and the
    `{ success, message?, data? }` envelope every endpoint answers with. */
module Api {
  import opened Text
  import opened Collections

  /** A field of a parsed JSON body after destructuring; a missing field is `Undefined`.
      Numbers are integers here. */
  datatype Value = Undefined | Null | Bool(b: bool) | Num(n: int) | Str(s: string) | Arr(items: seq<Value>) | Obj

  /** JavaScript truthiness (`if (v)`, `!v`, `v || fallback`). */
  predicate Truthy(v: Value) {
    match v
    case Undefined => false
    case Null => false
    case Bool(b) => b
    case Num(n) => n != 0
    case Str(s) => s != ""
    case Arr(_) => true
    case Obj => true
  }

  function NatToString(n: nat): string
    decreases n
  {
    var d := [(n % 10 + '0' as int) as char];
    if n < 10 then d else NatToString(n / 10) + d
  }

  /** `String(v)`; an array is joined with "," and its null/undefined elements become "". */
  function ToJsString(v: Value): string
    decreases v
  {
    match v
    case Undefined => "undefined"
    case Null => "null"
    case Bool(b) => if b then "true" else "false"
    case Num(n) => if n < 0 then "-" + NatToString(-n) else NatToString(n)
    case Str(s) => s
    case Arr(items) =>
      Join(seq(|items|, i requires 0 <= i < |items| =>
             if items[i].Undefined? || items[i].Null? then "" else ToJsString(items[i])), ",")
    case Obj => "[object Object]"
  }

  /** The two workspaces; every link and reminder belongs to one of them. */
  const Workspaces: seq<string> := ["office", "personal"]

  /** A workspace name is already trimmed. */
  lemma WorkspaceIsTrimmed(k: string)
    requires k in Workspaces
    ensures IsTrimmed(k)
  {
  }

  /** The JSON envelope `{ success, message?, data? }`. A body that is not JSON is read
      as `{}`: `Body(false, None, None)`. */
  datatype Body<T> = Body(success: bool, message: Option<string>, data: Option<T>)

  /** An HTTP reply: status code and envelope. */
  datatype Reply<T> = Reply(status: int, body: Body<T>)

  /** `res.ok` */
  predicate IsOk(status: int) {
    200 <= status <= 299
  }

  function Failure<T>(status: int, message: string): (r: Reply<T>)
    ensures !r.body.success && r.body.data.None?
  {
    Reply(status, Body(false, Some(message), None))
  }

  function Success<T>(status: int, message: Option<string>, data: T): (r: Reply<T>)
    ensures r.body.success && r.body.data == Some(data)
  {
    Reply(status, Body(true, message, Some(data)))
  }

  /** What `fetch` yields to the client: a rejected promise or a reply. */
  datatype Fetched<T> = NetworkError(message: string) | Received(reply: Reply<T>)

  /** The result of an async client operation: a value, or an `Error` thrown with a message. */
  datatype Outcome<T> = Done(value: T) | Thrown(message: string)

  /** `message || fallback` */
  function OrElse(message: Option<string>, fallback: string): (r: string)
    ensures fallback != "" ==> r != ""
    ensures message.Some? && message.value != "" ==> r == message.value
    ensures message.None? || message.value == "" ==> r == fallback
  {
    if message.Some? && message.value != "" then message.value else fallback
  }

  /** `!v || !v.trim()` holds: the field is missing, empty or whitespace. */
  predicate BlankField(v: Value) {
    !Truthy(v) || (v.Str? && Blank(v.s))
  }

  /** The field passes `!v || !v.trim()` without throwing: a string that is not blank. */
  predicate FilledText(v: Value) {
    v.Str? && !Blank(v.s)
  }

  /** A truthy value that is not a string has no `trim` method: calling it throws. */
  predicate ThrowsOnTrim(v: Value) {
    Truthy(v) && !v.Str?
  }

  /** A required text field read with `!v || !v.trim()` and then `v.trim()`. */
  datatype TextField = Missing | NoTrim | Given(s: string)

  function RequiredText(v: Value): (r: TextField)
    ensures r.Missing? <==> BlankField(v)
    ensures r.NoTrim? <==> ThrowsOnTrim(v)
    ensures r.Given? <==> FilledText(v)
    ensures r.Given? ==> r.s == Trim(v.s) && r.s != "" && IsTrimmed(r.s)
  {
    if !Truthy(v) then Missing
    else if !v.Str? then NoTrim
    else
      TrimEmptyIffBlank(v.s);
      if Trim(v.s) == "" then Missing else Given(Trim(v.s))
  }
}
