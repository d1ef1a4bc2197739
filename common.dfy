/** Values shared by the client, the stream resolver and the proxy: optional and
    fallible results, decoded JSON documents, response bodies, the errors the
    package raises, and the pieces of Python's semantics (truthiness, indexing)
    that the package's control flow depends on. */
module Common {

  newtype byte = x: int | 0 <= x < 256

  datatype Option<+T> = None | Some(value: T)

  datatype Result<+T, +E> = Success(value: T) | Failure(error: E) {
    predicate IsFailure() { Failure? }
    function PropagateFailure<U>(): Result<U, E>
      requires Failure?
    {
      Failure(error)
    }
    function Extract(): T
      requires Success?
    {
      value
    }
  }

  /** A decoded JSON value. Numbers are integers only. */
  datatype Json =
    | JNull
    | JBool(b: bool)
    | JNum(n: int)
    | JStr(s: string)
    | JArr(items: seq<Json>)
    | JObj(fields: map<string, Json>)

  /** What `request` returns: the response body decoded as JSON, as text or as bytes. */
  datatype Body = JsonBody(json: Json) | TextBody(text: string) | BytesBody(bytes: seq<byte>)

  /** Why the HTTP layer failed: a status the server answered with (raise_for_status),
      or one of the client-side failures the request method catches. */
  datatype Cause = BadStatus(status: int) | ServerTimeout | InvalidUrl | ConnectionFailure

  /** Python exceptions that the package's own code raises and never catches. */
  datatype Fault = KeyError | IndexError | TypeError | AttributeError | ValueError

  datatype Error =
    /** RequestError(url, original_exception), raised by `request`. */
    | RequestError(url: string, cause: Cause)
    /** AuthenticationError(message, original_exception). */
    | AuthenticationError(message: string, originalException: Option<Error>)
    /** An uncaught Python exception; `context` is the exception being handled when it was raised. */
    | RuntimeFault(fault: Fault, context: Option<Error>)

  /** The outcome of a step that returns nothing. */
  datatype Outcome = Pass | Fail(error: Error)

  /** Python's truth value of a decoded JSON value. */
  predicate Truthy(j: Json)
  {
    match j
    case JNull => false
    case JBool(b) => b
    case JNum(n) => n != 0
    case JStr(s) => s != []
    case JArr(items) => items != []
    case JObj(fields) => fields != map[]
  }

  /** Python's truth value of a stored response (`None` when nothing was stored). */
  predicate BodyTruthy(b: Option<Body>)
  {
    match b
    case None => false
    case Some(JsonBody(j)) => Truthy(j)
    case Some(TextBody(t)) => t != []
    case Some(BytesBody(bs)) => bs != []
  }

  /** `j[key]` for a string key. */
  function Key(j: Json, key: string): (r: Result<Json, Error>)
    ensures r.Success? <==> j.JObj? && key in j.fields
    ensures r.Success? ==> r.value == j.fields[key]
    ensures r.Failure? ==> r.error.RuntimeFault?
  {
    match j
    case JObj(fields) => if key in fields then Success(fields[key]) else Failure(RuntimeFault(KeyError, None))
    case _ => Failure(RuntimeFault(TypeError, None))
  }

  /** `j[0]`: the first element of a list, the first character of a string. */
  function First(j: Json): (r: Result<Json, Error>)
    ensures r.Success? <==> (j.JArr? && j.items != []) || (j.JStr? && j.s != [])
  {
    match j
    case JArr(items) => if items != [] then Success(items[0]) else Failure(RuntimeFault(IndexError, None))
    case JStr(s) => if s != [] then Success(JStr([s[0]])) else Failure(RuntimeFault(IndexError, None))
    case JObj(_) => Failure(RuntimeFault(KeyError, None))
    case _ => Failure(RuntimeFault(TypeError, None))
  }

  /** `stored[key]` on a stored response; `None`, text and bytes are not subscriptable by a string. */
  function BodyKey(b: Option<Body>, key: string): (r: Result<Json, Error>)
    ensures r.Success? <==> b.Some? && b.value.JsonBody? && Key(b.value.json, key).Success?
    ensures r.Failure? ==> r.error.RuntimeFault?
  {
    match b
    case Some(JsonBody(j)) => Key(j, key)
    case _ => Failure(RuntimeFault(TypeError, None))
  }

  /** A JSON value used where the code needs a string. */
  function Str(j: Json): (r: Result<string, Error>)
    ensures r.Success? <==> j.JStr?
  {
    if j.JStr? then Success(j.s) else Failure(RuntimeFault(TypeError, None))
  }

  /** `stored[key]` used as a string (a grant, a token). */
  function StrField(b: Option<Body>, key: string): (r: Result<string, Error>)
    ensures r.Success? <==> BodyKey(b, key).Success? && BodyKey(b, key).value.JStr?
    ensures r.Success? ==> JStr(r.value) == BodyKey(b, key).value
  {
    var j :- BodyKey(b, key);
    Str(j)
  }

  /** Reading a field raises a Python exception of its own, never a transport error. */
  lemma {:induction false} StrFieldFault(b: Option<Body>, key: string)
    ensures StrField(b, key).Failure? ==> StrField(b, key).error.RuntimeFault?
  {
    if BodyKey(b, key).Success? {
      assert StrField(b, key) == Str(BodyKey(b, key).value);
    }
  }

  /** A body used as a string, as `re.search` does with it. */
  function AsText(b: Body): (r: Result<string, Error>)
    ensures r.Success? <==> b.TextBody? || (b.JsonBody? && b.json.JStr?)
  {
    match b
    case TextBody(t) => Success(t)
    case JsonBody(JStr(s)) => Success(s)
    case _ => Failure(RuntimeFault(TypeError, None))
  }

  /** The index of the first occurrence of `c` in `s`, if any. */
  function IndexOf(s: string, c: char): (i: Option<nat>)
    ensures i.Some? ==> i.value < |s| && s[i.value] == c && c !in s[..i.value]
    ensures i.None? ==> c !in s
  {
    if s == [] then None
    else if s[0] == c then Some(0)
    else
      var i := IndexOf(s[1..], c);
      if i.Some? then
        assert s[..i.value + 1] == [s[0]] + s[1..][..i.value];
        Some(i.value + 1)
      else None
  }

  /** An occurrence of `c` with none before it is the one `IndexOf` finds. */
  lemma {:induction false} IndexOfUnique(s: string, c: char, i: nat)
    requires i < |s| && s[i] == c && c !in s[..i]
    ensures IndexOf(s, c) == Some(i)
    decreases i
  {
    if i > 0 {
      assert s[..i][0] == s[0];
      assert s[1..][..i - 1] == s[1..i];
      IndexOfUnique(s[1..], c, i - 1);
    }
  }

  lemma {:induction false} IndexOfFirst(a: string, c: char, b: string)
    requires c !in a
    ensures IndexOf(a + [c] + b, c) == Some(|a|)
  {
    var s := a + [c] + b;
    assert s[..|a|] == a;
    IndexOfUnique(s, c, |a|);
  }

  predicate StartsWith(s: string, p: string)
  {
    |p| <= |s| && s[..|p|] == p
  }

  /** `p` occurs somewhere in `s`. */
  predicate Contains(s: string, p: string)
  {
    exists i | 0 <= i <= |s| :: StartsWith(s[i..], p)
  }
}
