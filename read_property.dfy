/**
 * `ReadPropertyFromJsonExecutor`: unwraps a JSON text that may have been
 * stringified several times, then reads one property of the object it
 * denotes.
 *
 * `JSON.parse` is the `parse` parameter (`None` when it throws) and
 * `JSON.stringify` the `stringify` parameter.
 */
module ReadProperty {
  import opened Common
  import opened Strings
  import opened Json
  import opened ExecutorIo

  /** `maxParseAttempts`. */
  const MaxParseAttempts: nat := 5

  /**
   * The re-parse loop as a function: from `json` after `attempts` parses, it
   * parses again while the value is a string, fewer than five parses were
   * made and the parse succeeds. The result is the final value and the
   * number of parses.
   */
  function Unwrap(json: Value, attempts: nat, parse: string -> Option<Value>): (Value, nat)
    decreases MaxParseAttempts - attempts
  {
    if json.JStr? && attempts < MaxParseAttempts then
      match parse(json.s)
      case None => (json, attempts)
      case Some(parsed) => Unwrap(parsed, attempts + 1, parse)
    else (json, attempts)
  }

  /**
   * The `while` loop over `json` and `parseAttempts`, starting from the
   * input text.
   */
  method UnwrapJson(data: string, parse: string -> Option<Value>) returns (json: Value, attempts: nat)
    ensures (json, attempts) == Unwrap(JStr(data), 0, parse)
  {
    json := JStr(data);
    attempts := 0;
    while json.JStr? && attempts < MaxParseAttempts
      invariant attempts <= MaxParseAttempts
      invariant Unwrap(json, attempts, parse) == Unwrap(JStr(data), 0, parse)
      decreases MaxParseAttempts - attempts
    {
      var parsed := parse(json.s);
      if parsed.None? {
        break;
      }
      json := parsed.value;
      attempts := attempts + 1;
    }
  }

  /**
   * The loop never makes more than five parses, and it stops on a string only
   * when the five are used up or that string does not parse.
   */
  lemma {:induction false} UnwrapStops(json: Value, attempts: nat, parse: string -> Option<Value>)
    requires attempts <= MaxParseAttempts
    ensures var (v, n) := Unwrap(json, attempts, parse);
      attempts <= n <= MaxParseAttempts
      && (v.JStr? ==> n == MaxParseAttempts || parse(v.s).None?)
      && (n == attempts ==> v == json)
    decreases MaxParseAttempts - attempts
  {
    if json.JStr? && attempts < MaxParseAttempts && parse(json.s).Some? {
      UnwrapStops(parse(json.s).value, attempts + 1, parse);
    }
  }

  /** `v` stringified `n` times over. */
  function Wrapped(v: Value, n: nat, stringify: Value -> string): (r: Value)
    ensures n > 0 ==> r.JStr?
  {
    if n == 0 then v else JStr(stringify(Wrapped(v, n - 1, stringify)))
  }

  /**
   * When parsing undoes stringifying, a value that is not a string and was
   * stringified `n` times is recovered with `n` parses, as long as the five
   * attempts cover them.
   */
  lemma {:induction false} UnwrapWrapped(v: Value, n: nat, attempts: nat, parse: string -> Option<Value>, stringify: Value -> string)
    requires forall x :: parse(stringify(x)) == Some(x)
    requires !v.JStr? && attempts + n <= MaxParseAttempts
    ensures Unwrap(Wrapped(v, n, stringify), attempts, parse) == (v, attempts + n)
  {
    if n > 0 {
      assert parse(stringify(Wrapped(v, n - 1, stringify))) == Some(Wrapped(v, n - 1, stringify));
      UnwrapWrapped(v, n - 1, attempts + 1, parse, stringify);
    }
  }

  /** Six levels of stringification are one too many: the loop ends on a string. */
  lemma TooDeeplyWrapped(v: Value, parse: string -> Option<Value>, stringify: Value -> string)
    requires forall x :: parse(stringify(x)) == Some(x)
    requires !v.JStr?
    ensures Unwrap(Wrapped(v, MaxParseAttempts + 1, stringify), 0, parse) == (Wrapped(v, 1, stringify), MaxParseAttempts)
  {
    var w := Wrapped(v, 1, stringify);
    WrappedShift(v, MaxParseAttempts, stringify);
    UnwrapWrappedString(w, MaxParseAttempts, parse, stringify);
  }

  /** Wrapping `n + 1` times is wrapping the once-wrapped value `n` times. */
  lemma {:induction false} WrappedShift(v: Value, n: nat, stringify: Value -> string)
    ensures Wrapped(v, n + 1, stringify) == Wrapped(Wrapped(v, 1, stringify), n, stringify)
  {
    if n > 0 {
      WrappedShift(v, n - 1, stringify);
    }
  }

  /** Five parses peel five levels off any value, a string included. */
  lemma {:induction false} UnwrapWrappedString(w: Value, n: nat, parse: string -> Option<Value>, stringify: Value -> string)
    requires forall x :: parse(stringify(x)) == Some(x)
    requires n <= MaxParseAttempts
    ensures Unwrap(Wrapped(w, n, stringify), MaxParseAttempts - n, parse) == (w, MaxParseAttempts)
  {
    if n > 0 {
      assert parse(stringify(Wrapped(w, n - 1, stringify))) == Some(Wrapped(w, n - 1, stringify));
      UnwrapWrappedString(w, n - 1, parse, stringify);
    }
  }

  /** `typeof propertyValue === 'object' ? JSON.stringify(propertyValue) : propertyValue`. */
  function OutputValue(v: Value, stringify: Value -> string): (r: Value)
    ensures IsObjectType(v) ==> r == JStr(stringify(v))
    ensures !IsObjectType(v) ==> r == v
  {
    if IsObjectType(v) then JStr(stringify(v)) else v
  }

  /** An output value is never an object, an array or `null`: those become their JSON text. */
  lemma OutputIsPrimitive(v: Value, stringify: Value -> string)
    ensures !IsObjectType(OutputValue(v, stringify))
  {
  }

  const JsonMissing: string := "input -> JSON is not defined"
  const NameMissing: string := "input -> Property name is not defined"

  /** The two errors logged when the unwrapped value is not an object. */
  function NotObjectErrors(json: Value, attempts: nat): (r: seq<string>)
    ensures |r| == 2
  {
    ["After " + NatToString(attempts) + " parse attempts, result is not an object. Type: " + TypeOf(json),
     "Final value: " + ToStr(json)]
  }

  /** `Property '<name>' not found in JSON object`. */
  function NotFoundError(name: string): string {
    "Property '" + name + "' not found in JSON object"
  }

  /** `ReadPropertyFromJsonExecutor`, with the loop's result taken from `Unwrap`. */
  function ReadPropertyRun(inputs: Inputs, parse: string -> Option<Value>, stringify: Value -> string): Run {
    match Input(inputs, "JSON")
    case None => Fail(JsonMissing)
    case Some(data) =>
      match Input(inputs, "Property name")
      case None => Fail(NameMissing)
      case Some(name) =>
        var (json, attempts) := Unwrap(JStr(data), 0, parse);
        if !IsObjectType(json) || json.JNull? then Run(false, [], NotObjectErrors(json, attempts))
        else if !HasProperty(json, name) then Fail(NotFoundError(name))
        else Done([("Property Value", OutputValue(Get(json, name), stringify))])
  }

  /** The executor itself: guards, the re-parse loop, the object check, the lookup and the output. */
  method ReadPropertyFromJson(inputs: Inputs, parse: string -> Option<Value>, stringify: Value -> string) returns (run: Run)
    ensures run == ReadPropertyRun(inputs, parse, stringify)
  {
    var data := Input(inputs, "JSON");
    if data.None? {
      return Fail(JsonMissing);
    }
    var name := Input(inputs, "Property name");
    if name.None? {
      return Fail(NameMissing);
    }
    var json, attempts := UnwrapJson(data.value, parse);
    if !IsObjectType(json) || json.JNull? {
      return Run(false, [], NotObjectErrors(json, attempts));
    }
    if !HasProperty(json, name.value) {
      return Fail(NotFoundError(name.value));
    }
    return Done([("Property Value", OutputValue(Get(json, name.value), stringify))]);
  }

  /**
   * The step succeeds exactly when both inputs are present, the unwrapped
   * value is an object or an array and it has the property; it then outputs
   * the property's value, as JSON text when that is object-typed. Every
   * failure leaves no output and at least one error.
   */
  lemma ReadPropertyOutcome(inputs: Inputs, parse: string -> Option<Value>, stringify: Value -> string)
    ensures var run := ReadPropertyRun(inputs, parse, stringify);
      run.success <==>
        && Input(inputs, "JSON").Some? && Input(inputs, "Property name").Some?
        && var json := Unwrap(JStr(inputs["JSON"]), 0, parse).0;
           (json.JObj? || json.JArr?) && HasProperty(json, inputs["Property name"])
    ensures var run := ReadPropertyRun(inputs, parse, stringify);
      run.success ==>
        var json := Unwrap(JStr(inputs["JSON"]), 0, parse).0;
        var v := Get(json, inputs["Property name"]);
        run.errors == [] && run.outputs == [("Property Value", OutputValue(v, stringify))]
    ensures var run := ReadPropertyRun(inputs, parse, stringify);
      !run.success ==> run.outputs == [] && run.errors != []
  {
  }

  /**
   * An object stringified up to five times is read as if it had been given
   * directly; stringified six times it is refused after five parses.
   */
  lemma NestedJsonRead(inputs: Inputs, fields: Fields, n: nat, parse: string -> Option<Value>, stringify: Value -> string)
    requires forall x :: parse(stringify(x)) == Some(x)
    requires 1 <= n && Input(inputs, "JSON").Some? && Input(inputs, "Property name").Some?
    requires JStr(inputs["JSON"]) == Wrapped(JObj(fields), n, stringify)
    ensures n <= MaxParseAttempts ==>
      var run := ReadPropertyRun(inputs, parse, stringify);
      run.success <==> HasKey(fields, inputs["Property name"])
    ensures n == MaxParseAttempts + 1 ==>
      ReadPropertyRun(inputs, parse, stringify)
        == Run(false, [], NotObjectErrors(Wrapped(JObj(fields), 1, stringify), MaxParseAttempts))
  {
    if n <= MaxParseAttempts {
      UnwrapWrapped(JObj(fields), n, 0, parse, stringify);
    }
    if n == MaxParseAttempts + 1 {
      TooDeeplyWrapped(JObj(fields), parse, stringify);
    }
  }
}
