/** The max-radial isovist service of src/maxradial-service.cc: the logging
    levels its command line switches off, the command-line option handler,
    and the two message handlers that decode sample points and route the
    scenario reply. The connection, the retry loop, the signal handler and
    the GPU computation are not modelled; the computation is a parameter. */
module Service {
  import opened Wrappers
  import opened Space
  import GeoJson

  // ---------------------------------------------------------------- logging

  datatype Level = Trace | Debug | Info | Warning | Error | Fatal

  /** The `set(..., Enabled, "false")` statements of the switch on the log
      level, in the order they appear under `case 4`, `case 3`, `case 2`
      and `case 1`; with fall-through a case runs its own statement and
      every later one. */
  const CaseStatements: seq<Level> := [Warning, Info, Debug, Trace]

  /** The statements run when the switch enters at case position k. */
  function FallThrough(k: nat): set<Level>
    decreases |CaseStatements| - k
  {
    if k >= |CaseStatements| then {} else {CaseStatements[k]} + FallThrough(k + 1)
  }

  /** The levels switched off for a command-line log level. */
  function Disabled(loglevel: int): (off: set<Level>)
    ensures loglevel == 4 ==> off == {Warning, Info, Debug, Trace}
    ensures loglevel == 3 ==> off == {Info, Debug, Trace}
    ensures loglevel == 2 ==> off == {Debug, Trace}
    ensures loglevel == 1 ==> off == {Trace}
    ensures !(1 <= loglevel <= 4) ==> off == {}
    ensures Error !in off && Fatal !in off
  {
    assert FallThrough(3) == {Trace};
    assert FallThrough(2) == {Debug, Trace};
    assert FallThrough(1) == {Info, Debug, Trace};
    assert FallThrough(0) == {Warning, Info, Debug, Trace};
    if 1 <= loglevel <= 4 then FallThrough(4 - loglevel) else {}
  }

  /** Fall-through makes the cascade monotone: a higher level in 1..4
      switches off everything a lower one does. */
  lemma CascadeMonotone(lo: int, hi: int)
    requires 1 <= lo <= hi <= 4
    ensures Disabled(lo) <= Disabled(hi)
  {
  }

  // ------------------------------------------------------ argument parsing

  /** The parsed arguments; the host is the option's argument string, which
      may be null. */
  datatype Arguments = Arguments(host: Option<string>, port: int, loglevel: int, retries: int)

  /** The keys `argp` hands to the option handler: an option with its
      (possibly missing) argument, a positional argument with the number of
      positional arguments seen before it, the end of the arguments, or one
      of argp's other special keys (initialisation, no arguments, success,
      error, finalisation). Unknown options never reach the handler: argp
      rejects them itself. */
  datatype Key =
    | Host(arg: Option<string>)
    | Port(arg: Option<string>)
    | LogLevel(arg: Option<string>)
    | Retries(arg: Option<string>)
    | Positional(argNum: nat)
    | End(argNum: nat)
    | Special

  datatype ParseError = UsageError | UnknownKey

  /** The values `main` starts from. */
  const Defaults: Arguments := Arguments(Some("localhost"), 7654, 2, 5)

  /** `parse_opt`. `atoi` is the C library conversion. The end-of-arguments
      check compares an unsigned count with 0 and never fires. */
  function ParseOpt(args: Arguments, key: Key, atoi: string -> int): (r: Result<Arguments, ParseError>)
    // errors: a second positional argument, and keys the handler does not know
    ensures r == Err(UsageError) <==> key.Positional? && key.argNum > 0
    ensures r == Err(UnknownKey) <==> key.Special?
    // an option sets its own field and no other
    ensures r.Ok? && !key.Host? ==> r.value.host == args.host
    ensures r.Ok? && !key.Port? ==> r.value.port == args.port
    ensures r.Ok? && !key.LogLevel? ==> r.value.loglevel == args.loglevel
    ensures r.Ok? && !key.Retries? ==> r.value.retries == args.retries
    // the value: the converted argument, or the default when it is missing
    ensures key.Host? ==> r.Ok? && r.value.host == key.arg
    ensures key.Port? ==> r.Ok? && r.value.port == (if key.arg.Some? then atoi(key.arg.value) else Defaults.port)
    ensures key.LogLevel? ==> r.Ok? && r.value.loglevel == (if key.arg.Some? then atoi(key.arg.value) else Defaults.loglevel)
    ensures key.Retries? ==> r.Ok? && r.value.retries == (if key.arg.Some? then atoi(key.arg.value) else Defaults.retries)
  {
    match key
    case Port(arg) => Ok(args.(port := if arg.Some? then atoi(arg.value) else 7654))
    case Host(arg) => Ok(args.(host := arg))
    case LogLevel(arg) => Ok(args.(loglevel := if arg.Some? then atoi(arg.value) else 2))
    case Retries(arg) => Ok(args.(retries := if arg.Some? then atoi(arg.value) else 5))
    case End(argNum) => Ok(args)
    case Positional(argNum) => if argNum > 0 then Err(UsageError) else Ok(args)
    case Special => Err(UnknownKey)
  }

  /** `main`'s `argp_parse` call: the keys of a command line folded over
      the defaults. Without options the defaults come back unchanged. */
  function ParseAll(keys: seq<Key>, atoi: string -> int): (r: Result<Arguments, ParseError>)
    ensures r.Ok? <==> OnlyValidKeys(keys)
    ensures r.Err? ==> r.error == UsageError
    ensures r.Ok? && NoOptions(keys) ==> r.value == Defaults
  {
    NoOptionsKeepArguments(Defaults, keys, atoi);
    ParseFrom(Defaults, keys, atoi)
  }

  /** No key of the command line is an option. */
  predicate NoOptions(keys: seq<Key>)
  {
    forall i :: 0 <= i < |keys| ==> !keys[i].Host? && !keys[i].Port? && !keys[i].LogLevel? && !keys[i].Retries?
  }

  lemma {:induction false} NoOptionsKeepArguments(args: Arguments, keys: seq<Key>, atoi: string -> int)
    ensures NoOptions(keys) && ParseFrom(args, keys, atoi).Ok? ==> ParseFrom(args, keys, atoi).value == args
    decreases |keys|
  {
    if keys != [] && NoOptions(keys) {
      assert NoOptions(keys[1..]) by {
        assert forall i :: 1 <= i < |keys| ==> keys[i] == keys[1..][i - 1];
      }
      NoOptionsKeepArguments(args, keys[1..], atoi);
    }
  }

  /** `argp_parse` feeding every key to the handler, stopping at the first
      error. A special key the handler answers with `ARGP_ERR_UNKNOWN` is
      taken as handled. */
  function ParseFrom(args: Arguments, keys: seq<Key>, atoi: string -> int): (r: Result<Arguments, ParseError>)
    // the parse fails exactly when a second positional argument is given,
    // and then with a usage error
    ensures r.Ok? <==> OnlyValidKeys(keys)
    ensures r.Err? ==> r.error == UsageError
    decreases |keys|
  {
    if keys == [] then Ok(args)
    else
      assert forall i :: 1 <= i < |keys| ==> keys[i] == keys[1..][i - 1];
      match ParseOpt(args, keys[0], atoi)
      case Err(UnknownKey) => ParseFrom(args, keys[1..], atoi)
      case Err(e) => Err(e)
      case Ok(next) => ParseFrom(next, keys[1..], atoi)
  }

  /** No second positional argument. */
  predicate OnlyValidKeys(keys: seq<Key>)
  {
    forall i :: 0 <= i < |keys| ==> !(keys[i].Positional? && keys[i].argNum > 0)
  }

  /** Options given without their argument leave the defaults in place,
      and no key can change the log level or retries without naming them. */
  lemma {:induction false} MissingArgumentsKeepDefaults(args: Arguments, keys: seq<Key>, atoi: string -> int)
    requires args.port == 7654 && args.loglevel == 2 && args.retries == 5
    requires OnlyValidKeys(keys)
    requires forall i :: 0 <= i < |keys| ==> !(keys[i].Port? || keys[i].LogLevel? || keys[i].Retries?) || keys[i].arg.None?
    ensures ParseFrom(args, keys, atoi).Ok?
    ensures ParseFrom(args, keys, atoi).value.port == 7654
    ensures ParseFrom(args, keys, atoi).value.loglevel == 2
    ensures ParseFrom(args, keys, atoi).value.retries == 5
    decreases |keys|
  {
    if keys != [] {
      var next := ParseOpt(args, keys[0], atoi);
      MissingArgumentsKeepDefaults(if next.Ok? then next.value else args, keys[1..], atoi);
    }
  }

  /** A second positional argument is a usage error wherever it appears. */
  lemma {:induction false} SecondPositionalFails(args: Arguments, keys: seq<Key>, atoi: string -> int, i: nat)
    requires i < |keys| && keys[i] == Positional(1)
    requires forall j :: 0 <= j < i ==> !(keys[j].Positional? && keys[j].argNum > 0)
    ensures ParseFrom(args, keys, atoi) == Err(UsageError)
    decreases i
  {
    if i > 0 {
      var next := ParseOpt(args, keys[0], atoi);
      SecondPositionalFails(if next.Ok? then next.value else args, keys[1..], atoi, i - 1);
    }
  }

  // ------------------------------------------------------ message handling

  /** Bytes of a `vec3`: three 32-bit floats. */
  const Vec3Bytes: nat := 12

  /** The service's fields that the handlers use. */
  datatype State = State(clientCallId: int, points: seq<Vec3>, rMax: real, alphaMax: real)

  /** The request to the scenario service that `HandleRun` sends. */
  datatype Request = Request(callId: int, service: string, scenarioId: GeoJson.Json)

  /** The reply to the client that `HandleResult` sends. */
  datatype Reply = Reply(callId: int, units: string, mode: string, format: string, byteLength: nat, values: seq<real>)

  datatype HandlerError = TypeError

  const ScenarioCallId: int := 13372

  /** The points of an attachment: as many whole `vec3`s as fit, each read
      from its twelve bytes by `decode`; trailing bytes are dropped. */
  function DecodePoints(data: seq<bv8>, decode: seq<bv8> -> Vec3): (points: seq<Vec3>)
    ensures |points| == |data| / Vec3Bytes
    ensures forall i :: 0 <= i < |points| ==>
      points[i] == decode(data[Vec3Bytes * i..Vec3Bytes * i + Vec3Bytes])
  {
    var n := |data| / Vec3Bytes;
    seq(n, i requires 0 <= i < n => DecodeAt(data, i, decode))
  }

  function DecodeAt(data: seq<bv8>, i: nat, decode: seq<bv8> -> Vec3): Vec3
    requires i < |data| / Vec3Bytes
  {
    RowWithin(i, |data|);
    decode(data[Vec3Bytes * i..Vec3Bytes * i + Vec3Bytes])
  }

  lemma RowWithin(i: nat, size: nat)
    requires i < size / Vec3Bytes
    ensures Vec3Bytes * i + Vec3Bytes <= size
  {
    assert Vec3Bytes * (i + 1) <= Vec3Bytes * (size / Vec3Bytes);
  }

  /** Appending fewer than twelve bytes decodes the same points. */
  lemma TrailingBytesIgnored(data: seq<bv8>, extra: seq<bv8>, decode: seq<bv8> -> Vec3)
    requires |data| % Vec3Bytes == 0 && |extra| < Vec3Bytes
    ensures DecodePoints(data + extra, decode) == DecodePoints(data, decode)
  {
    var a, b := DecodePoints(data + extra, decode), DecodePoints(data, decode);
    assert |a| == |b|;
    forall i | 0 <= i < |a|
      ensures a[i] == b[i]
    {
      RowWithin(i, |data|);
      assert (data + extra)[Vec3Bytes * i..Vec3Bytes * i + Vec3Bytes] == data[Vec3Bytes * i..Vec3Bytes * i + Vec3Bytes];
    }
  }

  /** A number member of a JSON object, as the conversion to `float`
      demands; anything else throws. */
  function NumberMember(j: GeoJson.Json, key: string): (r: Result<real, HandlerError>)
    ensures r.Ok? <==> j.JObj? && GeoJson.Get(j, key).JNum?
  {
    if j.JObj? && GeoJson.Get(j, key).JNum? then Ok(GeoJson.Get(j, key).n) else Err(TypeError)
  }

  /** `HandleRun`: remember the caller and the points of the first
      attachment, read the two parameters, and ask the scenario service for
      the scenario. The fields are assigned one after another, so when a
      parameter is not a number the exception leaves the fields assigned
      before it in place; the handler returns the state in either case. */
  function HandleRun(s: State, callId: int, inputs: GeoJson.Json, attachment: seq<bv8>, decode: seq<bv8> -> Vec3):
    (r: (State, Result<Request, HandlerError>))
    // the caller and the points are stored before anything can fail
    ensures r.0.clientCallId == callId
    ensures r.0.points == DecodePoints(attachment, decode)
    // each parameter is stored when it, and every one before it, is a number
    ensures r.0.rMax == (if NumberMember(inputs, "r_max").Ok? then GeoJson.Get(inputs, "r_max").n else s.rMax)
    ensures r.0.alphaMax ==
      (if NumberMember(inputs, "r_max").Ok? && NumberMember(inputs, "alpha_max").Ok?
       then GeoJson.Get(inputs, "alpha_max").n else s.alphaMax)
    // the request is sent only when both are numbers
    ensures r.1.Ok? <==> inputs.JObj? && GeoJson.Get(inputs, "r_max").JNum? && GeoJson.Get(inputs, "alpha_max").JNum?
    ensures r.1.Ok? ==> r.1.value == Request(ScenarioCallId, "scenario.geojson.Get", GeoJson.Get(inputs, "ScID"))
  {
    var s1 := s.(clientCallId := callId, points := DecodePoints(attachment, decode));
    match NumberMember(inputs, "r_max")
    case Err(e) => (s1, Err(e))
    case Ok(rMax) =>
      var s2 := s1.(rMax := rMax);
      match NumberMember(inputs, "alpha_max")
      case Err(e) => (s2, Err(e))
      case Ok(alphaMax) =>
        (s2.(alphaMax := alphaMax), Ok(Request(ScenarioCallId, "scenario.geojson.Get", GeoJson.Get(inputs, "ScID"))))
  }

  /** `operator[]` on a JSON value: a member of an object (null when
      missing), null on null, a type error on anything else. */
  function Index(j: GeoJson.Json, key: string): (r: Result<GeoJson.Json, HandlerError>)
    ensures r.Ok? <==> j.JObj? || j.JNull?
    ensures j.JNull? ==> r == Ok(GeoJson.JNull)
  {
    if j.JObj? then Ok(GeoJson.Get(j, key))
    else if j.JNull? then Ok(GeoJson.JNull)
    else Err(TypeError)
  }

  /** `HandleResult`: only the scenario reply to our own request, which is
      not a registration acknowledgement and carries a geometry output,
      leads to a reply to the client, carrying what `compute` returns for
      the scenario geometry and the stored points. */
  function HandleResult(s: State, callId: int, result: GeoJson.Json,
                        compute: (GeoJson.Json, seq<Vec3>, real, real) -> seq<real>): (r: Result<Option<Reply>, HandlerError>)
    ensures r.Ok? && r.value.Some? <==>
      && callId == ScenarioCallId
      && !GeoJson.Has(result, "registeredName")
      && GeoJson.Has(result, "geometry_output")
      && (GeoJson.Get(result, "geometry_output").JObj? || GeoJson.Get(result, "geometry_output").JNull?)
    ensures r.Ok? && r.value.Some? ==>
      var geometry := if GeoJson.Get(result, "geometry_output").JObj?
        then GeoJson.Get(GeoJson.Get(result, "geometry_output"), "geometry") else GeoJson.JNull;
      var values := compute(geometry, s.points, s.alphaMax, s.rMax);
      r.value.value == Reply(s.clientCallId, "m", "points", "Float32Array", 4 * |values|, values)
  {
    if callId != ScenarioCallId then Ok(None)
    else if GeoJson.Has(result, "registeredName") then Ok(None)
    else if !GeoJson.Has(result, "geometry_output") then Ok(None)
    else
      var output := GeoJson.Get(result, "geometry_output");
      var geometry :- Index(output, "geometry");
      var values := compute(geometry, s.points, s.alphaMax, s.rMax);
      Ok(Some(Reply(s.clientCallId, "m", "points", "Float32Array", 4 * |values|, values)))
  }

  /** The reply goes to the caller of the last run, not to the scenario
      service whose answer triggered it, even when that run failed on its
      parameters. */
  lemma ReplyGoesToClient(s: State, callId: int, inputs: GeoJson.Json, attachment: seq<bv8>, decode: seq<bv8> -> Vec3,
                          result: GeoJson.Json, compute: (GeoJson.Json, seq<Vec3>, real, real) -> seq<real>)
    requires var s' := HandleRun(s, callId, inputs, attachment, decode).0;
      HandleResult(s', ScenarioCallId, result, compute).Ok? && HandleResult(s', ScenarioCallId, result, compute).value.Some?
    ensures var s' := HandleRun(s, callId, inputs, attachment, decode).0;
      HandleResult(s', ScenarioCallId, result, compute).value.value.callId == callId
  {
  }

  /** A run whose parameters are not numbers still replaces the points a
      later scenario reply is computed on, while the parameters stay those
      of an earlier run. */
  lemma FailedRunKeepsOldParameters(s: State, callId: int, inputs: GeoJson.Json, attachment: seq<bv8>, decode: seq<bv8> -> Vec3)
    requires !inputs.JObj?
    ensures var (s', sent) := HandleRun(s, callId, inputs, attachment, decode);
      && sent.Err?
      && s'.points == DecodePoints(attachment, decode)
      && s'.rMax == s.rMax && s'.alphaMax == s.alphaMax
  {
  }
}
