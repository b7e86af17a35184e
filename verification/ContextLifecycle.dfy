/** The life of a `PipesContext`: which calls it accepts, and what it sends through its channel. */
module ContextLifecycle {
  import opened Wrappers

  datatype Message =
    | Opened
    | Closed(exception: bool)
    | Materialization(key: string)
    | AssetCheck(key: string, name: string)
    | Custom(payload: string)
    | ExternalStream(stream: string, text: string)

  datatype CallError = InvalidKey | KeyNeeded | NoAsset | AlreadyMaterialized | BadArgument | ContextClosed

  /** An `asset_key` argument: left out, of a wrong type, or a string. */
  datatype KeyArg = Missing | NotAString | Key(key: string)

  /** The type checks of other arguments are opaque: they pass or they do not. */
  datatype Call =
    | ReportMaterialization(arg: KeyArg, metadataOk: bool, versionOk: bool)
    | ReportCheck(arg: KeyArg, name: string, argsOk: bool, metadataOk: bool)
    | ReportCustom(payload: string)
    | LogExternalStream(stream: string, text: string)
    | Close(exception: bool)

  datatype Context = Context(closed: bool, materialized: set<string>, sent: seq<Message>)

  const FRESH := Context(false, {}, [Opened])

  /** `_resolve_optionally_passed_asset_key`. An empty string counts as no key at all. */
  function Resolve(defined: Option<seq<string>>, arg: KeyArg): Result<string, CallError> {
    if arg.NotAString? then Err(BadArgument)
    else
      var passed := if arg.Key? then arg.key else "";
      if defined.Some? && defined.value != [] then
        if passed != "" && passed !in defined.value then Err(InvalidKey)
        else if passed == "" && |defined.value| != 1 then Err(KeyNeeded)
        else
          var key := if passed == "" then defined.value[0] else passed;
          if key == "" then Err(NoAsset) else Ok(key)
      else if passed == "" then Err(NoAsset)
      else Ok(passed)
  }

  function Send(c: Context, m: Message): Result<Context, CallError> {
    if c.closed then Err(ContextClosed) else Ok(c.(sent := c.sent + [m]))
  }

  function Do(defined: Option<seq<string>>, c: Context, call: Call): Result<Context, CallError> {
    match call
    case ReportMaterialization(arg, metadataOk, versionOk) =>
      (match Resolve(defined, arg)
       case Err(e) => Err(e)
       case Ok(key) =>
         if key in c.materialized then Err(AlreadyMaterialized)
         else if !metadataOk || !versionOk then Err(BadArgument)
         else
           match Send(c, Materialization(key))
           case Err(e) => Err(e)
           case Ok(sent) => Ok(sent.(materialized := c.materialized + {key})))
    case ReportCheck(arg, name, argsOk, metadataOk) =>
      (match Resolve(defined, arg)
       case Err(e) => Err(e)
       case Ok(key) => if !argsOk || !metadataOk then Err(BadArgument) else Send(c, AssetCheck(key, name)))
    case ReportCustom(payload) => Send(c, Custom(payload))
    case LogExternalStream(stream, text) => Send(c, ExternalStream(stream, text))
    case Close(exception) =>
      if c.closed then Ok(c) else Ok(c.(closed := true, sent := c.sent + [Closed(exception)]))
  }

  /** A call that raises leaves the context as it was, and the program may go on calling. */
  function DoAll(defined: Option<seq<string>>, c: Context, calls: seq<Call>): Context
    decreases |calls|
  {
    if calls == [] then c else DoAll(defined, After(defined, c, calls[0]), calls[1..])
  }

  function After(defined: Option<seq<string>>, c: Context, call: Call): Context {
    match Do(defined, c, call)
    case Ok(next) => next
    case Err(_) => c
  }

  // ----- the key a call means -----

  /** A call means key `k` when it names it and `k` is in scope, or no asset is in scope at all; or when
      it names none and `k` is the only asset in scope. */
  ghost predicate Means(defined: Option<seq<string>>, arg: KeyArg, k: string) {
    var inScope := if defined.Some? then defined.value else [];
    k != "" &&
    ((arg == Key(k) && (inScope == [] || k in inScope)) || (arg in {Missing, Key("")} && inScope == [k]))
  }

  lemma ResolveMeans(defined: Option<seq<string>>, arg: KeyArg, k: string)
    ensures Resolve(defined, arg) == Ok(k) <==> Means(defined, arg, k)
  {
    if defined.Some? && |defined.value| == 1 {
      assert defined.value == [defined.value[0]];
    }
  }

  // ----- every sequence of calls -----

  function MaterializedKeys(sent: seq<Message>): seq<string> {
    if sent == [] then []
    else
      var before := MaterializedKeys(sent[..|sent| - 1]);
      var m := sent[|sent| - 1];
      if m.Materialization? then before + [m.key] else before
  }

  ghost predicate Inv(c: Context) {
    && c.sent != [] && c.sent[0] == Opened
    && (forall i :: 0 < i < |c.sent| ==> c.sent[i] != Opened)
    && (forall i :: 0 <= i < |c.sent| && c.sent[i].Closed? ==> c.closed && i == |c.sent| - 1)
    && (c.closed ==> c.sent[|c.sent| - 1].Closed?)
    && (forall i, j :: 0 <= i < j < |MaterializedKeys(c.sent)| ==>
          MaterializedKeys(c.sent)[i] != MaterializedKeys(c.sent)[j])
    && (forall k :: k in c.materialized <==> k in MaterializedKeys(c.sent))
  }

  lemma SendKeepsInv(c: Context, m: Message)
    requires Inv(c) && !c.closed && !m.Opened? && (m.Materialization? ==> m.key !in c.materialized)
    ensures var materialized := if m.Materialization? then c.materialized + {m.key} else c.materialized;
      Inv(Context(m.Closed?, materialized, c.sent + [m]))
  {
    var sent := c.sent + [m];
    assert sent[..|sent| - 1] == c.sent;
    forall i | 0 <= i < |sent| - 1 ensures sent[i] == c.sent[i] {}
  }

  lemma DoKeepsInv(defined: Option<seq<string>>, c: Context, call: Call)
    requires Inv(c)
    ensures Inv(After(defined, c, call)) && c.sent <= After(defined, c, call).sent
  {
    var next := After(defined, c, call);
    if next.sent != c.sent {
      SendKeepsInv(c, next.sent[|c.sent|]);
    }
  }

  /** Whatever is called, in whatever order: the context's own messages start with the only "opened";
      there is a "closed" exactly when the context is closed, it is the last message, and so nothing
      follows it; no key is materialized twice; and the recorded keys are those reported. */
  lemma {:induction false} LifeCycle(defined: Option<seq<string>>, c: Context, calls: seq<Call>)
    requires Inv(c)
    ensures Inv(DoAll(defined, c, calls)) && c.sent <= DoAll(defined, c, calls).sent
    ensures c.closed ==> DoAll(defined, c, calls) == c
    decreases |calls|
  {
    if calls != [] {
      DoKeepsInv(defined, c, calls[0]);
      LifeCycle(defined, After(defined, c, calls[0]), calls[1..]);
    }
  }

  lemma {:induction false} FreshLifeCycle(defined: Option<seq<string>>, calls: seq<Call>)
    ensures Inv(DoAll(defined, FRESH, calls))
  {
    assert MaterializedKeys([Opened]) == [];
    LifeCycle(defined, FRESH, calls);
  }

  /** A materialization is accepted exactly when the context is open, the call means a key that was not
      reported before, and its other arguments check. */
  lemma MaterializationAccepted(
      defined: Option<seq<string>>, c: Context, arg: KeyArg, metadataOk: bool, versionOk: bool)
    requires Inv(c)
    ensures Do(defined, c, ReportMaterialization(arg, metadataOk, versionOk)).Ok? <==>
      !c.closed && metadataOk && versionOk && exists k :: Means(defined, arg, k) && Materialization(k) !in c.sent
  {
    KeyTold(defined, c, arg);
    var resolved := Resolve(defined, arg);
    if resolved.Ok? {
      assert Means(defined, arg, resolved.value);
    }
  }

  /** A key is recorded as materialized if and only if its message was sent. */
  lemma MaterializedIffSent(c: Context, k: string)
    requires Inv(c)
    ensures k in c.materialized <==> Materialization(k) in c.sent
  {
    KeysOfSent(c.sent, k);
  }

  lemma {:induction false} KeysOfSent(sent: seq<Message>, k: string)
    ensures k in MaterializedKeys(sent) <==> Materialization(k) in sent
  {
    if sent != [] {
      KeysOfSent(sent[..|sent| - 1], k);
      assert sent == sent[..|sent| - 1] + [sent[|sent| - 1]];
    }
  }

  /** What a call tells the other side. */
  ghost predicate Tells(defined: Option<seq<string>>, call: Call, m: Message) {
    match call
    case ReportMaterialization(arg, _, _) => m.Materialization? && Means(defined, arg, m.key)
    case ReportCheck(arg, name, _, _) => m.AssetCheck? && Means(defined, arg, m.key) && m.name == name
    case ReportCustom(payload) => m == Custom(payload)
    case LogExternalStream(stream, text) => m == ExternalStream(stream, text)
    case Close(exception) => m == Closed(exception)
  }

  /** The arguments of a call pass their checks, apart from its key. */
  predicate ArgumentsCheck(call: Call) {
    match call
    case ReportMaterialization(_, metadataOk, versionOk) => metadataOk && versionOk
    case ReportCheck(_, _, argsOk, metadataOk) => argsOk && metadataOk
    case _ => true
  }

  /** What a call adds to the messages: on an open context, exactly the message that it tells, if there is one,
      its arguments check and it is no materialization sent before; otherwise it raises. A closed context
      takes only `close`, which then does nothing. */
  lemma SentByCall(defined: Option<seq<string>>, c: Context, call: Call)
    requires Inv(c)
    ensures c.closed ==> (Do(defined, c, call).Ok? <==> call.Close?) && After(defined, c, call) == c
    ensures !c.closed ==>
      (Do(defined, c, call).Ok? <==>
         ArgumentsCheck(call) && exists m :: Tells(defined, call, m) && (m.Materialization? ==> m !in c.sent))
    ensures !c.closed && Do(defined, c, call).Ok? ==>
      var sent := After(defined, c, call).sent;
      sent != [] && Tells(defined, call, sent[|sent| - 1]) && sent == c.sent + [sent[|sent| - 1]]
    ensures Do(defined, c, call).Ok? ==> After(defined, c, call).closed == (c.closed || call.Close?)
  {
    hide Inv, Means;
    match call
    case ReportMaterialization(arg, metadataOk, versionOk) =>
      KeyTold(defined, c, arg);
      TellsMaterialization(defined, call);
    case ReportCheck(arg, name, argsOk, metadataOk) =>
      KeyTold(defined, c, arg);
      if Resolve(defined, arg).Ok? {
        assert Tells(defined, call, AssetCheck(Resolve(defined, arg).value, name));
      }
    case ReportCustom(payload) => assert Tells(defined, call, Custom(payload));
    case LogExternalStream(stream, text) => assert Tells(defined, call, ExternalStream(stream, text));
    case Close(exception) => assert Tells(defined, call, Closed(exception));
  }

  lemma KeyTold(defined: Option<seq<string>>, c: Context, arg: KeyArg)
    requires Inv(c)
    ensures forall k :: Resolve(defined, arg) == Ok(k) <==> Means(defined, arg, k)
    ensures forall k :: k in c.materialized <==> Materialization(k) in c.sent
  {
    forall k: string
      ensures Resolve(defined, arg) == Ok(k) <==> Means(defined, arg, k)
      ensures k in c.materialized <==> Materialization(k) in c.sent
    {
      ResolveMeans(defined, arg, k);
      MaterializedIffSent(c, k);
    }
  }

  lemma TellsMaterialization(defined: Option<seq<string>>, call: Call)
    requires call.ReportMaterialization?
    ensures forall k :: Tells(defined, call, Materialization(k)) <==> Means(defined, call.arg, k)
  {
  }

  /** With no asset in scope an explicit key is accepted, although the documentation of
      `report_asset_materialization` says that this raises an error. */
  lemma ExplicitKeyWithoutScope(key: string)
    requires key != ""
    ensures Do(None, FRESH, ReportMaterialization(Key(key), true, true)).Ok?
  {
    ResolveMeans(None, Key(key), key);
  }

  class PipesContext {
    const defined: Option<seq<string>>
    var closed: bool
    var materialized: set<string>
    var sent: seq<Message>

    ghost function Value(): Context
      reads this
    {
      Context(closed, materialized, sent)
    }

    constructor (defined: Option<seq<string>>)
      ensures Value() == FRESH && this.defined == defined
    {
      this.defined := defined;
      closed, materialized, sent := false, {}, [Opened];
    }

    method CloseContext(exception: bool)
      modifies this
      ensures Do(defined, old(Value()), Close(exception)) == Ok(Value())
    {
      if !closed {
        sent := sent + [Closed(exception)];
        closed := true;
      }
    }

    method WriteMessage(message: Message) returns (error: Option<CallError>)
      modifies `sent
      ensures error == None ==> Send(old(Value()), message) == Ok(Value())
      ensures error.Some? ==> Value() == old(Value()) && Send(Value(), message) == Err(error.value)
    {
      if closed {
        return Some(ContextClosed);
      }
      sent := sent + [message];
      return None;
    }

    /** Sends what the context does not keep: a check result, a custom message or a line of an external stream. */
    method Report(call: Call) returns (error: Option<CallError>)
      requires call.ReportCheck? || call.ReportCustom? || call.LogExternalStream?
      modifies `sent
      ensures error == None ==> Do(defined, old(Value()), call) == Ok(Value())
      ensures error.Some? ==> Value() == old(Value()) && Do(defined, Value(), call) == Err(error.value)
    {
      match call {
        case ReportCustom(payload) => error := WriteMessage(Custom(payload));
        case LogExternalStream(stream, text) => error := WriteMessage(ExternalStream(stream, text));
        case ReportCheck(arg, name, argsOk, metadataOk) =>
          var resolved := Resolve(defined, arg);
          if resolved.Err? {
            return Some(resolved.error);
          }
          if !argsOk || !metadataOk {
            return Some(BadArgument);
          }
          error := WriteMessage(AssetCheck(resolved.value, name));
      }
    }

    /** A raised error is returned; it leaves the object unchanged. */
    method ReportAssetMaterialization(arg: KeyArg, metadataOk: bool, versionOk: bool) returns (error: Option<CallError>)
      modifies this
      ensures error == None ==>
        Do(defined, old(Value()), ReportMaterialization(arg, metadataOk, versionOk)) == Ok(Value())
      ensures error.Some? ==>
        (Value() == old(Value())
         && Do(defined, Value(), ReportMaterialization(arg, metadataOk, versionOk)) == Err(error.value))
    {
      var resolved := Resolve(defined, arg);
      if resolved.Err? {
        return Some(resolved.error);
      }
      var key := resolved.value;
      if key in materialized {
        return Some(AlreadyMaterialized);
      }
      if !metadataOk || !versionOk {
        return Some(BadArgument);
      }
      error := WriteMessage(Materialization(key));
      if error == None {
        materialized := materialized + {key};
      }
    }
  }
}
