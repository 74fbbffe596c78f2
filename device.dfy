/** The mock HEOS device of tests/__init__.py: the matchers, the one-shot handler queues and the
    built-in commands that together answer a request line, the per-connection log, and the
    event push to the first subscribed connection. Sockets, the server's start/stop and the
    read loop's I/O are not modelled: a request line arrives as a string and the writer of a
    connection is the sequence of payloads written to it. */
module MockDevice {
  import opened Wrappers
  import opened Strings
  import opened Framing
  import opened Request

  /** Everything that makes the device raise instead of answering. */
  datatype Failure =
    | MalformedLine(line: string)   // no host in the line: `None + path` raises
    | MissingKey(key: string)       // a `query[key]` or `args[key]` lookup raised KeyError
    | UnknownFixture(name: string)  // `get_fixture` found no fixture file of that name
    | HandlerRaised(reason: string) // a one-shot callback raised
    | Unrecognized(line: string)    // `pytest.fail("Unrecognized command: " + line)`
    | NoSubscriber                  // `next(...)` in `write_event` found no subscribed connection
    | NotListed                     // `connections.remove(log)` raised ValueError

  /** The fixture files, by name (`tests/fixtures/<name>.json`). */
  type FixtureStore = map<string, string>

  function GetFixture(store: FixtureStore, name: string): Result<string, Failure>
  {
    if name in store then Success(store[name]) else Failure(UnknownFixture(name))
  }

  /** A fixture served as a single response string. */
  function FixtureResponse(store: FixtureStore, name: string): Result<Response, Failure>
  {
    match GetFixture(store, name)
    case Success(text) => Success(Single(text))
    case Failure(e) => Failure(e)
  }

  /** A one-shot handler: a fixture name, or a callable invoked with the command and the query. */
  datatype Handler =
    | FixtureName(name: string)
    | Callback(run: (string, Query) -> Result<Response, Failure>)

  type HandlerMap = map<string, seq<Handler>>

  /** `self._custom_handlers[command]` of the `defaultdict(list)`. */
  function Queue(handlers: HandlerMap, command: string): seq<Handler>
  {
    if command in handlers then handlers[command] else []
  }

  function RunHandler(h: Handler, store: FixtureStore, req: Request): Result<Response, Failure>
  {
    match h
    case FixtureName(name) => FixtureResponse(store, name)
    case Callback(run) => run(req.command, req.query)
  }

  // ---------------------------------------------------------------------------------------
  // Matchers

  /** `CommandMatcher(command, args, response)`; `args` in the dictionary's insertion order. */
  datatype CommandMatcher = CommandMatcher(command: string, args: seq<(string, string)>, response: string)

  /** The argument names of a matcher are distinct, as the keys of a dictionary are. */
  ghost predicate DistinctKeys(args: seq<(string, string)>)
  {
    forall i, j :: 0 <= i < j < |args| ==> args[i].0 != args[j].0
  }

  /** The loop over `self.args.items()`: the first argument that is absent from the query raises,
      the first that differs gives `False`. */
  function ArgsOutcome(args: seq<(string, string)>, query: Query): Result<bool, Failure>
  {
    if |args| == 0 then Success(true)
    else if args[0].0 !in query then Failure(MissingKey(args[0].0))
    else if query[args[0].0] != args[0].1 then Success(false)
    else ArgsOutcome(args[1..], query)
  }

  function MatchOutcome(m: CommandMatcher, command: string, query: Query): Result<bool, Failure>
  {
    if command != m.command then Success(false) else ArgsOutcome(m.args, query)
  }

  /** The query agrees with the matcher's `k`-th required argument. */
  ghost predicate Agrees(args: seq<(string, string)>, query: Query, k: int)
    requires 0 <= k < |args|
  {
    args[k].0 in query && query[args[k].0] == args[k].1
  }

  lemma {:induction false} ArgsOutcomeSpec(args: seq<(string, string)>, query: Query)
    ensures ArgsOutcome(args, query) == Success(true) <==> forall k :: 0 <= k < |args| ==> Agrees(args, query, k)
    ensures ArgsOutcome(args, query) == Success(false) <==>
      exists k :: 0 <= k < |args| && args[k].0 in query && query[args[k].0] != args[k].1
        && forall j :: 0 <= j < k ==> Agrees(args, query, j)
    ensures ArgsOutcome(args, query).Failure? <==>
      exists k :: 0 <= k < |args| && args[k].0 !in query
        && ArgsOutcome(args, query) == Failure(MissingKey(args[k].0))
        && forall j :: 0 <= j < k ==> Agrees(args, query, j)
    decreases |args|
  {
    if |args| > 0 {
      ArgsOutcomeSpec(args[1..], query);
      var r := ArgsOutcome(args, query);
      if args[0].0 !in query {
        assert !Agrees(args, query, 0);
      } else if query[args[0].0] != args[0].1 {
        assert !Agrees(args, query, 0);
      } else {
        assert Agrees(args, query, 0);
        assert forall k :: 1 <= k < |args| ==> (Agrees(args, query, k) <==> Agrees(args[1..], query, k - 1));
        if forall k :: 0 <= k < |args| - 1 ==> Agrees(args[1..], query, k) {
          forall k | 0 <= k < |args| ensures Agrees(args, query, k) {
            if k > 0 {
              assert Agrees(args[1..], query, k - 1);
            }
          }
        }
        if forall k :: 0 <= k < |args| ==> Agrees(args, query, k) {
          forall k | 0 <= k < |args| - 1 ensures Agrees(args[1..], query, k) {
            assert Agrees(args, query, k + 1);
          }
        }
        if exists k :: 0 <= k < |args| && args[k].0 in query && query[args[k].0] != args[k].1
                       && forall j :: 0 <= j < k ==> Agrees(args, query, j) {
          var k :| 0 <= k < |args| && args[k].0 in query && query[args[k].0] != args[k].1
                   && forall j :: 0 <= j < k ==> Agrees(args, query, j);
          assert k > 0 && args[1..][k - 1] == args[k];
          forall j | 0 <= j < k - 1 ensures Agrees(args[1..], query, j) {
            assert Agrees(args, query, j + 1);
          }
        }
        if r == Success(false) {
          var k :| 0 <= k < |args| - 1 && args[1..][k].0 in query && query[args[1..][k].0] != args[1..][k].1
            && forall j :: 0 <= j < k ==> Agrees(args[1..], query, j);
          assert args[k + 1] == args[1..][k];
          assert forall j :: 0 <= j < k + 1 ==> Agrees(args, query, j);
        }
        if r.Failure? {
          var k :| 0 <= k < |args| - 1 && args[1..][k].0 !in query
            && r == Failure(MissingKey(args[1..][k].0))
            && forall j :: 0 <= j < k ==> Agrees(args[1..], query, j);
          assert args[k + 1] == args[1..][k];
          assert forall j :: 0 <= j < k + 1 ==> Agrees(args, query, j);
        }
      }
    }
  }

  /** `is_match` holds exactly when the command is the matcher's and every required argument is
      present in the query with the required value (so an empty `args` matches any query); a
      required argument absent from the query raises `KeyError` instead of failing the match,
      unless an earlier argument already differed. */
  lemma MatchOutcomeSpec(m: CommandMatcher, command: string, query: Query)
    ensures MatchOutcome(m, command, query) == Success(true) <==>
      command == m.command && forall k :: 0 <= k < |m.args| ==> Agrees(m.args, query, k)
    ensures MatchOutcome(m, command, query).Failure? <==>
      && command == m.command
      && exists k ::
           && 0 <= k < |m.args| && m.args[k].0 !in query
           && MatchOutcome(m, command, query) == Failure(MissingKey(m.args[k].0))
           && forall j :: 0 <= j < k ==> Agrees(m.args, query, j)
  {
    ArgsOutcomeSpec(m.args, query);
  }

  /** `CommandMatcher.is_match`. */
  method IsMatch(m: CommandMatcher, command: string, query: Query) returns (r: Result<bool, Failure>)
    ensures r == MatchOutcome(m, command, query)
  {
    if command != m.command {
      return Success(false);
    }
    var i := 0;
    while i < |m.args|
      invariant 0 <= i <= |m.args|
      invariant ArgsOutcome(m.args, query) == ArgsOutcome(m.args[i..], query)
    {
      var key := m.args[i].0;
      if key !in query {
        return Failure(MissingKey(key));
      }
      if query[key] != m.args[i].1 {
        return Success(false);
      }
      assert m.args[i..][1..] == m.args[i + 1..];
      i := i + 1;
    }
    return Success(true);
  }

  /** `next((m for m in self._matchers if m.is_match(command, query)), None)`, from index `i` on. */
  function FirstMatchFrom(matchers: seq<CommandMatcher>, command: string, query: Query, i: nat): (r: Result<Option<nat>, Failure>)
    ensures r.Success? && r.value.Some? ==> i <= r.value.value < |matchers|
    decreases |matchers| - i
  {
    if i >= |matchers| then Success(None)
    else match MatchOutcome(matchers[i], command, query)
      case Failure(e) => Failure(e)
      case Success(hit) => if hit then Success(Some(i)) else FirstMatchFrom(matchers, command, query, i + 1)
  }

  function FirstMatch(matchers: seq<CommandMatcher>, command: string, query: Query): (r: Result<Option<nat>, Failure>)
    ensures r.Success? && r.value.Some? ==> r.value.value < |matchers|
  {
    FirstMatchFrom(matchers, command, query, 0)
  }

  lemma {:induction false} FirstMatchFromSpec(matchers: seq<CommandMatcher>, command: string, query: Query, i: nat)
    requires i <= |matchers|
    ensures forall k :: i <= k < |matchers| ==>
      (FirstMatchFrom(matchers, command, query, i) == Success(Some(k)) <==>
        MatchOutcome(matchers[k], command, query) == Success(true)
        && forall j :: i <= j < k ==> MatchOutcome(matchers[j], command, query) == Success(false))
    ensures FirstMatchFrom(matchers, command, query, i) == Success(None) <==>
      forall j :: i <= j < |matchers| ==> MatchOutcome(matchers[j], command, query) == Success(false)
    ensures FirstMatchFrom(matchers, command, query, i).Failure? ==>
      exists k :: i <= k < |matchers| && MatchOutcome(matchers[k], command, query) == Failure(FirstMatchFrom(matchers, command, query, i).error)
        && forall j :: i <= j < k ==> MatchOutcome(matchers[j], command, query) == Success(false)
    decreases |matchers| - i
  {
    if i < |matchers| {
      FirstMatchFromSpec(matchers, command, query, i + 1);
    }
  }

  /** The first registered matcher that matches wins; when none matches the scan yields `None`;
      when a matcher raises before any has matched, the scan raises the same error. */
  lemma FirstMatchSpec(matchers: seq<CommandMatcher>, command: string, query: Query)
    ensures forall k :: 0 <= k < |matchers| ==>
      (FirstMatch(matchers, command, query) == Success(Some(k)) <==>
        MatchOutcome(matchers[k], command, query) == Success(true)
        && forall j :: 0 <= j < k ==> MatchOutcome(matchers[j], command, query) == Success(false))
    ensures FirstMatch(matchers, command, query) == Success(None) <==>
      forall j :: 0 <= j < |matchers| ==> MatchOutcome(matchers[j], command, query) == Success(false)
    ensures FirstMatch(matchers, command, query).Failure? ==>
      exists k :: 0 <= k < |matchers| && MatchOutcome(matchers[k], command, query) == Failure(FirstMatch(matchers, command, query).error)
        && forall j :: 0 <= j < k ==> MatchOutcome(matchers[j], command, query) == Success(false)
  {
    FirstMatchFromSpec(matchers, command, query, 0);
  }

  /** The matcher scan of the request loop (tests/__init__.py lines 104-105). */
  method FindMatcher(matchers: seq<CommandMatcher>, command: string, query: Query) returns (r: Result<Option<nat>, Failure>)
    ensures r == FirstMatch(matchers, command, query)
  {
    var i := 0;
    while i < |matchers|
      invariant 0 <= i <= |matchers|
      invariant FirstMatchFrom(matchers, command, query, 0) == FirstMatchFrom(matchers, command, query, i)
    {
      var hit := IsMatch(matchers[i], command, query);
      if hit.Failure? {
        return Failure(hit.error);
      }
      if hit.value {
        return Success(Some(i));
      }
      i := i + 1;
    }
    return Success(None);
  }

  // ---------------------------------------------------------------------------------------
  // One-shot handlers and built-in commands

  const RegisterForChangeEvents: string := "system/register_for_change_events"
  const GetPlayersCommand: string := "player/get_players"
  const PlayerStateCommands: set<string> := {
    "player/get_play_state", "player/get_now_playing_media", "player/get_volume",
    "player/get_mute", "player/get_play_mode"}
  const EnablePlaceholder: string := "{enable}"
  const PlayerIdPlaceholder: string := "{player_id}"
  const SequencePlaceholder: string := "{sequence}"

  /** The built-in table (tests/__init__.py lines 123-142): the response, and whether the
      request subscribes the connection to events. */
  function BuiltIn(store: FixtureStore, req: Request): (Result<Response, Failure>, bool)
  {
    if req.command == RegisterForChangeEvents then
      if "enable" !in req.query then (Failure(MissingKey("enable")), false)
      else
        var enable := req.query["enable"];
        match GetFixture(store, req.fixtureName)
        case Failure(e) => (Failure(e), enable == "on")
        case Success(text) => (Success(Single(Replace(text, EnablePlaceholder, enable))), enable == "on")
    else if req.command == GetPlayersCommand then
      (FixtureResponse(store, req.fixtureName), false)
    else if req.command in PlayerStateCommands then
      match GetFixture(store, req.fixtureName)
      case Failure(e) => (Failure(e), false)
      case Success(text) =>
        if "pid" !in req.query then (Failure(MissingKey("pid")), false)
        else
          var withId := Replace(text, PlayerIdPlaceholder, req.query["pid"]);
          if "sequence" !in req.query then (Failure(MissingKey("sequence")), false)
          else (Success(Single(Replace(withId, SequencePlaceholder, req.query["sequence"]))), false)
    else (Failure(Unrecognized(req.line)), false)
  }

  datatype Dispatched = Dispatched(result: Result<Response, Failure>, handlers: HandlerMap, subscribes: bool)

  /** The one-shot tier, falling through to the built-in table when the command's queue is empty
      (tests/__init__.py lines 113-142). The front handler is popped before it runs, so it is
      consumed even when it raises. */
  function Dispatch(store: FixtureStore, handlers: HandlerMap, req: Request): Dispatched
  {
    var q := Queue(handlers, req.command);
    if |q| > 0 then Dispatched(RunHandler(q[0], store, req), handlers[req.command := q[1..]], false)
    else
      var b := BuiltIn(store, req);
      Dispatched(b.0, handlers, b.1)
  }

  // ---------------------------------------------------------------------------------------
  // One request line

  /** What a connection has seen and written: the subscription flag, the raw lines per command
      and the payloads written to its writer. */
  datatype LogState = LogState(registered: bool, commands: map<string, seq<string>>, wire: seq<string>)

  /** `log.commands[command].append(line)` on the `defaultdict(list)`. */
  function AppendCommand(commands: map<string, seq<string>>, command: string, line: string): map<string, seq<string>>
  {
    commands[command := (if command in commands then commands[command] else []) + [line]]
  }

  datatype StepResult = StepResult(result: Result<Response, Failure>, handlers: HandlerMap, log: LogState)

  /** The response to a parsed request and its effect on the handler queues and the connection
      (tests/__init__.py lines 103-152). */
  function Resolve(matchers: seq<CommandMatcher>, store: FixtureStore, handlers: HandlerMap, log: LogState, req: Request): StepResult
  {
    match FirstMatch(matchers, req.command, req.query)
    case Failure(e) => StepResult(Failure(e), handlers, log)
    case Success(found) =>
      if found.Some? then
        match GetFixture(store, matchers[found.value].response)
        case Failure(e) => StepResult(Failure(e), handlers, log)
        case Success(text) => StepResult(Success(Single(text)), handlers, log.(wire := log.wire + [Frame(text)]))
      else
        var d := Dispatch(store, handlers, req);
        var flagged := log.(registered := log.registered || d.subscribes);
        match d.result
        case Failure(e) => StepResult(Failure(e), d.handlers, flagged)
        case Success(response) =>
          StepResult(Success(response), d.handlers,
            flagged.(commands := AppendCommand(log.commands, req.command, req.line), wire := log.wire + Writes(response)))
  }

  /** One iteration of the request loop of `_handle_connection` (tests/__init__.py lines 93-152)
      on an already-read line `raw`. */
  function Step(matchers: seq<CommandMatcher>, store: FixtureStore, handlers: HandlerMap, log: LogState, raw: string): StepResult
  {
    var line := StripTerminator(raw);
    match ParseRequest(line)
    case None => StepResult(Failure(MalformedLine(line)), handlers, log)
    case Some(req) => Resolve(matchers, store, handlers, log, req)
  }

  datatype ServeResult = ServeResult(result: Result<(), Failure>, handlers: HandlerMap, log: LogState)

  /** The request loop over the lines a connection sends, up to the end of the stream or the
      first failure, which ends the connection's task. */
  function Serve(matchers: seq<CommandMatcher>, store: FixtureStore, handlers: HandlerMap, log: LogState, lines: seq<string>): ServeResult
    decreases |lines|
  {
    if |lines| == 0 then ServeResult(Success(()), handlers, log)
    else
      var s := Step(matchers, store, handlers, log, lines[0]);
      match s.result
      case Failure(e) => ServeResult(Failure(e), s.handlers, s.log)
      case Success(_) => Serve(matchers, store, s.handlers, s.log, lines[1..])
  }

  // ---------------------------------------------------------------------------------------
  // Properties of one request

  /** The request gets past the matchers and finds its one-shot queue empty. */
  ghost predicate ReachesBuiltIns(matchers: seq<CommandMatcher>, handlers: HandlerMap, req: Request)
  {
    FirstMatch(matchers, req.command, req.query) == Success(None) && |Queue(handlers, req.command)| == 0
  }

  /** Matcher tier: when matcher `i` is the first that matches, its fixture is the one response;
      no one-shot handler is consumed, the built-ins are not consulted (the subscription flag
      stays as it was) and nothing is appended to the command log. */
  lemma MatcherTierWins(matchers: seq<CommandMatcher>, store: FixtureStore, handlers: HandlerMap, log: LogState, req: Request, i: nat)
    requires i < |matchers| && MatchOutcome(matchers[i], req.command, req.query) == Success(true)
    requires forall j :: 0 <= j < i ==> MatchOutcome(matchers[j], req.command, req.query) == Success(false)
    ensures var s := Resolve(matchers, store, handlers, log, req);
      && s.result == FixtureResponse(store, matchers[i].response)
      && s.handlers == handlers
      && s.log.registered == log.registered
      && s.log.commands == log.commands
      && s.log.wire == log.wire + (if s.result.Success? then Writes(s.result.value) else [])
  {
    FirstMatchSpec(matchers, req.command, req.query);
  }

  /** One-shot tier: with no matcher hit and a non-empty queue, exactly the front handler of the
      command's queue is popped and answers; the rest of that queue stays in order and every
      other command's queue is untouched. The line is logged only if the handler succeeds. */
  lemma OneShotPopsFront(matchers: seq<CommandMatcher>, store: FixtureStore, handlers: HandlerMap, log: LogState, req: Request)
    requires FirstMatch(matchers, req.command, req.query) == Success(None)
    requires |Queue(handlers, req.command)| > 0
    ensures var q := Queue(handlers, req.command);
      var s := Resolve(matchers, store, handlers, log, req);
      && s.result == RunHandler(q[0], store, req)
      && Queue(s.handlers, req.command) == q[1..]
      && (forall c :: c != req.command ==> Queue(s.handlers, c) == Queue(handlers, c))
      && s.log.registered == log.registered
      && s.log.commands == (if s.result.Success? then AppendCommand(log.commands, req.command, req.line) else log.commands)
  {
  }

  /** `system/register_for_change_events` reached through the built-ins: `enable == "on"` sets the
      subscription flag and any other value leaves it as it was; the response is the fixture with
      every `{enable}` replaced by the value. A missing `enable` raises before the flag is
      touched; a missing fixture raises after it. */
  lemma RegisterForEvents(matchers: seq<CommandMatcher>, store: FixtureStore, handlers: HandlerMap, log: LogState, req: Request)
    requires ReachesBuiltIns(matchers, handlers, req) && req.command == RegisterForChangeEvents
    ensures var s := Resolve(matchers, store, handlers, log, req);
      && s.handlers == handlers
      && ("enable" !in req.query ==> s.result == Failure(MissingKey("enable")) && s.log == log)
      && ("enable" in req.query ==>
            && s.log.registered == (log.registered || req.query["enable"] == "on")
            && (req.fixtureName !in store ==> s.result == Failure(UnknownFixture(req.fixtureName)))
            && (req.fixtureName in store ==>
                  s.result == Success(Single(Replace(store[req.fixtureName], EnablePlaceholder, req.query["enable"])))))
  {
  }

  /** `player/get_players` reached through the built-ins answers with its fixture unmodified. */
  lemma GetPlayersFixture(matchers: seq<CommandMatcher>, store: FixtureStore, handlers: HandlerMap, log: LogState, req: Request)
    requires ReachesBuiltIns(matchers, handlers, req) && req.command == GetPlayersCommand
    ensures var s := Resolve(matchers, store, handlers, log, req);
      && s.result == FixtureResponse(store, req.fixtureName)
      && s.handlers == handlers && s.log.registered == log.registered
  {
  }

  /** The five player-state commands answer with the fixture in which every `{player_id}` is
      replaced by `query["pid"]` and then every `{sequence}` by `query["sequence"]`. */
  lemma PlayerStateSubstitution(matchers: seq<CommandMatcher>, store: FixtureStore, handlers: HandlerMap, log: LogState, req: Request)
    requires ReachesBuiltIns(matchers, handlers, req) && req.command in PlayerStateCommands
    requires req.fixtureName in store && "pid" in req.query && "sequence" in req.query
    ensures var s := Resolve(matchers, store, handlers, log, req);
      && s.result == Success(Single(Replace(Replace(store[req.fixtureName], PlayerIdPlaceholder, req.query["pid"]),
                                            SequencePlaceholder, req.query["sequence"])))
      && s.handlers == handlers && s.log.registered == log.registered
  {
  }

  /** The five player-state commands fail in the order the source evaluates its lookups: a
      missing fixture first, then a missing `pid`, then a missing `sequence`; a failure leaves
      the handlers, the subscription flag and the command log as they were. */
  lemma PlayerStateFailures(matchers: seq<CommandMatcher>, store: FixtureStore, handlers: HandlerMap, log: LogState, req: Request)
    requires ReachesBuiltIns(matchers, handlers, req) && req.command in PlayerStateCommands
    ensures var s := Resolve(matchers, store, handlers, log, req);
      && (req.fixtureName !in store ==> s.result == Failure(UnknownFixture(req.fixtureName)))
      && (req.fixtureName in store && "pid" !in req.query ==> s.result == Failure(MissingKey("pid")))
      && (req.fixtureName in store && "pid" in req.query && "sequence" !in req.query ==>
            s.result == Failure(MissingKey("sequence")))
      && (s.result.Failure? ==> s.handlers == handlers && s.log == log)
  {
  }

  /** A command that no matcher, no one-shot handler and no built-in answers is a failure, never
      an empty response, and changes nothing. */
  lemma UnrecognizedFails(matchers: seq<CommandMatcher>, store: FixtureStore, handlers: HandlerMap, log: LogState, req: Request)
    requires ReachesBuiltIns(matchers, handlers, req)
    requires req.command != RegisterForChangeEvents && req.command != GetPlayersCommand && req.command !in PlayerStateCommands
    ensures Resolve(matchers, store, handlers, log, req) == StepResult(Failure(Unrecognized(req.line)), handlers, log)
  {
  }

  /** The subscription flag is never reset, and only a request that reaches the built-in
      `system/register_for_change_events` with `enable=on` sets it. */
  lemma SubscriptionFlag(matchers: seq<CommandMatcher>, store: FixtureStore, handlers: HandlerMap, log: LogState, req: Request)
    ensures Resolve(matchers, store, handlers, log, req).log.registered <==>
      log.registered ||
      (ReachesBuiltIns(matchers, handlers, req) && req.command == RegisterForChangeEvents
        && "enable" in req.query && req.query["enable"] == "on")
  {
  }

  // ---------------------------------------------------------------------------------------
  // One-shot queues are FIFO

  /** The results and handler map after the requests `reqs` reach the one-shot tier in turn. */
  ghost function DispatchAll(store: FixtureStore, handlers: HandlerMap, reqs: seq<Request>): (seq<Result<Response, Failure>>, HandlerMap)
    decreases |reqs|
  {
    if |reqs| == 0 then ([], handlers)
    else
      var before := DispatchAll(store, handlers, reqs[..|reqs| - 1]);
      var d := Dispatch(store, before.1, reqs[|reqs| - 1]);
      (before.0 + [d.result], d.handlers)
  }

  /** The `j`-th of `n` requests for a command, whatever their query, is answered by the `j`-th
      handler registered for it; afterwards the first `n` handlers are gone from that command's
      queue and no other queue has changed. */
  lemma {:induction false} OneShotFifo(store: FixtureStore, handlers: HandlerMap, cmd: string, reqs: seq<Request>)
    requires forall k :: 0 <= k < |reqs| ==> reqs[k].command == cmd
    requires |reqs| <= |Queue(handlers, cmd)|
    ensures var after := DispatchAll(store, handlers, reqs);
      && Queue(after.1, cmd) == Queue(handlers, cmd)[|reqs|..]
      && (forall c :: c != cmd ==> Queue(after.1, c) == Queue(handlers, c))
      && |after.0| == |reqs|
      && forall j :: 0 <= j < |reqs| ==> after.0[j] == RunHandler(Queue(handlers, cmd)[j], store, reqs[j])
    decreases |reqs|
  {
    var n := |reqs|;
    if n > 0 {
      OneShotFifo(store, handlers, cmd, reqs[..n - 1]);
      var q := Queue(handlers, cmd);
      var before := DispatchAll(store, handlers, reqs[..n - 1]);
      assert Queue(before.1, cmd) == q[n - 1..];
      assert q[n - 1..][1..] == q[n..];
    }
  }

  /** Once a command's `n` one-shot handlers are used up by `n` requests for it, the next request
      for that command falls through to the built-in table. */
  lemma OneShotExhausted(store: FixtureStore, handlers: HandlerMap, cmd: string, reqs: seq<Request>, next: Request)
    requires forall k :: 0 <= k < |reqs| ==> reqs[k].command == cmd
    requires |reqs| == |Queue(handlers, cmd)| && next.command == cmd
    ensures Dispatch(store, DispatchAll(store, handlers, reqs).1, next).result == BuiltIn(store, next).0
  {
    OneShotFifo(store, handlers, cmd, reqs);
  }

  // ---------------------------------------------------------------------------------------
  // The connection list

  /** `list.remove(x)`: the first element equal to `x` is removed. */
  function RemoveFirst<T(==)>(s: seq<T>, x: T): seq<T>
  {
    if |s| == 0 then []
    else if s[0] == x then s[1..]
    else [s[0]] + RemoveFirst(s[1..], x)
  }

  /** The position of the first occurrence of `x` in `s`. */
  function FirstIndex<T(==)>(s: seq<T>, x: T): (i: nat)
    requires x in s
    ensures i < |s| && s[i] == x && forall j :: 0 <= j < i ==> s[j] != x
  {
    if s[0] == x then 0 else FirstIndex(s[1..], x) + 1
  }

  /** Removing `x` when its first occurrence is at `i` cuts out exactly position `i`. */
  lemma {:induction false} RemoveFirstAt<T>(s: seq<T>, x: T, i: nat)
    requires i < |s| && s[i] == x && forall j :: 0 <= j < i ==> s[j] != x
    ensures RemoveFirst(s, x) == s[..i] + s[i + 1..]
    decreases i
  {
    if i == 0 {
      assert s[..0] + s[1..] == s[1..];
    } else {
      assert s[0] != x;
      RemoveFirstAt(s[1..], x, i - 1);
      assert s[..i] + s[i + 1..] == [s[0]] + (s[1..][..i - 1] + s[1..][i..]);
    }
  }

  /** Removing an element the list does not hold leaves the list as it is. */
  lemma {:induction false} RemoveFirstAbsent<T>(s: seq<T>, x: T)
    requires x !in s
    ensures RemoveFirst(s, x) == s
    decreases |s|
  {
    if |s| > 0 {
      assert x !in s[1..];
      RemoveFirstAbsent(s[1..], x);
    }
  }

  /** `list.remove(x)` deletes exactly the first occurrence of `x` and keeps the order of the
      rest; a list without `x` is left as it is. */
  lemma RemoveFirstSpec<T>(s: seq<T>, x: T)
    ensures x !in s ==> RemoveFirst(s, x) == s
    ensures x in s ==> exists i ::
      && 0 <= i < |s| && s[i] == x && (forall j :: 0 <= j < i ==> s[j] != x)
      && RemoveFirst(s, x) == s[..i] + s[i + 1..]
  {
    if x in s {
      var i := FirstIndex(s, x);
      RemoveFirstAt(s, x, i);
    } else {
      RemoveFirstAbsent(s, x);
    }
  }

  /** Removing an element that was appended to a list not containing it restores the list. */
  lemma {:induction false} RemoveFirstOfAppended<T>(s: seq<T>, x: T)
    requires x !in s
    ensures RemoveFirst(s + [x], x) == s
    decreases |s|
  {
    if |s| > 0 {
      RemoveFirstOfAppended(s[1..], x);
      assert (s + [x])[1..] == s[1..] + [x];
    }
  }

  /** `ConnectionLog`: one accepted connection. */
  class ConnectionLog {
    var isRegisteredForEvents: bool
    var commands: map<string, seq<string>>
    /** The payloads handed to this connection's writer, one per `write` call. */
    var wire: seq<string>

    function State(): LogState
      reads this
    {
      LogState(isRegisteredForEvents, commands, wire)
    }

    constructor ()
      ensures State() == LogState(false, map[], [])
    {
      isRegisteredForEvents := false;
      commands := map[];
      wire := [];
    }

    /** `ConnectionLog.write`: the payload framed with the separator. */
    method Write(payload: string)
      modifies this
      ensures State() == old(State()).(wire := old(wire) + [Frame(payload)])
    {
      wire := wire + [Frame(payload)];
    }

    /** The writes of a response: one framed payload for a single message, one per line for a
        list of messages. */
    method WriteResponse(response: Response)
      modifies this
      ensures State() == old(State()).(wire := old(wire) + Writes(response))
    {
      match response {
        case Single(text) =>
          Write(text);
        case Many(lines) =>
          var i := 0;
          while i < |lines|
            invariant 0 <= i <= |lines|
            invariant State() == old(State()).(wire := old(wire) + FrameAll(lines[..i]))
          {
            Write(lines[i]);
            i := i + 1;
            assert FrameAll(lines[..i]) == FrameAll(lines[..i - 1]) + [Frame(lines[i - 1])];
          }
          assert lines[..i] == lines;
      }
    }
  }

  /** `MockHeosDevice`. */
  class MockHeosDevice {
    const fixtures: FixtureStore
    var connections: seq<ConnectionLog>
    var customHandlers: HandlerMap
    var matchers: seq<CommandMatcher>

    constructor (fixtures: FixtureStore)
      ensures this.fixtures == fixtures
      ensures connections == [] && customHandlers == map[] && matchers == []
    {
      this.fixtures := fixtures;
      connections := [];
      customHandlers := map[];
      matchers := [];
    }

    /** `register_one_time`: the handler goes to the back of the command's queue. */
    method RegisterOneTime(command: string, handler: Handler)
      modifies this
      ensures Queue(customHandlers, command) == Queue(old(customHandlers), command) + [handler]
      ensures forall c :: c != command ==> Queue(customHandlers, c) == Queue(old(customHandlers), c)
      ensures matchers == old(matchers) && connections == old(connections)
    {
      customHandlers := customHandlers[command := Queue(customHandlers, command) + [handler]];
    }

    /** `register_command`: a callback that answers with the fixture's text goes to the back of
        the queue of `command`, or, when `command` is empty (Python's `None` or `""`), of the
        command obtained from the fixture name by `fixture.replace(".", "/")`. */
    method RegisterCommand(fixture: string, command: string)
      modifies this
      ensures var expected := if command != "" then command else Replace(fixture, ".", "/");
        && |Queue(customHandlers, expected)| == |Queue(old(customHandlers), expected)| + 1
        && Queue(customHandlers, expected)[..|Queue(old(customHandlers), expected)|] == Queue(old(customHandlers), expected)
        && var h := Queue(customHandlers, expected)[|Queue(old(customHandlers), expected)|];
           (h.Callback? && forall c, q :: h.run(c, q) == FixtureResponse(fixtures, fixture))
      ensures var expected := if command != "" then command else Replace(fixture, ".", "/");
        forall c :: c != expected ==> Queue(customHandlers, c) == Queue(old(customHandlers), c)
      ensures matchers == old(matchers) && connections == old(connections)
    {
      var expected := if command != "" then command else Replace(fixture, ".", "/");
      var store := fixtures;
      var callback := Callback((c: string, q: Query) => FixtureResponse(store, fixture));
      var before := Queue(customHandlers, expected);
      customHandlers := customHandlers[expected := before + [callback]];
      assert Queue(customHandlers, expected)[..|before|] == before;
    }

    /** `register`: the matcher goes to the end of the priority list. */
    method Register(command: string, args: seq<(string, string)>, response: string)
      requires DistinctKeys(args)
      modifies this
      ensures matchers == old(matchers) + [CommandMatcher(command, args, response)]
      ensures customHandlers == old(customHandlers) && connections == old(connections)
    {
      matchers := matchers + [CommandMatcher(command, args, response)];
    }

    /** The index of the first connection, in list order, that is subscribed to events. */
    method FindSubscriber() returns (r: Option<nat>)
      ensures r.Some? ==> r.value < |connections| && connections[r.value].isRegisteredForEvents
      ensures r.Some? ==> forall j :: 0 <= j < r.value ==> !connections[j].isRegisteredForEvents
      ensures r.None? ==> forall j :: 0 <= j < |connections| ==> !connections[j].isRegisteredForEvents
    {
      var i := 0;
      while i < |connections|
        invariant 0 <= i <= |connections|
        invariant forall j :: 0 <= j < i ==> !connections[j].isRegisteredForEvents
      {
        if connections[i].isRegisteredForEvents {
          return Some(i);
        }
        i := i + 1;
      }
      return None;
    }

    /** `write_event`: the event goes, framed, to the first subscribed connection; with none
        subscribed it raises and nothing is written. */
    method WriteEvent(event: string) returns (r: Result<(), Failure>)
      modifies connections
      ensures r.Failure? <==> forall j :: 0 <= j < |connections| ==> !old(connections[j].isRegisteredForEvents)
      ensures r.Failure? ==> r.error == NoSubscriber && forall j :: 0 <= j < |connections| ==> connections[j].State() == old(connections[j].State())
      ensures r.Success? ==>
        exists i ::
          && 0 <= i < |connections|
          && old(connections[i].isRegisteredForEvents)
          && (forall j :: 0 <= j < i ==> !old(connections[j].isRegisteredForEvents))
          && connections[i].State() == old(connections[i].State()).(wire := old(connections[i].wire) + [Frame(event)])
          && forall j :: 0 <= j < |connections| && connections[j] != connections[i] ==> connections[j].State() == old(connections[j].State())
    {
      var found := FindSubscriber();
      if found.None? {
        return Failure(NoSubscriber);
      }
      connections[found.value].Write(event);
      r := Success(());
    }

    /** The built-in table on a request that reached it. The subscription flag is raised as soon
        as `enable=on` is read, before the fixture is looked up, so it stays raised when the
        lookup fails. */
    method AnswerBuiltIn(log: ConnectionLog, req: Request) returns (r: Result<Response, Failure>)
      modifies log
      ensures var b := BuiltIn(fixtures, req);
        r == b.0 && log.State() == old(log.State()).(registered := old(log.isRegisteredForEvents) || b.1)
    {
      if req.command == RegisterForChangeEvents {
        if "enable" !in req.query {
          return Failure(MissingKey("enable"));
        }
        var enable := req.query["enable"];
        if enable == "on" {
          log.isRegisteredForEvents := true;
        }
        var fixture := GetFixture(fixtures, req.fixtureName);
        if fixture.Failure? {
          return Failure(fixture.error);
        }
        r := Success(Single(Replace(fixture.value, EnablePlaceholder, enable)));
      } else if req.command == GetPlayersCommand {
        var fixture := GetFixture(fixtures, req.fixtureName);
        if fixture.Failure? {
          return Failure(fixture.error);
        }
        r := Success(Single(fixture.value));
      } else if req.command in PlayerStateCommands {
        var fixture := GetFixture(fixtures, req.fixtureName);
        if fixture.Failure? {
          return Failure(fixture.error);
        }
        if "pid" !in req.query {
          return Failure(MissingKey("pid"));
        }
        var withId := Replace(fixture.value, PlayerIdPlaceholder, req.query["pid"]);
        if "sequence" !in req.query {
          return Failure(MissingKey("sequence"));
        }
        r := Success(Single(Replace(withId, SequencePlaceholder, req.query["sequence"])));
      } else {
        r := Failure(Unrecognized(req.line));
      }
    }

    /** Resolve a parsed request through the matchers, the one-shot handlers and the built-ins;
        on success log the line under its command and write the framed response. */
    method HandleRequest(log: ConnectionLog, req: Request) returns (r: Result<Response, Failure>)
      modifies this, log
      ensures matchers == old(matchers) && connections == old(connections)
      ensures var s := Resolve(old(matchers), fixtures, old(customHandlers), old(log.State()), req);
        r == s.result && customHandlers == s.handlers && log.State() == s.log
    {
      var found := FindMatcher(matchers, req.command, req.query);
      if found.Failure? {
        return Failure(found.error);
      }
      if found.value.Some? {
        var test := GetFixture(fixtures, matchers[found.value.value].response);
        if test.Failure? {
          return Failure(test.error);
        }
        log.Write(test.value);
        return Success(Single(test.value));
      }
      var response: Response;
      var queue := Queue(customHandlers, req.command);
      if |queue| > 0 {
        customHandlers := customHandlers[req.command := queue[1..]];
        var handled := RunHandler(queue[0], fixtures, req);
        if handled.Failure? {
          return Failure(handled.error);
        }
        response := handled.value;
      } else {
        var answered := AnswerBuiltIn(log, req);
        if answered.Failure? {
          return Failure(answered.error);
        }
        response := answered.value;
      }
      log.commands := AppendCommand(log.commands, req.command, req.line);
      log.WriteResponse(response);
      r := Success(response);
    }

    /** One iteration of the request loop of `_handle_connection` on the already-read line `raw`:
        strip the terminator, parse the URL, and resolve the request. */
    method HandleLine(log: ConnectionLog, raw: string) returns (r: Result<Response, Failure>)
      modifies this, log
      ensures matchers == old(matchers) && connections == old(connections)
      ensures var s := Step(old(matchers), fixtures, old(customHandlers), old(log.State()), raw);
        r == s.result && customHandlers == s.handlers && log.State() == s.log
    {
      var line := StripTerminator(raw);
      var parsed := ParseRequest(line);
      if parsed.None? {
        return Failure(MalformedLine(line));
      }
      r := HandleRequest(log, parsed.value);
    }

    /** An accepted connection: a new log, listed after the existing ones (tests/__init__.py
        lines 83-84). Between this and `Close`, the device may serve the connection's lines with
        `HandleLine` interleaved with `WriteEvent` and the registrations, as the suspensions at
        every read and write of the source allow. */
    method Accept() returns (log: ConnectionLog)
      modifies this`connections
      ensures fresh(log) && log.State() == LogState(false, map[], [])
      ensures connections == old(connections) + [log]
    {
      log := new ConnectionLog();
      connections := connections + [log];
    }

    /** The end of a connection that read to the end of its stream: `connections.remove(log)`,
        which raises when the log is not listed. */
    method Close(log: ConnectionLog) returns (r: Result<(), Failure>)
      modifies this`connections
      ensures log in old(connections) ==> r == Success(()) && connections == RemoveFirst(old(connections), log)
      ensures log !in old(connections) ==> r == Failure(NotListed) && connections == old(connections)
    {
      if log !in connections {
        return Failure(NotListed);
      }
      connections := RemoveFirst(connections, log);
      r := Success(());
    }

    /** `_handle_connection` over the lines a peer sends before closing: the connection's log is
        listed on accept; the loop serves the lines until the stream ends, when the log is
        removed from the list again, or until a line fails, which ends the task with the log
        still listed. */
    method HandleConnection(lines: seq<string>) returns (log: ConnectionLog, r: Result<(), Failure>)
      modifies this
      ensures fresh(log)
      ensures matchers == old(matchers)
      ensures var served := Serve(old(matchers), fixtures, old(customHandlers), LogState(false, map[], []), lines);
        r == served.result && customHandlers == served.handlers && log.State() == served.log
      ensures connections == if r.Success? then old(connections) else old(connections) + [log]
    {
      log := Accept();
      var i := 0;
      while i < |lines|
        invariant 0 <= i <= |lines|
        invariant fresh(log)
        invariant matchers == old(matchers) && connections == old(connections) + [log]
        invariant Serve(old(matchers), fixtures, old(customHandlers), LogState(false, map[], []), lines)
               == Serve(matchers, fixtures, customHandlers, log.State(), lines[i..])
      {
        assert lines[i..][1..] == lines[i + 1..];
        var out := HandleLine(log, lines[i]);
        if out.Failure? {
          return log, Failure(out.error);
        }
        i := i + 1;
      }
      assert lines[i..] == [];
      assert log in connections && log !in old(connections);
      r := Close(log);
      RemoveFirstOfAppended(old(connections), log);
    }
  }
}
