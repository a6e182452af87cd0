/** One fetch: connect, authenticate, run three numbered commands, disconnect, parse, all under one
    deadline. The conversation is nine awaits that alternate receive and send; it is specified by the
    first of them that does not go as it must. */
module Client {
  import opened Json
  import opened Parsers
  import opened Summary
  import opened Transport

  /** An exception in flight. `Cancel` is `CancelledError`, which `except Exception` does not catch. */
  datatype Exn = AuthError | ConnectionError | Other | Cancel

  datatype Try<+T> = Ok(value: T) | Raise(exn: Exn)

  datatype Payloads = Payloads(states: Value, issues: Value, entries: Value)

  /** What `fetch_dashboard_summary` does: it returns a summary, raises one of its two errors, or lets a
      cancellation of the whole request through. */
  datatype Outcome = Fetched(summary: HASummary) | AuthFailed | ConnectionFailed | Aborted

  // ---------------------------------------------------------------- the conversation, step by step

  const STEPS := 9

  /** The only four messages there are, in order. */
  function Script(token: string): seq<Message> {
    [Auth(token), Command(1, "get_states"), Command(2, "repairs/list_issues"), Command(3, "config_entries/get")]
  }

  predicate HasType(v: Value, kind: string) {
    v.Obj? && Get(v.fields, "type", Null) == Str(kind)
  }

  /** The n-th reply is the one that lets the conversation go on. */
  predicate IsExpectedReply(n: nat, v: Value) {
    if n == 0 then HasType(v, "auth_required")
    else if n == 1 then HasType(v, "auth_ok")
    else
      && HasType(v, "result")
      && EqualsInt(Get(v.fields, "id", Null), n - 1)
      && Truthy(Get(v.fields, "success", Null))
  }

  /** Even steps receive, odd steps send. */
  predicate StepOk(peer: Peer, k: nat) {
    if k % 2 == 1 then peer.send(k / 2).Done?
    else peer.recv(k / 2).Done? && IsExpectedReply(k / 2, peer.recv(k / 2).value)
  }

  function StepOp(peer: Peer, token: string, k: nat): Op
    requires k < STEPS
  {
    if k % 2 == 1 then Send(Script(token)[k / 2], peer.send(k / 2)) else Recv(peer.recv(k / 2))
  }

  function StepOps(peer: Peer, token: string, n: nat): seq<Op>
    requires n <= STEPS
  {
    seq(n, k requires 0 <= k < n => StepOp(peer, token, k))
  }

  /** The first step that goes wrong, or STEPS. */
  function Stop(peer: Peer, k: nat): (n: nat)
    requires k <= STEPS
    ensures k <= n <= STEPS
    ensures forall j :: k <= j < n ==> StepOk(peer, j)
    ensures n < STEPS ==> !StepOk(peer, n)
    decreases STEPS - k
  {
    if k == STEPS || !StepOk(peer, k) then k else Stop(peer, k + 1)
  }

  function ExnOf<T>(a: Await<T>): Exn
    requires !a.Done?
  {
    if a.Raised? then Other else Cancel
  }

  /** The exception a wrong step raises. */
  function StepExn(peer: Peer, k: nat): Exn
    requires k < STEPS && !StepOk(peer, k)
  {
    if k % 2 == 1 then ExnOf(peer.send(k / 2))
    else if !peer.recv(k / 2).Done? then ExnOf(peer.recv(k / 2))
    else
      var v := peer.recv(k / 2).value;
      if !v.Obj? then Other
      else if k == 2 && HasType(v, "auth_invalid") then AuthError
      else ConnectionError
  }

  function Payload(peer: Peer, n: nat): Value {
    if peer.recv(n).Done? && peer.recv(n).value.Obj? then Get(peer.recv(n).value.fields, "result", Null) else Null
  }

  function Conversation(peer: Peer): Try<Payloads> {
    var n := Stop(peer, 0);
    if n == STEPS then Ok(Payloads(Payload(peer, 2), Payload(peer, 3), Payload(peer, 4)))
    else Raise(StepExn(peer, n))
  }

  /** The steps a conversation takes: up to and including the one that goes wrong. */
  function StepsTaken(peer: Peer): (n: nat)
    ensures n <= STEPS
  {
    if Stop(peer, 0) == STEPS then STEPS else Stop(peer, 0) + 1
  }

  // ---------------------------------------------------------------- the whole fetch

  /** `async with`: a failed enter skips everything, and an exception from the exit replaces any other. */
  function Exchange(peer: Peer): Try<Payloads> {
    if !peer.enter.Done? then Raise(ExnOf(peer.enter))
    else if !peer.exit.Done? then Raise(ExnOf(peer.exit))
    else Conversation(peer)
  }

  function ExchangeLog(peer: Peer, token: string): seq<Op> {
    if !peer.enter.Done? then [Enter(peer.enter)]
    else [Enter(peer.enter)] + StepOps(peer, token, StepsTaken(peer)) + [Exit(peer.exit)]
  }

  ghost function ParseAll(p: Payloads, now: int): Try<HASummary> {
    var updates := PendingUpdates(p.states);
    var issues := RepairIssues(p.issues);
    var errors := IntegrationErrors(p.entries);
    if updates.Parsed? && issues.Parsed? && errors.Parsed?
    then Ok(HASummary(now, updates.items, issues.items, errors.items))
    else Raise(Other)
  }

  /** Whether any await in the log was cancelled by this canceller. */
  predicate CancelledIn(log: seq<Op>, who: Canceller) {
    exists op :: op in log &&
      match op
      case Enter(a) => a == Cancelled(who)
      case Send(_, a) => a == Cancelled(who)
      case Recv(a) => a.Cancelled? && a.who == who
      case Exit(a) => a == Cancelled(who)
      case Parse => false
  }

  ghost function FetchLog(built: Built, token: string): seq<Op> {
    if built.NotBuilt? then []
    else ExchangeLog(built.peer, token) + if Exchange(built.peer).Ok? then [Parse] else []
  }

  /** What is in flight when `_fetch` is done: everything ordinary has become a connection error. */
  ghost function FetchResult(built: Built, now: int): Try<HASummary> {
    if built.NotBuilt? then Raise(ConnectionError)
    else
      var r := match Exchange(built.peer)
               case Raise(e) => Raise(e)
               case Ok(p) => ParseAll(p, now);
      if r == Raise(Other) then Raise(ConnectionError) else r
  }

  /** `wait_for` turns a cancellation into a timeout only if its own deadline is the sole canceller. */
  function UnderDeadline(r: Try<HASummary>, log: seq<Op>): Outcome {
    match r
    case Ok(s) => Fetched(s)
    case Raise(AuthError) => AuthFailed
    case Raise(Cancel) => if CancelledIn(log, Outside) then Aborted else ConnectionFailed
    case Raise(_) => ConnectionFailed
  }

  ghost function FetchOutcome(built: Built, token: string, now: int): Outcome {
    UnderDeadline(FetchResult(built, now), FetchLog(built, token))
  }

  // ---------------------------------------------------------------- the code

  /** The channel has taken the first k steps, all but perhaps the last of them as they must go. */
  ghost predicate Took(c: Channel, before: seq<Op>, token: string, k: nat)
    reads c
  {
    && k <= STEPS
    && c.log == before + StepOps(c.peer, token, k)
    && c.sends == k / 2
    && c.recvs == (k + 1) / 2
  }

  /** The conversation ended with this exception, at a step before the n-th. */
  ghost predicate StoppedBefore(c: Channel, before: seq<Op>, token: string, n: nat, exn: Exn)
    requires n <= STEPS
    reads c
  {
    && Stop(c.peer, 0) < n
    && exn == StepExn(c.peer, Stop(c.peer, 0))
    && Took(c, before, token, Stop(c.peer, 0) + 1)
  }

  lemma OneMoreStep(peer: Peer, token: string, k: nat)
    requires k < STEPS
    ensures StepOps(peer, token, k + 1) == StepOps(peer, token, k) + [StepOp(peer, token, k)]
  {
  }

  lemma StopIs(peer: Peer, k: nat)
    requires k <= STEPS && forall j :: 0 <= j < k ==> StepOk(peer, j)
    ensures k <= Stop(peer, 0)
    ensures k < STEPS && !StepOk(peer, k) ==> Stop(peer, 0) == k
  {
  }

  method Authenticate(c: Channel, token: string, ghost before: seq<Op>) returns (r: Try<()>)
    requires Took(c, before, token, 0)
    modifies c
    ensures r.Ok? ==> Stop(c.peer, 0) >= 3 && Took(c, before, token, 3)
    ensures r.Raise? ==> StoppedBefore(c, before, token, 3, r.exn)
  {
    ghost var peer := c.peer;
    var greeting := c.DoRecv();
    OneMoreStep(peer, token, 0);
    StopIs(peer, 0);
    if !greeting.Done? {
      return Raise(ExnOf(greeting));
    }
    if !greeting.value.Obj? {
      return Raise(Other);
    }
    if Get(greeting.value.fields, "type", Null) != Str("auth_required") {
      return Raise(ConnectionError);
    }

    var sent := c.DoSend(Auth(token));
    OneMoreStep(peer, token, 1);
    StopIs(peer, 1);
    if !sent.Done? {
      return Raise(ExnOf(sent));
    }
    var response := c.DoRecv();
    OneMoreStep(peer, token, 2);
    StopIs(peer, 2);
    if !response.Done? {
      return Raise(ExnOf(response));
    }
    if !response.value.Obj? {
      return Raise(Other);
    }
    var messageType := Get(response.value.fields, "type", Null);
    if messageType == Str("auth_ok") {
      StopIs(peer, 3);
      return Ok(());
    }
    if messageType == Str("auth_invalid") {
      return Raise(AuthError);
    }
    return Raise(ConnectionError);
  }

  lemma CommandOps(peer: Peer, token: string, id: nat)
    requires 1 <= id <= 3
    ensures var k := 2 * id + 1;
            && k / 2 == id && (k + 1) / 2 == id + 1 && (k + 2) / 2 == id + 1
            && StepOps(peer, token, k + 1) == StepOps(peer, token, k) + [Send(Script(token)[id], peer.send(id))]
            && StepOps(peer, token, k + 2) == StepOps(peer, token, k + 1) + [Recv(peer.recv(id + 1))]
  {
    OneMoreStep(peer, token, 2 * id + 1);
    OneMoreStep(peer, token, 2 * id + 2);
    hide StepOps, Script;
  }

  /** What the two steps of a command are, given that all earlier ones went as they must. */
  lemma CommandSteps(peer: Peer, token: string, id: nat)
    requires 1 <= id <= 3 && Stop(peer, 0) >= 2 * id + 1
    ensures var k := 2 * id + 1;
            && (StepOk(peer, k) <==> peer.send(id).Done?)
            && (StepOk(peer, k + 1) <==> peer.recv(id + 1).Done? && IsExpectedReply(id + 1, peer.recv(id + 1).value))
            && (!StepOk(peer, k) ==> Stop(peer, 0) == k && StepExn(peer, k) == ExnOf(peer.send(id)))
            && (StepOk(peer, k) && !StepOk(peer, k + 1) ==> Stop(peer, 0) == k + 1)
            && (StepOk(peer, k) && StepOk(peer, k + 1) ==> Stop(peer, 0) >= k + 2)
  {
    var k := 2 * id + 1;
    hide IsExpectedReply;
    StopIs(peer, k);
    if StepOk(peer, k) {
      StopIs(peer, k + 1);
      if StepOk(peer, k + 1) {
        StopIs(peer, k + 2);
      }
    }
  }

  method RunCommand(c: Channel, token: string, commandId: nat, commandType: string, ghost before: seq<Op>)
    returns (r: Try<Value>)
    requires 1 <= commandId <= 3 && Script(token)[commandId] == Command(commandId, commandType)
    requires Took(c, before, token, 2 * commandId + 1) && Stop(c.peer, 0) >= 2 * commandId + 1
    modifies c
    ensures r.Ok? ==> Stop(c.peer, 0) >= 2 * commandId + 3 && Took(c, before, token, 2 * commandId + 3)
    ensures r.Ok? ==> r.value == Payload(c.peer, commandId + 1)
    ensures r.Raise? ==> StoppedBefore(c, before, token, 2 * commandId + 3, r.exn)
  {
    ghost var peer := c.peer;
    CommandOps(peer, token, commandId);
    CommandSteps(peer, token, commandId);
    var sent := c.DoSend(Command(commandId, commandType));
    if !sent.Done? {
      return Raise(ExnOf(sent));
    }
    var response := c.DoRecv();
    if !response.Done? {
      return Raise(ExnOf(response));
    }
    if !response.value.Obj? {
      return Raise(Other);
    }
    var fields := response.value.fields;
    if !EqualsInt(Get(fields, "id", Null), commandId) || Get(fields, "type", Null) != Str("result") {
      return Raise(ConnectionError);
    }
    if !Truthy(Get(fields, "success", Null)) {
      return Raise(ConnectionError);
    }
    return Ok(Get(fields, "result", Null));
  }

  /** The body of the `async with`. */
  method Converse(c: Channel, token: string) returns (r: Try<Payloads>)
    requires c.sends == 0 && c.recvs == 0
    modifies c
    ensures r == Conversation(c.peer)
    ensures c.log == old(c.log) + StepOps(c.peer, token, StepsTaken(c.peer))
  {
    ghost var before := c.log;
    assert StepOps(c.peer, token, 0) == [];
    var auth := Authenticate(c, token, before);
    if auth.Raise? {
      return Raise(auth.exn);
    }
    var states := RunCommand(c, token, 1, "get_states", before);
    if states.Raise? {
      return Raise(states.exn);
    }
    var issues := RunCommand(c, token, 2, "repairs/list_issues", before);
    if issues.Raise? {
      return Raise(issues.exn);
    }
    var entries := RunCommand(c, token, 3, "config_entries/get", before);
    if entries.Raise? {
      return Raise(entries.exn);
    }
    r := Ok(Payloads(states.value, issues.value, entries.value));
  }

  method ParsePayloads(p: Payloads, now: int) returns (r: Try<HASummary>)
    ensures r == ParseAll(p, now)
  {
    var updates := ParsePendingUpdates(p.states);
    if updates.Failed? {
      return Raise(Other);
    }
    var issues := ParseRepairIssues(p.issues);
    if issues.Failed? {
      return Raise(Other);
    }
    var errors := ParseIntegrationErrors(p.entries);
    if errors.Failed? {
      return Raise(Other);
    }
    r := Ok(HASummary(now, updates.items, issues.items, errors.items));
  }

  /** `_fetch` on a transport the factory built. */
  method FetchOver(c: Channel, token: string, now: int) returns (r: Try<HASummary>)
    requires c.log == [] && c.sends == 0 && c.recvs == 0
    modifies c
    ensures r == FetchResult(Connected(c.peer), now)
    ensures c.log == FetchLog(Connected(c.peer), token)
  {
    var entered := c.DoEnter();
    if !entered.Done? {
      return Raise(if ExnOf(entered) == Other then ConnectionError else ExnOf(entered));
    }
    var conversation := Converse(c, token);
    var exited := c.DoExit();
    var inFlight := if exited.Done? then conversation else Raise(ExnOf(exited));
    match inFlight
    case Ok(payloads) =>
      c.NoteParse();
      r := ParsePayloads(payloads, now);
      if r == Raise(Other) {
        r := Raise(ConnectionError);
      }
    case Raise(e) =>
      r := Raise(if e == Other then ConnectionError else e);
  }

  method FetchDashboardSummary(factory: Factory, host: string, token: string, now: int)
    returns (outcome: Outcome, log: seq<Op>)
    ensures outcome == FetchOutcome(factory(host), token, now)
    ensures log == FetchLog(factory(host), token)
  {
    match factory(host)
    case NotBuilt =>
      outcome, log := ConnectionFailed, [];
    case Connected(peer) =>
      var c := new Channel(peer);
      var r := FetchOver(c, token, now);
      log := c.log;
      outcome := UnderDeadline(r, log);
  }
}
