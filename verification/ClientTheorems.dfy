/** What a fetch guarantees against every peer, stated without following the code. */
module ClientTheorems {
  import opened Json
  import opened Parsers
  import opened Entries
  import opened Summary
  import opened Transport
  import opened Client

  // ---------------------------------------------------------------- outcomes

  /** The n-th receive yields an object of this type. */
  ghost predicate Replies(peer: Peer, n: nat, kind: string) {
    && peer.recv(n).Done?
    && HasField(peer.recv(n).value, "type") && peer.recv(n).value.fields["type"] == Str(kind)
  }

  /** The command with this id is answered: the receive after it, two after the greeting and the auth
      reply, has the right type, an id equal to the command's, and is marked successful. */
  ghost predicate Answers(peer: Peer, id: nat) {
    && Replies(peer, id + 1, "result")
    && var reply := peer.recv(id + 1).value;
       && HasField(reply, "id") && Equals(reply.fields["id"], id)
       && Given(reply, "success")
  }

  /** What the command with this id was answered with. */
  ghost function Answer(peer: Peer, id: nat): Value {
    if peer.recv(id + 1).Done? then Field(peer.recv(id + 1).value, "result", Null) else Null
  }

  /** The three parsers accept the three answers. */
  ghost predicate AnswersParse(peer: Peer) {
    && PendingUpdates(Answer(peer, 1)).Parsed?
    && RepairIssues(Answer(peer, 2)).Parsed?
    && IntegrationErrors(Answer(peer, 3)).Parsed?
  }

  /** The steps of the conversation in these words. */
  lemma StepsInPlainTerms(peer: Peer)
    ensures StepOk(peer, 0) <==> Replies(peer, 0, "auth_required")
    ensures StepOk(peer, 2) <==> Replies(peer, 1, "auth_ok")
    ensures forall id :: 1 <= id <= 3 ==> (StepOk(peer, 2 * id + 2) <==> Answers(peer, id))
    ensures forall id :: 0 <= id <= 3 ==> (StepOk(peer, 2 * id + 1) <==> peer.send(id).Done?)
    ensures forall id :: 1 <= id <= 3 && Answers(peer, id) ==> Payload(peer, id + 1) == Answer(peer, id)
  {
    forall id | 1 <= id <= 3 ensures StepOk(peer, 2 * id + 2) <==> Answers(peer, id) {
      if peer.recv(id + 1).Done? && peer.recv(id + 1).value.Obj? {
        EqualsIntExactly(Get(peer.recv(id + 1).value.fields, "id", Null), id);
        TruthyExactly(Get(peer.recv(id + 1).value.fields, "success", Null));
      }
    }
  }

  lemma RefusalInPlainTerms(peer: Peer)
    ensures Replies(peer, 1, "auth_invalid")
       <==> peer.recv(1).Done? && peer.recv(1).value.Obj? && HasType(peer.recv(1).value, "auth_invalid")
    ensures Replies(peer, 1, "auth_invalid") ==> !Replies(peer, 1, "auth_ok")
  {
    assert "auth_invalid" != "auth_ok";
  }

  lemma OnlyARefusalIsAnAuthError(peer: Peer, k: nat)
    requires k < STEPS && !StepOk(peer, k)
    ensures StepExn(peer, k) == AuthError <==> k == 2 && Replies(peer, 1, "auth_invalid")
  {
    RefusalInPlainTerms(peer);
    hide Replies, HasType, IsExpectedReply;
  }

  lemma AuthErrorIsAtStepTwo(peer: Peer)
    ensures Conversation(peer) == Raise(AuthError)
       <==> Replies(peer, 0, "auth_required") && peer.send(0).Done? && Replies(peer, 1, "auth_invalid")
  {
    StepsInPlainTerms(peer);
    RefusalInPlainTerms(peer);
    var n := Stop(peer, 0);
    if n < STEPS {
      OnlyARefusalIsAnAuthError(peer, n);
    }
    hide StepOk, StepExn, Replies, Answers, Answer, Payload;
    assert peer.send(0).Done? <==> StepOk(peer, 2 * 0 + 1);
    if StepOk(peer, 0) && StepOk(peer, 1) && !StepOk(peer, 2) {
      StopIs(peer, 2);
    }
  }

  /** The auth error comes out exactly when the server asked for the token, got it, refused it, and the
      connection closed without raising or being cancelled. */
  lemma AuthFailedExactly(built: Built, token: string, now: int)
    ensures FetchOutcome(built, token, now) == AuthFailed
       <==> && built.Connected?
            && built.peer.enter.Done? && built.peer.exit.Done?
            && Replies(built.peer, 0, "auth_required")
            && built.peer.send(0).Done?
            && Replies(built.peer, 1, "auth_invalid")
  {
    if built.Connected? {
      AuthErrorIsAtStepTwo(built.peer);
      hide Replies, Conversation, FetchLog, CancelledIn;
    }
  }

  lemma AllStepsOk(peer: Peer)
    ensures Stop(peer, 0) == STEPS
       <==> && Replies(peer, 0, "auth_required") && Replies(peer, 1, "auth_ok")
            && Answers(peer, 1) && Answers(peer, 2) && Answers(peer, 3)
            && peer.send(0).Done? && peer.send(1).Done? && peer.send(2).Done? && peer.send(3).Done?
  {
    StepsInPlainTerms(peer);
    assert Stop(peer, 0) == STEPS <==> forall k :: 0 <= k < STEPS ==> StepOk(peer, k);
  }

  /** A summary comes out exactly when every step of the conversation goes as it must, the connection
      closes, and all three payloads parse; it holds those three parses whole. */
  lemma FetchedExactly(built: Built, token: string, now: int)
    ensures FetchOutcome(built, token, now).Fetched?
       <==> && built.Connected?
            && built.peer.enter.Done? && built.peer.exit.Done?
            && Replies(built.peer, 0, "auth_required") && Replies(built.peer, 1, "auth_ok")
            && Answers(built.peer, 1) && Answers(built.peer, 2) && Answers(built.peer, 3)
            && (forall n :: 0 <= n <= 3 ==> built.peer.send(n).Done?)
            && AnswersParse(built.peer)
    ensures FetchOutcome(built, token, now).Fetched? ==>
              FetchOutcome(built, token, now).summary
              == HASummary(now, PendingUpdates(Answer(built.peer, 1)).items,
                           RepairIssues(Answer(built.peer, 2)).items,
                           IntegrationErrors(Answer(built.peer, 3)).items)
  {
    if built.Connected? {
      AllStepsOk(built.peer);
      StepsInPlainTerms(built.peer);
      hide Stop, StepOk, Answers, Answer, Payload, PendingUpdates, RepairIssues, IntegrationErrors;
    }
  }

  // ---------------------------------------------------------------- cancellation

  ghost predicate StepCancelled(peer: Peer, k: nat, who: Canceller) {
    if k % 2 == 1 then peer.send(k / 2) == Cancelled(who)
    else peer.recv(k / 2).Cancelled? && peer.recv(k / 2).who == who
  }

  /** The conversation goes as it must up to an await this canceller cuts. */
  ghost predicate Cut(peer: Peer, who: Canceller) {
    exists k :: 0 <= k < STEPS && (forall j :: 0 <= j < k ==> StepOk(peer, j)) && StepCancelled(peer, k, who)
  }

  lemma CutIsAtStop(peer: Peer, who: Canceller)
    ensures Cut(peer, who) <==> Stop(peer, 0) < STEPS && StepCancelled(peer, Stop(peer, 0), who)
  {
  }

  lemma CancelledSteps(peer: Peer, token: string, who: Canceller)
    ensures CancelledIn(StepOps(peer, token, StepsTaken(peer)), who) <==> Cut(peer, who)
  {
    CutIsAtStop(peer, who);
    hide Cut;
    var n := StepsTaken(peer);
    var ops := StepOps(peer, token, n);
    forall k | 0 <= k < n ensures CancelledIn([ops[k]], who) <==> StepCancelled(peer, k, who) {
      assert ops[k] == StepOp(peer, token, k);
      assert ops[k] in [ops[k]];
    }
    forall k | 0 <= k < n && StepCancelled(peer, k, who) ensures k == Stop(peer, 0) {
      assert !StepOk(peer, k);
    }
    if CancelledIn(ops, who) {
      var op :| op in ops && CancelledIn([op], who);
      var k :| 0 <= k < n && ops[k] == op;
    }
    if Cut(peer, who) {
      assert ops[Stop(peer, 0)] in ops;
    }
  }

  lemma CancelledInAppend(a: seq<Op>, b: seq<Op>, who: Canceller)
    ensures CancelledIn(a + b, who) <==> CancelledIn(a, who) || CancelledIn(b, who)
  {
    assert forall op :: op in a + b <==> op in a || op in b;
  }

  lemma CancelledInEnds(peer: Peer, who: Canceller)
    ensures CancelledIn([Enter(peer.enter)], who) <==> peer.enter == Cancelled(who)
    ensures CancelledIn([Exit(peer.exit)], who) <==> peer.exit == Cancelled(who)
    ensures !CancelledIn([Parse], who) && !CancelledIn([], who)
  {
    assert Enter(peer.enter) in [Enter(peer.enter)];
    assert Exit(peer.exit) in [Exit(peer.exit)];
  }

  lemma CancelledInExchange(peer: Peer, token: string, who: Canceller)
    requires peer.enter.Done?
    ensures CancelledIn(FetchLog(Connected(peer), token), who) <==> Cut(peer, who) || peer.exit == Cancelled(who)
  {
    CancelledSteps(peer, token, who);
    CancelledInEnds(peer, who);
    var steps := StepOps(peer, token, StepsTaken(peer));
    CancelledInAppend([Enter(peer.enter)], steps, who);
    CancelledInAppend([Enter(peer.enter)] + steps, [Exit(peer.exit)], who);
    CancelledInAppend(ExchangeLog(peer, token), if Exchange(peer).Ok? then [Parse] else [], who);
  }

  /** Cancelling the request from outside is the one way neither a summary nor one of the two errors
      comes out, and it does so exactly when an await it cut is not papered over by a raising close. */
  lemma AbortedExactly(built: Built, token: string, now: int)
    ensures FetchOutcome(built, token, now) == Aborted
       <==> && built.Connected?
            && var peer := built.peer;
               || peer.enter == Cancelled(Outside)
               || (&& peer.enter.Done?
                   && (peer.exit == Cancelled(Outside) || (!peer.exit.Raised? && Cut(peer, Outside))))
  {
    if built.Connected? {
      var peer := built.peer;
      if peer.enter.Done? {
        CancelledInExchange(peer, token, Outside);
        CutIsAtStop(peer, Outside);
      } else {
        assert Enter(peer.enter) in FetchLog(built, token);
      }
    }
  }

  /** A peer that nobody cancels from outside. */
  ghost predicate NeverCancelledOutside(peer: Peer) {
    && peer.enter != Cancelled(Outside) && peer.exit != Cancelled(Outside)
    && (forall n :: peer.send(n) != Cancelled(Outside))
    && (forall n :: !(peer.recv(n).Cancelled? && peer.recv(n).who == Outside))
  }

  /** The documented promise: whatever the peer does, and wherever the deadline strikes, a summary or one
      of the two errors comes out. */
  lemma PromiseHolds(built: Built, token: string, now: int)
    requires built.Connected? ==> NeverCancelledOutside(built.peer)
    ensures var o := FetchOutcome(built, token, now); o.Fetched? || o == AuthFailed || o == ConnectionFailed
  {
  }

  /** A reply with any other number for its id ends the fetch in a connection error. */
  lemma OtherIdFails(peer: Peer, token: string, now: int, id: nat, other: int)
    requires 1 <= id <= 3 && other != id && NeverCancelledOutside(peer)
    requires Replies(peer, 1, "auth_ok") && Replies(peer, id + 1, "result")
    requires HasField(peer.recv(id + 1).value, "id") && peer.recv(id + 1).value.fields["id"] == Int(other)
    ensures FetchOutcome(Connected(peer), token, now) == ConnectionFailed
  {
    FetchedExactly(Connected(peer), token, now);
    AuthFailedExactly(Connected(peer), token, now);
    PromiseHolds(Connected(peer), token, now);
    hide FetchOutcome;
    assert !Answers(peer, id);
    assert id == 1 || id == 2 || id == 3;
  }

  // ---------------------------------------------------------------- the trace

  /** What a log amounts to: every message handed to the transport, whether or not sending it worked, the
      completed sends and receives, and the exits. */
  datatype Tally = Tally(messages: seq<Message>, sends: nat, recvs: nat, exits: nat)

  function Add(t: Tally, op: Op): Tally {
    match op
    case Send(m, a) => Tally(t.messages + [m], if a.Done? then t.sends + 1 else t.sends, t.recvs, t.exits)
    case Recv(a) => Tally(t.messages, t.sends, if a.Done? then t.recvs + 1 else t.recvs, t.exits)
    case Exit(_) => Tally(t.messages, t.sends, t.recvs, t.exits + 1)
    case _ => t
  }

  function TallyOf(log: seq<Op>): Tally {
    if log == [] then Tally([], 0, 0, 0) else Add(TallyOf(log[..|log| - 1]), log[|log| - 1])
  }

  lemma TallyExtend(log: seq<Op>, op: Op)
    ensures TallyOf(log + [op]) == Add(TallyOf(log), op)
  {
  }

  function TraceUpTo(peer: Peer, token: string, k: nat): seq<Op>
    requires k <= STEPS
  {
    [Enter(peer.enter)] + StepOps(peer, token, k)
  }

  lemma TraceExtend(peer: Peer, token: string, k: nat)
    requires k < STEPS
    ensures TallyOf(TraceUpTo(peer, token, k + 1)) == Add(TallyOf(TraceUpTo(peer, token, k)), StepOp(peer, token, k))
  {
    OneMoreStep(peer, token, k);
    assert TraceUpTo(peer, token, k + 1) == TraceUpTo(peer, token, k) + [StepOp(peer, token, k)];
    TallyExtend(TraceUpTo(peer, token, k), StepOp(peer, token, k));
  }

  lemma StepShape(peer: Peer, token: string, k: nat)
    requires k < STEPS
    ensures var op := StepOp(peer, token, k);
            if k % 2 == 1
            then op == Send(Script(token)[k / 2], peer.send(k / 2)) && (StepOk(peer, k) ==> op.sent.Done?)
                 && (k + 1) / 2 == k / 2 + 1 && (k + 2) / 2 == (k + 1) / 2
                 && Script(token)[..(k + 1) / 2] == Script(token)[..k / 2] + [Script(token)[k / 2]]
            else op == Recv(peer.recv(k / 2)) && (StepOk(peer, k) ==> op.received.Done?)
                 && (k + 1) / 2 == k / 2 && (k + 2) / 2 == (k + 1) / 2 + 1
  {
  }

  /** After k steps that all went as they must. */
  function GoodTally(token: string, k: nat): Tally
    requires k <= STEPS
  {
    Tally(Script(token)[..k / 2], k / 2, (k + 1) / 2, 0)
  }

  lemma GoodStepTally(peer: Peer, token: string, k: nat)
    requires k < STEPS && StepOk(peer, k)
    ensures Add(GoodTally(token, k), StepOp(peer, token, k)) == GoodTally(token, k + 1)
  {
    StepShape(peer, token, k);
    hide StepOp, StepOk, Script;
  }

  lemma StartTally(peer: Peer, token: string)
    ensures TallyOf(TraceUpTo(peer, token, 0)) == GoodTally(token, 0)
  {
    hide Script;
    TallyExtend([], Enter(peer.enter));
    assert TraceUpTo(peer, token, 0) == [] + [Enter(peer.enter)];
  }

  lemma {:induction false} GoodStepsTally(peer: Peer, token: string, k: nat)
    requires k <= Stop(peer, 0)
    ensures TallyOf(TraceUpTo(peer, token, k)) == GoodTally(token, k)
  {
    hide *;
    if k == 0 {
      StartTally(peer, token);
    } else {
      GoodStepsTally(peer, token, k - 1);
      TraceExtend(peer, token, k - 1);
      GoodStepTally(peer, token, k - 1);
    }
  }

  lemma StepsTally(peer: Peer, token: string, k: nat)
    requires k <= StepsTaken(peer)
    ensures TallyOf(TraceUpTo(peer, token, k))
         == if k <= Stop(peer, 0) then GoodTally(token, k) else Add(GoodTally(token, k - 1), StepOp(peer, token, k - 1))
  {
    hide TallyOf, TraceUpTo, StepOps, StepOk;
    if k <= Stop(peer, 0) {
      GoodStepsTally(peer, token, k);
    } else {
      GoodStepsTally(peer, token, k - 1);
      TraceExtend(peer, token, k - 1);
    }
  }

  ghost predicate DisciplinedTally(t: Tally, token: string) {
    t.messages <= Script(token) && t.sends <= t.recvs <= t.sends + 1
  }

  lemma AnyStepIsDisciplined(peer: Peer, token: string, k: nat)
    requires k < STEPS
    ensures var t := Add(GoodTally(token, k), StepOp(peer, token, k));
            DisciplinedTally(t, token) && t.exits == 0
  {
  }

  lemma GoodTallyIsDisciplined(token: string, k: nat)
    requires k <= STEPS
    ensures DisciplinedTally(GoodTally(token, k), token) && GoodTally(token, k).exits == 0
  {
  }

  lemma StepsAreDisciplined(peer: Peer, token: string, k: nat)
    requires k <= StepsTaken(peer)
    ensures DisciplinedTally(TallyOf(TraceUpTo(peer, token, k)), token)
    ensures TallyOf(TraceUpTo(peer, token, k)).exits == 0
  {
    StepsTally(peer, token, k);
    hide TallyOf, TraceUpTo, StepOps, DisciplinedTally;
    if k <= Stop(peer, 0) {
      GoodTallyIsDisciplined(token, k);
    } else {
      AnyStepIsDisciplined(peer, token, k - 1);
    }
  }

  /** In the log so far: the transport is connected and not yet told to disconnect. */
  ghost predicate IsOpen(log: seq<Op>) {
    (exists i :: 0 <= i < |log| && log[i].Enter? && log[i].entered.Done?) && forall op :: op in log ==> !op.Exit?
  }

  /** The shape of every prefix of a fetch's log. */
  lemma PrefixShape(peer: Peer, token: string, m: nat)
    requires var log := FetchLog(Connected(peer), token); m <= |log|
    ensures var log := FetchLog(Connected(peer), token);
            var n := StepsTaken(peer);
            || m == 0
            || (m == 1 && log[..m] == [Enter(peer.enter)])
            || (peer.enter.Done? && 1 <= m <= n + 1 && log[..m] == [Enter(peer.enter)] + StepOps(peer, token, m - 1))
            || (&& peer.enter.Done? && m == n + 2
                && log[..m] == [Enter(peer.enter)] + StepOps(peer, token, n) + [Exit(peer.exit)])
            || (&& peer.enter.Done? && peer.exit.Done? && m == n + 3
                && log[..m] == [Enter(peer.enter)] + StepOps(peer, token, n) + [Exit(peer.exit)] + [Parse])
  {
  }

  lemma PrefixTally(peer: Peer, token: string, m: nat, prefix: seq<Op>)
    requires var n := StepsTaken(peer);
             || prefix == [Enter(peer.enter)]
             || (1 <= m <= n + 1 && prefix == TraceUpTo(peer, token, m - 1))
             || prefix == TraceUpTo(peer, token, n) + [Exit(peer.exit)]
             || prefix == TraceUpTo(peer, token, n) + [Exit(peer.exit)] + [Parse]
    ensures DisciplinedTally(TallyOf(prefix), token)
  {
    hide TallyOf, StepOk;
    var n := StepsTaken(peer);
    if prefix == [Enter(peer.enter)] {
      StepsAreDisciplined(peer, token, 0);
      assert prefix == TraceUpTo(peer, token, 0);
    } else if 1 <= m <= n + 1 && prefix == TraceUpTo(peer, token, m - 1) {
      StepsAreDisciplined(peer, token, m - 1);
    } else {
      StepsAreDisciplined(peer, token, n);
      TallyExtend(TraceUpTo(peer, token, n), Exit(peer.exit));
      TallyExtend(TraceUpTo(peer, token, n) + [Exit(peer.exit)], Parse);
    }
  }

  /** At every point of every fetch, aborted or not: the messages are a prefix of the script, and the
      completed receives are level with the completed sends or one ahead. */
  lemma EveryPrefixIsDisciplined(built: Built, token: string, m: nat)
    requires m <= |FetchLog(built, token)|
    ensures var t := TallyOf(FetchLog(built, token)[..m]);
            && t.messages <= [Auth(token), Command(1, "get_states"), Command(2, "repairs/list_issues"),
                              Command(3, "config_entries/get")]
            && t.sends <= t.recvs <= t.sends + 1
  {
    if built.Connected? && m > 0 {
      PrefixShape(built.peer, token, m);
      PrefixTally(built.peer, token, m, FetchLog(built, token)[..m]);
    }
  }

  /** The token is handed to the transport at most once, in the first message, and only after the peer
      greeted with `auth_required`. */
  lemma TokenOnlyAfterGreeting(built: Built, token: string, i: nat)
    requires i < |FetchLog(built, token)| && FetchLog(built, token)[i].Send?
    requires FetchLog(built, token)[i].message.Auth?
    ensures i == 2 && FetchLog(built, token)[i].message == Auth(token)
    ensures built.Connected? && Replies(built.peer, 0, "auth_required")
    ensures FetchLog(built, token)[1] == Recv(built.peer.recv(0))
  {
    var log := FetchLog(built, token);
    var peer := built.peer;
    PrefixShape(peer, token, i + 1);
    var n := StepsTaken(peer);
    assert log[..i + 1][i] == log[i];
    assert log[i] == StepOp(peer, token, i - 1);
    assert (i - 1) % 2 == 1 && Script(token)[(i - 1) / 2].Auth?;
    assert StepOk(peer, 0);
    assert log[..i + 1][1] == StepOp(peer, token, 0);
  }

  /** The transport is exited exactly once if its enter completed, and never otherwise. */
  lemma ExitedExactlyOnce(built: Built, token: string)
    ensures TallyOf(FetchLog(built, token)).exits == if built.Connected? && built.peer.enter.Done? then 1 else 0
  {
    if built.Connected? {
      var peer := built.peer;
      if peer.enter.Done? {
        var body := TraceUpTo(peer, token, StepsTaken(peer));
        StepsAreDisciplined(peer, token, StepsTaken(peer));
        TallyExtend(body, Exit(peer.exit));
        TallyExtend(body + [Exit(peer.exit)], Parse);
        var log := FetchLog(built, token);
        assert log == body + [Exit(peer.exit)] || log == body + [Exit(peer.exit)] + [Parse];
      } else {
        TallyExtend([], Enter(peer.enter));
        assert FetchLog(built, token) == [] + [Enter(peer.enter)];
      }
    }
  }

  /** No parser runs while the transport is open. */
  lemma NoParsingWhileOpen(built: Built, token: string, m: nat)
    requires m < |FetchLog(built, token)| && FetchLog(built, token)[m].Parse?
    ensures !IsOpen(FetchLog(built, token)[..m])
  {
    var log := FetchLog(built, token);
    var peer := built.peer;
    var n := StepsTaken(peer);
    PrefixShape(peer, token, m + 1);
    assert log[..m + 1][m] == log[m];
    assert log[..m][n + 1] == Exit(peer.exit);
    assert log[..m][n + 1] in log[..m];
  }

  // ---------------------------------------------------------------- the conversation in words

  /** Everything a fetch may say and hear, in order. */
  ghost function WholeConversation(peer: Peer, token: string): seq<Op> {
    [Recv(peer.recv(0)), Send(Auth(token), peer.send(0)), Recv(peer.recv(1)),
     Send(Command(1, "get_states"), peer.send(1)), Recv(peer.recv(2)),
     Send(Command(2, "repairs/list_issues"), peer.send(2)), Recv(peer.recv(3)),
     Send(Command(3, "config_entries/get"), peer.send(3)), Recv(peer.recv(4))]
  }

  /** The k-th of these goes as it must. */
  ghost predicate GoesOn(peer: Peer, k: int) {
    if k == 0 then Replies(peer, 0, "auth_required")
    else if k == 1 then peer.send(0).Done?
    else if k == 2 then Replies(peer, 1, "auth_ok")
    else if k == 3 then peer.send(1).Done?
    else if k == 4 then Answers(peer, 1)
    else if k == 5 then peer.send(2).Done?
    else if k == 6 then Answers(peer, 2)
    else if k == 7 then peer.send(3).Done?
    else Answers(peer, 3)
  }

  /** The log of a fetch that connected: the first n of these, all but perhaps the last as they must go,
      and with fewer than all only because the last went wrong; then the exit; and a parse if all of it
      went well. */
  ghost predicate Follows(peer: Peer, token: string, n: int, log: seq<Op>) {
    && 1 <= n <= 9
    && (forall k :: 0 <= k < n - 1 ==> GoesOn(peer, k))
    && (n < 9 ==> !GoesOn(peer, n - 1))
    && log == [Enter(peer.enter)] + WholeConversation(peer, token)[..n] + [Exit(peer.exit)]
              + if n == 9 && GoesOn(peer, 8) && peer.exit.Done? then [Parse] else []
  }

  lemma StepsGoOn(peer: Peer, k: nat)
    requires k < STEPS
    ensures StepOk(peer, k) <==> GoesOn(peer, k)
  {
    StepsInPlainTerms(peer);
    hide StepOk, Replies, Answers, Answer, Payload;
    assert k == 2 * 0 + 1 || k == 2 * 1 + 1 || k == 2 * 2 + 1 || k == 2 * 3 + 1
        || k == 0 || k == 2 || k == 2 * 1 + 2 || k == 2 * 2 + 2 || k == 2 * 3 + 2;
  }

  lemma OpsInWords(peer: Peer, token: string, n: nat)
    requires n <= STEPS
    ensures StepOps(peer, token, n) == WholeConversation(peer, token)[..n]
  {
  }

  /** Every fetch says and hears exactly this much of the conversation. */
  lemma FetchFollowsTheScript(built: Built, token: string)
    ensures built.NotBuilt? ==> FetchLog(built, token) == []
    ensures built.Connected? && !built.peer.enter.Done? ==> FetchLog(built, token) == [Enter(built.peer.enter)]
    ensures built.Connected? && built.peer.enter.Done? ==>
              exists n :: Follows(built.peer, token, n, FetchLog(built, token))
  {
    if built.Connected? && built.peer.enter.Done? {
      var peer := built.peer;
      var n := StepsTaken(peer);
      OpsInWords(peer, token, n);
      forall k: nat | k < STEPS ensures StepOk(peer, k) <==> GoesOn(peer, k) {
        StepsGoOn(peer, k);
      }
      assert Stop(peer, 0) < STEPS ==> !GoesOn(peer, Stop(peer, 0));
      hide GoesOn, StepOk, StepOps, WholeConversation, Payload, StepExn;
      assert Follows(peer, token, n, FetchLog(built, token));
    }
  }

  /** What a fetch that brings a summary has said and heard. */
  ghost predicate SaidAndHeard(log: seq<Op>, token: string, greeting: Value, accepted: Value,
                               states: Value, issues: Value, entries: Value)
  {
    log == [
      Enter(Done(())),
      Recv(Done(greeting)), Send(Auth(token), Done(())), Recv(Done(accepted)),
      Send(Command(1, "get_states"), Done(())), Recv(Done(states)),
      Send(Command(2, "repairs/list_issues"), Done(())), Recv(Done(issues)),
      Send(Command(3, "config_entries/get"), Done(())), Recv(Done(entries)),
      Exit(Done(())), Parse]
  }

  /** Each list of this summary is the parse of this reply's result. */
  ghost predicate SummaryOf(s: HASummary, states: Value, issues: Value, entries: Value) {
    && PendingUpdates(Field(states, "result", Null)) == Parsed(s.pendingUpdates)
    && RepairIssues(Field(issues, "result", Null)) == Parsed(s.repairIssues)
    && IntegrationErrors(Field(entries, "result", Null)) == Parsed(s.integrationErrors)
  }

  lemma AllGoesOn(built: Built, token: string)
    requires built.Connected? && built.peer.enter.Done? && built.peer.exit.Done?
    requires forall k :: 0 <= k < 9 ==> GoesOn(built.peer, k)
    ensures FetchLog(built, token)
         == [Enter(built.peer.enter)] + WholeConversation(built.peer, token) + [Exit(built.peer.exit)] + [Parse]
  {
    var whole := WholeConversation(built.peer, token);
    FetchFollowsTheScript(built, token);
    var n :| Follows(built.peer, token, n, FetchLog(built, token));
    assert whole[..9] == whole;
  }

  lemma UnitDone(a: Await<()>)
    requires a.Done?
    ensures a == Done(())
  {
    match a.value
    case () =>
  }

  lemma AllDone(peer: Peer)
    requires forall k :: 0 <= k < 9 ==> GoesOn(peer, k)
    ensures forall n :: 0 <= n <= 3 ==> peer.send(n) == Done(())
    ensures forall n :: 0 <= n <= 4 ==> peer.recv(n).Done?
  {
    forall n | 0 <= n <= 3 && peer.send(n).Done? ensures peer.send(n) == Done(()) {
      UnitDone(peer.send(n));
    }
    assert GoesOn(peer, 0) && GoesOn(peer, 1) && GoesOn(peer, 2) && GoesOn(peer, 3) && GoesOn(peer, 4);
    assert GoesOn(peer, 5) && GoesOn(peer, 6) && GoesOn(peer, 7) && GoesOn(peer, 8);
  }

  lemma SaidAndHeardAll(built: Built, token: string)
    requires built.Connected? && built.peer.enter.Done? && built.peer.exit.Done?
    requires forall k :: 0 <= k < 9 ==> GoesOn(built.peer, k)
    ensures forall n :: 0 <= n <= 4 ==> built.peer.recv(n).Done?
    ensures var peer := built.peer;
            SaidAndHeard(FetchLog(built, token), token, peer.recv(0).value, peer.recv(1).value,
                         peer.recv(2).value, peer.recv(3).value, peer.recv(4).value)
  {
    var peer := built.peer;
    AllGoesOn(built, token);
    AllDone(peer);
    UnitDone(peer.enter);
    UnitDone(peer.exit);
    hide GoesOn, FetchLog;
    var log := [Enter(Done(()))] + WholeConversation(peer, token) + [Exit(Done(()))] + [Parse];
    assert |log| == 12;
  }

  /** A summary is made of the replies that came right after the three commands they belong to. */
  lemma SummaryIsTheAnswers(built: Built, token: string, now: int)
    requires FetchOutcome(built, token, now).Fetched?
    ensures exists greeting, accepted, states, issues, entries ::
              && SaidAndHeard(FetchLog(built, token), token, greeting, accepted, states, issues, entries)
              && SummaryOf(FetchOutcome(built, token, now).summary, states, issues, entries)
  {
    var peer := built.peer;
    FetchedExactly(built, token, now);
    var summary := FetchOutcome(built, token, now).summary;
    hide FetchOutcome, FetchLog, PendingUpdates, RepairIssues, IntegrationErrors, Replies, Answers, SaidAndHeard;
    SaidAndHeardAll(built, token);
    hide GoesOn;
    assert SummaryOf(summary, peer.recv(2).value, peer.recv(3).value, peer.recv(4).value);
  }

  // ---------------------------------------------------------------- the canned script

  const AUTH_REQUIRED := Obj(map["type" := Str("auth_required"), "ha_version" := Str("2026.1.0")])
  const AUTH_OK := Obj(map["type" := Str("auth_ok"), "ha_version" := Str("2026.1.0")])

  function ResultOf(id: int, result: Value): Value {
    Obj(map["id" := Int(id), "type" := Str("result"), "success" := Bool(true), "result" := result])
  }

  const MOCK_UPDATE := Obj(map["entity_id" := Str("update.home_assistant_core"), "state" := Str("on"),
                               "attributes" := Obj(map["friendly_name" := Str("Home Assistant Core")])])
  const MOCK_ISSUE := Obj(map["issue_id" := Str("mock_low_battery"), "translation_key" := Str("low_battery"),
                              "ignored" := Bool(false)])
  const MOCK_ENTRY := Obj(map["entry_id" := Str("mock_entry"), "title" := Str("Mock Integration"),
                              "state" := Str("setup_error")])

  const DEFAULT_SCRIPT: seq<Value> := [
    AUTH_REQUIRED, AUTH_OK,
    ResultOf(1, Arr([MOCK_UPDATE])),
    ResultOf(2, Obj(map["issues" := Arr([MOCK_ISSUE])])),
    ResultOf(3, Arr([MOCK_ENTRY]))]

  lemma MockUpdateParses()
    ensures PendingUpdates(Arr([MOCK_UPDATE]))
         == Parsed([UpdateItem("update.home_assistant_core", Str("Home Assistant Core"))])
  {
    assert "update.home_assistant_core"[..7] == "update.";
  }

  lemma MockIssueAndEntryParse()
    ensures RepairIssues(Obj(map["issues" := Arr([MOCK_ISSUE])]))
         == Parsed([RepairIssue(Str("mock_low_battery"), Str("low_battery"))])
    ensures IntegrationErrors(Arr([MOCK_ENTRY]))
         == Parsed([IntegrationError(Str("mock_entry"), Str("Mock Integration"), "setup_error")])
  {
  }

  lemma ResultAnswers(peer: Peer, id: nat, result: Value)
    requires peer.recv(id + 1) == Done(ResultOf(id, result))
    ensures Answers(peer, id) && Answer(peer, id) == result
  {
  }

  /** A peer that lets everything happen and says what the canned script says. */
  ghost predicate SpeaksTheScript(peer: Peer) {
    && peer.enter.Done? && peer.exit.Done? && (forall n :: peer.send(n).Done?)
    && peer.recv(0) == Done(AUTH_REQUIRED) && peer.recv(1) == Done(AUTH_OK)
    && peer.recv(2) == Done(ResultOf(1, Arr([MOCK_UPDATE])))
    && peer.recv(3) == Done(ResultOf(2, Obj(map["issues" := Arr([MOCK_ISSUE])])))
    && peer.recv(4) == Done(ResultOf(3, Arr([MOCK_ENTRY])))
  }

  lemma CannedConversation(peer: Peer)
    requires SpeaksTheScript(peer)
    ensures Replies(peer, 0, "auth_required") && Replies(peer, 1, "auth_ok")
    ensures Answers(peer, 1) && Answer(peer, 1) == Arr([MOCK_UPDATE])
    ensures Answers(peer, 2) && Answer(peer, 2) == Obj(map["issues" := Arr([MOCK_ISSUE])])
    ensures Answers(peer, 3) && Answer(peer, 3) == Arr([MOCK_ENTRY])
  {
    hide Answers, Answer, ResultOf;
    ResultAnswers(peer, 1, Arr([MOCK_UPDATE]));
    ResultAnswers(peer, 2, Obj(map["issues" := Arr([MOCK_ISSUE])]));
    ResultAnswers(peer, 3, Arr([MOCK_ENTRY]));
  }

  /** What fetching from such a peer brings: one item of each kind. */
  const CANNED_UPDATES := [UpdateItem("update.home_assistant_core", Str("Home Assistant Core"))]
  const CANNED_ISSUES := [RepairIssue(Str("mock_low_battery"), Str("low_battery"))]
  const CANNED_ERRORS := [IntegrationError(Str("mock_entry"), Str("Mock Integration"), "setup_error")]

  lemma CannedScriptSucceeds(peer: Peer, token: string, now: int)
    requires SpeaksTheScript(peer)
    ensures FetchOutcome(Connected(peer), token, now)
         == Fetched(HASummary(now, CANNED_UPDATES, CANNED_ISSUES, CANNED_ERRORS))
  {
    hide FetchOutcome, PendingUpdates, RepairIssues, IntegrationErrors, Answers, Replies, Answer;
    CannedConversation(peer);
    MockUpdateParses();
    MockIssueAndEntryParse();
    FetchedExactly(Connected(peer), token, now);
  }

  lemma FakeSpeaksTheScript()
    ensures SpeaksTheScript(FakePeer(DEFAULT_SCRIPT))
  {
  }

  /** The fake's default script is one successful fetch. */
  lemma DefaultScriptSucceeds(token: string, now: int)
    ensures FetchOutcome(Connected(FakePeer(DEFAULT_SCRIPT)), token, now)
         == Fetched(HASummary(now, CANNED_UPDATES, CANNED_ISSUES, CANNED_ERRORS))
  {
    FakeSpeaksTheScript();
    CannedScriptSucceeds(FakePeer(DEFAULT_SCRIPT), token, now);
  }
}
