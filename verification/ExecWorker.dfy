/**
 * The background worker that runs commands over its own connection: it connects when it must, retries
 * a broken connection once, and answers every request. Connects and executions may turn out any way.
 */
module ExecWorker {
  import opened Basics

  // ----- One execution: the loop over the channel's messages -----

  datatype Message = Data(bytes: seq<byte>) | ExitStatus(code: nat) | Eof | Close | Other

  datatype Outcome = Ran(output: seq<byte>) | Exited(code: nat, output: seq<byte>) | Broken

  predicate Ends(m: Message) {
    m.Eof? || m.Close?
  }

  /** What arrives before the first Eof or Close, or before the channel is gone. */
  function Seen(messages: seq<Message>): (r: seq<Message>)
    ensures r <= messages
    ensures forall m | m in r :: !Ends(m)
    ensures r != messages ==> Ends(messages[|r|])
  {
    if messages == [] || Ends(messages[0]) then [] else [messages[0]] + Seen(messages[1..])
  }

  function Output(messages: seq<Message>): seq<byte> {
    if messages == [] then []
    else
      var last := messages[|messages| - 1];
      Output(messages[..|messages| - 1]) + if last.Data? then last.bytes else []
  }

  /** The data of the messages that carry some, in order, and that data put together. */
  function DataOf(messages: seq<Message>): seq<seq<byte>> {
    if messages == [] then []
    else (if messages[0].Data? then [messages[0].bytes] else []) + DataOf(messages[1..])
  }

  function Joined(parts: seq<seq<byte>>): seq<byte> {
    if parts == [] then [] else parts[0] + Joined(parts[1..])
  }

  lemma {:induction false} JoinedAppend(parts: seq<seq<byte>>, part: seq<byte>)
    ensures Joined(parts + [part]) == Joined(parts) + part
  {
    if parts == [] {
      assert [] + [part] == [part] && [part][1..] == [] && part + [] == part;
    } else {
      JoinedAppend(parts[1..], part);
      assert (parts + [part])[1..] == parts[1..] + [part];
      assert parts[0] + (Joined(parts[1..]) + part) == parts[0] + Joined(parts[1..]) + part;
    }
  }

  lemma {:induction false} DataAppend(messages: seq<Message>, m: Message)
    ensures DataOf(messages + [m]) == DataOf(messages) + if m.Data? then [m.bytes] else []
  {
    if messages != [] {
      DataAppend(messages[1..], m);
      assert (messages + [m])[1..] == messages[1..] + [m];
    }
  }

  /** The output is the data of the messages before the first Eof or Close, in order. */
  lemma {:induction false} OutputIsData(messages: seq<Message>)
    ensures Output(messages) == Joined(DataOf(messages))
  {
    if messages != [] {
      var n := |messages| - 1;
      OutputIsData(messages[..n]);
      DataAppend(messages[..n], messages[n]);
      assert messages[..n] + [messages[n]] == messages;
      if messages[n].Data? {
        JoinedAppend(DataOf(messages[..n]), messages[n].bytes);
      } else {
        assert DataOf(messages[..n]) + [] == DataOf(messages[..n]);
        assert Output(messages[..n]) + [] == Output(messages[..n]);
      }
    }
  }

  function LastStatus(messages: seq<Message>): (r: Option<nat>)
    ensures r.None? <==> forall m | m in messages :: !m.ExitStatus?
  {
    if messages == [] then None
    else if messages[|messages| - 1].ExitStatus? then Some(messages[|messages| - 1].code)
    else
      var before := messages[..|messages| - 1];
      assert messages == before + [messages[|messages| - 1]];
      LastStatus(before)
  }

  function OutcomeOf(messages: seq<Message>): Outcome {
    var seen := Seen(messages);
    match LastStatus(seen)
    case Some(code) => if code != 0 then Exited(code, Output(seen)) else Ran(Output(seen))
    case None => Ran(Output(seen))
  }

  /** `sound`: the channel opens, takes the command and its input, and is not lost. */
  method RunExec(messages: seq<Message>, sound: bool) returns (outcome: Outcome)
    ensures outcome == if sound then OutcomeOf(messages) else Broken
  {
    if !sound { return Broken; }
    var output: seq<byte> := [];
    var status := None;
    var i := 0;
    while i < |messages|
      invariant i <= |messages| && forall j | 0 <= j < i :: !Ends(messages[j])
      invariant output == Output(messages[..i]) && status == LastStatus(messages[..i])
    {
      if Ends(messages[i]) { break; }
      match messages[i] {
        case Data(bytes) => output := output + bytes;
        case ExitStatus(code) => status := Some(code);
        case Other =>
      }
      assert messages[..i + 1][..i] == messages[..i];
      i := i + 1;
    }
    SeenIs(messages, i);
    if status.Some? && status.value != 0 { return Exited(status.value, output); }
    return Ran(output);
  }

  lemma {:induction false} SeenIs(messages: seq<Message>, i: nat)
    requires i <= |messages| && (forall j | 0 <= j < i :: !Ends(messages[j])) && (i < |messages| ==> Ends(messages[i]))
    ensures Seen(messages) == messages[..i]
  {
    if i > 0 {
      SeenIs(messages[1..], i - 1);
      assert [messages[0]] + messages[1..][..i - 1] == messages[..i];
    }
  }

  /**
   * A command counts as failed exactly when the last exit status before the first Eof or Close is not
   * zero. A status that comes after Eof, or a channel that just ends, leaves a success.
   */
  lemma FailedIff(messages: seq<Message>)
    ensures OutcomeOf(messages).Exited? <==>
      exists i | 0 <= i < |Seen(messages)| :: IsLastStatus(Seen(messages), i) && Seen(messages)[i].code != 0
  {
    var seen := Seen(messages);
    StatusFound(seen);
    if i :| 0 <= i < |seen| && IsLastStatus(seen, i) { LastIsLast(seen, i); }
  }

  /** What the report would be if no message were left unread. */
  function Reported(messages: seq<Message>): bool {
    match LastStatus(messages)
    case Some(code) => code != 0
    case None => false
  }

  /** A status after the first Eof or Close can only go unread: without one the report is that of the whole stream. */
  lemma {:induction false} NothingUnread(messages: seq<Message>)
    requires forall i | |Seen(messages)| <= i < |messages| :: !messages[i].ExitStatus?
    ensures OutcomeOf(messages).Exited? <==> Reported(messages)
  {
    UnreadIgnored(messages, Seen(messages), |messages|);
    assert messages[..|messages|] == messages;
  }

  lemma {:induction false} UnreadIgnored(messages: seq<Message>, seen: seq<Message>, n: nat)
    requires seen <= messages && |seen| <= n <= |messages|
    requires forall i | |seen| <= i < |messages| :: !messages[i].ExitStatus?
    ensures LastStatus(messages[..n]) == LastStatus(seen)
  {
    if n == |seen| {
      assert messages[..n] == seen;
    } else {
      UnreadIgnored(messages, seen, n - 1);
      assert messages[..n][..n - 1] == messages[..n - 1];
    }
  }

  /** A failure whose status comes after Eof is reported as a success. */
  lemma LateStatusIsLost(code: nat)
    requires code != 0
    ensures OutcomeOf([Eof, ExitStatus(code)]) == Ran([]) && Reported([Eof, ExitStatus(code)])
  {
    var messages := [Eof, ExitStatus(code)];
    SeenIs(messages, 0);
    assert messages[..0] == [];
    assert messages[|messages| - 1].ExitStatus?;
  }

  ghost predicate IsLastStatus(messages: seq<Message>, i: nat)
    requires i < |messages|
  {
    messages[i].ExitStatus? && forall j | i < j < |messages| :: !messages[j].ExitStatus?
  }

  lemma {:induction false} StatusFound(seen: seq<Message>)
    ensures LastStatus(seen).Some? ==>
      exists i | 0 <= i < |seen| :: IsLastStatus(seen, i) && seen[i].code == LastStatus(seen).value
  {
    if seen != [] {
      var n := |seen| - 1;
      if seen[n].ExitStatus? {
        assert IsLastStatus(seen, n);
      } else {
        var before := seen[..n];
        StatusFound(before);
        if i :| 0 <= i < |before| && IsLastStatus(before, i) && Some(before[i].code) == LastStatus(before) {
          forall j | i < j < |seen| ensures !seen[j].ExitStatus? { if j < n { assert seen[j] == before[j]; } }
          assert IsLastStatus(seen, i);
        }
      }
    }
  }

  lemma {:induction false} LastIsLast(seen: seq<Message>, i: nat)
    requires i < |seen| && IsLastStatus(seen, i)
    ensures LastStatus(seen) == Some(seen[i].code)
  {
    if i < |seen| - 1 {
      LastIsLast(seen[..|seen| - 1], i);
    }
  }

  // ----- The worker -----

  /** A command and what goes to its standard input. */
  type Request = (string, Option<string>)
  type ConnectionId = nat

  datatype Failure = NoConnection | CommandFailed(code: nat) | LostAgain

  type Answer = Result<seq<byte>, Failure>

  datatype Event =
    | Connected(connection: ConnectionId)
    | ConnectFailed
    | Executed(request: Request, connection: ConnectionId, outcome: Outcome)
    | Answered(to: Request, answer: Answer)

  /** The answers given so far, in order. */
  function AnswersIn(log: seq<Event>): seq<(Request, Answer)> {
    if log == [] then []
    else
      var last := log[|log| - 1];
      AnswersIn(log[..|log| - 1]) + if last.Answered? then [(last.to, last.answer)] else []
  }

  function Connects(log: seq<Event>): nat {
    if log == [] then 0
    else Connects(log[..|log| - 1]) + if log[|log| - 1].Connected? || log[|log| - 1].ConnectFailed? then 1 else 0
  }

  function Executions(log: seq<Event>): nat {
    if log == [] then 0
    else Executions(log[..|log| - 1]) + if log[|log| - 1].Executed? then 1 else 0
  }

  /** The last connection that connect handed out. */
  function Latest(log: seq<Event>): Option<ConnectionId> {
    if log == [] then None
    else if log[|log| - 1].Connected? then Some(log[|log| - 1].connection)
    else Latest(log[..|log| - 1])
  }

  lemma Appended(log: seq<Event>, e: Event)
    ensures AnswersIn(log + [e]) == AnswersIn(log) + if e.Answered? then [(e.to, e.answer)] else []
    ensures Connects(log + [e]) == Connects(log) + if e.Connected? || e.ConnectFailed? then 1 else 0
    ensures Executions(log + [e]) == Executions(log) + if e.Executed? then 1 else 0
    ensures Latest(log + [e]) == if e.Connected? then Some(e.connection) else Latest(log)
  {
    assert (log + [e])[..|log|] == log;
  }

  /** Every execution used the last connection that connect had handed out before it. */
  ghost predicate OnOwnConnections(log: seq<Event>) {
    forall i | 0 <= i < |log| && log[i].Executed? :: Latest(log[..i]) == Some(log[i].connection)
  }

  lemma Longer(log: seq<Event>, e: Event)
    requires OnOwnConnections(log) && (e.Executed? ==> Latest(log) == Some(e.connection))
    ensures OnOwnConnections(log + [e])
  {
    var more := log + [e];
    forall i | 0 <= i < |more| && more[i].Executed? ensures Latest(more[..i]) == Some(more[i].connection) {
      assert more[..i] == log[..i];
      if i == |log| { assert log[..i] == log; }
    }
  }

  // ----- What the worker does for one request -----

  function ConnectEvent(r: Option<ConnectionId>): Event {
    if r.Some? then Connected(r.value) else ConnectFailed
  }

  /** With a connection, nothing; without one, a connect and at most one more after a failure. */
  ghost predicate Reconnected(events: seq<Event>, before: Option<ConnectionId>, after: Option<ConnectionId>) {
    if before.Some? then events == [] && after == before
    else (events == [ConnectEvent(after)] && after.Some?) || events == [ConnectFailed, ConnectEvent(after)]
  }

  /** The answer says what the execution did. */
  ghost predicate Tells(answer: Answer, outcome: Outcome) {
    match outcome
    case Ran(output) => answer == Ok(output)
    case Exited(code, _) => answer == Err(CommandFailed(code))
    case Broken => answer == Err(LostAgain)
  }

  /**
   * On a connection: one execution that did not break, and its answer; or a broken one, followed by a connect that
   * fails or by a connect and one more execution on the new connection, and its answer.
   */
  ghost predicate Attempted(events: seq<Event>, request: Request, connection: ConnectionId, answer: Answer,
                            after: Option<ConnectionId>) {
    && events != [] && events[0].Executed? && events[0].request == request && events[0].connection == connection
    && if !events[0].outcome.Broken? then |events| == 1 && Tells(answer, events[0].outcome) && after == Some(connection)
       else if after.None? then |events| == 2 && events[1] == ConnectFailed && answer == Err(NoConnection)
       else
         && |events| == 3 && events[1] == Connected(after.value)
         && events[2].Executed? && events[2].request == request && events[2].connection == after.value
         && Tells(answer, events[2].outcome)
  }

  /** All of it, from the connection the worker had to the one it has afterwards; k events go into connecting. */
  ghost predicate Story(events: seq<Event>, k: nat, request: Request, answer: Answer,
                        before: Option<ConnectionId>, mid: Option<ConnectionId>, after: Option<ConnectionId>) {
    && k <= |events| && Reconnected(events[..k], before, mid)
    && if mid.None? then k == |events| && answer == Err(NoConnection) && after == None
       else Attempted(events[k..], request, mid.value, answer, after)
  }

  /** The work for one request, however it had to connect. */
  ghost predicate Served(events: seq<Event>, request: Request, answer: Answer,
                         before: Option<ConnectionId>, after: Option<ConnectionId>) {
    exists k: nat, mid: Option<ConnectionId> :: Story(events, k, request, answer, before, mid, after)
  }

  /** What follows from it, said of the events alone. */
  ghost predicate Handled(events: seq<Event>, request: Request, answer: Answer) {
    && events != [] && Connects(events) <= 3 && Executions(events) <= 2
    && (forall i | 0 <= i < |events| :: !events[i].Answered?)
    && (forall i | 0 <= i < |events| && events[i].Executed? :: events[i].request == request)
    && (forall i | 0 <= i < |events| && events[i].Executed? && !events[i].outcome.Broken? :: i == |events| - 1)
    && (forall i | 0 <= i < |events| && events[i].Connected? :: i + 1 < |events| && events[i + 1].Executed?)
    && var last := events[|events| - 1];
      && (forall output :: answer == Ok(output) <==> last.Executed? && last.outcome == Ran(output))
      && (forall code ::
            answer == Err(CommandFailed(code)) <==> last.Executed? && last.outcome.Exited? && last.outcome.code == code)
      && (answer == Err(LostAgain) <==> last.Executed? && last.outcome.Broken?)
      && (answer == Err(LostAgain) ==>
            |events| > 2 && events[|events| - 3].Executed? && events[|events| - 3].outcome.Broken?)
      && (answer == Err(NoConnection) <==> last.ConnectFailed?)
  }

  /** Counting events one by one from the front. */
  lemma {:induction false} Counted(e: Event, more: seq<Event>)
    ensures Connects([e] + more) == Connects(more) + if e.Connected? || e.ConnectFailed? then 1 else 0
    ensures Executions([e] + more) == Executions(more) + if e.Executed? then 1 else 0
  {
    if more == [] {
      assert [e] + more == [e] && [e][..0] == [];
    } else {
      var n := |more| - 1;
      Counted(e, more[..n]);
      assert ([e] + more)[..n + 1] == [e] + more[..n];
    }
  }

  lemma AttemptedIsHandled(events: seq<Event>, request: Request, connection: ConnectionId, answer: Answer,
                           after: Option<ConnectionId>)
    requires Attempted(events, request, connection, answer, after)
    ensures Handled(events, request, answer) && Connects(events) <= 1
  {
    Counted(events[0], events[1..]);
    assert events == [events[0]] + events[1..];
    if |events| > 1 {
      Counted(events[1], events[2..]);
      assert events[1..] == [events[1]] + events[2..];
      if |events| > 2 {
        Counted(events[2], []);
        assert events[2..] == [events[2]] + [];
      }
    }
  }

  lemma ServedIsHandled(events: seq<Event>, request: Request, answer: Answer,
                        before: Option<ConnectionId>, after: Option<ConnectionId>)
    requires Served(events, request, answer, before, after)
    ensures Handled(events, request, answer)
    ensures before.Some? ==> events[0].Executed? && events[0].connection == before.value
    ensures after.None? <==> answer == Err(NoConnection)
  {
    var k: nat, mid: Option<ConnectionId> :| Story(events, k, request, answer, before, mid, after);
    StoryIsHandled(events, k, request, answer, before, mid, after);
  }

  lemma StoryIsHandled(events: seq<Event>, k: nat, request: Request, answer: Answer,
                       before: Option<ConnectionId>, mid: Option<ConnectionId>, after: Option<ConnectionId>)
    requires Story(events, k, request, answer, before, mid, after)
    ensures Handled(events, request, answer)
    ensures before.Some? ==> events[0].Executed? && events[0].connection == before.value
    ensures after.None? <==> answer == Err(NoConnection)
  {
    var rest := events[k..];
    assert events == events[..k] + rest;
    if mid.None? {
      assert events == [ConnectFailed] + [ConnectFailed];
      Counted(ConnectFailed, []);
      assert [ConnectFailed] + [] == [ConnectFailed];
      ConnectFirst(ConnectFailed, [ConnectFailed], request, answer);
    } else {
      AttemptedIsHandled(rest, request, mid.value, answer, after);
      AfterConnecting(events[..k], rest, request, answer, before, mid.value);
      AttemptedTells(rest, request, mid.value, answer, after);
    }
  }

  lemma AttemptedTells(events: seq<Event>, request: Request, connection: ConnectionId, answer: Answer,
                       after: Option<ConnectionId>)
    requires Attempted(events, request, connection, answer, after)
    ensures after.None? <==> answer == Err(NoConnection)
  {
  }

  /** A connect in front of the work leaves it handled. */
  lemma ConnectFirst(e: Event, rest: seq<Event>, request: Request, answer: Answer)
    requires Handled(rest, request, answer) && Connects(rest) <= 2
    requires e.ConnectFailed? || (e.Connected? && rest[0].Executed?)
    ensures Handled([e] + rest, request, answer) && Connects([e] + rest) == Connects(rest) + 1
  {
    var events := [e] + rest;
    Counted(e, rest);
    assert forall i | 1 <= i < |events| :: events[i] == rest[i - 1];
    assert events[|events| - 1] == rest[|rest| - 1];
    assert |rest| > 2 ==> events[|events| - 3] == rest[|rest| - 3];
  }

  lemma AfterConnecting(connecting: seq<Event>, rest: seq<Event>, request: Request, answer: Answer,
                        before: Option<ConnectionId>, connection: ConnectionId)
    requires Reconnected(connecting, before, Some(connection)) && Handled(rest, request, answer) && Connects(rest) <= 1
    requires rest[0].Executed? && rest[0].connection == connection
    ensures Handled(connecting + rest, request, answer)
    ensures before.Some? ==>
      (connecting + rest)[0].Executed? && (connecting + rest)[0].connection == before.value
  {
    if before.Some? {
      assert connecting + rest == rest;
    } else {
      ConnectFirst(Connected(connection), rest, request, answer);
      var one := [Connected(connection)] + rest;
      if |connecting| == 1 {
        assert connecting + rest == one;
      } else {
        ConnectFirst(ConnectFailed, one, request, answer);
        assert connecting + rest == [ConnectFailed] + one;
      }
    }
  }

  lemma IsServed(connecting: seq<Event>, more: seq<Event>, request: Request, answer: Answer,
                 before: Option<ConnectionId>, mid: Option<ConnectionId>, after: Option<ConnectionId>)
    requires Reconnected(connecting, before, mid)
    requires if mid.None? then more == [] && answer == Err(NoConnection) && after == None
             else Attempted(more, request, mid.value, answer, after)
    ensures Served(connecting + more, request, answer, before, after)
  {
    var events, k := connecting + more, |connecting|;
    assert events[..k] == connecting && events[k..] == more;
    assert Story(events, k, request, answer, before, mid, after);
  }

  lemma Regrouped(a: seq<Event>, b: seq<Event>, c: seq<Event>)
    ensures a + b + c == a + (b + c)
  {
  }

  class Worker {
    var session: Option<ConnectionId>
    var issued: nat
    ghost var log: seq<Event>

    constructor ()
      ensures session == None && log == []
    {
      session, issued, log := None, 0, [];
    }

    ghost predicate Valid()
      reads this
    {
      (session.Some? ==> Latest(log) == session) && OnOwnConnections(log)
    }

    method Connect() returns (r: Option<ConnectionId>)
      requires OnOwnConnections(log)
      modifies this`log, this`issued
      ensures log == old(log) + [ConnectEvent(r)] && OnOwnConnections(log)
      ensures r.Some? ==> Latest(log) == r
      ensures AnswersIn(log) == AnswersIn(old(log))
    {
      r := None;
      if * {
        r := Some(issued);
        issued := issued + 1;
      }
      Appended(log, ConnectEvent(r));
      Longer(log, ConnectEvent(r));
      log := log + [ConnectEvent(r)];
    }

    method Execute(request: Request, connection: ConnectionId) returns (outcome: Outcome)
      requires OnOwnConnections(log) && Latest(log) == Some(connection)
      modifies this`log
      ensures log == old(log) + [Executed(request, connection, outcome)] && OnOwnConnections(log)
      ensures Latest(log) == Some(connection)
      ensures AnswersIn(log) == AnswersIn(old(log))
    {
      var messages: seq<Message> :| true;
      var sound := *;
      outcome := RunExec(messages, sound);
      Appended(log, Executed(request, connection, outcome));
      Longer(log, Executed(request, connection, outcome));
      log := log + [Executed(request, connection, outcome)];
    }

    /** Connect if there is no connection, with one retry. */
    method EnsureConnected() returns (ghost events: seq<Event>)
      requires Valid()
      modifies this
      ensures Valid()
      ensures log == old(log) + events && Reconnected(events, old(session), session)
      ensures AnswersIn(log) == AnswersIn(old(log))
    {
      events := [];
      if session.None? {
        session := Connect();
        events := [ConnectEvent(session)];
        if session.None? {
          session := Connect();
          events := [ConnectFailed, ConnectEvent(session)];
        }
      }
    }

    /** Run the command; only a broken connection is worth one reconnect and one more run. */
    method RunWithRetry(request: Request) returns (answer: Answer, ghost events: seq<Event>)
      requires Valid() && session.Some?
      modifies this
      ensures Valid()
      ensures log == old(log) + events && Attempted(events, request, old(session).value, answer, session)
      ensures AnswersIn(log) == AnswersIn(old(log))
    {
      var outcome := Execute(request, session.value);
      events := [Executed(request, session.value, outcome)];
      if !outcome.Broken? { return AnswerOf(outcome), events; }
      session := None;
      var again := Connect();
      events := events + [ConnectEvent(again)];
      if again.None? { return Err(NoConnection), events; }
      session := again;
      outcome := Execute(request, again.value);
      events := events + [Executed(request, again.value, outcome)];
      answer := AnswerOf(outcome);
    }

    /** One request, from its arrival to its answer. */
    method Serve(request: Request) returns (answer: Answer, ghost events: seq<Event>)
      requires Valid()
      modifies this
      ensures Valid()
      ensures log == old(log) + events + [Answered(request, answer)]
      ensures Served(events, request, answer, old(session), session)
      ensures AnswersIn(log) == AnswersIn(old(log)) + [(request, answer)]
    {
      answer, events := Attend(request);
      Reply(request, answer);
    }

    /** The work for it. */
    method Attend(request: Request) returns (answer: Answer, ghost events: seq<Event>)
      requires Valid()
      modifies this
      ensures Valid() && log == old(log) + events
      ensures Served(events, request, answer, old(session), session)
      ensures AnswersIn(log) == AnswersIn(old(log))
    {
      ghost var connecting := EnsureConnected();
      if session.None? {
        IsServed(connecting, [], request, Err(NoConnection), old(session), None, None);
        assert connecting + [] == connecting;
        return Err(NoConnection), connecting;
      }
      ghost var mid := session;
      ghost var more;
      answer, more := RunWithRetry(request);
      IsServed(connecting, more, request, answer, old(session), mid, session);
      events := connecting + more;
      Regrouped(old(log), connecting, more);
    }

    method Reply(request: Request, answer: Answer)
      requires Valid()
      modifies this`log
      ensures Valid() && log == old(log) + [Answered(request, answer)]
      ensures AnswersIn(log) == AnswersIn(old(log)) + [(request, answer)]
    {
      Appended(log, Answered(request, answer));
      Longer(log, Answered(request, answer));
      log := log + [Answered(request, answer)];
    }

    /**
     * The worker's life: a first connect, then requests in arrival order until no more can come. Every request is
     * answered exactly once and in order, by the work done for it on the connection that the one before it left.
     */
    method Work(requests: seq<Request>)
      returns (answers: seq<Answer>, ghost works: seq<seq<Event>>, ghost sessions: seq<Option<ConnectionId>>)
      requires session == None && log == []
      modifies this
      ensures |answers| == |works| == |requests| && |sessions| == |requests| + 1
      ensures log == Told([ConnectEvent(sessions[0])], works, requests, answers)
      ensures AnswersIn(log) == Paired(requests, answers) && OnOwnConnections(log)
      ensures forall i | 0 <= i < |requests| :: Served(works[i], requests[i], answers[i], sessions[i], sessions[i + 1])
      ensures forall i | 0 <= i < |requests| :: Handled(works[i], requests[i], answers[i])
    {
      session := Connect();
      answers, works, sessions := [], [], [session];
      for n := 0 to |requests|
        invariant Valid() && WorkedSoFar(log, works, sessions, requests, answers, n) && sessions[n] == session
      {
        ghost var before := log;
        var answer;
        ghost var work;
        answer, work := Serve(requests[n]);
        OneMoreWork(before, log, works, sessions, requests, answers, work, answer, session, n);
        answers, works, sessions := answers + [answer], works + [work], sessions + [session];
      }
      assert requests[..|requests|] == requests;
    }
  }

  /** The first n requests have been served one after the other. */
  ghost predicate WorkedSoFar(log: seq<Event>, works: seq<seq<Event>>, sessions: seq<Option<ConnectionId>>,
                              requests: seq<Request>, answers: seq<Answer>, n: nat) {
    && |answers| == |works| == n <= |requests| && |sessions| == n + 1
    && log == Told([ConnectEvent(sessions[0])], works, requests[..n], answers)
    && AnswersIn(log) == Paired(requests[..n], answers)
    && (forall i | 0 <= i < n :: Served(works[i], requests[i], answers[i], sessions[i], sessions[i + 1]))
    && (forall i | 0 <= i < n :: Handled(works[i], requests[i], answers[i]))
  }

  lemma OneMoreWork(before: seq<Event>, log: seq<Event>, works: seq<seq<Event>>, sessions: seq<Option<ConnectionId>>,
                    requests: seq<Request>, answers: seq<Answer>, work: seq<Event>, answer: Answer,
                    session: Option<ConnectionId>, n: nat)
    requires n < |requests| && WorkedSoFar(before, works, sessions, requests, answers, n)
    requires log == before + work + [Answered(requests[n], answer)]
    requires AnswersIn(log) == AnswersIn(before) + [(requests[n], answer)]
    requires Served(work, requests[n], answer, sessions[n], session)
    ensures WorkedSoFar(log, works + [work], sessions + [session], requests, answers + [answer], n + 1)
  {
    ToldMore([ConnectEvent(sessions[0])], works, requests, answers, work, answer, n);
    PairedMore(requests, answers, answer, n);
    ServedIsHandled(work, requests[n], answer, sessions[n], session);
    var w, t, a := works + [work], sessions + [session], answers + [answer];
    forall i | 0 <= i < n + 1
      ensures Served(w[i], requests[i], a[i], t[i], t[i + 1]) && Handled(w[i], requests[i], a[i])
    {
      if i < n { assert Served(works[i], requests[i], answers[i], sessions[i], sessions[i + 1]); }
    }
  }

  /** The whole log: what came first, then for every request its work and its answer. */
  ghost function Told(first: seq<Event>, works: seq<seq<Event>>, requests: seq<Request>,
                      answers: seq<Answer>): seq<Event>
    requires |works| == |requests| == |answers|
  {
    if works == [] then first
    else
      var n := |works| - 1;
      Told(first, works[..n], requests[..n], answers[..n]) + works[n] + [Answered(requests[n], answers[n])]
  }

  lemma ToldMore(first: seq<Event>, works: seq<seq<Event>>, requests: seq<Request>, answers: seq<Answer>,
                 work: seq<Event>, answer: Answer, n: nat)
    requires |works| == |answers| == n < |requests|
    ensures Told(first, works + [work], requests[..n + 1], answers + [answer])
         == Told(first, works, requests[..n], answers) + work + [Answered(requests[n], answer)]
  {
    assert (works + [work])[..n] == works && (answers + [answer])[..n] == answers;
    assert requests[..n + 1][..n] == requests[..n];
  }

  lemma PairedMore(requests: seq<Request>, answers: seq<Answer>, answer: Answer, n: nat)
    requires n < |requests| && |answers| == n
    ensures Paired(requests[..n + 1], answers + [answer]) == Paired(requests[..n], answers) + [(requests[n], answer)]
  {
  }

  function Paired(requests: seq<Request>, answers: seq<Answer>): seq<(Request, Answer)>
    requires |requests| == |answers|
  {
    seq(|requests|, i requires 0 <= i < |requests| => (requests[i], answers[i]))
  }

  function AnswerOf(outcome: Outcome): Answer {
    match outcome
    case Ran(output) => Ok(output)
    case Exited(code, _) => Err(CommandFailed(code))
    case Broken => Err(LostAgain)
  }
}
