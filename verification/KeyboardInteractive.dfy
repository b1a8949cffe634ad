/**
 * Keyboard-interactive login by replay. A connect that meets a round it cannot answer stores the
 * round and fails; the user answers; the next connect replays every earlier answer. The server is
 * any deterministic function of the replies it has received; the user is any strategy.
 */
module KeyboardInteractive {
  import opened Basics

  type Answer = seq<string>

  datatype Prompt = Prompt(text: string, echo: bool)

  datatype Round = Round(name: string, instructions: string, prompts: seq<Prompt>)

  /** What the server says next; Broken is a timeout or a transport error. */
  datatype Response = Success | Failure | InfoRequest(round: Round) | Broken

  type Server = seq<Answer> -> Response

  type User = (seq<Answer>, Round) -> Answer

  datatype Outcome = LoggedIn | Refused | Lost | Required

  predicate IsPasswordPrompt(prompts: seq<Prompt>) {
    |prompts| == 1 && !prompts[0].echo && Contains(Lower(prompts[0].text), "password")
  }

  /** The reply that needs no user: nothing to an empty round, the saved password to its prompt. */
  function AutoReply(password: Option<string>, prompts: seq<Prompt>): Option<Answer> {
    if prompts == [] then Some([])
    else if password.Some? && IsPasswordPrompt(prompts) then Some([password.value])
    else None
  }

  /** The word password at this place, each letter in either case. */
  predicate SpellsPassword(text: string, i: nat)
    requires i + 8 <= |text|
  {
    forall j | 0 <= j < 8 :: text[i + j] == "password"[j] || text[i + j] == "PASSWORD"[j]
  }

  /** One hidden prompt that mentions a password, in any mix of cases. */
  predicate AsksPassword(prompts: seq<Prompt>) {
    |prompts| == 1 && !prompts[0].echo
    && exists i | 0 <= i <= |prompts[0].text| - 8 :: SpellsPassword(prompts[0].text, i)
  }

  lemma SpelledLower(text: string, i: nat)
    requires i + 8 <= |text|
    ensures PartAt(Lower(text), "password", i) <==> SpellsPassword(text, i)
  {
    var word := Lower(text)[i..i + 8];
    assert forall j | 0 <= j < 8 :: word[j] == LowerChar(text[i + j]);
    LettersLower();
    if SpellsPassword(text, i) {
      assert word == "password";
    }
    if word == "password" {
      forall j | 0 <= j < 8 ensures text[i + j] == "password"[j] || text[i + j] == "PASSWORD"[j] {
        assert LowerChar(text[i + j]) == "password"[j];
      }
    }
  }

  lemma LettersLower()
    ensures forall c: char, j | 0 <= j < 8 ::
      LowerChar(c) == "password"[j] <==> c == "password"[j] || c == "PASSWORD"[j]
  {
  }

  lemma PasswordPromptIff(prompts: seq<Prompt>)
    ensures IsPasswordPrompt(prompts) <==> AsksPassword(prompts)
  {
    if |prompts| == 1 {
      var text := prompts[0].text;
      forall i | 0 <= i <= |text| - 8 ensures PartAt(Lower(text), "password", i) <==> SpellsPassword(text, i) {
        SpelledLower(text, i);
      }
    }
  }

  /**
   * Which rounds the user never sees: an empty one is answered with nothing, one that asks for the password with the
   * saved password if there is one. Every other round is the user's.
   */
  lemma AutoReplyIff(password: Option<string>, prompts: seq<Prompt>)
    ensures AutoReply(password, prompts) == Some([]) <==> prompts == []
    ensures forall saved ::
      AutoReply(password, prompts) == Some([saved]) <==> password == Some(saved) && AsksPassword(prompts)
    ensures AutoReply(password, prompts) == None <==> prompts != [] && (password.None? || !AsksPassword(prompts))
  {
    PasswordPromptIff(prompts);
  }

  predicate IsUserRound(server: Server, password: Option<string>, sent: seq<Answer>) {
    server(sent).InfoRequest? && AutoReply(password, server(sent).round.prompts).None?
  }

  /** The replies in `sent` that only the user could have given, in order. */
  function UserAnswers(server: Server, password: Option<string>, sent: seq<Answer>): (r: seq<Answer>)
    ensures |r| <= |sent|
  {
    if sent == [] then []
    else
      var before := sent[..|sent| - 1];
      UserAnswers(server, password, before)
      + if IsUserRound(server, password, before) then [sent[|sent| - 1]] else []
  }

  // ----- Two kinds of history: one uninterrupted dialogue, and one connect with stored answers -----

  ghost predicate DialogueStep(server: Server, password: Option<string>, user: User, before: seq<Answer>,
                               reply: Answer) {
    server(before).InfoRequest?
    && reply == match AutoReply(password, server(before).round.prompts)
                case Some(auto) => auto
                case None => user(before, server(before).round)
  }

  /** `sent` is a history of one direct dialogue in which the user answers every open round at once. */
  ghost predicate Dialogue(server: Server, password: Option<string>, user: User, sent: seq<Answer>) {
    forall i | 0 <= i < |sent| :: DialogueStep(server, password, user, sent[..i], sent[i])
  }

  ghost predicate ReplayStep(server: Server, password: Option<string>, answers: seq<Answer>, before: seq<Answer>,
                             reply: Answer) {
    server(before).InfoRequest?
    && match AutoReply(password, server(before).round.prompts)
       case Some(auto) => reply == auto
       case None =>
         var used := |UserAnswers(server, password, before)|;
         used < |answers| && reply == answers[used]
  }

  /** `sent` is a history of one connect that holds the stored `answers`. */
  ghost predicate Replay(server: Server, password: Option<string>, answers: seq<Answer>, sent: seq<Answer>) {
    forall i | 0 <= i < |sent| :: ReplayStep(server, password, answers, sent[..i], sent[i])
  }

  /** A connect stops here: the server decided, or it asks what no stored answer covers. */
  ghost predicate ReplayEnded(server: Server, password: Option<string>, answers: seq<Answer>, sent: seq<Answer>) {
    server(sent).InfoRequest? ==>
      IsUserRound(server, password, sent) && |answers| <= |UserAnswers(server, password, sent)|
  }

  function OutcomeOf(response: Response): (r: Outcome)
    ensures r.LoggedIn? <==> response.Success?
    ensures r.Refused? <==> response.Failure?
    ensures r.Lost? <==> response.Broken?
    ensures r.Required? <==> response.InfoRequest?
  {
    match response
    case Success => LoggedIn
    case Failure => Refused
    case Broken => Lost
    case InfoRequest(_) => Required
  }

  /** The server does not ask forever: without this the original's loop does not return either. */
  ghost predicate ReplayBounded(server: Server, password: Option<string>, answers: seq<Answer>, bound: nat) {
    forall sent: seq<Answer> :: Replay(server, password, answers, sent) ==> |sent| <= bound
  }

  ghost predicate DialogueBounded(server: Server, password: Option<string>, user: User, bound: nat) {
    forall sent: seq<Answer> :: Dialogue(server, password, user, sent) ==> |sent| <= bound
  }

  lemma Extend(server: Server, password: Option<string>, answers: seq<Answer>, sent: seq<Answer>, reply: Answer)
    requires Replay(server, password, answers, sent) && ReplayStep(server, password, answers, sent, reply)
    ensures Replay(server, password, answers, sent + [reply])
  {
    var more := sent + [reply];
    forall i | 0 <= i < |more| ensures ReplayStep(server, password, answers, more[..i], more[i]) {
      assert more[..i] == sent[..i];
      if i == |sent| { assert sent[..i] == sent; }
    }
  }

  lemma ExtendDialogue(server: Server, password: Option<string>, user: User, sent: seq<Answer>, reply: Answer)
    requires Dialogue(server, password, user, sent) && DialogueStep(server, password, user, sent, reply)
    ensures Dialogue(server, password, user, sent + [reply])
  {
    var more := sent + [reply];
    forall i | 0 <= i < |more| ensures DialogueStep(server, password, user, more[..i], more[i]) {
      assert more[..i] == sent[..i];
      if i == |sent| { assert sent[..i] == sent; }
    }
  }

  lemma UserAnswersAppend(server: Server, password: Option<string>, sent: seq<Answer>, reply: Answer)
    ensures UserAnswers(server, password, sent + [reply])
         == UserAnswers(server, password, sent) + if IsUserRound(server, password, sent) then [reply] else []
  {
    assert (sent + [reply])[..|sent|] == sent;
  }

  lemma {:induction false} UserAnswersPrefix(server: Server, password: Option<string>, sent: seq<Answer>, k: nat)
    requires k <= |sent|
    ensures UserAnswers(server, password, sent[..k]) <= UserAnswers(server, password, sent)
  {
    if k == |sent| {
      assert sent[..k] == sent;
    } else {
      var before := sent[..|sent| - 1];
      UserAnswersPrefix(server, password, before, k);
      assert before[..k] == sent[..k];
    }
  }

  lemma {:induction false} UserAnswerAt(server: Server, password: Option<string>, sent: seq<Answer>, k: nat)
    requires k < |sent| && IsUserRound(server, password, sent[..k])
    ensures var used := |UserAnswers(server, password, sent[..k])|;
      var given := UserAnswers(server, password, sent);
      used < |given| && given[used] == sent[k]
  {
    assert sent[..k + 1] == sent[..k] + [sent[k]];
    UserAnswersAppend(server, password, sent[..k], sent[k]);
    UserAnswersPrefix(server, password, sent, k + 1);
  }

  /** A dialogue replays from its own user answers. */
  lemma DialogueReplays(server: Server, password: Option<string>, user: User, sent: seq<Answer>)
    requires Dialogue(server, password, user, sent)
    ensures Replay(server, password, UserAnswers(server, password, sent), sent)
  {
    var answers := UserAnswers(server, password, sent);
    forall i | 0 <= i < |sent| ensures ReplayStep(server, password, answers, sent[..i], sent[i]) {
      assert DialogueStep(server, password, user, sent[..i], sent[i]);
      if IsUserRound(server, password, sent[..i]) { UserAnswerAt(server, password, sent, i); }
    }
  }

  /** With the same stored answers, two connects never diverge. */
  lemma {:induction false} ReplayAgrees(server: Server, password: Option<string>, answers: seq<Answer>,
                                       s: seq<Answer>, t: seq<Answer>, k: nat)
    requires Replay(server, password, answers, s) && Replay(server, password, answers, t)
    requires k <= |s| && k <= |t|
    ensures s[..k] == t[..k]
  {
    if k > 0 {
      ReplayAgrees(server, password, answers, s, t, k - 1);
      assert ReplayStep(server, password, answers, s[..k - 1], s[k - 1]);
      assert ReplayStep(server, password, answers, t[..k - 1], t[k - 1]);
      assert s[..k] == s[..k - 1] + [s[k - 1]] && t[..k] == t[..k - 1] + [t[k - 1]];
    }
  }

  /** The direct dialogue is determined: at most one finished history. */
  lemma {:induction false} DialogueAgrees(server: Server, password: Option<string>, user: User,
                                          s: seq<Answer>, t: seq<Answer>, k: nat)
    requires Dialogue(server, password, user, s) && Dialogue(server, password, user, t)
    requires k <= |s| && k <= |t|
    ensures s[..k] == t[..k]
  {
    if k > 0 {
      DialogueAgrees(server, password, user, s, t, k - 1);
      assert DialogueStep(server, password, user, s[..k - 1], s[k - 1]);
      assert DialogueStep(server, password, user, t[..k - 1], t[k - 1]);
      assert s[..k] == s[..k - 1] + [s[k - 1]] && t[..k] == t[..k - 1] + [t[k - 1]];
    }
  }

  lemma DialogueUnique(server: Server, password: Option<string>, user: User, s: seq<Answer>, t: seq<Answer>)
    requires Dialogue(server, password, user, s) && Dialogue(server, password, user, t)
    requires !server(s).InfoRequest? && !server(t).InfoRequest?
    ensures s == t
  {
    if |s| < |t| {
      DialogueAgrees(server, password, user, s, t, |s|);
      assert t[..|s|] == s;
      DialogueAsks(server, password, user, t, |s|);
    } else {
      DialogueAgrees(server, password, user, s, t, |t|);
      assert s[..|t|] == t;
      if |t| < |s| { DialogueAsks(server, password, user, s, |t|); }
    }
  }

  /** What is sent in each round of a dialogue, said of its prompts. */
  lemma DialogueReplies(server: Server, password: Option<string>, user: User, sent: seq<Answer>, k: nat)
    requires Dialogue(server, password, user, sent) && k < |sent|
    ensures server(sent[..k]).InfoRequest?
    ensures var round := server(sent[..k]).round;
      sent[k] == if round.prompts == [] then []
                 else if password.Some? && AsksPassword(round.prompts) then [password.value]
                 else user(sent[..k], round)
  {
    assert DialogueStep(server, password, user, sent[..k], sent[k]);
    AutoReplyIff(password, server(sent[..k]).round.prompts);
  }

  lemma DialogueAsks(server: Server, password: Option<string>, user: User, sent: seq<Answer>, k: nat)
    requires Dialogue(server, password, user, sent) && k < |sent|
    ensures server(sent[..k]).InfoRequest?
  {
    assert DialogueStep(server, password, user, sent[..k], sent[k]);
  }

  /**
   * A connect that replays a dialogue's user answers stays on that dialogue: whatever it sends is a
   * history of the direct dialogue, and once it ends it has sent at least as much.
   */
  lemma ReplayIsDialogue(server: Server, password: Option<string>, user: User, d: seq<Answer>, sent: seq<Answer>)
    requires Dialogue(server, password, user, d)
    requires Replay(server, password, UserAnswers(server, password, d), sent)
    ensures Dialogue(server, password, user, sent)
    ensures ReplayEnded(server, password, UserAnswers(server, password, d), sent) ==> d <= sent
  {
    var answers := UserAnswers(server, password, d);
    DialogueReplays(server, password, user, d);
    var k := if |d| <= |sent| then |d| else |sent|;
    ReplayAgrees(server, password, answers, d, sent, k);
    forall i | 0 <= i < |sent| ensures DialogueStep(server, password, user, sent[..i], sent[i]) {
      assert ReplayStep(server, password, answers, sent[..i], sent[i]);
      if i < |d| {
        assert d[..k][..i] == d[..i] && sent[..k][..i] == sent[..i] && d[..k][i] == sent[..k][i];
        assert DialogueStep(server, password, user, d[..i], d[i]);
      } else if IsUserRound(server, password, sent[..i]) {
        assert sent[..i][..|d|] == sent[..|d|] == d[..|d|] == d;
        UserAnswersPrefix(server, password, sent[..i], |d|);
        assert false;
      }
    }
    if |sent| < |d| {
      assert sent == d[..|sent|];
      assert ReplayStep(server, password, answers, d[..|sent|], d[|sent|]);
    } else {
      assert d[..k] == d;
    }
  }

  /** A bounded dialogue bounds every connect that replays part of it. */
  lemma ReplayBoundedByDialogue(server: Server, password: Option<string>, user: User, d: seq<Answer>, bound: nat)
    requires Dialogue(server, password, user, d) && DialogueBounded(server, password, user, bound)
    ensures ReplayBounded(server, password, UserAnswers(server, password, d), bound)
  {
    forall sent: seq<Answer> | Replay(server, password, UserAnswers(server, password, d), sent)
      ensures |sent| <= bound
    {
      ReplayIsDialogue(server, password, user, d, sent);
    }
  }

  /** The user's reply takes the dialogue past the open round, with one more user answer. */
  lemma Answered(server: Server, password: Option<string>, user: User, before: seq<Answer>, reply: Answer)
    requires Dialogue(server, password, user, before) && IsUserRound(server, password, before)
    requires reply == user(before, server(before).round)
    ensures var d := before + [reply];
      && Dialogue(server, password, user, d)
      && UserAnswers(server, password, d) == UserAnswers(server, password, before) + [reply]
  {
    ExtendDialogue(server, password, user, before, reply);
    UserAnswersAppend(server, password, before, reply);
  }

  // ----- The two static maps and the code that updates them -----

  type Pending = map<HostPort, (Round, seq<Answer>)>

  type Stored = map<HostPort, seq<Answer>>

  /** The answers that the next connect to a host takes. */
  function Taken(answers: Stored, id: HostPort): seq<Answer> {
    if id in answers then answers[id] else []
  }

  /** The rounds answered so far: those before the pending round, else those stored for the next connect. */
  function Earlier(pending: Pending, answers: Stored, id: HostPort): seq<Answer> {
    if id in pending then pending[id].1 else Taken(answers, id)
  }

  /** The stored answers after one more answer. */
  function AfterAnswer(pending: Pending, answers: Stored, id: HostPort, reply: Answer): Stored {
    answers[id := (if id in pending then pending[id].1 else []) + [reply]]
  }

  /**
   * The next connect replays the earlier rounds and this one exactly when a round is pending or nothing
   * was answered before.
   */
  lemma ReplaysEarlierIff(pending: Pending, answers: Stored, id: HostPort, reply: Answer)
    ensures Taken(AfterAnswer(pending, answers, id, reply), id) == Earlier(pending, answers, id) + [reply]
       <==> id in pending || Earlier(pending, answers, id) == []
  {
    var earlier := Earlier(pending, answers, id);
    assert id !in pending ==> |Taken(AfterAnswer(pending, answers, id, reply), id)| == 1;
    assert |earlier + [reply]| == |earlier| + 1;
  }

  class LoginStore {
    var pending: Pending
    var answers: Stored

    constructor ()
      ensures pending == map[] && answers == map[]
    {
      pending, answers := map[], map[];
    }

    /** Stored answers after the call are the rounds before the pending one, then this one. */
    method AnswerPending(id: HostPort, reply: Answer)
      modifies this
      ensures pending == old(pending) - {id}
      ensures answers == AfterAnswer(old(pending), old(answers), id, reply)
      ensures Taken(answers, id) == Earlier(old(pending), old(answers), id) + [reply]
         <==> id in old(pending) || Earlier(old(pending), old(answers), id) == []
    {
      var rounds := if id in pending then pending[id].1 else [];
      pending := pending - {id};
      rounds := rounds + [reply];
      answers := answers[id := rounds];
      ReplaysEarlierIff(old(pending), old(answers), id, reply);
    }

    /**
     * A second answer before the next connect finds no pending round and drops every earlier answer, the
     * first one included.
     */
    method AnswerTwice(id: HostPort, first: Answer, second: Answer)
      modifies this
      ensures id !in pending && Taken(answers, id) == [second]
    {
      AnswerPending(id, first);
      AnswerPending(id, second);
    }

    method TakeAnswers(id: HostPort) returns (rounds: seq<Answer>)
      modifies this
      ensures pending == old(pending) - {id} && answers == old(answers) - {id}
      ensures rounds == Taken(old(answers), id)
    {
      pending := pending - {id};
      rounds := if id in answers then answers[id] else [];
      answers := answers - {id};
    }

    /**
     * One keyboard-interactive login. It sends exactly the replay of the stored answers up to the
     * point where the server decides or asks something new; afterwards the host has no stored
     * answers, and a pending round exactly when the call asks for the user.
     */
    method Authenticate(server: Server, id: HostPort, password: Option<string>, ghost bound: nat)
      returns (outcome: Outcome, sent: seq<Answer>)
      requires ReplayBounded(server, password, Taken(answers, id), bound)
      modifies this
      ensures var stored := Taken(old(answers), id);
        Replay(server, password, stored, sent) && ReplayEnded(server, password, stored, sent)
      ensures outcome == OutcomeOf(server(sent)) && (outcome.LoggedIn? <==> server(sent).Success?)
      ensures (outcome.Refused? <==> server(sent).Failure?) && (outcome.Lost? <==> server(sent).Broken?)
      ensures answers == old(answers) - {id}
      ensures pending - {id} == old(pending) - {id}
      ensures id in pending <==> outcome.Required?
      ensures id in pending ==> pending[id] == (server(sent).round, UserAnswers(server, password, sent))
    {
      var stored := TakeAnswers(id);
      var next := 0;
      var answered: seq<Answer> := [];
      sent := [];
      var response := server(sent);
      while true
        invariant response == server(sent)
        invariant Replay(server, password, stored, sent)
        invariant next == |answered| <= |stored|
        invariant answered == UserAnswers(server, password, sent)
        invariant answers == old(answers) - {id} && pending == old(pending) - {id}
        decreases bound - |sent|
      {
        if !response.InfoRequest? {
          return OutcomeOf(response), sent;
        }
        var prompts := response.round.prompts;
        var reply;
        var auto := AutoReply(password, prompts);
        if auto.Some? {
          reply := auto.value;
        } else if next < |stored| {
          reply := stored[next];
          next := next + 1;
          answered := answered + [reply];
        } else {
          pending := pending[id := (response.round, answered)];
          return Required, sent;
        }
        UserAnswersAppend(server, password, sent, reply);
        Extend(server, password, stored, sent, reply);
        sent := sent + [reply];
        response := server(sent);
      }
    }

    /** A connect whose stored answers are those of the dialogue `d`: it follows the same dialogue, at least as far. */
    method Connect(server: Server, id: HostPort, password: Option<string>, user: User, ghost d: seq<Answer>,
                   ghost bound: nat)
      returns (outcome: Outcome, sent: seq<Answer>)
      requires DialogueBounded(server, password, user, bound) && Dialogue(server, password, user, d)
      requires Taken(answers, id) == UserAnswers(server, password, d)
      modifies this
      ensures Dialogue(server, password, user, sent) && d <= sent && |sent| <= bound
      ensures outcome == OutcomeOf(server(sent)) && (outcome.LoggedIn? <==> server(sent).Success?)
      ensures (outcome.Refused? <==> server(sent).Failure?) && (outcome.Lost? <==> server(sent).Broken?)
      ensures outcome.Required? ==> IsUserRound(server, password, sent)
      ensures UserAnswers(server, password, sent) == UserAnswers(server, password, d)
      ensures answers == old(answers) - {id} && pending - {id} == old(pending) - {id}
      ensures id in pending <==> outcome.Required?
      ensures id in pending ==> pending[id] == (server(sent).round, UserAnswers(server, password, d))
    {
      ReplayBoundedByDialogue(server, password, user, d, bound);
      outcome, sent := Authenticate(server, id, password, bound);
      NextConnect(server, password, user, d, sent);
    }

    /** The user answers the pending round and connects again: the dialogue gets further, with one more user answer. */
    method AnswerAndReconnect(server: Server, id: HostPort, password: Option<string>, user: User,
                              before: seq<Answer>, ghost bound: nat)
      returns (outcome: Outcome, sent: seq<Answer>, stored: seq<Answer>)
      requires DialogueBounded(server, password, user, bound)
      requires Dialogue(server, password, user, before) && IsUserRound(server, password, before)
      requires id in pending && pending[id] == (server(before).round, UserAnswers(server, password, before))
      requires id !in answers
      modifies this
      ensures Dialogue(server, password, user, sent) && |before| < |sent| <= bound
      ensures outcome == OutcomeOf(server(sent)) && (outcome.LoggedIn? <==> server(sent).Success?)
      ensures (outcome.Refused? <==> server(sent).Failure?) && (outcome.Lost? <==> server(sent).Broken?)
      ensures outcome.Required? ==> IsUserRound(server, password, sent)
      ensures stored == UserAnswers(server, password, sent)
      ensures |stored| == |UserAnswers(server, password, before)| + 1 && UserAnswers(server, password, before) <= stored
      ensures answers == old(answers) && pending - {id} == old(pending) - {id}
      ensures id in pending <==> outcome.Required?
      ensures id in pending ==> pending[id] == (server(sent).round, stored)
    {
      var reply := user(before, pending[id].0);
      AnswerPending(id, reply);
      stored := answers[id];
      Answered(server, password, user, before, reply);
      assert answers - {id} == old(answers) && pending - {id} == old(pending) - {id};
      outcome, sent := Connect(server, id, password, user, before + [reply], bound);
    }

    method FirstConnect(server: Server, id: HostPort, password: Option<string>, user: User, ghost bound: nat)
      returns (outcome: Outcome, sent: seq<Answer>)
      requires DialogueBounded(server, password, user, bound)
      requires id !in answers
      modifies this
      ensures Dialogue(server, password, user, sent) && |sent| <= bound
      ensures outcome == OutcomeOf(server(sent)) && (outcome.LoggedIn? <==> server(sent).Success?)
      ensures (outcome.Refused? <==> server(sent).Failure?) && (outcome.Lost? <==> server(sent).Broken?)
      ensures outcome.Required? ==> IsUserRound(server, password, sent)
      ensures UserAnswers(server, password, sent) == []
      ensures answers == old(answers) && pending - {id} == old(pending) - {id}
      ensures id in pending <==> outcome.Required?
      ensures id in pending ==> pending[id] == (server(sent).round, [])
    {
      assert answers - {id} == answers;
      outcome, sent := Connect(server, id, password, user, [], bound);
    }

    /**
     * Connect, answer, connect again, until no round is open. The last connect sends exactly the
     * replies of the one direct dialogue and ends the way it ends; connect k replays the first k
     * user answers; there is one connect per user round and one more; nothing stays stored.
     */
    method Login(server: Server, id: HostPort, password: Option<string>, user: User, ghost bound: nat)
      returns (outcome: Outcome, sent: seq<Answer>, replayed: seq<seq<Answer>>)
      requires DialogueBounded(server, password, user, bound)
      requires id !in answers
      modifies this
      ensures Dialogue(server, password, user, sent) && !server(sent).InfoRequest?
      ensures !outcome.Required? && (outcome.LoggedIn? <==> server(sent).Success?)
      ensures (outcome.Refused? <==> server(sent).Failure?) && (outcome.Lost? <==> server(sent).Broken?)
      ensures PrefixesOf(replayed, UserAnswers(server, password, sent))
      ensures id !in pending && id !in answers
      ensures pending == old(pending) - {id} && answers == old(answers)
    {
      outcome, sent := FirstConnect(server, id, password, user, bound);
      replayed := [[]];
      while outcome.Required?
        invariant Dialogue(server, password, user, sent)
        invariant outcome == OutcomeOf(server(sent))
        invariant outcome.Required? ==> IsUserRound(server, password, sent)
        invariant answers == old(answers) && pending - {id} == old(pending) - {id}
        invariant id in pending <==> outcome.Required?
        invariant id in pending ==> pending[id] == (server(sent).round, UserAnswers(server, password, sent))
        invariant PrefixesOf(replayed, UserAnswers(server, password, sent))
        decreases bound - |sent|
      {
        var stored;
        ghost var before := sent;
        outcome, sent, stored := AnswerAndReconnect(server, id, password, user, sent, bound);
        PrefixesGrow(replayed, UserAnswers(server, password, before), stored);
        replayed := replayed + [stored];
      }
      assert pending == pending - {id};
    }
  }

  /** `lists` holds the prefixes of `whole`, shortest first. */
  ghost predicate PrefixesOf(lists: seq<seq<Answer>>, whole: seq<Answer>) {
    |lists| == |whole| + 1 && forall k | 0 <= k < |lists| :: lists[k] == whole[..k]
  }

  lemma PrefixesGrow(lists: seq<seq<Answer>>, whole: seq<Answer>, longer: seq<Answer>)
    requires PrefixesOf(lists, whole) && whole <= longer && |longer| == |whole| + 1
    ensures PrefixesOf(lists + [longer], longer)
  {
    forall k | 0 <= k <= |whole| ensures (lists + [longer])[k] == longer[..k] {
      assert lists[k] == whole[..k];
    }
  }

  /** A finished connect that replays the answers of `d` is on the dialogue, at or past `d`, and used just those. */
  lemma NextConnect(server: Server, password: Option<string>, user: User, d: seq<Answer>, sent: seq<Answer>)
    requires Dialogue(server, password, user, d)
    requires Replay(server, password, UserAnswers(server, password, d), sent)
    requires ReplayEnded(server, password, UserAnswers(server, password, d), sent)
    ensures Dialogue(server, password, user, sent) && d <= sent
    ensures UserAnswers(server, password, sent) == UserAnswers(server, password, d)
  {
    ReplayIsDialogue(server, password, user, d, sent);
    NoUserRoundPast(server, password, d, sent, |sent|);
    assert sent[..|sent|] == sent;
  }

  lemma {:induction false} NoUserRoundPast(server: Server, password: Option<string>, d: seq<Answer>,
      sent: seq<Answer>, k: nat)
    requires d <= sent && |d| <= k <= |sent|
    requires Replay(server, password, UserAnswers(server, password, d), sent)
    ensures UserAnswers(server, password, sent[..k]) == UserAnswers(server, password, d)
  {
    if k == |d| {
      assert sent[..k] == d;
    } else {
      NoUserRoundPast(server, password, d, sent, k - 1);
      assert ReplayStep(server, password, UserAnswers(server, password, d), sent[..k - 1], sent[k - 1]);
      assert sent[..k] == sent[..k - 1] + [sent[k - 1]];
      UserAnswersAppend(server, password, sent[..k - 1], sent[k - 1]);
    }
  }
}
