/** Connecting over RDP: the attempts one run makes, and which finalizer each of them reaches. */
module RdpConnect {
  import opened Basics
  import opened RdpFile

  /** `NlaFailed` is the negotiation failure whose text adds the hint to turn NLA off. */
  datatype Error = Cancelled | NegotiationFailed(msg: string) | NlaFailed(msg: string) | ConnectionTimeout | Io

  /** How the network, the server and the user treat one attempt. */
  datatype Situation =
    | CancelledBefore
    | Unreachable(error: Error)
    | BeginFails(msg: string) | BeginTimesOut
    | TlsFails(msg: string) | TlsTimesOut
    | FinalizeFails(msg: string) | FinalizeTimesOut
    | Accepts

  datatype Finalizer = Standard | LicenceRepair

  /** One attempt: its parameters, the finalizer it reached and what came of it. */
  datatype Try = Try(credSsp: bool, stubCache: bool, bypass: bool, finalizer: Option<Finalizer>, outcome: Result<(),
                     Error>)

  predicate IsLicenseError(msg: string) {
    Contains(msg, "LicenseExchangeState") || Contains(msg, "SERVER_NEW_LICENSE")
    || Contains(msg, "licensing error") || Contains(msg, "license verification")
    || Contains(msg, "ClientNewLicenseRequest") || Contains(msg, "ClientLicenseInfo")
    || Contains(msg, "ClientPlatformChallengeResponse")
  }

  predicate IsCyberarkPam(username: string) {
    IsPlainPam(username) || IsEscapedPam(username)
  }

  predicate IsPlainPam(username: string) {
    StartsWith(Lower(username), "psm@") || StartsWith(Lower(username), "pam@")
  }

  /** The spelling with a backslash before the at sign. */
  predicate IsEscapedPam(username: string) {
    StartsWith(Lower(username), "psm\\@") || StartsWith(Lower(username), "pam\\@")
  }

  /** The server's words when it, or the TLS layer, refuses. */
  function Refusal(s: Situation): Option<string> {
    if s.BeginFails? || s.TlsFails? || s.FinalizeFails? then Some(s.msg) else None
  }

  method TryConnect(credSsp: bool, stubCache: bool, bypass: bool, s: Situation) returns (t: Try)
    requires Possible(s)
    ensures (t.credSsp, t.stubCache, t.bypass) == (credSsp, stubCache, bypass)
    ensures t.finalizer.Some? <==> s.FinalizeFails? || s.FinalizeTimesOut? || s.Accepts?
    ensures t.finalizer == Some(LicenceRepair) ==> bypass && !credSsp
    ensures t.finalizer == Some(Standard) ==> credSsp || !bypass
    ensures t.outcome.Ok? <==> s.Accepts?
    ensures t.outcome == Err(Cancelled) <==> s.CancelledBefore?
    ensures Refusal(s).Some? ==> t.outcome == Err(NegotiationFailed(Refusal(s).value))
    ensures Refusal(s).None? ==> !NegotiationFailure(t)
  {
    t := Try(credSsp, stubCache, bypass, None, Ok(()));
    match s {
      case CancelledBefore => return t.(outcome := Err(Cancelled));
      case Unreachable(e) => return t.(outcome := Err(e));
      case BeginFails(m) => return t.(outcome := Err(NegotiationFailed(m)));
      case BeginTimesOut => return t.(outcome := Err(ConnectionTimeout));
      case TlsFails(m) => return t.(outcome := Err(NegotiationFailed(m)));
      case TlsTimesOut => return t.(outcome := Err(ConnectionTimeout));
      case _ =>
    }
    t := t.(finalizer := Some(if bypass && !credSsp then LicenceRepair else Standard));
    match s {
      case FinalizeFails(m) => t := t.(outcome := Err(NegotiationFailed(m)));
      case FinalizeTimesOut => t := t.(outcome := Err(ConnectionTimeout));
      case _ =>
    }
  }

  predicate LicenceFailure(t: Try) {
    NegotiationFailure(t) && IsLicenseError(t.outcome.error.msg)
  }

  predicate NegotiationFailure(t: Try) {
    t.outcome.Err? && t.outcome.error.NegotiationFailed?
  }

  /** The policy of one run: its attempts never differ in CredSSP, and only a licence failure earns a second. */
  predicate FollowsPolicy(p: Profile, tries: seq<Try>) {
    |tries| <= 2
    && (|tries| > 0 ==> Fits(tries[0], p, IsCyberarkPam(p.username), false))
    && (|tries| == 2 <==> |tries| > 0 && LicenceFailure(tries[0]))
    && (|tries| == 2 ==> Fits(tries[1], p, true, true))
  }

  predicate Fits(t: Try, p: Profile, stubCache: bool, bypass: bool) {
    t.credSsp == p.enableCredSsp && t.stubCache == stubCache && t.bypass == bypass
    && (t.finalizer.Some? ==> (t.finalizer.value == LicenceRepair <==> bypass && !p.enableCredSsp))
  }

  predicate Possible(s: Situation) {
    s.Unreachable? ==> s.error.ConnectionTimeout? || s.error.Io?
  }

  method Run(p: Profile, cancelled: bool, first: Situation, second: Situation)
    returns (r: Result<(), Error>, tries: seq<Try>)
    requires Possible(first) && Possible(second)
    ensures FollowsPolicy(p, tries)
    ensures tries == [] <==> cancelled
    ensures cancelled ==> r == Err(Cancelled)
    ensures !cancelled ==> Reports(p, tries, r)
  {
    if cancelled { return Err(Cancelled), []; }
    var t := TryConnect(p.enableCredSsp, IsCyberarkPam(p.username), false, first);
    if t.outcome.Ok? || !t.outcome.error.NegotiationFailed? { return t.outcome, [t]; }
    var m := t.outcome.error.msg;
    if p.enableCredSsp && IsLicenseError(m) {
      var again := TryConnect(true, true, true, second);
      return again.outcome, [t, again];
    }
    if p.enableCredSsp { return Err(NlaFailed(m)), [t]; }
    if IsLicenseError(m) {
      var again := TryConnect(false, true, true, second);
      return again.outcome, [t, again];
    }
    return t.outcome, [t];
  }

  /** The last attempt's outcome, reworded for an NLA failure that was not retried. */
  predicate Reports(p: Profile, tries: seq<Try>, r: Result<(), Error>)
    requires tries != []
  {
    var last := tries[|tries| - 1];
    if |tries| == 1 && p.enableCredSsp && NegotiationFailure(last) then
      r == Err(NlaFailed(last.outcome.error.msg))
    else r == last.outcome
  }

  // ----- From the file to the attempts -----

  /** Opening a file and connecting with what it says. */
  method ConnectFromFile(content: string, cancelled: bool, first: Situation, second: Situation)
    returns (p: Profile, r: Result<(), Error>, tries: seq<Try>)
    requires Possible(first) && Possible(second)
    ensures p == ParseRdpFile(content) && FollowsPolicy(p, tries)
    ensures IsPsm(ShellOf(content)) ==> NlaThroughout(tries)
  {
    p := ReadProfile(content);
    r, tries := Run(p, cancelled, first, second);
    if p.enableCredSsp { CredSspKept(p, tries); }
  }

  function ShellOf(content: string): Option<string> {
    Get(Collect(Lines(content)), "alternate shell")
  }

  predicate NlaThroughout(tries: seq<Try>) {
    forall t | t in tries :: t.credSsp && t.finalizer != Some(LicenceRepair)
  }

  method ReadProfile(content: string) returns (p: Profile)
    ensures p == ParseRdpFile(content)
    ensures IsPsm(ShellOf(content)) ==> p.enableCredSsp
  {
    var settings := ParseRdpLines(content);
    p := ProfileOf(settings);
  }

  lemma CredSspKept(p: Profile, tries: seq<Try>)
    requires FollowsPolicy(p, tries) && p.enableCredSsp
    ensures NlaThroughout(tries)
  {}

  /** The user name that a file gives, domain included. */
  function RawLogin(settings: Settings): string {
    Or(Get(settings, "username"), "")
  }

  /**
   * Which logins of a file are recognised. Without a backslash: those that start with `psm@` or `pam@`. With one:
   * those whose part after the first backslash, trimmed, starts with any of the four spellings.
   */
  lemma RecognisedIff(settings: Settings)
    ensures IsCyberarkPam(ProfileOf(settings).username) <==> Recognised(RawLogin(settings))
  {
    ParsedUser(settings);
    UserRecognised(RawLogin(settings));
  }

  predicate Recognised(raw: string) {
    if '\\' in raw then IsCyberarkPam(AfterBackslash(raw)) else IsPlainPam(raw)
  }

  function AfterBackslash(raw: string): string
    requires '\\' in raw
  {
    Trim(raw[IndexOf(raw, '\\').value + 1..])
  }

  lemma UserRecognised(raw: string)
    ensures IsCyberarkPam(DomainAndUser(raw).1) <==> Recognised(raw)
  {
    if '\\' in raw {
      assert DomainAndUser(raw).1 == AfterBackslash(raw);
    } else {
      assert DomainAndUser(raw).1 == raw;
      if IsEscapedPam(raw) { EscapedShape(raw); }
    }
  }

  lemma ParsedUser(settings: Settings)
    ensures ProfileOf(settings).username == DomainAndUser(RawLogin(settings)).1
  {
  }

  /** A domain in front of it keeps the escaped spelling whole: `corp\psm\@token` is recognised. */
  lemma EscapedLoginWithDomain(settings: Settings, domain: string, user: string)
    requires RawLogin(settings) == domain + "\\" + user && '\\' !in domain && Trimmed(user) && IsEscapedPam(user)
    ensures IsCyberarkPam(ProfileOf(settings).username)
  {
    ParsedUser(settings);
    LoginSplits(domain, user);
    TrimResult(user);
  }

  /** A login spelt with `\@` loses its prefix to the domain: the stub cache is not used for it. */
  lemma EscapedLoginMissed(settings: Settings)
    requires IsEscapedPam(RawLogin(settings))
    ensures !IsCyberarkPam(ProfileOf(settings).username)
  {
    var u := RawLogin(settings);
    ParsedUser(settings);
    EscapedShape(u);
    FirstIndex(u, '\\', 3);
    StartKept(u[4..]);
  }

  lemma EscapedShape(u: string)
    requires IsEscapedPam(u)
    ensures |u| >= 5 && u[3] == '\\' && u[4] == '@' && '\\' !in u[..3]
  {
    var l := Lower(u);
    assert l[0] == LowerChar(u[0]) && l[1] == LowerChar(u[1]) && l[2] == LowerChar(u[2])
      && l[3] == LowerChar(u[3]) && l[4] == LowerChar(u[4]);
  }

  lemma StartKept(text: string)
    requires text != [] && text[0] == '@'
    ensures Trim(text) != [] && Trim(text)[0] == '@' && !IsCyberarkPam(Trim(text))
  {
    AtSignKept(text);
    assert Lower(Trim(text))[0] == '@';
  }

  lemma {:induction false} AtSignKept(text: string)
    requires text != [] && text[0] == '@'
    ensures TrimEnd(text) != [] && TrimEnd(text)[0] == '@'
  {
    if IsWhite(text[|text| - 1]) { AtSignKept(text[..|text| - 1]); }
  }

  // ----- The words that are looked for -----

  lemma Found(a: string, part: string, b: string)
    ensures Contains(a + part + b, part)
  {
    var text := a + part + b;
    assert text[|a|..|a| + |part|] == part;
    assert PartAt(text, part, |a|);
  }

  lemma LowerStart(word: string, token: string)
    ensures Lower(word) <= Lower(word + token)
  {
    assert Lower(word + token)[..|word|] == Lower(word);
  }

  /** A login that starts with one of the four prefixes, in any mix of cases, is one. */
  lemma PamLogins(prefix: string, token: string)
    requires Lower(prefix) in {"psm@", "pam@", "psm\\@", "pam\\@"}
    ensures IsCyberarkPam(prefix + token)
  {
    LowerStart(prefix, token);
  }

  // ----- What counts as a licence error, said of the message itself -----

  const LICENCE_MARKS: seq<string> :=
    ["LicenseExchangeState", "SERVER_NEW_LICENSE", "licensing error", "license verification",
     "ClientNewLicenseRequest", "ClientLicenseInfo", "ClientPlatformChallengeResponse"]

  ghost predicate Mentions(msg: string, mark: string) {
    exists a, b :: msg == a + mark + b
  }

  lemma MentionsIff(msg: string, mark: string)
    ensures Contains(msg, mark) <==> Mentions(msg, mark)
  {
    if k :| 0 <= k <= |msg| - |mark| && PartAt(msg, mark, k) {
      assert msg == msg[..k] + mark + msg[k + |mark|..];
    }
    if a, b :| msg == a + mark + b { Found(a, mark, b); }
  }

  /** A message is a licence error exactly when one of the seven marks stands somewhere in it. */
  lemma LicenceErrorIff(msg: string)
    ensures IsLicenseError(msg) <==> exists i | 0 <= i < |LICENCE_MARKS| :: Mentions(msg, LICENCE_MARKS[i])
  {
    forall i | 0 <= i < |LICENCE_MARKS| ensures Contains(msg, LICENCE_MARKS[i]) <==> Mentions(msg, LICENCE_MARKS[i]) {
      MentionsIff(msg, LICENCE_MARKS[i]);
    }
    AnyMark(msg);
  }

  lemma AnyMark(msg: string)
    ensures IsLicenseError(msg) <==> exists i | 0 <= i < |LICENCE_MARKS| :: Contains(msg, LICENCE_MARKS[i])
  {
    assert IsLicenseError(msg) <==>
      (Contains(msg, LICENCE_MARKS[0]) || Contains(msg, LICENCE_MARKS[1]) || Contains(msg, LICENCE_MARKS[2])
       || Contains(msg, LICENCE_MARKS[3]) || Contains(msg, LICENCE_MARKS[4]) || Contains(msg, LICENCE_MARKS[5])
       || Contains(msg, LICENCE_MARKS[6]));
  }
}
