/**
 * The wire codec between Dart and Rust: encoders append to a buffer, decoders advance a cursor.
 * Each is proved against a pure printer or parser, and the parsers undo the printers.
 */
module WireCodec {
  import opened Basics

  /** The byte order of the machine both sides run on; every result holds for either value. */
  const BIG_ENDIAN: bool

  const MAX_LENGTH := 0x8000_0000

  type Text = b: seq<byte> | ValidUtf8(b)
  type u16 = n: int | 0 <= n < 0x1_0000
  type u32 = n: int | 0 <= n < 0x1_0000_0000
  type u64 = n: int | 0 <= n < 0x1_0000_0000_0000_0000
  type i32 = n: int | -0x8000_0000 <= n < 0x8000_0000
  type i64 = n: int | -0x8000_0000_0000_0000 <= n < 0x8000_0000_0000_0000

  datatype SshProfile = SshProfile(
    id: Text, name: Text, host: Text, port: u16, username: Text,
    password: Option<Text>, privateKeyPath: Option<Text>, keyPassphrase: Option<Text>,
    jumpHost: Option<SshProfile>, forwardAgent: bool, command: Option<Text>)

  datatype AuthPrompt = AuthPrompt(prompt: Text, echo: bool)

  datatype AuthPromptRound = AuthPromptRound(name: Text, instructions: Text, prompts: seq<AuthPrompt>)

  datatype ForwardInfo = ForwardInfo(
    id: Text, profileId: Text, localPort: u16, remoteHost: Text, remotePort: u16, socks: bool, reverse: bool)

  datatype RemoteFileEntry = RemoteFileEntry(
    name: Text, path: Text, isDirectory: bool, sizeBytes: u64, modifiedUnixSeconds: i64, mode: u32)

  /** A decoded value and the bytes after it; Panic when the original's decoder panics. */
  datatype Parsed<+T> = Panic | Parsed(value: T, rest: seq<byte>) {
    predicate IsFailure() { Panic? }
    function PropagateFailure<U>(): Parsed<U> requires Panic? { Panic }
    function Extract(): (T, seq<byte>) requires Parsed? { (value, rest) }
  }

  // ----- Integers -----

  function Range(n: nat): (r: nat)
    ensures r > 0
  {
    if n == 0 then 1 else 256 * Range(n - 1)
  }

  function LittleBytes(v: nat, n: nat): (r: seq<byte>)
    ensures |r| == n
  {
    if n == 0 then [] else [v % 256] + LittleBytes(v / 256, n - 1)
  }

  function LittleValue(b: seq<byte>): nat {
    if b == [] then 0 else b[0] + 256 * LittleValue(b[1..])
  }

  function Reverse(b: seq<byte>): (r: seq<byte>)
    ensures |r| == |b|
    ensures forall i | 0 <= i < |b| :: r[i] == b[|b| - 1 - i]
  {
    seq(|b|, i requires 0 <= i < |b| => b[|b| - 1 - i])
  }

  function EncUint(v: nat, n: nat): (r: seq<byte>)
    ensures |r| == n
  {
    var little := LittleBytes(v, n);
    if BIG_ENDIAN then Reverse(little) else little
  }

  function DecUint(n: nat, b: seq<byte>): (r: Parsed<nat>)
    ensures r.Parsed? ==> r.value < Range(n) && |r.rest| + n == |b|
  {
    if |b| < n then Panic
    else
      var field := b[..n];
      LittleValueBound(if BIG_ENDIAN then Reverse(field) else field);
      Parsed(LittleValue(if BIG_ENDIAN then Reverse(field) else field), b[n..])
  }

  lemma {:induction false} LittleValueBound(b: seq<byte>)
    ensures LittleValue(b) < Range(|b|)
  {
    if b != [] { LittleValueBound(b[1..]); }
  }

  lemma {:induction false} LittleRoundTrip(v: nat, n: nat)
    requires v < Range(n)
    ensures LittleValue(LittleBytes(v, n)) == v
  {
    if n > 0 {
      LittleRoundTrip(v / 256, n - 1);
      assert LittleBytes(v, n)[1..] == LittleBytes(v / 256, n - 1);
    }
  }

  lemma UintRoundTrip(v: nat, n: nat, rest: seq<byte>)
    requires v < Range(n)
    ensures DecUint(n, EncUint(v, n) + rest) == Parsed(v, rest)
  {
    LittleRoundTrip(v, n);
    var little := LittleBytes(v, n);
    assert Reverse(Reverse(little)) == little;
    assert (EncUint(v, n) + rest)[..n] == EncUint(v, n);
    assert (EncUint(v, n) + rest)[n..] == rest;
  }

  lemma Ranges()
    ensures Range(1) == 0x100 && Range(2) == 0x1_0000 && Range(4) == 0x1_0000_0000
    ensures Range(8) == 0x1_0000_0000_0000_0000
  {
  }

  function EncU16(v: u16): seq<byte> { EncUint(v, 2) }
  function EncU32(v: u32): seq<byte> { EncUint(v, 4) }
  function EncU64(v: u64): seq<byte> { EncUint(v, 8) }
  function EncI32(v: i32): seq<byte> { EncUint(if v < 0 then v + 0x1_0000_0000 else v, 4) }
  function EncI64(v: i64): seq<byte> { EncUint(if v < 0 then v + 0x1_0000_0000_0000_0000 else v, 8) }
  function EncBool(v: bool): seq<byte> { [if v then 1 else 0] }

  function DecU16(b: seq<byte>): (r: Parsed<u16>)
    ensures r.Parsed? ==> |r.rest| < |b|
  {
    Ranges();
    var (v, rest) :- DecUint(2, b);
    Parsed(v, rest)
  }

  function DecU32(b: seq<byte>): (r: Parsed<u32>)
    ensures r.Parsed? ==> |r.rest| < |b|
  {
    Ranges();
    var (v, rest) :- DecUint(4, b);
    Parsed(v, rest)
  }

  function DecU64(b: seq<byte>): (r: Parsed<u64>)
    ensures r.Parsed? ==> |r.rest| < |b|
  {
    Ranges();
    var (v, rest) :- DecUint(8, b);
    Parsed(v, rest)
  }

  function DecI32(b: seq<byte>): (r: Parsed<i32>)
    ensures r.Parsed? ==> |r.rest| < |b|
  {
    Ranges();
    var (v, rest) :- DecUint(4, b);
    Parsed(if v < 0x8000_0000 then v else v - 0x1_0000_0000, rest)
  }

  function DecI64(b: seq<byte>): (r: Parsed<i64>)
    ensures r.Parsed? ==> |r.rest| < |b|
  {
    Ranges();
    var (v, rest) :- DecUint(8, b);
    Parsed(if v < 0x8000_0000_0000_0000 then v else v - 0x1_0000_0000_0000_0000, rest)
  }

  function DecBool(b: seq<byte>): (r: Parsed<bool>)
    ensures r.Parsed? ==> |r.rest| < |b|
  {
    if b == [] then Panic else Parsed(b[0] != 0, b[1..])
  }

  lemma U16RoundTrip(v: u16, rest: seq<byte>)
    ensures DecU16(EncU16(v) + rest) == Parsed(v, rest)
  {
    Ranges();
    UintRoundTrip(v, 2, rest);
  }

  lemma U32RoundTrip(v: u32, rest: seq<byte>)
    ensures DecU32(EncU32(v) + rest) == Parsed(v, rest)
  {
    Ranges();
    UintRoundTrip(v, 4, rest);
  }

  lemma U64RoundTrip(v: u64, rest: seq<byte>)
    ensures DecU64(EncU64(v) + rest) == Parsed(v, rest)
  {
    Ranges();
    UintRoundTrip(v, 8, rest);
  }

  lemma I64RoundTrip(v: i64, rest: seq<byte>)
    ensures DecI64(EncI64(v) + rest) == Parsed(v, rest)
  {
    Ranges();
    UintRoundTrip(if v < 0 then v + 0x1_0000_0000_0000_0000 else v, 8, rest);
  }

  lemma BoolRoundTrip(v: bool, rest: seq<byte>)
    ensures DecBool(EncBool(v) + rest) == Parsed(v, rest)
  {
    assert (EncBool(v) + rest)[1..] == rest;
  }

  lemma I32RoundTrip(v: i32, rest: seq<byte>)
    ensures DecI32(EncI32(v) + rest) == Parsed(v, rest)
  {
    Ranges();
    UintRoundTrip(if v < 0 then v + 0x1_0000_0000 else v, 4, rest);
  }

  // ----- Byte strings, text and lists -----

  /** `len as i32`: the length keeps only its low 32 bits. */
  function WrapI32(n: nat): (r: i32)
    ensures r == n <==> n < MAX_LENGTH
  {
    (n + 0x8000_0000) % 0x1_0000_0000 - 0x8000_0000
  }

  function EncBytes(s: seq<byte>): (r: seq<byte>)
    ensures |r| >= 4
  {
    EncI32(WrapI32(|s|)) + s
  }

  function DecBytes(b: seq<byte>): (r: Parsed<seq<byte>>)
    ensures r.Parsed? ==> |r.rest| < |b|
  {
    var (n, rest) :- DecI32(b);
    if n < 0 || |rest| < n then Panic else Parsed(rest[..n], rest[n..])
  }

  function DecText(b: seq<byte>): (r: Parsed<Text>)
    ensures r.Parsed? ==> |r.rest| < |b|
  {
    var (s, rest) :- DecBytes(b);
    if ValidUtf8(s) then Parsed(s, rest) else Panic
  }

  /** A byte string comes back exactly when its length fits in a signed 32-bit integer. */
  lemma BytesRoundTripIff(s: seq<byte>, rest: seq<byte>)
    ensures DecBytes(EncBytes(s) + rest) == Parsed(s, rest) <==> |s| < MAX_LENGTH
  {
    var n := WrapI32(|s|);
    I32RoundTrip(n, s + rest);
    assert EncBytes(s) + rest == EncI32(n) + (s + rest);
    if |s| < MAX_LENGTH {
      assert (s + rest)[..n] == s && (s + rest)[n..] == rest;
    }
  }

  lemma TextRoundTrip(t: Text, rest: seq<byte>)
    requires |t| < MAX_LENGTH
    ensures DecText(EncBytes(t) + rest) == Parsed(t, rest)
  {
    BytesRoundTripIff(t, rest);
  }

  function EncItems<T>(items: seq<T>, enc: T -> seq<byte>): seq<byte> {
    if items == [] then [] else enc(items[0]) + EncItems(items[1..], enc)
  }

  function EncList<T>(items: seq<T>, enc: T -> seq<byte>): seq<byte> {
    EncI32(WrapI32(|items|)) + EncItems(items, enc)
  }

  function DecItems<T>(n: nat, b: seq<byte>, dec: seq<byte> -> Parsed<T>): Parsed<seq<T>> {
    if n == 0 then Parsed([], b)
    else
      var (item, rest) :- dec(b);
      var (items, rest') :- DecItems(n - 1, rest, dec);
      Parsed([item] + items, rest')
  }

  function DecList<T>(b: seq<byte>, dec: seq<byte> -> Parsed<T>): Parsed<seq<T>> {
    var (n, rest) :- DecI32(b);
    if n < 0 then Panic else DecItems(n, rest, dec)
  }

  /** `dec` undoes `enc` on this value, whatever bytes follow. */
  ghost predicate RoundTrips<T(!new)>(enc: T -> seq<byte>, dec: seq<byte> -> Parsed<T>, v: T) {
    forall rest: seq<byte> :: dec(enc(v) + rest) == Parsed(v, rest)
  }

  lemma {:induction false} ItemsRoundTrip<T(!new)>(items: seq<T>, enc: T -> seq<byte>, dec: seq<byte> -> Parsed<T>,
      rest: seq<byte>)
    requires forall i | 0 <= i < |items| :: RoundTrips(enc, dec, items[i])
    ensures DecItems(|items|, EncItems(items, enc) + rest, dec) == Parsed(items, rest)
  {
    if items == [] {
      assert EncItems(items, enc) + rest == rest;
    } else {
      var more := EncItems(items[1..], enc) + rest;
      ItemsRoundTrip(items[1..], enc, dec, rest);
      assert RoundTrips(enc, dec, items[0]);
      assert EncItems(items, enc) + rest == enc(items[0]) + more;
      assert [items[0]] + items[1..] == items;
    }
  }

  lemma ListRoundTrip<T(!new)>(items: seq<T>, enc: T -> seq<byte>, dec: seq<byte> -> Parsed<T>, rest: seq<byte>)
    requires |items| < MAX_LENGTH
    requires forall i | 0 <= i < |items| :: RoundTrips(enc, dec, items[i])
    ensures DecList(EncList(items, enc) + rest, dec) == Parsed(items, rest)
  {
    ItemsRoundTrip(items, enc, dec, rest);
    I32RoundTrip(|items|, EncItems(items, enc) + rest);
    assert EncList(items, enc) + rest == EncI32(|items|) + (EncItems(items, enc) + rest);
  }

  // ----- Records -----

  function EncOptText(t: Option<Text>): (r: seq<byte>)
    ensures r != []
  {
    if t.Some? then EncBool(true) + EncBytes(t.value) else EncBool(false)
  }

  function DecOptText(b: seq<byte>): (r: Parsed<Option<Text>>)
    ensures r.Parsed? ==> |r.rest| < |b|
  {
    var (some, rest) :- DecBool(b);
    if !some then Parsed(None, rest)
    else
      var (t, rest') :- DecText(rest);
      Parsed(Some(t), rest')
  }

  predicate OptFits(t: Option<Text>) {
    t.Some? ==> |t.value| < MAX_LENGTH
  }

  lemma OptTextRoundTrip(t: Option<Text>, rest: seq<byte>)
    requires OptFits(t)
    ensures DecOptText(EncOptText(t) + rest) == Parsed(t, rest)
  {
    if t.Some? {
      BoolRoundTrip(true, EncBytes(t.value) + rest);
      TextRoundTrip(t.value, rest);
      assert EncOptText(t) + rest == EncBool(true) + (EncBytes(t.value) + rest);
    } else {
      BoolRoundTrip(false, rest);
    }
  }

  function EncProfile(p: SshProfile): seq<byte>
    decreases p, 1
  {
    EncBytes(p.id) + (EncBytes(p.name) + (EncBytes(p.host) + (EncU16(p.port)
      + (EncBytes(p.username) + EncProfileTail(p)))))
  }

  function EncProfileTail(p: SshProfile): seq<byte>
    decreases p, 0
  {
    EncOptText(p.password) + (EncOptText(p.privateKeyPath) + (EncOptText(p.keyPassphrase)
      + (EncJump(p.jumpHost) + (EncBool(p.forwardAgent) + EncOptText(p.command)))))
  }

  function EncJump(jump: Option<SshProfile>): seq<byte>
    decreases jump
  {
    if jump.Some? then EncBool(true) + EncProfile(jump.value) else EncBool(false)
  }

  function DecProfile(b: seq<byte>): (r: Parsed<SshProfile>)
    ensures r.Parsed? ==> |r.rest| < |b|
    decreases |b|, 1
  {
    var (id, b1) :- DecText(b);
    var (name, b2) :- DecText(b1);
    var (host, b3) :- DecText(b2);
    var (port, b4) :- DecU16(b3);
    var (username, b5) :- DecText(b4);
    var (t, rest) :- DecProfileTail(b5);
    Parsed(SshProfile(id, name, host, port, username, t.password, t.privateKeyPath, t.keyPassphrase,
                      t.jumpHost, t.forwardAgent, t.command), rest)
  }

  /** The fields after the user name. */
  datatype ProfileTail = ProfileTail(
    password: Option<Text>, privateKeyPath: Option<Text>, keyPassphrase: Option<Text>,
    jumpHost: Option<SshProfile>, forwardAgent: bool, command: Option<Text>)

  function DecProfileTail(b: seq<byte>): (r: Parsed<ProfileTail>)
    ensures r.Parsed? ==> |r.rest| < |b|
    decreases |b|, 1
  {
    var (password, b1) :- DecOptText(b);
    var (privateKeyPath, b2) :- DecOptText(b1);
    var (keyPassphrase, b3) :- DecOptText(b2);
    var (jumpHost, b4) :- DecJump(b3);
    var (forwardAgent, b5) :- DecBool(b4);
    var (command, b6) :- DecOptText(b5);
    Parsed(ProfileTail(password, privateKeyPath, keyPassphrase, jumpHost, forwardAgent, command), b6)
  }

  function DecJump(b: seq<byte>): (r: Parsed<Option<SshProfile>>)
    ensures r.Parsed? ==> |r.rest| < |b|
    decreases |b|, 0
  {
    var (some, rest) :- DecBool(b);
    if !some then Parsed(None, rest)
    else
      var (p, rest') :- DecProfile(rest);
      Parsed(Some(p), rest')
  }

  /** Every string of the profile and of its jump chain has a length that fits in an i32. */
  predicate Fits(p: SshProfile) {
    |p.id| < MAX_LENGTH && |p.name| < MAX_LENGTH && |p.host| < MAX_LENGTH && |p.username| < MAX_LENGTH
    && OptFits(p.password) && OptFits(p.privateKeyPath) && OptFits(p.keyPassphrase) && OptFits(p.command)
    && (p.jumpHost.Some? ==> Fits(p.jumpHost.value))
  }

  lemma {:induction false} ProfileRoundTrip(p: SshProfile, rest: seq<byte>)
    requires Fits(p)
    ensures DecProfile(EncProfile(p) + rest) == Parsed(p, rest)
    decreases p, 1
  {
    var e6 := EncProfileTail(p) + rest;
    var e5 := EncBytes(p.username) + e6;
    var e4 := EncU16(p.port) + e5;
    var e3 := EncBytes(p.host) + e4;
    var e2 := EncBytes(p.name) + e3;
    assert EncProfile(p) + rest == EncBytes(p.id) + e2;
    TextRoundTrip(p.id, e2);
    TextRoundTrip(p.name, e3);
    TextRoundTrip(p.host, e4);
    U16RoundTrip(p.port, e5);
    TextRoundTrip(p.username, e6);
    ProfileTailRoundTrip(p, rest);
  }

  lemma {:induction false} ProfileTailRoundTrip(p: SshProfile, rest: seq<byte>)
    requires Fits(p)
    ensures DecProfileTail(EncProfileTail(p) + rest)
         == Parsed(ProfileTail(p.password, p.privateKeyPath, p.keyPassphrase,
                               p.jumpHost, p.forwardAgent, p.command), rest)
    decreases p, 0
  {
    var b5 := EncOptText(p.command) + rest;
    var b4 := EncBool(p.forwardAgent) + b5;
    var b3 := EncJump(p.jumpHost) + b4;
    var b2 := EncOptText(p.keyPassphrase) + b3;
    var b1 := EncOptText(p.privateKeyPath) + b2;
    Regroup(EncOptText(p.password), EncOptText(p.privateKeyPath), EncOptText(p.keyPassphrase),
            EncJump(p.jumpHost), EncBool(p.forwardAgent), EncOptText(p.command), rest);
    OptTextRoundTrip(p.password, b1);
    OptTextRoundTrip(p.privateKeyPath, b2);
    OptTextRoundTrip(p.keyPassphrase, b3);
    JumpRoundTrip(p.jumpHost, b4);
    BoolRoundTrip(p.forwardAgent, b5);
    OptTextRoundTrip(p.command, rest);
    TailOf(EncProfileTail(p) + rest, b1, b2, b3, b4, b5, rest,
           ProfileTail(p.password, p.privateKeyPath, p.keyPassphrase, p.jumpHost, p.forwardAgent, p.command));
  }

  lemma Regroup(a: seq<byte>, b: seq<byte>, c: seq<byte>, d: seq<byte>, e: seq<byte>, f: seq<byte>, rest: seq<byte>)
    ensures (a + (b + (c + (d + (e + f))))) + rest == a + (b + (c + (d + (e + (f + rest)))))
  {
  }

  lemma TailOf(b: seq<byte>, b1: seq<byte>, b2: seq<byte>, b3: seq<byte>, b4: seq<byte>, b5: seq<byte>,
               rest: seq<byte>, t: ProfileTail)
    requires DecOptText(b) == Parsed(t.password, b1) && DecOptText(b1) == Parsed(t.privateKeyPath, b2)
    requires DecOptText(b2) == Parsed(t.keyPassphrase, b3) && DecJump(b3) == Parsed(t.jumpHost, b4)
    requires DecBool(b4) == Parsed(t.forwardAgent, b5) && DecOptText(b5) == Parsed(t.command, rest)
    ensures DecProfileTail(b) == Parsed(t, rest)
  {
  }

  lemma {:induction false} JumpRoundTrip(jump: Option<SshProfile>, rest: seq<byte>)
    requires jump.Some? ==> Fits(jump.value)
    ensures DecJump(EncJump(jump) + rest) == Parsed(jump, rest)
    decreases jump
  {
    if jump.Some? {
      var b1 := EncProfile(jump.value) + rest;
      assert EncJump(jump) + rest == EncBool(true) + b1;
      BoolRoundTrip(true, b1);
      ProfileRoundTrip(jump.value, rest);
    } else {
      BoolRoundTrip(false, rest);
    }
  }

  /** Encodings are injective and none is a prefix of another: the split point is determined. */
  lemma ProfileUnambiguous(p: SshProfile, q: SshProfile, after: seq<byte>, after': seq<byte>)
    requires Fits(p) && Fits(q)
    requires EncProfile(p) + after == EncProfile(q) + after'
    ensures p == q && after == after'
  {
    ProfileRoundTrip(p, after);
    ProfileRoundTrip(q, after');
  }

  /** The arguments of `connect` and the check that nothing follows them. */
  function DecConnectCall(message: seq<byte>): Option<(SshProfile, u32, u32)> {
    match DecProfile(message)
    case Panic => None
    case Parsed(profile, b1) =>
      match DecU32(b1)
      case Panic => None
      case Parsed(cols, b2) =>
        match DecU32(b2)
        case Panic => None
        case Parsed(rows, b3) => if b3 == [] then Some((profile, cols, rows)) else None
  }

  lemma ConnectCallRoundTrip(p: SshProfile, cols: u32, rows: u32)
    requires Fits(p)
    ensures DecConnectCall(EncProfile(p) + EncU32(cols) + EncU32(rows)) == Some((p, cols, rows))
  {
    ProfileRoundTrip(p, EncU32(cols) + EncU32(rows));
    U32RoundTrip(cols, EncU32(rows));
    U32RoundTrip(rows, []);
    assert EncU32(rows) + [] == EncU32(rows);
    assert EncProfile(p) + EncU32(cols) + EncU32(rows) == EncProfile(p) + (EncU32(cols) + EncU32(rows));
  }

  /** Bytes after the last argument are refused. */
  lemma ConnectCallEnds(p: SshProfile, cols: u32, rows: u32, extra: seq<byte>)
    requires Fits(p) && extra != []
    ensures DecConnectCall(EncProfile(p) + (EncU32(cols) + (EncU32(rows) + extra))) == None
  {
    ProfileRoundTrip(p, EncU32(cols) + (EncU32(rows) + extra));
    U32RoundTrip(cols, EncU32(rows) + extra);
    U32RoundTrip(rows, extra);
  }

  function EncPrompt(p: AuthPrompt): seq<byte> { EncBytes(p.prompt) + EncBool(p.echo) }

  function DecPrompt(b: seq<byte>): Parsed<AuthPrompt> {
    var (prompt, b1) :- DecText(b);
    var (echo, b2) :- DecBool(b1);
    Parsed(AuthPrompt(prompt, echo), b2)
  }

  function EncRound(r: AuthPromptRound): seq<byte> {
    EncBytes(r.name) + (EncBytes(r.instructions) + EncList(r.prompts, EncPrompt))
  }

  function DecRound(b: seq<byte>): Parsed<AuthPromptRound> {
    var (name, b1) :- DecText(b);
    var (instructions, b2) :- DecText(b1);
    var (prompts, b3) :- DecList(b2, DecPrompt);
    Parsed(AuthPromptRound(name, instructions, prompts), b3)
  }

  predicate RoundFits(r: AuthPromptRound) {
    |r.name| < MAX_LENGTH && |r.instructions| < MAX_LENGTH && |r.prompts| < MAX_LENGTH
    && forall i | 0 <= i < |r.prompts| :: |r.prompts[i].prompt| < MAX_LENGTH
  }

  lemma PromptRoundTrip(p: AuthPrompt, rest: seq<byte>)
    requires |p.prompt| < MAX_LENGTH
    ensures DecPrompt(EncPrompt(p) + rest) == Parsed(p, rest)
  {
    var b1 := EncBool(p.echo) + rest;
    assert EncPrompt(p) + rest == EncBytes(p.prompt) + b1;
    TextRoundTrip(p.prompt, b1);
    BoolRoundTrip(p.echo, rest);
  }

  lemma RoundRoundTrip(r: AuthPromptRound, rest: seq<byte>)
    requires RoundFits(r)
    ensures DecRound(EncRound(r) + rest) == Parsed(r, rest)
  {
    var b2 := EncList(r.prompts, EncPrompt) + rest;
    var b1 := EncBytes(r.instructions) + b2;
    assert EncRound(r) + rest == EncBytes(r.name) + b1;
    TextRoundTrip(r.name, b1);
    TextRoundTrip(r.instructions, b2);
    forall i | 0 <= i < |r.prompts| ensures RoundTrips(EncPrompt, DecPrompt, r.prompts[i]) {
      forall after: seq<byte> ensures DecPrompt(EncPrompt(r.prompts[i]) + after) == Parsed(r.prompts[i], after) {
        PromptRoundTrip(r.prompts[i], after);
      }
    }
    ListRoundTrip(r.prompts, EncPrompt, DecPrompt, rest);
  }

  function EncForward(f: ForwardInfo): seq<byte> {
    EncBytes(f.id) + (EncBytes(f.profileId) + (EncU16(f.localPort) + (EncBytes(f.remoteHost)
      + (EncU16(f.remotePort) + (EncBool(f.socks) + EncBool(f.reverse))))))
  }

  function DecForward(b: seq<byte>): Parsed<ForwardInfo> {
    var (id, b1) :- DecText(b);
    var (profileId, b2) :- DecText(b1);
    var (localPort, b3) :- DecU16(b2);
    var (remoteHost, b4) :- DecText(b3);
    var (remotePort, b5) :- DecU16(b4);
    var (socks, b6) :- DecBool(b5);
    var (reverse, b7) :- DecBool(b6);
    Parsed(ForwardInfo(id, profileId, localPort, remoteHost, remotePort, socks, reverse), b7)
  }

  predicate ForwardFits(f: ForwardInfo) {
    |f.id| < MAX_LENGTH && |f.profileId| < MAX_LENGTH && |f.remoteHost| < MAX_LENGTH
  }

  lemma ForwardRoundTrip(f: ForwardInfo)
    requires ForwardFits(f)
    ensures RoundTrips(EncForward, DecForward, f)
  {
    forall rest: seq<byte> ensures DecForward(EncForward(f) + rest) == Parsed(f, rest) {
      var b6 := EncBool(f.reverse) + rest;
      var b5 := EncBool(f.socks) + b6;
      var b4 := EncU16(f.remotePort) + b5;
      var b3 := EncBytes(f.remoteHost) + b4;
      var b2 := EncU16(f.localPort) + b3;
      var b1 := EncBytes(f.profileId) + b2;
      assert EncForward(f) + rest == EncBytes(f.id) + b1;
      TextRoundTrip(f.id, b1);
      TextRoundTrip(f.profileId, b2);
      U16RoundTrip(f.localPort, b3);
      TextRoundTrip(f.remoteHost, b4);
      U16RoundTrip(f.remotePort, b5);
      BoolRoundTrip(f.socks, b6);
      BoolRoundTrip(f.reverse, rest);
    }
  }

  function EncEntry(e: RemoteFileEntry): seq<byte> {
    EncBytes(e.name) + (EncBytes(e.path) + (EncBool(e.isDirectory) + (EncU64(e.sizeBytes)
      + (EncI64(e.modifiedUnixSeconds) + EncU32(e.mode)))))
  }

  function DecEntry(b: seq<byte>): Parsed<RemoteFileEntry> {
    var (name, b1) :- DecText(b);
    var (path, b2) :- DecText(b1);
    var (isDirectory, b3) :- DecBool(b2);
    var (sizeBytes, b4) :- DecU64(b3);
    var (modified, b5) :- DecI64(b4);
    var (mode, b6) :- DecU32(b5);
    Parsed(RemoteFileEntry(name, path, isDirectory, sizeBytes, modified, mode), b6)
  }

  predicate EntryFits(e: RemoteFileEntry) {
    |e.name| < MAX_LENGTH && |e.path| < MAX_LENGTH
  }

  lemma EntryRoundTrip(e: RemoteFileEntry)
    requires EntryFits(e)
    ensures RoundTrips(EncEntry, DecEntry, e)
  {
    forall rest: seq<byte> ensures DecEntry(EncEntry(e) + rest) == Parsed(e, rest) {
      var b5 := EncU32(e.mode) + rest;
      var b4 := EncI64(e.modifiedUnixSeconds) + b5;
      var b3 := EncU64(e.sizeBytes) + b4;
      var b2 := EncBool(e.isDirectory) + b3;
      var b1 := EncBytes(e.path) + b2;
      assert EncEntry(e) + rest == EncBytes(e.name) + b1;
      TextRoundTrip(e.name, b1);
      TextRoundTrip(e.path, b2);
      BoolRoundTrip(e.isDirectory, b3);
      U64RoundTrip(e.sizeBytes, b4);
      I64RoundTrip(e.modifiedUnixSeconds, b5);
      U32RoundTrip(e.mode, rest);
    }
  }

  lemma ForwardListRoundTrip(list: seq<ForwardInfo>, rest: seq<byte>)
    requires |list| < MAX_LENGTH && forall i | 0 <= i < |list| :: ForwardFits(list[i])
    ensures DecList(EncList(list, EncForward) + rest, DecForward) == Parsed(list, rest)
  {
    forall i | 0 <= i < |list| ensures RoundTrips(EncForward, DecForward, list[i]) { ForwardRoundTrip(list[i]); }
    ListRoundTrip(list, EncForward, DecForward, rest);
  }

  lemma EntryListRoundTrip(list: seq<RemoteFileEntry>, rest: seq<byte>)
    requires |list| < MAX_LENGTH && forall i | 0 <= i < |list| :: EntryFits(list[i])
    ensures DecList(EncList(list, EncEntry) + rest, DecEntry) == Parsed(list, rest)
  {
    forall i | 0 <= i < |list| ensures RoundTrips(EncEntry, DecEntry, list[i]) { EntryRoundTrip(list[i]); }
    ListRoundTrip(list, EncEntry, DecEntry, rest);
  }

  // ----- The layout, byte for byte -----

  /** The i-th digit to the base 256, the lowest first. */
  function DigitOf(v: nat, i: nat): byte {
    if i == 0 then v % 256 else DigitOf(v / 256, i - 1)
  }

  lemma {:induction false} LittleByte(v: nat, n: nat, i: nat)
    requires i < n
    ensures LittleBytes(v, n)[i] == DigitOf(v, i)
  {
    if i > 0 { LittleByte(v / 256, n - 1, i - 1); }
  }

  /** Byte i of an integer is its i-th from the low end on a little-endian machine, from the high end on the other. */
  lemma IntegerLayout(v: nat, n: nat, i: nat)
    requires i < n
    ensures EncUint(v, n)[i] == DigitOf(v, if BIG_ENDIAN then n - 1 - i else i)
  {
    LittleByte(v, n, if BIG_ENDIAN then n - 1 - i else i);
  }

  /** A flag is one byte, 1 or 0; a byte string is its length in four bytes and then the bytes; so is a list. */
  lemma SmallLayouts(flag: bool, s: seq<byte>, t: Option<Text>)
    ensures EncBool(flag) == if flag then [1] else [0]
    ensures EncBytes(s)[4..] == s
    ensures |s| < MAX_LENGTH ==> EncBytes(s)[..4] == EncUint(|s|, 4)
    ensures t.None? ==> EncOptText(t) == [0]
    ensures t.Some? ==> EncOptText(t) == [1] + EncBytes(t.value)
  {
  }

  lemma ListLayout<T>(items: seq<T>, enc: T -> seq<byte>)
    ensures |items| < MAX_LENGTH ==> EncList(items, enc)[..4] == EncUint(|items|, 4)
    ensures EncList(items, enc)[4..] == EncItems(items, enc)
    ensures items != [] ==> EncItems(items, enc) == enc(items[0]) + EncItems(items[1..], enc)
  {
  }

  /** The fields of a profile in the order in which the other side reads them. */
  function ProfileFields(p: SshProfile): seq<seq<byte>> {
    [EncBytes(p.id), EncBytes(p.name), EncBytes(p.host), EncU16(p.port), EncBytes(p.username),
     EncOptText(p.password), EncOptText(p.privateKeyPath), EncOptText(p.keyPassphrase),
     if p.jumpHost.Some? then [1] + EncProfile(p.jumpHost.value) else [0],
     EncBool(p.forwardAgent), EncOptText(p.command)]
  }

  function Concat(parts: seq<seq<byte>>): seq<byte> {
    if parts == [] then [] else parts[0] + Concat(parts[1..])
  }

  /** A profile is its fields one after the other: id, name, host, port, user name, and so on. */
  lemma ProfileLayout(p: SshProfile)
    ensures EncProfile(p) == Concat(ProfileFields(p))
  {
    var f := ProfileFields(p);
    TailLayout(p);
    Six(f, EncProfileTail(p));
  }

  lemma Front(f: seq<seq<byte>>, i: nat)
    requires i < |f|
    ensures Concat(f[i..]) == f[i] + Concat(f[i + 1..])
  {
    assert f[i..][0] == f[i] && f[i..][1..] == f[i + 1..];
  }

  lemma Six(f: seq<seq<byte>>, tail: seq<byte>)
    requires |f| > 5 && Concat(f[5..]) == tail
    ensures Concat(f) == f[0] + (f[1] + (f[2] + (f[3] + (f[4] + tail))))
  {
    assert f[0..] == f;
    Front(f, 0);
    Front(f, 1);
    Front(f, 2);
    Front(f, 3);
    Front(f, 4);
  }

  lemma TailLayout(p: SshProfile)
    ensures Concat(ProfileFields(p)[5..]) == EncProfileTail(p)
  {
    var g := ProfileFields(p)[5..];
    assert EncJump(p.jumpHost) == g[3];
    LastOne(g[5]);
    assert g[5..] == [g[5]];
    Six(g, Concat(g[5..]));
  }

  lemma LastOne(part: seq<byte>)
    ensures Concat([part]) == part
  {
    assert [part][1..] == [] && part + [] == part;
  }

  /** And so are the other records: a prompt round, a tunnel, a directory entry. */
  lemma RoundLayout(r: AuthPromptRound, q: AuthPrompt)
    ensures EncPrompt(q) == EncBytes(q.prompt) + EncBool(q.echo)
    ensures EncRound(r) == EncBytes(r.name) + EncBytes(r.instructions) + EncList(r.prompts, EncPrompt)
  {
    Assoc(EncBytes(r.name), EncBytes(r.instructions), EncList(r.prompts, EncPrompt));
  }

  lemma ForwardLayout(f: ForwardInfo)
    ensures EncForward(f) == Concat([EncBytes(f.id), EncBytes(f.profileId), EncU16(f.localPort), EncBytes(f.remoteHost),
                                     EncU16(f.remotePort), EncBool(f.socks), EncBool(f.reverse)])
  {
    var parts := [EncBytes(f.id), EncBytes(f.profileId), EncU16(f.localPort), EncBytes(f.remoteHost),
                  EncU16(f.remotePort), EncBool(f.socks), EncBool(f.reverse)];
    Front(parts, 5);
    Front(parts, 6);
    assert parts[7..] == [] && parts[6] + [] == parts[6];
    Six(parts, Concat(parts[5..]));
  }

  lemma EntryLayout(e: RemoteFileEntry)
    ensures EncEntry(e) == Concat([EncBytes(e.name), EncBytes(e.path), EncBool(e.isDirectory), EncU64(e.sizeBytes),
                                   EncI64(e.modifiedUnixSeconds), EncU32(e.mode)])
  {
    var parts := [EncBytes(e.name), EncBytes(e.path), EncBool(e.isDirectory), EncU64(e.sizeBytes),
                  EncI64(e.modifiedUnixSeconds), EncU32(e.mode)];
    Front(parts, 5);
    assert parts[6..] == [] && parts[5] + [] == parts[5];
    Six(parts, Concat(parts[5..]));
  }

  // ----- The buffer and the cursor -----

  lemma Assoc(a: seq<byte>, b: seq<byte>, c: seq<byte>)
    ensures a + b + c == a + (b + c)
  {
  }

  lemma Chain(start: seq<byte>, a: seq<byte>, b: seq<byte>, c: seq<byte>, d: seq<byte>, e: seq<byte>, f: seq<byte>)
    ensures start + a + b + c + d + e + f == start + (a + (b + (c + (d + (e + f)))))
  {
  }

  class Serializer {
    var buf: seq<byte>

    constructor ()
      ensures buf == []
    {
      buf := [];
    }

    method WriteBytes(s: seq<byte>)
      modifies this
      ensures buf == old(buf) + EncBytes(s)
    {
      buf := buf + EncI32(WrapI32(|s|));
      for i := 0 to |s|
        invariant buf == old(buf) + EncI32(WrapI32(|s|)) + s[..i]
      {
        buf := buf + [s[i]];
      }
      assert s[..|s|] == s;
    }

    method WriteOptText(t: Option<Text>)
      modifies this
      ensures buf == old(buf) + EncOptText(t)
    {
      buf := buf + EncBool(t.Some?);
      if t.Some? { WriteBytes(t.value); }
    }

    /** Any of the list encoders: the length, then every item in order. */
    method WriteList<T>(items: seq<T>, enc: T -> seq<byte>)
      modifies this
      ensures buf == old(buf) + EncList(items, enc)
    {
      buf := buf + EncI32(WrapI32(|items|));
      ghost var start := buf;
      for i := 0 to |items|
        invariant buf + EncItems(items[i..], enc) == start + EncItems(items, enc)
      {
        assert items[i..][0] == items[i] && items[i..][1..] == items[i + 1..];
        buf := buf + enc(items[i]);
      }
      assert buf + [] == buf;
      Assoc(old(buf), EncI32(WrapI32(|items|)), EncItems(items, enc));
    }

    method WriteProfile(p: SshProfile)
      modifies this
      ensures buf == old(buf) + EncProfile(p)
      decreases p, 1
    {
      WriteBytes(p.id);
      WriteBytes(p.name);
      WriteBytes(p.host);
      buf := buf + EncU16(p.port);
      WriteBytes(p.username);
      WriteProfileTail(p);
      Chain(old(buf), EncBytes(p.id), EncBytes(p.name), EncBytes(p.host), EncU16(p.port), EncBytes(p.username),
            EncProfileTail(p));
    }

    method WriteProfileTail(p: SshProfile)
      modifies this
      ensures buf == old(buf) + EncProfileTail(p)
      decreases p, 0
    {
      WriteOptText(p.password);
      WriteOptText(p.privateKeyPath);
      WriteOptText(p.keyPassphrase);
      WriteJump(p.jumpHost);
      buf := buf + EncBool(p.forwardAgent);
      WriteOptText(p.command);
      Chain(old(buf), EncOptText(p.password), EncOptText(p.privateKeyPath), EncOptText(p.keyPassphrase),
            EncJump(p.jumpHost), EncBool(p.forwardAgent), EncOptText(p.command));
    }

    method WriteJump(jump: Option<SshProfile>)
      modifies this
      ensures buf == old(buf) + EncJump(jump)
      decreases jump
    {
      buf := buf + EncBool(jump.Some?);
      if jump.Some? {
        WriteProfile(jump.value);
        Assoc(old(buf), EncBool(true), EncProfile(jump.value));
      }
    }
  }

  /** A cursor read did what the parser says: None for a panic, else the value and the new position. */
  ghost predicate Reads<T(!new)>(parsed: Parsed<T>, r: Option<T>, after: seq<byte>) {
    match parsed
    case Panic => r.None?
    case Parsed(v, rest) => r == Some(v) && after == rest
  }

  function After<T>(items: seq<T>, more: Parsed<seq<T>>): Parsed<seq<T>> {
    match more
    case Panic => Panic
    case Parsed(list, rest) => Parsed(items + list, rest)
  }

  class Deserializer {
    var rest: seq<byte>

    constructor (message: seq<byte>)
      ensures rest == message
    {
      rest := message;
    }

    method ReadI32() returns (r: Option<i32>)
      modifies this
      ensures Reads(DecI32(old(rest)), r, rest)
    {
      match DecI32(rest) {
        case Panic => r := None;
        case Parsed(v, after) => rest := after; r := Some(v);
      }
    }

    method ReadU16() returns (r: Option<u16>)
      modifies this
      ensures Reads(DecU16(old(rest)), r, rest)
    {
      match DecU16(rest) {
        case Panic => r := None;
        case Parsed(v, after) => rest := after; r := Some(v);
      }
    }

    method ReadBool() returns (r: Option<bool>)
      modifies this
      ensures Reads(DecBool(old(rest)), r, rest)
    {
      if rest == [] { return None; }
      r := Some(rest[0] != 0);
      rest := rest[1..];
    }

    /** The length, then that many single-byte reads. */
    method ReadBytes() returns (r: Option<seq<byte>>)
      modifies this
      ensures Reads(DecBytes(old(rest)), r, rest)
    {
      var n :- ReadI32();
      if n < 0 { return None; }
      ghost var start := rest;
      var bytes: seq<byte> := [];
      for i := 0 to n
        invariant i <= |start| && bytes == start[..i] && rest == start[i..]
      {
        if rest == [] { return None; }
        bytes := bytes + [rest[0]];
        rest := rest[1..];
      }
      return Some(bytes);
    }

    method ReadText() returns (r: Option<Text>)
      modifies this
      ensures Reads(DecText(old(rest)), r, rest)
    {
      var bytes :- ReadBytes();
      if !ValidUtf8(bytes) { return None; }
      return Some(bytes);
    }

    method ReadOptText() returns (r: Option<Option<Text>>)
      modifies this
      ensures Reads(DecOptText(old(rest)), r, rest)
    {
      var some :- ReadBool();
      if !some { return Some(None); }
      var t :- ReadText();
      return Some(Some(t));
    }

    /** Any of the list decoders: the length, then one decode per item, pushed in order. */
    method ReadList<T(!new)>(dec: seq<byte> -> Parsed<T>) returns (r: Option<seq<T>>)
      modifies this
      ensures Reads(DecList(old(rest), dec), r, rest)
    {
      var n :- ReadI32();
      if n < 0 { return None; }
      ghost var start := rest;
      var items: seq<T> := [];
      assert forall more: seq<T> :: items + more == more;
      for i := 0 to n
        invariant |items| == i
        invariant DecItems(n, start, dec) == After(items, DecItems(n - i, rest, dec))
      {
        var parsed := dec(rest);
        if parsed.Panic? { return None; }
        ghost var before := items;
        items := items + [parsed.value];
        rest := parsed.rest;
        assert forall more: seq<T> :: before + ([parsed.value] + more) == items + more;
      }
      assert items + [] == items;
      return Some(items);
    }

    method ReadProfile() returns (r: Option<SshProfile>)
      modifies this
      ensures Reads(DecProfile(old(rest)), r, rest)
      decreases |rest|, 1
    {
      var id :- ReadText();
      var name :- ReadText();
      var host :- ReadText();
      var port :- ReadU16();
      var username :- ReadText();
      var t :- ReadProfileTail();
      return Some(SshProfile(id, name, host, port, username, t.password, t.privateKeyPath, t.keyPassphrase,
                             t.jumpHost, t.forwardAgent, t.command));
    }

    method ReadProfileTail() returns (r: Option<ProfileTail>)
      modifies this
      ensures Reads(DecProfileTail(old(rest)), r, rest)
      decreases |rest|, 1
    {
      var password :- ReadOptText();
      var privateKeyPath :- ReadOptText();
      var keyPassphrase :- ReadOptText();
      var jumpHost :- ReadJump();
      var forwardAgent :- ReadBool();
      var command :- ReadOptText();
      return Some(ProfileTail(password, privateKeyPath, keyPassphrase, jumpHost, forwardAgent, command));
    }

    method ReadJump() returns (r: Option<Option<SshProfile>>)
      modifies this
      ensures Reads(DecJump(old(rest)), r, rest)
      decreases |rest|, 0
    {
      var some :- ReadBool();
      if !some { return Some(None); }
      var p :- ReadProfile();
      return Some(Some(p));
    }
  }

  /** A profile written to a buffer and read back through a cursor arrives, and so do the bytes after it. */
  method ThroughTheWire(p: SshProfile, after: seq<byte>) returns (r: Option<SshProfile>, left: seq<byte>)
    requires Fits(p)
    ensures r == Some(p) && left == after
  {
    var out := new Serializer();
    out.WriteProfile(p);
    var into := new Deserializer(out.buf + after);
    ProfileRoundTrip(p, after);
    assert [] + EncProfile(p) == EncProfile(p);
    r := into.ReadProfile();
    left := into.rest;
  }
}
