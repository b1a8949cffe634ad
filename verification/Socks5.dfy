/**
 * The SOCKS5 handshake of a dynamic tunnel (RFC 1928, no authentication, CONNECT only): bytes arrive in
 * any chunks, the parser reads exactly the handshake, and replies follow the protocol.
 */
module Socks5 {
  import opened Basics

  type Bytes = seq<byte>

  const SUCCEEDED: byte := 0
  const CONNECTION_REFUSED: byte := 5
  const COMMAND_NOT_SUPPORTED: byte := 7
  const ADDRESS_NOT_SUPPORTED: byte := 8

  /** The requested address, not yet turned into text. */
  datatype Host = V4(ip: Bytes) | Domain(name: Bytes) | V6(ip: Bytes)

  datatype Target = Target(host: Host, port: nat)

  /** The parser's verdict on a byte stream: the target, the unread rest, the bytes to write. */
  datatype Verdict = Verdict(target: Option<Target>, rest: Bytes, replies: Bytes)

  function Reply(code: byte): Bytes {
    [5, code, 0, 1, 0, 0, 0, 0, 0, 0]
  }

  // ----- What clients send (sections 3 and 4 of RFC 1928) -----

  function Greeting(methods: Bytes): Bytes
    requires |methods| < 256
  {
    [5, |methods|] + methods
  }

  predicate IsHost(host: Host) {
    match host
    case V4(ip) => |ip| == 4
    case V6(ip) => |ip| == 16
    case Domain(name) => |name| < 256 && ValidUtf8(name)
  }

  function Address(host: Host): Bytes
    requires IsHost(host)
  {
    match host
    case V4(ip) => [1] + ip
    case Domain(name) => [3, |name|] + name
    case V6(ip) => [4] + ip
  }

  function Request(version: byte, reserved: byte, target: Target): Bytes
    requires IsHost(target.host) && target.port < 0x1_0000
  {
    [version, 1, reserved] + Address(target.host) + [target.port / 256, target.port % 256]
  }

  // ----- The parser on a whole stream -----

  function ParseSocks(input: Bytes): Verdict {
    if |input| < 2 then Verdict(None, [], [])
    else if input[0] != 5 then Verdict(None, input[2..], [])
    else
      var n := input[1];
      var b := input[2..];
      if |b| < n then Verdict(None, [], [])
      else if 0 !in b[..n] then Verdict(None, b[n..], [5, 0xFF])
      else ParseRequest(b[n..])
  }

  function ParseRequest(b: Bytes): Verdict {
    if |b| < 4 then Verdict(None, [], [5, 0])
    else if b[1] != 1 then Verdict(None, b[4..], [5, 0] + Reply(COMMAND_NOT_SUPPORTED))
    else
      match ParseAddress(b[3], b[4..])
      case Short => Verdict(None, [], [5, 0])
      case BadName(rest) => Verdict(None, rest, [5, 0])
      case BadKind => Verdict(None, b[4..], [5, 0] + Reply(ADDRESS_NOT_SUPPORTED))
      case Read(host, rest) =>
        if |rest| < 2 then Verdict(None, [], [5, 0])
        else Verdict(Some(Target(host, PortOf(rest[0], rest[1]))), rest[2..], [5, 0])
  }

  function PortOf(high: byte, low: byte): nat {
    256 * (high as int) + low as int
  }

  datatype AddressRead = Short | BadName(rest: Bytes) | BadKind | Read(host: Host, rest: Bytes)

  function ParseAddress(kind: byte, rest: Bytes): AddressRead {
    match kind
    case 1 => if |rest| < 4 then Short else Read(V4(rest[..4]), rest[4..])
    case 3 =>
      if |rest| < 1 || |rest| - 1 < rest[0] then Short
      else
        var len := rest[0];
        var name := rest[1..];
        if ValidUtf8(name[..len]) then Read(Domain(name[..len]), name[len..]) else BadName(name[len..])
    case 4 => if |rest| < 16 then Short else Read(V6(rest[..16]), rest[16..])
    case _ => BadKind
  }

  lemma AddressParses(host: Host, after: Bytes)
    requires IsHost(host)
    ensures ParseAddress(Address(host)[0], Address(host)[1..] + after) == Read(host, after)
  {
    var rest := Address(host)[1..] + after;
    match host {
      case V4(ip) => assert rest == ip + after && rest[..4] == ip && rest[4..] == after;
      case V6(ip) => assert rest == ip + after && rest[..16] == ip && rest[16..] == after;
      case Domain(name) =>
        assert rest == [|name|] + (name + after);
        assert rest[1..] == name + after && rest[1..][..|name|] == name && rest[1..][|name|..] == after;
    }
  }

  lemma AddressInverts(kind: byte, rest: Bytes)
    requires ParseAddress(kind, rest).Read?
    ensures var a := ParseAddress(kind, rest); IsHost(a.host) && [kind] + rest == Address(a.host) + a.rest
  {
    match kind {
      case 1 => assert rest == rest[..4] + rest[4..];
      case 4 => assert rest == rest[..16] + rest[16..];
      case 3 =>
        var name := rest[1..];
        assert rest == [rest[0]] + name && name == name[..rest[0]] + name[rest[0]..];
    }
  }

  lemma PortParses(port: nat)
    requires port < 0x1_0000
    ensures PortOf(port / 256, port % 256) == port
  {
  }

  lemma GreetingParses(methods: Bytes, after: Bytes)
    requires |methods| < 256 && 0 in methods
    ensures ParseSocks(Greeting(methods) + after) == ParseRequest(after)
  {
    var input := Greeting(methods) + after;
    assert input[2..] == methods + after;
    assert input[2..][..|methods|] == methods && input[2..][|methods|..] == after;
  }

  lemma RequestParses(version: byte, reserved: byte, target: Target, payload: Bytes)
    requires IsHost(target.host) && target.port < 0x1_0000
    ensures ParseRequest(Request(version, reserved, target) + payload) == Verdict(Some(target), payload, [5, 0])
  {
    var address := Address(target.host);
    var after := [target.port / 256, target.port % 256] + payload;
    var b := Request(version, reserved, target) + payload;
    assert b == [version, 1, reserved] + (address + after);
    assert b[3] == address[0] && b[4..] == address[1..] + after;
    AddressParses(target.host, after);
    PortParses(target.port);
    assert after[2..] == payload;
  }

  /** A greeting that offers no authentication, a CONNECT request, anything: the target, and the rest unread. */
  lemma HandshakeParses(methods: Bytes, version: byte, reserved: byte, target: Target, payload: Bytes)
    requires |methods| < 256 && 0 in methods && IsHost(target.host) && target.port < 0x1_0000
    ensures ParseSocks(Greeting(methods) + (Request(version, reserved, target) + payload))
         == Verdict(Some(target), payload, [5, 0])
  {
    GreetingParses(methods, Request(version, reserved, target) + payload);
    RequestParses(version, reserved, target, payload);
  }

  lemma RequestInverts(b: Bytes)
    requires ParseRequest(b).target.Some?
    ensures var t := ParseRequest(b).target.value;
      && IsHost(t.host) && t.port < 0x1_0000
      && b == Request(b[0], b[2], t) + ParseRequest(b).rest
  {
    var read := ParseAddress(b[3], b[4..]);
    AddressInverts(b[3], b[4..]);
    var t := ParseRequest(b).target.value;
    PortInverts(read.rest[0], read.rest[1]);
    Glue(b, read.rest, Address(t.host));
  }

  lemma PortInverts(high: byte, low: byte)
    ensures PortOf(high, low) < 0x1_0000 && PortOf(high, low) / 256 == high && PortOf(high, low) % 256 == low
  {
  }

  lemma Glue(b: Bytes, after: Bytes, address: Bytes)
    requires |b| >= 4 && |after| >= 2 && [b[3]] + b[4..] == address + after
    ensures b == ([b[0], b[1], b[2]] + address + [after[0], after[1]]) + after[2..]
  {
    assert b == [b[0], b[1], b[2]] + ([b[3]] + b[4..]);
    assert after == [after[0], after[1]] + after[2..];
  }

  lemma TargetMeansRequest(input: Bytes)
    requires ParseSocks(input).target.Some?
    ensures |input| >= 2 && input[0] == 5 && input[1] <= |input[2..]| && 0 in input[2..][..input[1]]
    ensures ParseSocks(input) == ParseRequest(input[2..][input[1]..])
  {}

  /** And only such streams yield a target: what was read is a greeting and a request for it. */
  lemma TargetMeansHandshake(input: Bytes) returns (methods: Bytes, version: byte, reserved: byte)
    requires ParseSocks(input).target.Some?
    ensures var t := ParseSocks(input).target.value;
      && |methods| < 256 && 0 in methods && IsHost(t.host) && t.port < 0x1_0000
      && input == Greeting(methods) + (Request(version, reserved, t) + ParseSocks(input).rest)
  {
    var b;
    methods, b := GreetingRead(input);
    version, reserved := RequestRead(b);
  }

  lemma GreetingRead(input: Bytes) returns (methods: Bytes, b: Bytes)
    requires ParseSocks(input).target.Some?
    ensures |methods| < 256 && 0 in methods && input == Greeting(methods) + b && ParseSocks(input) == ParseRequest(b)
  {
    TargetMeansRequest(input);
    var n := input[1];
    methods, b := input[2..][..n], input[2..][n..];
    GreetingInverts(input, methods, b);
  }

  lemma RequestRead(b: Bytes) returns (version: byte, reserved: byte)
    requires ParseRequest(b).target.Some?
    ensures var t := ParseRequest(b).target.value;
      IsHost(t.host) && t.port < 0x1_0000 && b == Request(version, reserved, t) + ParseRequest(b).rest
  {
    RequestInverts(b);
    version, reserved := b[0], b[2];
  }

  lemma GreetingInverts(input: Bytes, methods: Bytes, b: Bytes)
    requires |input| >= 2 && input[0] == 5 && |methods| == input[1] && input[2..] == methods + b
    ensures input == Greeting(methods) + b
  {
    assert input == input[..2] + input[2..];
  }

  // ----- The socket and the code that reads it -----

  class Socket {
    /** Everything the client still sends, and everything written to it. */
    var incoming: Bytes
    var written: Bytes
    /** No I/O error happens; end of stream is not an error. */
    const reliable: bool

    constructor (incoming: Bytes, reliable: bool)
      ensures this.incoming == incoming && this.reliable == reliable && written == []
    {
      this.incoming, this.reliable, written := incoming, reliable, [];
    }

    /** Reads until `n` bytes are there, in chunks of any size; None at end of stream or on an error. */
    method ReadExact(n: nat) returns (r: Option<Bytes>)
      modifies this`incoming
      ensures r.Some? ==> n <= |old(incoming)| && r.value == old(incoming)[..n] && incoming == old(incoming)[n..]
      ensures r.None? && reliable ==> |old(incoming)| < n && incoming == []
    {
      var got: Bytes := [];
      while |got| < n
        invariant |got| <= n && got + incoming == old(incoming)
        decreases n - |got|
      {
        if !reliable {
          if * { return None; }
        }
        if incoming == [] { return None; }
        var k: nat :| 0 < k <= |incoming| && |got| + k <= n;
        got := got + incoming[..k];
        incoming := incoming[k..];
      }
      return Some(got);
    }

    /** Writes all of it, or some first part of it and fails. */
    method WriteAll(data: Bytes) returns (ok: bool)
      modifies this`written
      ensures ok ==> written == old(written) + data
      ensures !ok ==> !reliable && written <= old(written) + data
    {
      if !reliable {
        if * {
          var k: nat :| k <= |data|;
          written := written + data[..k];
          assert data[..k] + data[k..] == data;
          return false;
        }
      }
      written := written + data;
      return true;
    }

    /** The handshake up to the target. On a sound socket it does exactly what ParseSocks says. */
    method Socks5Request() returns (r: Option<Target>)
      requires written == []
      modifies this
      ensures reliable ==> Verdict(r, incoming, written) == ParseSocks(old(incoming))
      ensures r.Some? ==>
        ParseSocks(old(incoming)).target == r && incoming == ParseSocks(old(incoming)).rest && written == [5, 0]
      ensures written <= ParseSocks(old(incoming)).replies
    {
      var greeting := ReadExact(2);
      if greeting.None? { return None; }
      if greeting.value[0] != 5 { return None; }
      var methods := ReadExact(greeting.value[1]);
      if methods.None? { return None; }
      if 0 !in methods.value {
        var sent := WriteAll([5, 0xFF]);
        return None;
      }
      ghost var b := incoming;
      assert ParseSocks(old(incoming)) == ParseRequest(b);
      RequestRepliesStart(b);
      var sent := WriteAll([5, 0]);
      if !sent { return None; }
      r := ReadRequest();
    }

    /** The part after the method selection. */
    method ReadRequest() returns (r: Option<Target>)
      requires written == [5, 0]
      modifies this
      ensures reliable ==> Verdict(r, incoming, written) == ParseRequest(old(incoming))
      ensures r.Some? ==>
        ParseRequest(old(incoming)).target == r && incoming == ParseRequest(old(incoming)).rest && written == [5, 0]
      ensures written <= ParseRequest(old(incoming)).replies
    {
      RequestRepliesStart(incoming);
      var request := ReadExact(4);
      if request.None? { return None; }
      if request.value[1] != 1 {
        var sent := WriteAll(Reply(COMMAND_NOT_SUPPORTED));
        return None;
      }
      var host;
      match request.value[3] {
        case 1 =>
          var ip := ReadExact(4);
          if ip.None? { return None; }
          host := V4(ip.value);
        case 3 =>
          var len := ReadExact(1);
          if len.None? { return None; }
          var name := ReadExact(len.value[0]);
          if name.None? { return None; }
          if !ValidUtf8(name.value) { return None; }
          host := Domain(name.value);
        case 4 =>
          var ip := ReadExact(16);
          if ip.None? { return None; }
          host := V6(ip.value);
        case _ =>
          var sent := WriteAll(Reply(ADDRESS_NOT_SUPPORTED));
          return None;
      }
      var port := ReadExact(2);
      if port.None? { return None; }
      return Some(Target(host, PortOf(port.value[0], port.value[1])));
    }

    /**
     * One connection of the tunnel: handshake, channel, reply. What is written is always the first
     * part of an allowed reply sequence, and the success reply only after the channel opened.
     */
    method ForwardConnection() returns (target: Option<Target>, channel: bool, served: bool)
      requires written == []
      modifies this
      ensures Allowed(written, channel)
      ensures channel ==> target.Some?
      ensures served ==> channel && written == [5, 0] + Reply(SUCCEEDED) && incoming == ParseSocks(old(incoming)).rest
      ensures reliable ==> target == ParseSocks(old(incoming)).target && (served <==> channel)
      ensures reliable && target.Some? && !channel ==> written == [5, 0] + Reply(CONNECTION_REFUSED)
      ensures reliable && target.None? ==> written == ParseSocks(old(incoming)).replies
    {
      channel, served := false, false;
      target := Socks5Request();
      VerdictReplies(old(incoming));
      if target.None? { return; }
      channel := *;
      if !channel {
        var sent := WriteAll(Reply(CONNECTION_REFUSED));
        return;
      }
      served := WriteAll(Reply(SUCCEEDED));
    }
  }

  lemma RequestRepliesStart(b: Bytes)
    ensures [5, 0] <= ParseRequest(b).replies && [] <= ParseRequest(b).replies
  {
  }

  /** The reply sequences of sections 3 and 6 of RFC 1928 that this proxy uses, or a first part of one. */
  predicate Allowed(written: Bytes, channelOpened: bool) {
    || written <= [5, 0xFF]
    || written <= [5, 0] + Reply(COMMAND_NOT_SUPPORTED)
    || written <= [5, 0] + Reply(ADDRESS_NOT_SUPPORTED)
    || written <= [5, 0] + Reply(CONNECTION_REFUSED)
    || (channelOpened && written <= [5, 0] + Reply(SUCCEEDED))
  }

  lemma VerdictReplies(input: Bytes)
    ensures forall w: Bytes | w <= ParseSocks(input).replies :: Allowed(w, false)
  {
  }

  /**
   * Which refusal gets which code, byte for byte: 7 for another command than CONNECT, 8 for an unknown address type.
   */
  lemma RefusalCodes(b: Bytes)
    requires |b| >= 4
    ensures b[1] != 1 ==> ParseRequest(b) == Verdict(None, b[4..], [5, 0, 5, 7, 0, 1, 0, 0, 0, 0, 0, 0])
    ensures b[1] == 1 && b[3] !in {1, 3, 4} ==>
      ParseRequest(b) == Verdict(None, b[4..], [5, 0, 5, 8, 0, 1, 0, 0, 0, 0, 0, 0])
    ensures Reply(CONNECTION_REFUSED) == [5, 5, 0, 1, 0, 0, 0, 0, 0, 0]
    ensures Reply(SUCCEEDED) == [5, 0, 0, 1, 0, 0, 0, 0, 0, 0]
  {
    assert [5, 0] + Reply(COMMAND_NOT_SUPPORTED) == [5, 0, 5, 7, 0, 1, 0, 0, 0, 0, 0, 0];
    assert [5, 0] + Reply(ADDRESS_NOT_SUPPORTED) == [5, 0, 5, 8, 0, 1, 0, 0, 0, 0, 0, 0];
  }

  /** Which streams are answered with nothing, with no acceptable method, and with a method, before the request. */
  lemma GreetingVerdicts(input: Bytes)
    requires |input| >= 2
    ensures input[0] != 5 ==> ParseSocks(input) == Verdict(None, input[2..], [])
    ensures var n: int := input[1];
      && (input[0] == 5 && |input| < 2 + n ==> ParseSocks(input) == Verdict(None, [], []))
      && (input[0] == 5 && |input| >= 2 + n && 0 !in input[2..2 + n] ==>
            ParseSocks(input) == Verdict(None, input[2 + n..], [5, 255]))
  {
    var n: int := input[1];
    if |input| >= 2 + n { assert input[2..][..n] == input[2..2 + n] && input[2..][n..] == input[2 + n..]; }
  }

  /** A client that sees a reply code of success sees an opened channel. */
  lemma SuccessMeansOpened(written: Bytes, channelOpened: bool)
    requires Allowed(written, channelOpened) && |written| >= 4 && written[3] == SUCCEEDED
    ensures channelOpened
  {
    var replies := [COMMAND_NOT_SUPPORTED, ADDRESS_NOT_SUPPORTED, CONNECTION_REFUSED];
    assert forall code | code in replies :: ([5, 0] + Reply(code))[3] == code != SUCCEEDED;
  }
}
