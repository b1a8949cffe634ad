/** The `.rdp` file parser: `key:type:value` lines into a map, and the profile read from it. */
module RdpFile {
  import opened Basics

  type Settings = map<string, string>

  function IndexOf(text: string, c: char): (r: Option<nat>)
    ensures r.Some? ==> r.value < |text| && text[r.value] == c && c !in text[..r.value]
    ensures r.None? <==> c !in text
  {
    if text == "" then None
    else if text[0] == c then Some(0)
    else
      match IndexOf(text[1..], c)
      case None => None
      case Some(i) =>
        assert text[..i + 1] == [text[0]] + text[1..][..i];
        Some(i + 1)
  }

  /** str::lines: split at line feeds, drop a carriage return before one, no empty last line. */
  function Lines(content: string): seq<string>
    decreases |content|
  {
    if content == "" then []
    else
      match IndexOf(content, '\n')
      case None => [content]
      case Some(i) => [DropReturn(content[..i])] + Lines(content[i + 1..])
  }

  function DropReturn(line: string): string {
    if line != "" && line[|line| - 1] == '\r' then line[..|line| - 1] else line
  }

  datatype Parsed = Nothing | Pair(key: string, value: string)

  /** The key and value of a line; nothing for a blank line or one without a colon. */
  function ParseLine(line: string): Parsed {
    ParseTrimmed(Trim(line))
  }

  function ParseTrimmed(trimmed: string): Parsed {
    match IndexOf(trimmed, ':')
    case None => Nothing
    case Some(colon) => Pair(Lower(Trim(trimmed[..colon])), ValueOf(trimmed[colon + 1..]))
  }

  /** What follows the type, or everything when there is no second colon. */
  function ValueOf(rest: string): string {
    match IndexOf(rest, ':')
    case Some(second) => Trim(rest[second + 1..])
    case None => Trim(rest)
  }

  function Put(settings: Settings, p: Parsed): Settings {
    match p
    case Nothing => settings
    case Pair(key, value) => settings[key := value]
  }

  /** Lines in order, a later key overwriting an earlier one. */
  function Collect(lines: seq<string>): Settings {
    if lines == [] then map[] else Put(Collect(lines[..|lines| - 1]), ParseLine(lines[|lines| - 1]))
  }

  method ParseRdpLines(content: string) returns (settings: Settings)
    ensures settings == Collect(Lines(content))
  {
    var lines := Lines(content);
    settings := map[];
    for i := 0 to |lines|
      invariant settings == Collect(lines[..i])
    {
      CollectNext(lines, i);
      var p := ParseLine(lines[i]);
      if p.Nothing? { continue; }
      settings := settings[p.key := p.value];
    }
    assert lines[..|lines|] == lines;
  }

  lemma CollectNext(lines: seq<string>, i: nat)
    requires i < |lines|
    ensures Collect(lines[..i + 1]) == Put(Collect(lines[..i]), ParseLine(lines[i]))
  {
    assert lines[..i + 1][..i] == lines[..i];
  }

  // ----- Printed files parse back -----

  datatype Setting = Setting(key: string, kind: string, value: string)

  predicate Printable(s: Setting) {
    Trimmed(s.key) && Lower(s.key) == s.key && ':' !in s.key && '\n' !in s.key
    && ':' !in s.kind && '\n' !in s.kind
    && Trimmed(s.value) && '\n' !in s.value
  }

  function PrintLine(s: Setting): string {
    s.key + ":" + s.kind + ":" + s.value
  }

  function Print(settings: seq<Setting>): string {
    if settings == [] then "" else PrintLine(settings[0]) + "\n" + Print(settings[1..])
  }

  /** The value of each key's last line. */
  function LastWins(settings: seq<Setting>): Settings {
    if settings == [] then map[]
    else
      var last := settings[|settings| - 1];
      LastWins(settings[..|settings| - 1])[last.key := last.value]
  }

  lemma {:induction false} LastWinsMeans(settings: seq<Setting>, i: nat)
    requires i < |settings| && forall j | i < j < |settings| :: settings[j].key != settings[i].key
    ensures settings[i].key in LastWins(settings) && LastWins(settings)[settings[i].key] == settings[i].value
  {
    if i < |settings| - 1 { LastWinsMeans(settings[..|settings| - 1], i); }
  }

  lemma {:induction false} LastWinsKeys(settings: seq<Setting>, key: string)
    ensures key in LastWins(settings) <==> exists i | 0 <= i < |settings| :: settings[i].key == key
  {
    if settings != [] {
      var n := |settings| - 1;
      LastWinsKeys(settings[..n], key);
      if i :| 0 <= i < |settings| && settings[i].key == key {
        if i < n { assert settings[..n][i].key == key; }
      }
      if key in LastWins(settings[..n]) {
        var i :| 0 <= i < n && settings[..n][i].key == key;
        assert settings[i].key == key;
      } else {
        assert settings[n].key == key ==> key in LastWins(settings);
      }
    }
  }

  lemma {:induction false} FirstIndex(text: string, c: char, i: nat)
    requires i < |text| && text[i] == c && c !in text[..i]
    ensures IndexOf(text, c) == Some(i)
  {
    if i > 0 {
      assert text[0] in text[..i];
      assert text[..i] == [text[0]] + text[1..][..i - 1];
      FirstIndex(text[1..], c, i - 1);
    }
  }

  lemma PrintedLineParses(s: Setting)
    requires Printable(s)
    ensures ParseLine(PrintLine(s)) == Pair(s.key, s.value)
  {
    LineTrimmed(s);
    TrimResult(PrintLine(s));
    var rest := s.kind + ":" + s.value;
    assert PrintLine(s) == s.key + ":" + rest;
    PrintedPair(s.key, rest);
    PrintedValue(s.kind, s.value);
    TrimResult(s.key);
  }

  lemma PrintedPair(key: string, rest: string)
    requires ':' !in key
    ensures ParseTrimmed(key + ":" + rest) == Pair(Lower(Trim(key)), ValueOf(rest))
  {
    Split(key, ':', rest);
  }

  lemma PrintedValue(kind: string, value: string)
    requires ':' !in kind && Trimmed(value)
    ensures ValueOf(kind + ":" + value) == value
  {
    Split(kind, ':', value);
    TrimResult(value);
  }

  /** The first separator of `head c tail` is the one between them. */
  lemma Split(head: string, c: char, tail: string)
    requires c !in head
    ensures var line := head + [c] + tail;
      IndexOf(line, c) == Some(|head|) && line[..|head|] == head && line[|head| + 1..] == tail
  {
    var line := head + [c] + tail;
    assert line[..|head|] == head;
    FirstIndex(line, c, |head|);
  }

  lemma LineTrimmed(s: Setting)
    requires Printable(s)
    ensures Trimmed(PrintLine(s))
  {
    var line := PrintLine(s);
    assert line[0] == if s.key == "" then ':' else s.key[0];
    assert line[|line| - 1] == if s.value == "" then ':' else s.value[|s.value| - 1];
  }

  lemma NoFeedInLine(s: Setting)
    requires Printable(s)
    ensures '\n' !in PrintLine(s) && DropReturn(PrintLine(s)) == PrintLine(s)
  {
    LineTrimmed(s);
  }

  lemma {:induction false} PrintedLines(settings: seq<Setting>)
    requires forall i | 0 <= i < |settings| :: Printable(settings[i])
    ensures |Lines(Print(settings))| == |settings|
    ensures forall i | 0 <= i < |settings| :: Lines(Print(settings))[i] == PrintLine(settings[i])
  {
    if settings != [] {
      var line := PrintLine(settings[0]);
      var content := Print(settings);
      var more := Print(settings[1..]);
      assert content == line + "\n" + more;
      NoFeedInLine(settings[0]);
      assert content[..|line|] == line && content[|line| + 1..] == more;
      FirstIndex(content, '\n', |line|);
      PrintedLines(settings[1..]);
      assert Lines(content) == [line] + Lines(more);
    }
  }

  lemma {:induction false} CollectPrinted(lines: seq<string>, settings: seq<Setting>)
    requires |lines| == |settings|
    requires forall i | 0 <= i < |settings| :: Printable(settings[i]) && lines[i] == PrintLine(settings[i])
    ensures Collect(lines) == LastWins(settings)
  {
    if settings != [] {
      var n := |settings| - 1;
      CollectPrinted(lines[..n], settings[..n]);
      PrintedLineParses(settings[n]);
      LastLine(lines, lines[n], ParseLine(lines[n]));
    }
  }

  lemma LastLine(lines: seq<string>, line: string, p: Parsed)
    requires lines != [] && lines[|lines| - 1] == line && p == ParseLine(line)
    ensures Collect(lines) == Put(Collect(lines[..|lines| - 1]), p)
  {}

  /** Any printed list of settings parses to its last-wins map. */
  lemma PrintedFileParses(settings: seq<Setting>)
    requires forall i | 0 <= i < |settings| :: Printable(settings[i])
    ensures Collect(Lines(Print(settings))) == LastWins(settings)
  {
    PrintedLines(settings);
    CollectPrinted(Lines(Print(settings)), settings);
  }

  // ----- The profile -----

  function Digit(c: char): Option<nat> {
    if '0' <= c <= '9' then Some(c as int - '0' as int) else None
  }

  function ParseDigits(text: string): Option<nat>
  {
    if text == "" then Some(0)
    else
      match (ParseDigits(text[..|text| - 1]), Digit(text[|text| - 1]))
      case (Some(n), Some(d)) => Some(10 * n + d)
      case _ => None
  }

  /** str::parse for an integer type: an optional sign, at least one digit, in range. */
  function ParseInt(text: string, signed: bool, low: int, high: int): (r: Option<int>)
    ensures r.Some? ==> low <= r.value <= high
  {
    if text == "" then None
    else
      var negative := signed && text[0] == '-';
      var digits := if negative || text[0] == '+' then text[1..] else text;
      if digits == "" then None
      else
        match ParseDigits(digits)
        case None => None
        case Some(n) =>
          var v: int := if negative then -(n as int) else n;
          if low <= v <= high then Some(v) else None
  }

  function ParseI32(text: string): (r: Option<int>)
    ensures r.Some? ==> -2147483648 <= r.value <= 2147483647
  {
    ParseInt(text, true, -0x8000_0000, 0x7FFF_FFFF)
  }

  function ParseU16(text: string): (r: Option<int>)
    ensures r.Some? ==> 0 <= r.value <= 65535
  {
    ParseInt(text, false, 0, 0xFFFF)
  }

  function Or<T>(value: Option<T>, default: T): T {
    if value.Some? then value.value else default
  }

  function Get(settings: Settings, key: string): Option<string> {
    if key in settings then Some(settings[key]) else None
  }

  function GetI32(settings: Settings, key: string): Option<int> {
    if key in settings then ParseI32(settings[key]) else None
  }

  function GetU16(settings: Settings, key: string): Option<int> {
    if key in settings then ParseU16(settings[key]) else None
  }

  datatype Profile = Profile(
    host: string, port: int, username: string, domain: Option<string>,
    desktopWidth: int, desktopHeight: int, fullScreen: bool,
    enableCredSsp: bool, alternateShell: Option<string>, redirectDrives: bool)

  predicate IsPsm(shell: Option<string>) {
    shell.Some? && Contains(Lower(shell.value), "psm")
  }

  function HostAndPort(settings: Settings): (string, int) {
    var address := Or(Get(settings, "full address"), "");
    if "server port" in settings then (Trim(address), Or(ParseU16(Trim(settings["server port"])), 3389))
    else
      match IndexOf(address, ':')
      case None => (Trim(address), 3389)
      case Some(i) => (Trim(address[..i]), Or(ParseU16(Trim(address[i + 1..])), 3389))
  }

  function DomainAndUser(username: string): (Option<string>, string) {
    match IndexOf(username, '\\')
    case None => (None, username)
    case Some(i) => (Some(Trim(username[..i])), Trim(username[i + 1..]))
  }

  /** CredSSP follows the file, except that a PSM shell forces it on. */
  function ProfileOf(settings: Settings): (p: Profile)
    ensures p.alternateShell == Get(settings, "alternate shell")
    ensures p.enableCredSsp <==> IsPsm(p.alternateShell) || Or(GetI32(settings, "enablecredsspsupport"), 1) == 1
  {
    var (host, port) := HostAndPort(settings);
    var (domain, user) := DomainAndUser(Or(Get(settings, "username"), ""));
    var shell := Get(settings, "alternate shell");
    var original := Or(GetI32(settings, "enablecredsspsupport"), 1) == 1;
    Profile(host, port, user, domain,
            Or(GetU16(settings, "desktopwidth"), 1280), Or(GetU16(settings, "desktopheight"), 800),
            Or(GetI32(settings, "screen mode id"), 1) == 2,
            if IsPsm(shell) then true else original, shell,
            Or(GetI32(settings, "redirectdrives"), 0) == 1)
  }

  function ParseRdpFile(content: string): Profile {
    ProfileOf(Collect(Lines(content)))
  }

  // ----- A printed profile parses back -----

  function Decimal(n: nat): (r: string)
    ensures r != "" && forall i | 0 <= i < |r| :: '0' <= r[i] <= '9'
  {
    (if n < 10 then "" else Decimal(n / 10)) + [(n % 10 + '0' as int) as char]
  }

  lemma {:induction false} DecimalParses(n: nat)
    ensures ParseDigits(Decimal(n)) == Some(n)
  {
    var more := if n < 10 then "" else Decimal(n / 10);
    if n >= 10 { DecimalParses(n / 10); }
    DigitAdded(more, (n % 10 + '0' as int) as char, n / 10, n % 10);
  }

  lemma DigitAdded(text: string, c: char, n: nat, d: nat)
    requires ParseDigits(text) == Some(n) && Digit(c) == Some(d)
    ensures ParseDigits(text + [c]) == Some(10 * n + d)
  {
    var more := text + [c];
    assert more[..|more| - 1] == text && more[|more| - 1] == c;
  }

  lemma IntParses(n: nat, signed: bool, low: int, high: int)
    requires low <= n <= high
    ensures ParseInt(Decimal(n), signed, low, high) == Some(n)
  {
    DecimalParses(n);
  }

  lemma DigitsPlain(digits: string)
    requires forall i | 0 <= i < |digits| :: '0' <= digits[i] <= '9'
    ensures Plain(digits)
  {}

  /** A profile the file format can carry. */
  predicate Expressible(p: Profile) {
    Plain(p.host) && Plain(p.username) && 0 <= p.port <= 0xFFFF
    && 0 <= p.desktopWidth <= 0xFFFF && 0 <= p.desktopHeight <= 0xFFFF
    && (p.domain.Some? ==> Plain(p.domain.value) && '\\' !in p.domain.value)
    && (p.domain.None? ==> '\\' !in p.username)
    && (p.alternateShell.Some? ==> Plain(p.alternateShell.value))
  }

  predicate Plain(text: string) {
    Trimmed(text) && '\n' !in text
  }

  function Login(p: Profile): string {
    if p.domain.Some? then p.domain.value + "\\" + p.username else p.username
  }

  function Flag(b: bool): string { if b then "1" else "0" }

  /** The settings of a profile, one line each. */
  function Listing(p: Profile): seq<Setting>
    requires Expressible(p)
  {
    [ Setting("full address", "s", p.host), Setting("server port", "i", Decimal(p.port)),
      Setting("username", "s", Login(p)),
      Setting("desktopwidth", "i", Decimal(p.desktopWidth)), Setting("desktopheight", "i", Decimal(p.desktopHeight)),
      Setting("screen mode id", "i", if p.fullScreen then "2" else "1"),
      Setting("enablecredsspsupport", "i", Flag(p.enableCredSsp)),
      Setting("redirectdrives", "i", Flag(p.redirectDrives)) ]
    + if p.alternateShell.Some? then [Setting("alternate shell", "s", p.alternateShell.value)] else []
  }

  lemma KeysDiffer(p: Profile)
    requires Expressible(p)
    ensures var l := Listing(p); forall i, j | 0 <= i < j < |l| :: l[i].key != l[j].key
  {
    assert "full address"[0] != "desktopwidth"[0];
    assert "screen mode id"[0] != "redirectdrives"[0];
  }

  lemma ListingPrintable(p: Profile)
    requires Expressible(p)
    ensures var l := Listing(p); forall i | 0 <= i < |l| :: Printable(l[i])
  {
    var l := Listing(p);
    KeysPlain();
    ListingKeys(p);
    forall i | 0 <= i < |l| ensures Printable(l[i]) {
      ListingValue(p, i);
      SettingPrintable(l[i]);
    }
  }

  lemma ListingKeys(p: Profile)
    requires Expressible(p)
    ensures var l := Listing(p); forall i | 0 <= i < |l| :: l[i].key in KEYS && l[i].kind in {"s", "i"}
  {}

  lemma ListingValue(p: Profile, i: nat)
    requires Expressible(p) && i < |Listing(p)|
    ensures Plain(Listing(p)[i].value)
  {
    match i {
      case 1 => DigitsPlain(Decimal(p.port));
      case 2 => LoginPlain(p);
      case 3 => DigitsPlain(Decimal(p.desktopWidth));
      case 4 => DigitsPlain(Decimal(p.desktopHeight));
      case _ =>
    }
  }

  const KEYS: set<string> :=
    {"full address", "server port", "username", "desktopwidth", "desktopheight", "screen mode id",
     "enablecredsspsupport", "redirectdrives", "alternate shell"}

  /** Lower-case words. */
  predicate Words(key: string) {
    Trimmed(key) && forall i | 0 <= i < |key| :: key[i] == ' ' || 'a' <= key[i] <= 'z'
  }

  lemma KeysPlain()
    ensures forall key | key in KEYS :: Words(key)
  {
    AddressKeysPlain();
    DisplayKeysPlain();
    assert Words("enablecredsspsupport") && Words("alternate shell");
  }

  lemma AddressKeysPlain()
    ensures Words("full address") && Words("server port") && Words("username")
  {}

  lemma DisplayKeysPlain()
    ensures Words("desktopwidth") && Words("desktopheight") && Words("screen mode id") && Words("redirectdrives")
  {}

  lemma SettingPrintable(s: Setting)
    requires Words(s.key) && s.kind in {"s", "i"} && Plain(s.value)
    ensures Printable(s)
  {
    assert Lower(s.key) == s.key;
  }

  lemma LoginPlain(p: Profile)
    requires Expressible(p)
    ensures Plain(Login(p))
  {
    if p.domain.Some? {
      var login, d := Login(p), |p.domain.value|;
      assert login[0] == if d == 0 then '\\' else p.domain.value[0];
      assert login[|login| - 1] == if p.username == "" then '\\' else p.username[|p.username| - 1];
    }
  }

  /** The domain is what precedes the first backslash. */
  lemma LoginSplits(domain: string, user: string)
    requires '\\' !in domain
    ensures DomainAndUser(domain + "\\" + user) == (Some(Trim(domain)), Trim(user))
  {
    Split(domain, '\\', user);
  }

  lemma LoginParses(p: Profile)
    requires Expressible(p)
    ensures DomainAndUser(Login(p)) == (p.domain, p.username)
  {
    if p.domain.Some? {
      LoginSplits(p.domain.value, p.username);
      TrimResult(p.username);
      TrimResult(p.domain.value);
    }
  }

  /** What the settings say about a profile. */
  predicate Describes(settings: Settings, p: Profile)
    requires Expressible(p)
  {
    Get(settings, "full address") == Some(p.host)
    && Get(settings, "server port") == Some(Decimal(p.port))
    && Get(settings, "username") == Some(Login(p))
    && Get(settings, "desktopwidth") == Some(Decimal(p.desktopWidth))
    && Get(settings, "desktopheight") == Some(Decimal(p.desktopHeight))
    && Get(settings, "screen mode id") == Some(if p.fullScreen then "2" else "1")
    && Get(settings, "enablecredsspsupport") == Some(Flag(p.enableCredSsp))
    && Get(settings, "redirectdrives") == Some(Flag(p.redirectDrives))
    && Get(settings, "alternate shell") == p.alternateShell
  }

  lemma ListingDescribes(p: Profile)
    requires Expressible(p)
    ensures Describes(LastWins(Listing(p)), p)
  {
    var l := Listing(p);
    KeysDiffer(p);
    forall i | 0 <= i < |l| ensures Get(LastWins(l), l[i].key) == Some(l[i].value) {
      LastWinsMeans(l, i);
    }
    assert l[0].key == "full address" && l[1].key == "server port" && l[2].key == "username"
      && l[3].key == "desktopwidth" && l[4].key == "desktopheight" && l[5].key == "screen mode id"
      && l[6].key == "enablecredsspsupport" && l[7].key == "redirectdrives";
    if p.alternateShell.Some? {
      assert l[8].key == "alternate shell";
    } else {
      LastWinsKeys(l, "alternate shell");
    }
  }

  lemma DescribedProfile(p: Profile, settings: Settings)
    requires Expressible(p) && Describes(settings, p)
    ensures ProfileOf(settings) == p.(enableCredSsp := p.enableCredSsp || IsPsm(p.alternateShell))
  {
    AddressParses(p, settings);
    LoginParses(p);
    NumbersParse(p, settings);
    FlagsParse(p, settings);
  }

  lemma NumbersParse(p: Profile, settings: Settings)
    requires Expressible(p) && Describes(settings, p)
    ensures GetU16(settings, "desktopwidth") == Some(p.desktopWidth)
    ensures GetU16(settings, "desktopheight") == Some(p.desktopHeight)
  {
    U16Parses(p.desktopWidth);
    U16Parses(p.desktopHeight);
  }

  lemma FlagsParse(p: Profile, settings: Settings)
    requires Expressible(p) && Describes(settings, p)
    ensures GetI32(settings, "screen mode id") == Some(if p.fullScreen then 2 else 1)
    ensures GetI32(settings, "enablecredsspsupport") == Some(if p.enableCredSsp then 1 else 0)
    ensures GetI32(settings, "redirectdrives") == Some(if p.redirectDrives then 1 else 0)
  {
    SmallParses(0);
    SmallParses(1);
    SmallParses(2);
  }

  lemma AddressParses(p: Profile, settings: Settings)
    requires Expressible(p) && Describes(settings, p)
    ensures HostAndPort(settings) == (p.host, p.port)
  {
    AddressAndPort(settings, p.host, p.port);
  }

  lemma AddressAndPort(settings: Settings, host: string, port: nat)
    requires Get(settings, "full address") == Some(host) && Get(settings, "server port") == Some(Decimal(port))
    requires Trimmed(host) && port <= 0xFFFF
    ensures HostAndPort(settings) == (host, port)
  {
    TrimResult(host);
    PortText(port);
  }

  /** A printed profile comes back as it was, except that a PSM shell turns CredSSP on. */
  lemma PrintedProfileParses(p: Profile)
    requires Expressible(p)
    ensures ParseRdpFile(Print(Listing(p))) == p.(enableCredSsp := p.enableCredSsp || IsPsm(p.alternateShell))
  {
    ListingPrintable(p);
    PrintedFileParses(Listing(p));
    ListingDescribes(p);
    DescribedProfile(p, LastWins(Listing(p)));
  }

  lemma U16Parses(n: nat)
    requires n <= 0xFFFF
    ensures ParseU16(Decimal(n)) == Some(n)
  {
    IntParses(n, false, 0, 0xFFFF);
  }

  lemma SmallParses(n: nat)
    requires n < 10
    ensures ParseI32([(n + '0' as int) as char]) == Some(n)
  {
    IntParses(n, true, -0x8000_0000, 0x7FFF_FFFF);
    assert Decimal(n) == [(n + '0' as int) as char];
  }

  /** Without a port setting the address may carry the port; without either it is the standard one. */
  lemma AddressCarriesPort(settings: Settings, host: string, port: nat)
    requires "server port" !in settings && ':' !in host && Trimmed(host) && port <= 0xFFFF
    ensures Get(settings, "full address") == Some(host + ":" + Decimal(port)) ==> HostAndPort(settings) == (host, port)
    ensures Get(settings, "full address") == Some(host) ==> HostAndPort(settings) == (host, 3389)
  {
    TrimResult(host);
    if Get(settings, "full address") == Some(host + ":" + Decimal(port)) {
      Split(host, ':', Decimal(port));
      PortText(port);
    }
  }

  lemma PortText(port: nat)
    requires port <= 0xFFFF
    ensures ParseU16(Trim(Decimal(port))) == Some(port)
  {
    DigitsPlain(Decimal(port));
    TrimResult(Decimal(port));
    U16Parses(port);
  }

  /** What a profile gets for the settings its file leaves out. */
  lemma Defaults(settings: Settings)
    ensures var p := ProfileOf(settings);
      && ("full address" !in settings ==> p.host == "")
      && ("full address" !in settings && "server port" !in settings ==> p.port == 3389)
      && ("username" !in settings ==> p.username == "" && p.domain == None)
      && ("desktopwidth" !in settings ==> p.desktopWidth == 1280)
      && ("desktopheight" !in settings ==> p.desktopHeight == 800)
      && ("screen mode id" !in settings ==> !p.fullScreen)
      && ("redirectdrives" !in settings ==> !p.redirectDrives)
      && ("alternate shell" !in settings ==> p.alternateShell == None)
      && ("alternate shell" !in settings && "enablecredsspsupport" !in settings ==> p.enableCredSsp)
  {
    assert TrimStart("") == "" && TrimEnd("") == "";
  }

  /** A negative number parses where the type has a sign, and nowhere else. */
  lemma NegativeParses(digits: string, signed: bool, low: int, high: int)
    requires digits != "" && ParseDigits(digits).Some?
    ensures var m: int := -(ParseDigits(digits).value as int);
      ParseInt("-" + digits, signed, low, high) == if signed && low <= m <= high then Some(m) else None
  {
    MinusIsNoDigit(digits);
    var text := "-" + digits;
    assert text[1..] == digits && text[0] == '-';
  }

  lemma {:induction false} MinusIsNoDigit(rest: string)
    ensures ParseDigits("-" + rest) == None
  {
    var text := "-" + rest;
    if rest == "" {
      assert text[..0] == "" && text[0] == '-';
    } else {
      MinusIsNoDigit(rest[..|rest| - 1]);
      assert text[..|text| - 1] == "-" + rest[..|rest| - 1];
    }
  }

  /** Decimal numbers out of range parse to nothing, so the default stands. */
  lemma OutOfRange(n: nat, signed: bool, low: int, high: int)
    requires high < n
    ensures ParseInt(Decimal(n), signed, low, high) == None
  {
    DecimalParses(n);
  }

  /** A line without a colon is ignored. */
  lemma LineWithoutColon(line: string)
    requires ':' !in line
    ensures ParseLine(line) == Nothing
  {
    var before, after := TrimDropsWhite(line);
    assert ':' !in Trim(line);
  }

  /** A line without a type has everything after its colon for a value. */
  lemma LineWithoutType(key: string, value: string)
    requires Trimmed(key) && ':' !in key && Trimmed(value) && ':' !in value
    ensures ParseLine(key + ":" + value) == Pair(Lower(key), value)
  {
    TypelessLine(key, value);
    PrintedPair(key, value);
    TypelessValue(value);
    TrimResult(key);
  }

  lemma TypelessLine(key: string, value: string)
    requires Trimmed(key) && Trimmed(value)
    ensures ParseLine(key + ":" + value) == ParseTrimmed(key + ":" + value)
  {
    TypelessTrimmed(key, value);
    TrimResult(key + ":" + value);
  }

  lemma TypelessValue(value: string)
    requires Trimmed(value) && ':' !in value
    ensures ValueOf(value) == value
  {
    TrimResult(value);
  }

  lemma TypelessTrimmed(key: string, value: string)
    requires Trimmed(key) && Trimmed(value)
    ensures Trimmed(key + ":" + value)
  {
    var line := key + ":" + value;
    assert line[0] == if key == "" then ':' else key[0];
    assert line[|line| - 1] == if value == "" then ':' else value[|value| - 1];
  }

  /** Flags and numbers of a file: on exactly for the number they stand for, the default for anything unreadable. */
  lemma NumbersOfAFile(settings: Settings)
    ensures var p := ProfileOf(settings);
      && ("redirectdrives" in settings ==> (p.redirectDrives <==> ParseI32(settings["redirectdrives"]) == Some(1)))
      && ("screen mode id" in settings ==> (p.fullScreen <==> ParseI32(settings["screen mode id"]) == Some(2)))
      && ("desktopwidth" in settings && ParseU16(settings["desktopwidth"]) == None ==> p.desktopWidth == 1280)
      && ("desktopheight" in settings && ParseU16(settings["desktopheight"]) == None ==> p.desktopHeight == 800)
      && ("server port" in settings && ParseU16(Trim(settings["server port"])) == None ==> p.port == 3389)
  {
  }

  /** Every number of the signed type parses, and the lowest one too. */
  lemma I32Parses(n: nat)
    requires n <= 2147483647
    ensures ParseI32(Decimal(n)) == Some(n)
  {
    IntParses(n, true, -2147483648, 2147483647);
  }

  lemma NegativeI32Parses(n: nat)
    requires n <= 2147483648
    ensures var m: int := -(n as int); ParseI32("-" + Decimal(n)) == Some(m)
  {
    var digits := Decimal(n);
    DecimalParses(n);
    NegativeI32(digits, n);
  }

  lemma NegativeI32(digits: string, n: nat)
    requires n <= 2147483648 && digits != "" && ParseDigits(digits) == Some(n)
    ensures var m: int := -(n as int); ParseI32("-" + digits) == Some(m)
  {
    NegativeParses(digits, true, -2147483648, 2147483647);
  }

  /** An unsigned number has no minus sign, not even before a zero. */
  lemma UnsignedHasNoMinus(digits: string)
    ensures ParseU16("-" + digits) == None
  {
    MinusIsNoDigit(digits);
    assert ("-" + digits)[0] == '-';
  }

  /** A plus sign changes nothing. */
  lemma PlusParses(digits: string, signed: bool, low: int, high: int)
    requires digits != "" && ParseDigits(digits).Some? && digits[0] != '+' && digits[0] != '-'
    ensures ParseInt("+" + digits, signed, low, high) == ParseInt(digits, signed, low, high)
  {
    var text := "+" + digits;
    assert text[1..] == digits && text[0] == '+';
  }

  /** The letters psm at this place, each in either case. */
  predicate SpellsPsm(text: string, i: nat)
    requires i + 3 <= |text|
  {
    text[i] in {'p', 'P'} && text[i + 1] in {'s', 'S'} && text[i + 2] in {'m', 'M'}
  }

  /** A shell counts as PSM exactly when it mentions psm, in any mix of cases. */
  lemma PsmIff(shell: string)
    ensures IsPsm(Some(shell)) <==> exists i | 0 <= i <= |shell| - 3 :: SpellsPsm(shell, i)
  {
    forall i | 0 <= i <= |shell| - 3 ensures PartAt(Lower(shell), "psm", i) <==> SpellsPsm(shell, i) {
      PsmAt(shell, i);
    }
  }

  lemma PsmAt(text: string, i: nat)
    requires i + 3 <= |text|
    ensures PartAt(Lower(text), "psm", i) <==> SpellsPsm(text, i)
  {
    var word := Lower(text)[i..i + 3];
    assert word[0] == LowerChar(text[i]) && word[1] == LowerChar(text[i + 1]) && word[2] == LowerChar(text[i + 2]);
    if SpellsPsm(text, i) { assert word == "psm"; }
  }

  // ----- A last line without a line feed -----

  lemma {:induction false} LinesThen(settings: seq<Setting>, last: string)
    requires (forall i | 0 <= i < |settings| :: Printable(settings[i])) && last != "" && '\n' !in last
    ensures Lines(Print(settings) + last) == Lines(Print(settings)) + [last]
  {
    if settings == [] {
      assert Print(settings) + last == last;
    } else {
      var line, more := PrintLine(settings[0]), Print(settings[1..]);
      NoFeedInLine(settings[0]);
      LinesThen(settings[1..], last);
      var content := line + "\n" + more;
      assert content[..|line|] == line && content[|line| + 1..] == more;
      LineBefore(content, line, last);
    }
  }

  lemma LineBefore(content: string, line: string, last: string)
    requires '\n' !in line && DropReturn(line) == line && StartsLine(content, line)
    requires Lines(content[|line| + 1..] + last) == Lines(content[|line| + 1..]) + [last]
    ensures Lines(content + last) == Lines(content) + [last]
  {
    var rest := content[|line| + 1..];
    calc {
      Lines(content + last);
      { StillStartsLine(content, line, last); FirstLineOf(content + last, line); }
      [line] + Lines(rest + last);
      [line] + (Lines(rest) + [last]);
      { Regroup([line], Lines(rest), [last]); }
      [line] + Lines(rest) + [last];
      { FirstLineOf(content, line); }
      Lines(content) + [last];
    }
  }

  lemma Regroup(a: seq<string>, b: seq<string>, c: seq<string>)
    ensures a + (b + c) == a + b + c
  {}

  predicate StartsLine(content: string, line: string) {
    |line| < |content| && content[..|line|] == line && content[|line|] == '\n'
  }

  lemma StillStartsLine(content: string, line: string, last: string)
    requires StartsLine(content, line)
    ensures StartsLine(content + last, line)
    ensures (content + last)[|line| + 1..] == content[|line| + 1..] + last
  {
    assert (content + last)[..|line|] == line;
  }

  lemma FirstLineOf(content: string, line: string)
    requires '\n' !in line && DropReturn(line) == line && StartsLine(content, line)
    ensures Lines(content) == [line] + Lines(content[|line| + 1..])
  {
    FirstIndex(content, '\n', |line|);
  }

  /** A file whose last line has no line feed parses like one that has. */
  lemma OpenEndedFileParses(settings: seq<Setting>, s: Setting)
    requires (forall i | 0 <= i < |settings| :: Printable(settings[i])) && Printable(s)
    ensures Collect(Lines(Print(settings) + PrintLine(s))) == LastWins(settings + [s])
  {
    NoFeedInLine(s);
    LinesThen(settings, PrintLine(s));
    PrintedLines(settings);
    CollectThen(Lines(Print(settings)), settings, s);
  }

  lemma CollectThen(lines: seq<string>, settings: seq<Setting>, s: Setting)
    requires |lines| == |settings| && Printable(s)
    requires forall i | 0 <= i < |settings| :: Printable(settings[i]) && lines[i] == PrintLine(settings[i])
    ensures Collect(lines + [PrintLine(s)]) == LastWins(settings + [s])
  {
    CollectPrinted(lines + [PrintLine(s)], settings + [s]);
  }
}
