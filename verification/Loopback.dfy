/** Where the edge is dialed (admission/config.go, admission/client.go): a Unix socket, or a loopback address
    parsed to a literal host and port and never resolved. */
module Loopback {
  import opened Options
  import opened Decimal
  import opened Protocol

  // ---------------------------------------------------------- text helpers

  /** The text before and after the first `c`. */
  function Cut(s: string, c: char): (r: Option<(string, string)>)
    ensures r.Some? ==> s == r.value.0 + [c] + r.value.1 && c !in r.value.0
    ensures r.None? ==> c !in s
  {
    if s == [] then None
    else if s[0] == c then Some(([], s[1..]))
    else
      var (before, after) :- Cut(s[1..], c);
      assert s == [s[0]] + (before + [c] + after);
      Some(([s[0]] + before, after))
  }

  lemma {:induction false} CutAt(before: string, c: char, after: string)
    requires c !in before
    ensures Cut(before + [c] + after, c) == Some((before, after))
    decreases |before|
  {
    var s := before + [c] + after;
    if before == [] {
      assert s[1..] == after;
    } else {
      assert s[1..] == before[1..] + [c] + after;
      CutAt(before[1..], c, after);
      assert [before[0]] + before[1..] == before;
    }
  }

  predicate HasPrefix(s: string, prefix: string) {
    prefix <= s
  }

  // ---------------------------------------------------------- IP literals

  type Octet = o: int | 0 <= o < 0x100

  /** A parsed address; an IPv4-mapped one counts as IPv4. */
  datatype Ip = V4(a: Octet, b: Octet, c: Octet, d: Octet) | V6(groups: seq<int>)

  const LOOPBACK_V6 := V6([0, 0, 0, 0, 0, 0, 0, 1])

  predicate IsLoopback(ip: Ip) {
    if ip.V4? then ip.a == 127 else ip == LOOPBACK_V6
  }

  function Dotted(a: Octet, b: Octet, c: Octet, d: Octet): string {
    Digits(a) + "." + (Digits(b) + "." + (Digits(c) + "." + Digits(d)))
  }

  /** How a loopback address is written. */
  function HostText(ip: Ip): string
    requires IsLoopback(ip)
  {
    if ip.V4? then Dotted(ip.a, ip.b, ip.c, ip.d) else "::1"
  }

  /** One field of dotted decimal: 0 to 255 with no leading zero. */
  function ReadOctet(s: string): Option<Octet> {
    if Minimal(s) && 0 <= Value(s) < 0x100 then Some(Value(s)) else None
  }

  function ParseV4(s: string): Option<Ip> {
    var (f1, r1) :- Cut(s, '.');
    var (f2, r2) :- Cut(r1, '.');
    var (f3, f4) :- Cut(r2, '.');
    var a :- ReadOctet(f1);
    var b :- ReadOctet(f2);
    var c :- ReadOctet(f3);
    var d :- ReadOctet(f4);
    Some(V4(a, b, c, d))
  }

  /** The first dot, colon or percent sign says how a literal is to be read. */
  function FirstMark(s: string): Option<char> {
    if s == [] then None
    else if s[0] in {'.', ':', '%'} then Some(s[0])
    else FirstMark(s[1..])
  }

  /** Reads an IP literal; `v6` reads the ones with colons. */
  function ParseIp(v6: string -> Option<Ip>, s: string): Option<Ip> {
    match FirstMark(s)
    case None => None
    case Some(mark) => if mark == '.' then ParseV4(s) else if mark == ':' then v6(s) else None
  }

  // ---------------------------------------------------------- host and port

  predicate IsHexLetter(c: char) {
    'A' <= c <= 'F' || 'a' <= c <= 'f'
  }

  predicate IsLetter(c: char) {
    'A' <= c <= 'Z' || 'a' <= c <= 'z'
  }

  predicate BracketedChar(c: char) {
    IsDigit(c) || IsHexLetter(c) || c == ':' || c == '.'
  }

  predicate BareChar(c: char) {
    IsDigit(c) || IsLetter(c) || c == '.' || c == '-'
  }

  predicate IsBracketedHost(s: string) {
    s != [] && forall i :: 0 <= i < |s| ==> BracketedChar(s[i])
  }

  predicate IsBareHost(s: string) {
    s != [] && forall i :: 0 <= i < |s| ==> BareChar(s[i])
  }

  predicate IsPortText(s: string) {
    1 <= |s| <= 5 && AllDigits(s)
  }

  /** Splits [host]:port or host:port, the whole text and nothing else. */
  function Match(address: string): Option<(string, string)> {
    if HasPrefix(address, "[") then
      var (host, rest) :- Cut(address[1..], ']');
      if IsBracketedHost(host) && HasPrefix(rest, ":") && IsPortText(rest[1..]) then Some((host, rest[1..])) else None
    else
      var (host, port) :- Cut(address, ':');
      if IsBareHost(host) && IsPortText(port) then Some((host, port)) else None
  }

  function ParseLoopbackAddr(v6: string -> Option<Ip>, address: string): Result<(string, int)> {
    match Match(address)
    case None => Err(ConfigError)
    case Some((text, portText)) =>
      var port := Value(portText);
      if port < 1 || port > 65535 then Err(ConfigError)
      else
        match ParseIp(v6, if text == "localhost" then "127.0.0.1" else text)
        case None => Err(ConfigError)
        case Some(ip) => if IsLoopback(ip) then Ok((HostText(ip), port)) else Err(ConfigError)
  }

  function JoinHostPort(host: string, port: nat): string {
    if ':' in host || '%' in host then "[" + host + "]:" + Digits(port) else host + ":" + Digits(port)
  }

  // ---------------------------------------------------------- configured text

  /** What a client dials. */
  datatype Target = Socket(path: string) | Endpoint(host: string, port: int)

  datatype Network = Unix | Tcp

  const UNIX_URL := "unix://"
  const UNIX := "unix:"

  function SplitAddr(addr: string): (Network, string) {
    if HasPrefix(addr, UNIX_URL) then (Unix, addr[|UNIX_URL|..])
    else if HasPrefix(addr, UNIX) then (Unix, addr[|UNIX|..])
    else if HasPrefix(addr, "/") then (Unix, addr)
    else (Tcp, addr)
  }

  function ValidateAddr(v6: string -> Option<Ip>, addr: string): Option<Kind> {
    var (network, address) := SplitAddr(addr);
    if network.Unix? then (if address == "" then Some(ConfigError) else None)
    else match ParseLoopbackAddr(v6, address)
      case Err(kind) => Some(kind)
      case Ok(_) => None
  }

  /** What NewWithConfig keeps: what to dial, or the error every request will end in. */
  function Dials(v6: string -> Option<Ip>, addr: string): Result<Target> {
    var (network, address) := SplitAddr(addr);
    match ValidateAddr(v6, addr)
    case Some(kind) => Err(kind)
    case None =>
      if network.Unix? then Ok(Socket(address))
      else
        var (host, port) := ParseLoopbackAddr(v6, address).value;
        Ok(Endpoint(host, port))
  }

  /** A configured address that names a target. */
  function TargetText(t: Target): string
    requires t.Endpoint? ==> t.port >= 0
  {
    match t
    case Socket(path) => UNIX_URL + path
    case Endpoint(host, port) => JoinHostPort(host, port)
  }

  // ------------------------------------------------------ dotted decimal

  lemma DigitsPlain(n: nat)
    ensures forall i :: 0 <= i < |Digits(n)| ==> IsDigit(Digits(n)[i])
    ensures '.' !in Digits(n) && ':' !in Digits(n) && '%' !in Digits(n)
  {
    hide Digits;
    assert AllDigits(Digits(n));
  }

  lemma OctetRoundTrip(o: Octet)
    ensures ReadOctet(Digits(o)) == Some(o)
  {
    hide Digits, Value;
    ValueDigits(o);
  }

  lemma OctetExactly(s: string)
    ensures ReadOctet(s).Some? ==> s == Digits(ReadOctet(s).value)
  {
    hide Digits, Value;
    if Minimal(s) {
      DigitsValue(s);
    }
  }

  /** An IPv4 literal is read as an address exactly when it is that address in dotted decimal: there is one
      spelling of each. */
  lemma DottedExactly(s: string, a: Octet, b: Octet, c: Octet, d: Octet)
    ensures ParseV4(s) == Some(V4(a, b, c, d)) <==> s == Dotted(a, b, c, d)
  {
    if s == Dotted(a, b, c, d) {
      DottedParses(a, b, c, d);
    } else if ParseV4(s).Some? {
      ParseV4Sound(s);
    }
  }

  lemma DottedParses(a: Octet, b: Octet, c: Octet, d: Octet)
    ensures ParseV4(Dotted(a, b, c, d)) == Some(V4(a, b, c, d))
  {
    hide Digits, Cut, ReadOctet;
    DigitsPlain(a);
    DigitsPlain(b);
    DigitsPlain(c);
    OctetRoundTrip(a);
    OctetRoundTrip(b);
    OctetRoundTrip(c);
    OctetRoundTrip(d);
    CutAt(Digits(c), '.', Digits(d));
    CutAt(Digits(b), '.', Digits(c) + "." + Digits(d));
    CutAt(Digits(a), '.', Digits(b) + "." + (Digits(c) + "." + Digits(d)));
  }

  lemma ParseV4Sound(s: string)
    requires ParseV4(s).Some?
    ensures var ip := ParseV4(s).value; ip.V4? && s == Dotted(ip.a, ip.b, ip.c, ip.d)
  {
    hide Digits, Cut, ReadOctet;
    var (f1, r1) := Cut(s, '.').value;
    var (f2, r2) := Cut(r1, '.').value;
    var (f3, f4) := Cut(r2, '.').value;
    OctetExactly(f1);
    OctetExactly(f2);
    OctetExactly(f3);
    OctetExactly(f4);
  }

  /** A dotted literal is plain text: no colon, no percent sign, and its first mark is a dot. */
  lemma DottedPlain(a: Octet, b: Octet, c: Octet, d: Octet)
    ensures var s := Dotted(a, b, c, d);
            && IsBareHost(s) && ':' !in s && '%' !in s && s != "localhost" && IsDigit(s[0]) && FirstMark(s) == Some('.')
  {
    hide Digits;
    DigitsPlain(a);
    DigitsPlain(b);
    DigitsPlain(c);
    DigitsPlain(d);
    FirstMarkAfter(Digits(a), Digits(b) + "." + (Digits(c) + "." + Digits(d)));
    assert "localhost"[0] == 'l';
  }

  lemma {:induction false} FirstMarkAfter(digits: string, rest: string)
    requires AllDigits(digits)
    ensures FirstMark(digits + "." + rest) == Some('.')
    decreases |digits|
  {
    var s := digits + "." + rest;
    if digits != [] {
      assert s[1..] == digits[1..] + "." + rest;
      FirstMarkAfter(digits[1..], rest);
    }
  }

  // ------------------------------------------------------- host and port

  lemma PortRoundTrip(port: nat)
    requires port <= 65535
    ensures IsPortText(Digits(port)) && Value(Digits(port)) == port
  {
    ValueDigits(port);
    ShorterByOne(port);
    ShorterByOne(port / 10);
    ShorterByOne(port / 100);
    ShorterByOne(port / 1000);
    hide Digits, Value;
    assert AllDigits(Digits(port));
  }

  lemma ShorterByOne(n: nat)
    ensures |Digits(n)| <= |Digits(n / 10)| + 1
    ensures n < 10 ==> |Digits(n)| == 1
  {
  }

  /** host:port or [host]:port. */
  predicate Form(address: string, host: string, port: string) {
    && IsPortText(port)
    && ((IsBareHost(host) && address == host + ":" + port) || (IsBracketedHost(host) && address == "[" + host + "]:" + port))
  }

  lemma FormMatches(address: string, host: string, port: string)
    requires Form(address, host, port)
    ensures Match(address) == Some((host, port))
  {
    hide IsPortText, Cut;
    if IsBareHost(host) && address == host + ":" + port {
      assert address[0] == host[0] && BareChar(host[0]) && address[0] != '[';
      assert !HasPrefix(address, "[") by {
        assert "["[0] == '[';
      }
      CutAt(host, ':', port);
    } else {
      assert HasPrefix(address, "[");
      assert address[0] == '[' && address[1..] == host + "]" + (":" + port);
      CutAt(host, ']', ":" + port);
      assert (":" + port)[1..] == port;
    }
  }

  lemma MatchIsForm(address: string)
    requires Match(address).Some?
    ensures Form(address, Match(address).value.0, Match(address).value.1)
  {
    hide IsPortText, Cut;
    if HasPrefix(address, "[") {
      var (host, rest) := Cut(address[1..], ']').value;
      assert rest == ":" + rest[1..];
      assert address == "[" + address[1..];
      assert address == "[" + host + "]:" + rest[1..];
    }
  }

  /** A text matches exactly when it has one of the two forms, and names that host and port. */
  lemma MatchExactly(address: string, host: string, port: string)
    ensures Match(address) == Some((host, port)) <==> Form(address, host, port)
  {
    hide Match, Form;
    if Form(address, host, port) {
      FormMatches(address, host, port);
    }
    if Match(address).Some? {
      MatchIsForm(address);
    }
  }

  /** No accepted text can carry userinfo, a path, a query, a fragment, a zone or white space. */
  lemma AcceptedCharacters(v6: string -> Option<Ip>, address: string)
    requires ParseLoopbackAddr(v6, address).Ok?
    ensures forall i :: 0 <= i < |address| ==>
      var c := address[i];
      '0' <= c <= '9' || 'A' <= c <= 'Z' || 'a' <= c <= 'z' || c in {'.', '-', ':', '[', ']'}
  {
    hide ParseIp, Value;
    MatchIsForm(address);
    hide Match;
  }

  // --------------------------------------------------------- the dial target

  /** The one thing asked of the reader of colon literals: it knows the loopback address. */
  ghost predicate KnowsLoopback(v6: string -> Option<Ip>) {
    v6("::1") == Some(V6([0, 0, 0, 0, 0, 0, 0, 1]))
  }

  predicate IsLoopbackHost(host: string) {
    host == "::1" || exists b: Octet, c: Octet, d: Octet :: host == Dotted(127, b, c, d)
  }

  /** Whatever is accepted is dialed at a literal loopback host and a real port. */
  lemma AcceptedIsLoopback(v6: string -> Option<Ip>, address: string)
    ensures var r := ParseLoopbackAddr(v6, address);
            r.Ok? ==> IsLoopbackHost(r.value.0) && 1 <= r.value.1 <= 65535
  {
    hide Match, ParseIp, Value, Dotted;
    var r := ParseLoopbackAddr(v6, address);
    if r.Ok? {
      var text := Match(address).value.0;
      var ip := ParseIp(v6, if text == "localhost" then "127.0.0.1" else text).value;
      if ip.V4? {
        assert r.value.0 == Dotted(127, ip.b, ip.c, ip.d);
      }
    }
  }

  /** localhost stands for 127.0.0.1, and is never looked up. */
  lemma LocalhostIsDotted()
    ensures Dotted(127, 0, 0, 1) == "127.0.0.1"
  {
    assert Digits(127) == Digits(12) + "7" == "127";
  }

  /** A port as it may be written: one to five digits. */
  predicate WrittenPort(port: string) {
    1 <= |port| <= 5 && forall i :: 0 <= i < |port| ==> '0' <= port[i] <= '9'
  }

  /** A host as it may be written in brackets: hexadecimal digits, colons and dots. */
  predicate WrittenInBrackets(host: string) {
    host != "" && forall i :: 0 <= i < |host| ==>
      var c := host[i]; '0' <= c <= '9' || 'a' <= c <= 'f' || 'A' <= c <= 'F' || c == ':' || c == '.'
  }

  /** A bare host is accepted exactly when it is localhost or a dotted 127 address without leading zeros, with a
      port from 1 to 65535: no other name and no other spelling gets through. */
  lemma BareAcceptedIff(v6: string -> Option<Ip>, host: string, port: string)
    requires IsBareHost(host) && WrittenPort(port)
    ensures ParseLoopbackAddr(v6, host + ":" + port).Ok? <==>
      1 <= Value(port) <= 65535
      && (host == "localhost" || exists b: Octet, c: Octet, d: Octet :: host == Dotted(127, b, c, d))
    ensures var r := ParseLoopbackAddr(v6, host + ":" + port);
            r.Ok? ==> r.value == (if host == "localhost" then "127.0.0.1" else host, Value(port))
    ensures var r := ParseLoopbackAddr(v6, host + ":" + port); r.Err? ==> r == Err(ConfigError)
  {
    assert IsPortText(port);
    hide Match, Value, Dotted, ParseIp, IsPortText, IsLoopback;
    MatchExactly(host + ":" + port, host, port);
    LocalhostIsDotted();
    BareReads(v6, "127.0.0.1");
    BareReads(v6, host);
    LocalhostLoops(v6);
  }

  /** What a bare host reads as: the dotted 127 address it spells, if it spells one; no other is loopback. */
  lemma BareReads(v6: string -> Option<Ip>, host: string)
    requires IsBareHost(host)
    ensures var ip := ParseIp(v6, host);
            && (ip.Some? && IsLoopback(ip.value) <==>
                  exists b: Octet, c: Octet, d: Octet :: host == Dotted(127, b, c, d))
            && (ip.Some? && IsLoopback(ip.value) ==> HostText(ip.value) == host)
  {
    hide Dotted, ParseV4, FirstMark;
    BareMark(host);
    if ParseV4(host).Some? {
      ParseV4Sound(host);
    }
    forall b: Octet, c: Octet, d: Octet | host == Dotted(127, b, c, d)
      ensures ParseV4(host) == Some(V4(127, b, c, d)) && FirstMark(host) == Some('.')
    {
      DottedExactly(host, 127, b, c, d);
      DottedPlain(127, b, c, d);
    }
  }

  lemma LocalhostLoops(v6: string -> Option<Ip>)
    ensures IsBareHost("127.0.0.1")
    ensures var ip := ParseIp(v6, "127.0.0.1"); ip.Some? && IsLoopback(ip.value) && HostText(ip.value) == "127.0.0.1"
  {
    hide Dotted, ParseIp, IsLoopback, HostText;
    LocalhostIsDotted();
    DottedPlain(127, 0, 0, 1);
    BareReads(v6, "127.0.0.1");
  }

  /** A bracketed host is accepted exactly when it reads as a loopback address, and named by that address's own
      text; one with a colon first is left to the reader of such literals. */
  lemma BracketedAcceptedIff(v6: string -> Option<Ip>, host: string, port: string)
    requires WrittenInBrackets(host) && WrittenPort(port)
    ensures var r, ip := ParseLoopbackAddr(v6, "[" + host + "]:" + port), ParseIp(v6, host);
            && (r.Ok? <==> 1 <= Value(port) <= 65535 && ip.Some?
                           && ((ip.value.V4? && ip.value.a == 127) || ip.value == V6([0, 0, 0, 0, 0, 0, 0, 1])))
            && (r.Ok? ==> r.value == (if ip.value.V4? then Dotted(127, ip.value.b, ip.value.c, ip.value.d) else "::1", Value(port)))
    ensures FirstMark(host) == Some(':') ==> ParseIp(v6, host) == v6(host)
  {
    assert IsPortText(port) && IsBracketedHost(host);
    hide Match, Value, ParseV4, FirstMark, IsPortText, Dotted;
    MatchExactly("[" + host + "]:" + port, host, port);
    assert host != "localhost" by {
      assert "localhost"[0] == 'l' && BracketedChar(host[0]);
    }
  }

  lemma {:induction false} BareMark(s: string)
    requires forall i :: 0 <= i < |s| ==> BareChar(s[i])
    ensures FirstMark(s) in {None, Some('.')}
    decreases |s|
  {
    if s != [] {
      BareMark(s[1..]);
    }
  }

  /** Joining an accepted host and port and parsing again gives the same pair. */
  lemma DialTargetFixpoint(v6: string -> Option<Ip>, host: string, port: int)
    requires KnowsLoopback(v6) && IsLoopbackHost(host) && 1 <= port <= 65535
    ensures ParseLoopbackAddr(v6, JoinHostPort(host, port)) == Ok((host, port))
  {
    hide Match, Value, Dotted, ParseV4, FirstMark, IsPortText, Digits;
    PortRoundTrip(port);
    var text := Digits(port);
    if host == "::1" {
      MatchExactly("[" + host + "]:" + text, host, text);
      ColonMark();
    } else {
      var b: Octet, c: Octet, d: Octet :| host == Dotted(127, b, c, d);
      DottedPlain(127, b, c, d);
      DottedExactly(host, 127, b, c, d);
      MatchExactly(host + ":" + text, host, text);
    }
  }

  lemma ColonMark()
    ensures FirstMark("::1") == Some(':')
  {
  }

  // ---------------------------------------------------- configured and dialed

  /** How a configured address is taken: a socket path after unix:// or unix: or from the root, else host and port. */
  lemma SplitExactly(rest: string)
    ensures SplitAddr("unix://" + rest) == (Unix, rest)
    ensures !("//" <= rest) ==> SplitAddr("unix:" + rest) == (Unix, rest)
    ensures SplitAddr("/" + rest) == (Unix, "/" + rest)
    ensures !("unix:" <= rest) && !("/" <= rest) ==> SplitAddr(rest) == (Tcp, rest)
  {
    var a, b, c := "unix://" + rest, "unix:" + rest, "/" + rest;
    assert "unix:" + "//" == "unix://";
    assert a[|"unix://"|..] == rest;
    assert b[|"unix:"|..] == rest;
    if "unix://" <= b {
      assert b[5..7] == "//" == rest[..2];
    }
    assert c[0] == '/' && "unix:"[0] == 'u' && "unix://"[0] == 'u';
    if "unix://" <= rest {
      assert rest[..5] == "unix:";
    }
  }

  /** What is dialed, and with what error an address is refused: a socket path as it stands unless empty, or the host
      and port an accepted address is parsed to. */
  lemma DialsExactly(v6: string -> Option<Ip>, addr: string)
    ensures var (network, address) := SplitAddr(addr);
            && (network == Unix ==> Dials(v6, addr) == if address == "" then Err(ConfigError) else Ok(Socket(address)))
            && (network == Tcp && ParseLoopbackAddr(v6, address).Ok? ==>
                  Dials(v6, addr) == Ok(Endpoint(ParseLoopbackAddr(v6, address).value.0, ParseLoopbackAddr(v6, address).value.1)))
            && (network == Tcp && ParseLoopbackAddr(v6, address).Err? ==> Dials(v6, addr) == Err(ConfigError))
  {
    hide Match, ParseIp, Value;
  }

  /** The address of a standard install. */
  lemma StandardAddress(v6: string -> Option<Ip>)
    ensures Dials(v6, "unix:/run/mitrity/admission.sock") == Ok(Socket("/run/mitrity/admission.sock"))
  {
    hide ParseLoopbackAddr, SplitAddr, Dials;
    var path := "/run/mitrity/admission.sock";
    assert "unix:" + path == "unix:/run/mitrity/admission.sock";
    assert !("//" <= path) by {
      assert path[1] == 'r';
    }
    SplitExactly(path);
    DialsExactly(v6, "unix:/run/mitrity/admission.sock");
  }

  /** localhost with a port. */
  lemma LocalhostDials(v6: string -> Option<Ip>)
    ensures Dials(v6, "localhost:8777") == Ok(Endpoint("127.0.0.1", 8777))
  {
    hide ParseLoopbackAddr, SplitAddr, Dials, Value, Dotted;
    var addr := "localhost" + ":" + "8777";
    assert addr == "localhost:8777";
    PortValue();
    BareAcceptedIff(v6, "localhost", "8777");
    assert !("unix:" <= addr) && !("/" <= addr) by {
      assert addr[0] == 'l' && "unix:"[0] == 'u' && "/"[0] == '/';
    }
    SplitExactly(addr);
    DialsExactly(v6, addr);
  }

  lemma PortValue()
    ensures Value("8777") == 8777
  {
    assert "8777"[..3] == "877" && "877"[..2] == "87" && "87"[..1] == "8" && "8"[..0] == "";
    assert Value("8") == 8 && Value("87") == 87 && Value("877") == 877;
  }

  /** A configured address names at most one target, and the target's own text names it again: what is dialed is
      always a socket path or a literal loopback host and port. */
  lemma DialsFixpoint(v6: string -> Option<Ip>, addr: string)
    requires KnowsLoopback(v6) && Dials(v6, addr).Ok?
    ensures var t := Dials(v6, addr).value;
            && (t.Socket? ==> t.path != "")
            && (t.Endpoint? ==> IsLoopbackHost(t.host) && 1 <= t.port <= 65535)
            && Dials(v6, TargetText(t)) == Ok(t)
  {
    hide ParseLoopbackAddr, IsLoopbackHost, JoinHostPort;
    var t := Dials(v6, addr).value;
    match t {
      case Socket(path) =>
        assert TargetText(t)[|UNIX_URL|..] == path;
      case Endpoint(host, port) =>
        var (_, address) := SplitAddr(addr);
        AcceptedIsLoopback(v6, address);
        DialTargetFixpoint(v6, host, port);
        JoinedIsNotUnix(host, port);
    }
  }

  lemma JoinedIsNotUnix(host: string, port: nat)
    requires IsLoopbackHost(host)
    ensures SplitAddr(JoinHostPort(host, port)) == (Tcp, JoinHostPort(host, port))
  {
    hide Dotted, Digits;
    if host != "::1" {
      var b: Octet, c: Octet, d: Octet :| host == Dotted(127, b, c, d);
      DottedPlain(127, b, c, d);
    }
    assert UNIX_URL[0] == 'u' && UNIX[0] == 'u';
    assert JoinHostPort(host, port)[0] == '[' || IsDigit(JoinHostPort(host, port)[0]);
  }
}
