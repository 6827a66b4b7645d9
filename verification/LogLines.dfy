/** Rejection lines as the daemons print them, and the extractor that reads them (crates/ghostport-firewall/src/detector.rs). */
module LogLines {
  import opened Common
  import opened Regex
  import opened ColorCodes
  import opened Addresses
  import opened AddressText
  import Firewall

  // ----- The four patterns -----

  datatype Pattern = Pattern(before: string, after: string, offense: Firewall.Offense)

  const CONTROL_REJECTED := Pattern("control: rejected ", " (too many recent handshake attempts)", Firewall.RateLimited)
  const DATA_REJECTED := Pattern("data: rejected ", " (too many recent handshake attempts)", Firewall.RateLimited)
  const CONTROL_FAILED := Pattern("control: handshake with ", " failed:", Firewall.HandshakeFailed)
  const UDP_FAILED := Pattern("ghostport-udp: handshake with ", " (", Firewall.HandshakeFailed)

  const PATTERNS: seq<Pattern> := [CONTROL_REJECTED, DATA_REJECTED, CONTROL_FAILED, UDP_FAILED]

  /** What the extractor takes from its libraries: the digits beyond ASCII and the text of version 6 addresses. */
  datatype Libraries = Libraries(digits: set<char>, six: Text6)

  function PortThen(lib: Libraries, after: string): seq<Item>
  {
    [Lit(':')] + ([Plus(Digit(lib.digits))] + Lits(after))
  }

  function IpThen(lib: Libraries, after: string): seq<Item>
  {
    [Plus(AddrChar)] + ([Opt(']')] + PortThen(lib, after))
  }

  /** An address in either shape, followed by `after`. */
  function AddrThen(lib: Libraries, after: string): seq<Item>
  {
    [Opt('[')] + IpThen(lib, after)
  }

  function Items(lib: Libraries, p: Pattern): seq<Item>
  {
    Lits(p.before) + AddrThen(lib, p.after)
  }

  /** The `ip` group of the leftmost match. */
  function Capture(lib: Libraries, p: Pattern, clean: string): Option<string>
  {
    match Find(Items(lib, p), clean)
    case Some(pieces) => FindFits(Items(lib, p), clean); Some(pieces[|p.before| + 1])
    case None => None
  }

  lemma {:induction false} FindFits(p: seq<Item>, s: string)
    requires Find(p, s).Some?
    ensures |Find(p, s).value| == |p|
  {
    if MatchAt(p, s).Some? {
      MatchFits(p, s);
      FitsAll(p, s, MatchAt(p, s).value);
    } else {
      FindFits(p, s[1..]);
    }
  }

  lemma {:induction false} FitsAll(p: seq<Item>, s: string, pieces: seq<string>)
    requires Fits(p, s, pieces)
    ensures |pieces| == |p|
  {
    if p != [] {
      FitsAll(p[1..], s[|pieces[0]|..], pieces[1..]);
    }
  }

  /** What one pattern makes of a line: nothing when the captured text is not an address. */
  function ExtractWith(lib: Libraries, p: Pattern, clean: string): Option<(IpAddr, Firewall.Offense)>
  {
    match Capture(lib, p, clean)
    case Some(text) => (match ParseIp(lib.six, text) case Some(ip) => Some((ip, p.offense)) case None => None)
    case None => None
  }

  /** The first of `patterns` that gives an address. */
  function ExtractFrom(lib: Libraries, patterns: seq<Pattern>, clean: string): Option<(IpAddr, Firewall.Offense)>
  {
    if patterns == [] then None
    else
      var found := ExtractWith(lib, patterns[0], clean);
      if found.Some? then found else ExtractFrom(lib, patterns[1..], clean)
  }

  function ExtractOffense(lib: Libraries, line: string): Option<(IpAddr, Firewall.Offense)>
  {
    ExtractFrom(lib, PATTERNS, StripAnsi(line))
  }

  // ----- There is one way to read an address -----

  lemma FitsUncons(item: Item, rest: seq<Item>, s: string, pieces: seq<string>)
    requires Fits([item] + rest, s, pieces)
    ensures pieces != [] && Accepts(item, pieces[0]) && pieces[0] <= s && s == pieces[0] + s[|pieces[0]|..]
    ensures Fits(rest, s[|pieces[0]|..], pieces[1..])
  {
    assert ([item] + rest)[1..] == rest;
  }

  lemma PortForced(lib: Libraries, after: string, s: string, pieces: seq<string>) returns (rest: string)
    requires Fits(PortThen(lib, after), s, pieces)
    ensures |pieces| >= 2 && after <= rest && s == ":" + (pieces[1] + rest)
    ensures Accepts(Plus(Digit(lib.digits)), pieces[1])
  {
    var digits := [Plus(Digit(lib.digits))] + Lits(after);
    FitsUncons(Lit(':'), digits, s, pieces);
    FitsUncons(Plus(Digit(lib.digits)), Lits(after), s[1..], pieces[1..]);
    rest := s[1..][|pieces[1]|..];
    AfterForced(after, rest, pieces[1..][1..]);
  }

  lemma AfterForced(after: string, rest: string, pieces: seq<string>)
    requires Fits(Lits(after), rest, pieces)
    ensures after <= rest
  {
    assert Lits(after) + [] == Lits(after);
    LitsForced(after, [], rest, pieces);
  }

  lemma IpForced(lib: Libraries, after: string, s: string, pieces: seq<string>) returns (rest: string)
    requires Fits(IpThen(lib, after), s, pieces)
    ensures |pieces| >= 4 && after <= rest && s == pieces[0] + (pieces[1] + (":" + (pieces[3] + rest)))
    ensures Accepts(Plus(AddrChar), pieces[0]) && Accepts(Opt(']'), pieces[1])
    ensures Accepts(Plus(Digit(lib.digits)), pieces[3])
  {
    var close := [Opt(']')] + PortThen(lib, after);
    FitsUncons(Plus(AddrChar), close, s, pieces);
    var s1, p1 := s[|pieces[0]|..], pieces[1..];
    FitsUncons(Opt(']'), PortThen(lib, after), s1, p1);
    rest := PortForced(lib, after, s1[|p1[0]|..], p1[1..]);
  }

  /** A fit splits the text into optional brackets around an address, a colon, a port and the rest. */
  lemma AddrForced(lib: Libraries, after: string, s: string, pieces: seq<string>) returns (rest: string)
    requires Fits(AddrThen(lib, after), s, pieces)
    ensures |pieces| >= 5 && after <= rest
    ensures s == pieces[0] + (pieces[1] + (pieces[2] + (":" + (pieces[4] + rest))))
    ensures Accepts(Opt('['), pieces[0]) && Accepts(Plus(AddrChar), pieces[1]) && Accepts(Opt(']'), pieces[2])
    ensures Accepts(Plus(Digit(lib.digits)), pieces[4])
  {
    FitsUncons(Opt('['), IpThen(lib, after), s, pieces);
    rest := IpForced(lib, after, s[|pieces[0]|..], pieces[1..]);
  }

  /** The first occurrence of a character splits a text in one way only. */
  lemma SplitFirst(c: char, a: string, b: string, x: string, y: string)
    requires a + b == x + y && c !in a && c !in x
    requires b != [] && b[0] == c && y != [] && y[0] == c
    ensures a == x && b == y
  {
    FirstAt(c, a, b, |x|);
    FirstAt(c, x, y, |a|);
    assert a == (a + b)[..|a|] && x == (x + y)[..|x|];
    assert b == (a + b)[|a|..] && y == (x + y)[|x|..];
  }

  lemma FirstAt(c: char, a: string, b: string, n: nat)
    requires c !in a && n < |a + b| && (a + b)[n] == c
    ensures n >= |a|
  {
  }

  /** So does the last. */
  lemma SplitLast(c: char, a: string, b: string, x: string, y: string)
    requires a + [c] + b == x + [c] + y && c !in b && c !in y
    ensures a == x && b == y
  {
    var s, t := a + [c] + b, x + [c] + y;
    LastAt(c, a, b, |x|);
    LastAt(c, x, y, |a|);
    assert a == s[..|a|] && x == t[..|x|];
    assert b == s[|a| + 1..] && y == t[|x| + 1..];
  }

  lemma LastAt(c: char, a: string, b: string, n: nat)
    requires c !in b && n < |a + [c] + b| && (a + [c] + b)[n] == c
    ensures n <= |a|
  {
    assert a + [c] + b == (a + [c]) + b && forall i :: |a| < i < |a + [c] + b| ==> (a + [c] + b)[i] == b[i - |a| - 1];
  }

  /** Brackets are not address characters, so they do not hide in the text between them. */
  lemma Bracketed(a: string, t: string, b: string, x: string, u: string, y: string)
    requires a + t + b == x + u + y && IsAddrText(t) && IsAddrText(u)
    requires Accepts(Opt('['), a) && Accepts(Opt(']'), b) && Accepts(Opt('['), x) && Accepts(Opt(']'), y)
    ensures t == u
  {
    var s, r := a + t + b, x + u + y;
    assert a == x by {
      assert s[0] == if a == [] then t[0] else '[';
      assert r[0] == if x == [] then u[0] else '[';
    }
    assert b == y by {
      assert s[|s| - 1] == if b == [] then t[|t| - 1] else ']';
      assert r[|r| - 1] == if y == [] then u[|u| - 1] else ']';
    }
    assert t == s[|a|..|s| - |b|] && u == r[|x|..|r| - |y|];
  }

  predicate IsSocketChar(c: char)
  {
    InClass(AddrChar, c) || c == '[' || c == ']' || c == '%'
  }

  lemma HostChars(six: Text6, a: SocketAddr)
    requires Lawful(six) && IsSocketAddr(a)
    ensures var t := PrintHost(six, a);
      t != [] && (IsDigit(t[0]) || t[0] == '[') && forall i :: 0 <= i < |t| ==> IsSocketChar(t[i])
  {
    ParsePrintIp(six, a.ip);
    if a.ip.V4? {
      DecimalCanonical(a.ip.a);
      assert PrintIp(six, a.ip)[0] == Decimal(a.ip.a)[0];
    } else {
      DecimalIsAddrText(a.scope);
    }
  }

  lemma SocketChars(six: Text6, a: SocketAddr)
    requires Lawful(six) && IsSocketAddr(a)
    ensures var t := PrintSocket(six, a);
      t != [] && IsDigit(t[|t| - 1]) && (IsDigit(t[0]) || t[0] == '[') && forall i :: 0 <= i < |t| ==> IsSocketChar(t[i])
  {
    HostChars(six, a);
    DecimalIsAddrText(a.port);
    DecimalCanonical(a.port);
    HostAndPort(PrintHost(six, a), Decimal(a.port));
  }

  lemma HostAndPort(host: string, port: string)
    requires host != [] && Canonical(port) && forall i :: 0 <= i < |host| ==> IsSocketChar(host[i])
    ensures var t := host + ":" + port;
      t[0] == host[0] && IsDigit(t[|t| - 1]) && forall i :: 0 <= i < |t| ==> IsSocketChar(t[i])
  {
  }

  lemma LeftNested(a: string, b: string, c: string, d: string, e: string)
    ensures a + (b + (c + (":" + (d + e)))) == (a + b + c + ":" + d) + e
  {
  }

  /** An address before a space is read in at most one way; one with a scope in none. */
  lemma AddrReadOnce(lib: Libraries, a: SocketAddr, after: string, t: string, pieces: seq<string>)
    requires Lawful(lib.six) && IsSocketAddr(a) && after != [] && after[0] == ' ' && t != [] && t[0] == ' '
    requires Fits(AddrThen(lib, after), PrintSocket(lib.six, a) + t, pieces)
    ensures a.scope == 0 && after <= t && |pieces| > 1 && pieces[1] == PrintIp(lib.six, a.ip)
  {
    var rest := AddrForced(lib, after, PrintSocket(lib.six, a) + t, pieces);
    var host := pieces[0] + pieces[1] + pieces[2];
    SocketChars(lib.six, a);
    LeftNested(pieces[0], pieces[1], pieces[2], pieces[4], rest);
    SplitFirst(' ', host + ":" + pieces[4], rest, PrintSocket(lib.six, a), t);
    DecimalIsAddrText(a.port);
    SplitLast(':', host, pieces[4], PrintHost(lib.six, a), Decimal(a.port));
    HostReadOnce(lib.six, a, pieces[0], pieces[1], pieces[2]);
  }

  lemma ScopeShows(six: Text6, a: SocketAddr)
    requires IsSocketAddr(a) && a.scope != 0
    ensures '%' in PrintHost(six, a)
  {
    assert PrintHost(six, a)[1 + |PrintIp(six, a.ip)|] == '%';
  }

  lemma HostReadOnce(six: Text6, a: SocketAddr, open: string, text: string, close: string)
    requires Lawful(six) && IsSocketAddr(a) && open + text + close == PrintHost(six, a)
    requires Accepts(Opt('['), open) && IsAddrText(text) && Accepts(Opt(']'), close)
    ensures a.scope == 0 && text == PrintIp(six, a.ip)
  {
    ParsePrintIp(six, a.ip);
    var ip := PrintIp(six, a.ip);
    assert '%' !in open + text + close;
    if a.scope != 0 {
      ScopeShows(six, a);
    }
    if a.ip.V4? {
      assert [] + ip + [] == ip;
      Bracketed(open, text, close, [], ip, []);
    } else {
      assert "[" + ip + [] + "]" == "[" + ip + "]";
      Bracketed(open, text, close, "[", ip, "]");
    }
  }

  lemma PortReads(lib: Libraries, port: nat, after: string, t: string) returns (pieces: seq<string>)
    requires after <= t
    ensures Fits(PortThen(lib, after), ":" + (Decimal(port) + t), pieces)
  {
    DecimalIsAddrText(port);
    LitsFit(after, [], t[|after|..], []);
    assert Lits(after) + [] == Lits(after) && after + t[|after|..] == t && Singles(after) + [] == Singles(after);
    var digits := [Plus(Digit(lib.digits))] + Lits(after);
    FitsCons(Plus(Digit(lib.digits)), Lits(after), Decimal(port), t, Singles(after));
    FitsCons(Lit(':'), digits, ":", Decimal(port) + t, [Decimal(port)] + Singles(after));
    pieces := [":"] + ([Decimal(port)] + Singles(after));
  }

  lemma IpReads(lib: Libraries, ip: string, close: string, port: nat, after: string, t: string) returns (pieces: seq<string>)
    requires IsAddrText(ip) && Accepts(Opt(']'), close) && after <= t
    ensures Fits(IpThen(lib, after), ip + (close + (":" + (Decimal(port) + t))), pieces)
  {
    var q := PortReads(lib, port, after, t);
    FitsCons(Opt(']'), PortThen(lib, after), close, ":" + (Decimal(port) + t), q);
    FitsCons(Plus(AddrChar), [Opt(']')] + PortThen(lib, after), ip, close + (":" + (Decimal(port) + t)), [close] + q);
    pieces := [ip] + ([close] + q);
  }

  lemma AddrReads(lib: Libraries, a: SocketAddr, after: string, t: string)
    requires Lawful(lib.six) && IsSocketAddr(a) && a.scope == 0 && after <= t
    ensures CanFit(AddrThen(lib, after), PrintSocket(lib.six, a) + t)
  {
    ParsePrintIp(lib.six, a.ip);
    var ip := PrintIp(lib.six, a.ip);
    var open, close := if a.ip.V4? then "" else "[", if a.ip.V4? then "" else "]";
    var q := IpReads(lib, ip, close, a.port, after, t);
    FitsCons(Opt('['), IpThen(lib, after), open, ip + (close + (":" + (Decimal(a.port) + t))), q);
    LeftNested(open, ip, close, Decimal(a.port), t);
    assert PrintHost(lib.six, a) == open + ip + close;
  }

  /** A pattern at its own text: the address it captures, or why it does not match there. */
  lemma PatternAtFront(lib: Libraries, p: Pattern, a: SocketAddr, t: string)
    requires Lawful(lib.six) && IsSocketAddr(a) && p.after != [] && p.after[0] == ' ' && t != [] && t[0] == ' '
    ensures var s := p.before + (PrintSocket(lib.six, a) + t);
      if a.scope == 0 && p.after <= t then Capture(lib, p, s) == Some(PrintIp(lib.six, a.ip))
      else MatchAt(Items(lib, p), s).None?
  {
    var addr := PrintSocket(lib.six, a) + t;
    var s := p.before + addr;
    var m := MatchAt(Items(lib, p), s);
    if m.Some? {
      MatchFits(Items(lib, p), s);
      LitsForced(p.before, AddrThen(lib, p.after), s, m.value);
      assert s[|p.before|..] == addr;
      AddrReadOnce(lib, a, p.after, t, m.value[|p.before|..]);
      assert m.value[|p.before|..][1] == m.value[|p.before| + 1];
    }
    if a.scope == 0 && p.after <= t {
      AddrReads(lib, a, p.after, t);
      var q :| Fits(AddrThen(lib, p.after), addr, q);
      LitsFit(p.before, AddrThen(lib, p.after), addr, q);
      MatchIsGreediest(Items(lib, p), s, Singles(p.before) + q);
      assert Find(Items(lib, p), s) == m;
    }
  }
}
