/** Addresses as text: what the daemons print and what the firewall parses back. */
module AddressText {
  import opened Common
  import opened Addresses
  import opened Regex

  // ----- Decimal numbers -----

  predicate IsDigit(c: char)
  {
    '0' <= c <= '9'
  }

  function DigitValue(c: char): nat
    requires IsDigit(c)
  {
    c as int - '0' as int
  }

  function DigitChar(d: nat): (c: char)
    requires d < 10
    ensures IsDigit(c) && DigitValue(c) == d
  {
    '0' + d as char
  }

  function Decimal(n: nat): string
  {
    if n < 10 then [DigitChar(n)] else Decimal(n / 10) + [DigitChar(n % 10)]
  }

  function Value(t: string): nat
    requires forall i :: 0 <= i < |t| ==> IsDigit(t[i])
  {
    if t == [] then 0 else Value(t[..|t| - 1]) * 10 + DigitValue(t[|t| - 1])
  }

  /** Decimal digits without a superfluous leading zero. */
  predicate Canonical(t: string)
  {
    t != [] && (forall i :: 0 <= i < |t| ==> IsDigit(t[i])) && (t[0] == '0' ==> |t| == 1)
  }

  lemma {:induction false} DecimalCanonical(n: nat)
    ensures Canonical(Decimal(n)) && Value(Decimal(n)) == n && (Decimal(n)[0] == '0' ==> n == 0)
  {
    if n >= 10 {
      DecimalCanonical(n / 10);
      assert Decimal(n)[..|Decimal(n)| - 1] == Decimal(n / 10);
    }
  }

  lemma LastDigit(n: nat, d: nat)
    requires d < 10
    ensures (n * 10 + d) / 10 == n && (n * 10 + d) % 10 == d
  {
  }

  lemma {:induction false} DecimalOfValue(t: string)
    requires Canonical(t)
    ensures Decimal(Value(t)) == t && (Value(t) == 0 ==> t == "0")
  {
    var front := t[..|t| - 1];
    var d := DigitValue(t[|t| - 1]);
    if front != [] {
      DecimalOfValue(front);
      LastDigit(Value(front), d);
      assert t == front + [t[|t| - 1]];
    } else {
      assert t == [t[0]];
    }
  }

  // ----- Version 4 -----

  function Fields(t: string): (r: seq<string>)
    ensures r != []
  {
    if t == [] then [[]]
    else if t[0] == '.' then [[]] + Fields(t[1..])
    else var r := Fields(t[1..]); [[t[0]] + r[0]] + r[1..]
  }

  lemma {:induction false} FieldsOfJoined(head: string, tail: string)
    requires '.' !in head
    ensures Fields(head) == [head]
    ensures Fields(head + "." + tail) == [head] + Fields(tail)
  {
    if head == [] {
      assert head + "." + tail == "." + tail;
    } else {
      FieldsOfJoined(head[1..], tail);
      assert (head + "." + tail)[1..] == head[1..] + "." + tail;
      assert head == [head[0]] + head[1..];
    }
  }

  function Joined(fields: seq<string>): string
  {
    if fields == [] then [] else if |fields| == 1 then fields[0] else fields[0] + "." + Joined(fields[1..])
  }

  lemma {:induction false} JoinedFields(t: string)
    ensures Joined(Fields(t)) == t
  {
    if t != [] {
      JoinedFields(t[1..]);
      var r := Fields(t[1..]);
      if t[0] == '.' {
        assert ([[]] + r)[1..] == r;
        assert t == "." + t[1..];
      } else {
        assert ([[t[0]] + r[0]] + r[1..])[1..] == r[1..];
        assert t == [t[0]] + t[1..];
      }
    }
  }

  /** One of the four numbers: at most three digits, no leading zero, at most 255. */
  function ParseOctet(t: string): Option<Byte>
  {
    if |t| <= 3 && Canonical(t) && Value(t) <= 255 then Some(Value(t)) else None
  }

  function Parse4(t: string): Option<IpAddr>
  {
    var f := Fields(t);
    if |f| == 4 && ParseOctet(f[0]).Some? && ParseOctet(f[1]).Some? && ParseOctet(f[2]).Some? && ParseOctet(f[3]).Some? then
      Some(V4(ParseOctet(f[0]).value, ParseOctet(f[1]).value, ParseOctet(f[2]).value, ParseOctet(f[3]).value))
    else None
  }

  function Print4(ip: IpAddr): string
    requires ip.V4?
  {
    Decimal(ip.a) + "." + (Decimal(ip.b) + "." + (Decimal(ip.c) + "." + Decimal(ip.d)))
  }

  lemma ShortDecimal(n: nat)
    requires n < 1000
    ensures |Decimal(n)| <= 3
  {
    if n >= 100 {
      assert |Decimal(n / 10 / 10)| == 1;
    }
  }

  lemma OctetOfDecimal(v: Byte)
    ensures ParseOctet(Decimal(v)) == Some(v) && '.' !in Decimal(v)
  {
    DecimalCanonical(v);
    ShortDecimal(v);
  }

  lemma DecimalOfOctet(t: string)
    requires ParseOctet(t).Some?
    ensures Decimal(ParseOctet(t).value) == t
  {
    DecimalOfValue(t);
  }

  lemma ParsePrint4(ip: IpAddr)
    requires ip.V4?
    ensures Parse4(Print4(ip)) == Some(ip)
  {
    OctetOfDecimal(ip.a);
    OctetOfDecimal(ip.b);
    OctetOfDecimal(ip.c);
    OctetOfDecimal(ip.d);
    var a, b, c, d := Decimal(ip.a), Decimal(ip.b), Decimal(ip.c), Decimal(ip.d);
    FieldsOfJoined(a, b + "." + (c + "." + d));
    FieldsOfJoined(b, c + "." + d);
    FieldsOfJoined(c, d);
    FieldsOfJoined(d, "");
  }

  lemma JoinFour(f: seq<string>)
    requires |f| == 4
    ensures Joined(f) == f[0] + "." + (f[1] + "." + (f[2] + "." + f[3]))
  {
    assert f[1..][1..] == f[2..] && f[2..][1..] == f[3..];
    assert Joined(f[3..]) == f[3] && Joined(f[2..]) == f[2] + "." + f[3];
  }

  /** Printing is the only text that parses to a version 4 address. */
  lemma Parse4IffPrinted(t: string, ip: IpAddr)
    ensures Parse4(t) == Some(ip) <==> ip.V4? && t == Print4(ip)
  {
    if ip.V4? {
      ParsePrint4(ip);
    }
    if Parse4(t) == Some(ip) {
      var f := Fields(t);
      JoinedFields(t);
      JoinFour(f);
      DecimalOfOctet(f[0]);
      DecimalOfOctet(f[1]);
      DecimalOfOctet(f[2]);
      DecimalOfOctet(f[3]);
    }
  }

  // ----- Both versions, with port and scope -----

  /** The library's text form of version 6 addresses. */
  datatype Text6 = Text6(show: seq<bv16> -> string, parse: string -> Option<seq<bv16>>)

  predicate IsAddrText(t: string)
  {
    Accepts(Plus(AddrChar), t)
  }

  /** What RFC 5952 text is assumed to be: hexadecimal digits, colons and dots, at least one colon, read back as printed. */
  ghost predicate Lawful(six: Text6)
  {
    forall s: seq<bv16> {:trigger six.show(s)} :: |s| == 8 ==>
      && six.parse(six.show(s)) == Some(s)
      && IsAddrText(six.show(s))
      && ':' in six.show(s)
  }

  function PrintIp(six: Text6, ip: IpAddr): string
  {
    if ip.V4? then Print4(ip) else six.show(ip.segments)
  }

  function ParseIp(six: Text6, t: string): Option<IpAddr>
  {
    match Parse4(t)
    case Some(ip) => Some(ip)
    case None => match six.parse(t) case Some(segments) => Some(V6(segments)) case None => None
  }

  lemma DecimalIsAddrText(n: nat)
    ensures IsAddrText(Decimal(n)) && Accepts(Plus(Digit({})), Decimal(n)) && ':' !in Decimal(n)
  {
    DecimalCanonical(n);
  }

  lemma Print4IsAddrText(ip: IpAddr)
    requires ip.V4?
    ensures IsAddrText(Print4(ip)) && ':' !in Print4(ip)
  {
    DecimalIsAddrText(ip.a);
    DecimalIsAddrText(ip.b);
    DecimalIsAddrText(ip.c);
    DecimalIsAddrText(ip.d);
  }

  lemma ParsePrintIp(six: Text6, ip: IpAddr)
    requires Lawful(six) && IsIp(ip)
    ensures ParseIp(six, PrintIp(six, ip)) == Some(ip)
    ensures IsAddrText(PrintIp(six, ip))
  {
    if ip.V4? {
      ParsePrint4(ip);
      Print4IsAddrText(ip);
    } else {
      var t := six.show(ip.segments);
      if Parse4(t).Some? {
        Parse4IffPrinted(t, Parse4(t).value);
        Print4IsAddrText(Parse4(t).value);
        assert false;
      }
    }
  }

  /** A peer's address as the listeners see it. The scope is that of a version 6 link-local address, else 0. */
  datatype SocketAddr = SocketAddr(ip: IpAddr, port: nat, scope: nat)

  predicate IsSocketAddr(a: SocketAddr)
  {
    IsIp(a.ip) && a.port < 65536 && a.scope < 0x1_0000_0000 && (a.ip.V4? ==> a.scope == 0)
  }

  /** What stands before the colon and the port. */
  function PrintHost(six: Text6, a: SocketAddr): string
  {
    if a.ip.V4? then PrintIp(six, a.ip)
    else "[" + PrintIp(six, a.ip) + (if a.scope == 0 then [] else "%" + Decimal(a.scope)) + "]"
  }

  function PrintSocket(six: Text6, a: SocketAddr): string
  {
    PrintHost(six, a) + ":" + Decimal(a.port)
  }
}
