/**
 * What the extractor makes of the lines the daemons print (crates/ghostport-core/src/server.rs,
 * crates/ghostport-udp/src/server.rs), for every address, every colour code and every error text.
 */
module PrintedLines {
  import opened Common
  import opened Regex
  import opened Addresses
  import opened AddressText
  import opened ColorCodes
  import opened LogLines
  import opened LineFacts
  import Firewall

  // ----- The lines -----

  /** A line of the TCP daemon: a fixed prefix, then a coloured message. */
  function Line(color: seq<string>, message: string, reset: seq<string>): string
  {
    "ghostport: " + (Flatten(color) + (message + Flatten(reset)))
  }

  function ControlRejected(lib: Libraries, a: SocketAddr): string
  {
    "control: rejected " + (PrintSocket(lib.six, a) + " (too many recent handshake attempts)")
  }

  function DataRejected(lib: Libraries, a: SocketAddr): string
  {
    "data: rejected " + (PrintSocket(lib.six, a) + " (too many recent handshake attempts)")
  }

  function ControlFailed(lib: Libraries, a: SocketAddr, error: string): string
  {
    "control: handshake with " + (PrintSocket(lib.six, a) + (" failed: " + error))
  }

  function ControlTimedOut(lib: Libraries, a: SocketAddr): string
  {
    "control: handshake with " + (PrintSocket(lib.six, a) + " timed out")
  }

  /** The data listener reports every error this way: `report` is a colon, a space and the error. */
  function DataLine(lib: Libraries, a: SocketAddr, report: string): string
  {
    "data connection from " + (PrintSocket(lib.six, a) + report)
  }

  /** A handshake message that no configured key opens. */
  const NO_MATCH := "no configured peer matched"

  function UdpFailed(lib: Libraries, a: SocketAddr, name: string, error: string): string
  {
    "ghostport-udp: handshake with " + (PrintSocket(lib.six, a) + (" (" + Blame(name, error)))
  }

  /** The peer's name and the error, after the bracket that opens the name. */
  function Blame(name: string, error: string): string
  {
    "\"" + name + "\") failed: " + error
  }

  function UdpTimedOut(lib: Libraries, a: SocketAddr): string
  {
    "ghostport-udp: " + (PrintSocket(lib.six, a) + (LATE + HELLO))
  }

  ghost predicate Codes(codes: seq<string>)
  {
    forall i :: 0 <= i < |codes| ==> IsSgr(codes[i])
  }

  lemma {:induction false} CodesStart(codes: seq<string>)
    requires Codes(codes)
    ensures Flatten(codes) == [] || Flatten(codes)[0] == ESC
    ensures StripAnsi(Flatten(codes)) == []
  {
    CodesStripped(codes, []);
    assert Flatten(codes) + [] == Flatten(codes);
    if codes != [] {
      assert Flatten(codes)[0] == codes[0][0];
    }
  }

  /** Stripping a line leaves the prefix and the stripped message. */
  lemma LineStripped(color: seq<string>, head: string, tail: string, reset: seq<string>)
    requires Codes(color) && Codes(reset) && ESC !in head
    ensures StripAnsi(Line(color, head + tail, reset)) == "ghostport: " + (head + StripAnsi(tail))
  {
    var codes, end := Flatten(color), Flatten(reset);
    StripText("ghostport: ", codes + (head + tail + end));
    CodesStripped(color, head + tail + end);
    StripText(head, tail + end);
    assert head + tail + end == head + (tail + end);
    CodesStart(reset);
    StripBoundary(tail, end);
    assert StripAnsi(tail) + [] == StripAnsi(tail);
  }

  // ----- Where a pattern cannot match -----

  /** Text around an address lacks a pair if its fixed parts do and the pair has a character no address has. */
  lemma LacksAround(before: string, six: Text6, a: SocketAddr, after: string, x: char, y: char)
    requires Lawful(six) && IsSocketAddr(a) && Lacks(before, x, y) && Lacks(after, x, y)
    requires !IsSocketChar(x) || !IsSocketChar(y)
    requires before != [] && before[|before| - 1] == x ==> !IsSocketChar(y)
    requires !IsDigit(x)
    ensures Lacks(before + (PrintSocket(six, a) + after), x, y)
  {
    var t := PrintSocket(six, a);
    SocketChars(six, a);
    assert Lacks(t, x, y);
    LacksConcat(t, after, x, y);
    LacksConcat(before, t + after, x, y);
  }

  /** Where the text before `tail` lacks a pair of the pattern's own, the pattern finds what it finds in `tail`. */
  lemma Skip(lib: Libraries, p: Pattern, head: string, tail: string, k: nat)
    requires k + 1 < |p.before| && Lacks(head, p.before[k], p.before[k + 1])
    requires forall i :: 0 <= i < |head| && i + k + 1 >= |head| ==> head[i] != p.before[0]
    ensures Find(Items(lib, p), head + tail) == Find(Items(lib, p), tail)
  {
    FindSkips(Items(lib, p), p.before, AddrThen(lib, p.after), head, tail, k);
  }

  lemma NothingInNothing(lib: Libraries, p: Pattern)
    requires p.before != []
    ensures Capture(lib, p, []) == None
  {
    if MatchAt(Items(lib, p), []).Some? {
      MatchStarts(p.before, AddrThen(lib, p.after), []);
    }
  }

  /** A text that does not start with the pattern's literals loses nothing with its first character. */
  lemma SkipOne(lib: Libraries, p: Pattern, s: string)
    requires s != [] && MatchAt(Items(lib, p), s).None?
    ensures Find(Items(lib, p), s) == Find(Items(lib, p), s[1..])
  {
  }

  /** A pattern finds nothing around an address in a text that avoids it. */
  lemma SkipAround(lib: Libraries, p: Pattern, before: string, a: SocketAddr, middle: string, tail: string, k: nat)
    requires Lawful(lib.six) && IsSocketAddr(a) && Avoids(p, before, middle, k)
    ensures var s := before + (PrintSocket(lib.six, a) + (middle + tail));
      Find(Items(lib, p), s) == Find(Items(lib, p), tail)
  {
    var t, x, y := PrintSocket(lib.six, a), p.before[k], p.before[k + 1];
    LacksAround(before, lib.six, a, middle, x, y);
    Reassociate(before, t, middle, tail);
    EndsLonger(t, middle, k + 1, p.before[0]);
    EndsLonger(before, t + middle, k + 1, p.before[0]);
    Skip(lib, p, before + (t + middle), tail, k);
  }

  lemma Reassociate(a: string, b: string, c: string, d: string)
    ensures a + (b + c) + d == a + (b + (c + d))
  {
  }

  lemma EndsLonger(front: string, text: string, n: nat, c: char)
    requires EndsWithout(text, n, c)
    ensures EndsWithout(front + text, n, c)
  {
  }

  lemma SkipFront(lib: Libraries, p: Pattern, s: string)
    requires |p.before| > 1 && MatchAt(Items(lib, p), p.before + s).None?
    requires Lacks(p.before[1..], p.before[0], p.before[1]) && p.before[|p.before| - 1] != p.before[0]
    ensures Find(Items(lib, p), p.before + s) == Find(Items(lib, p), s)
  {
    SkipOne(lib, p, p.before + s);
    assert (p.before + s)[1..] == p.before[1..] + s;
    Skip(lib, p, p.before[1..], s, 0);
  }

  /** A pattern at its own line: it captures the address or, failing that, what it captures in the rest. */
  lemma OwnLine(lib: Libraries, p: Pattern, prefix: string, a: SocketAddr, middle: string, tail: string, k: nat)
    requires Lawful(lib.six) && IsSocketAddr(a) && middle != [] && middle[0] == ' '
    requires StandsOut(p, prefix) && Avoids(p, "", middle, k)
    ensures var s := prefix + (p.before + (PrintSocket(lib.six, a) + (middle + tail)));
      Capture(lib, p, s) ==
      if a.scope == 0 && p.after <= middle + tail then Some(PrintIp(lib.six, a.ip)) else Capture(lib, p, tail)
  {
    var addr := PrintSocket(lib.six, a) + (middle + tail);
    Skip(lib, p, prefix, p.before + addr, 0);
    PatternAtFront(lib, p, a, middle + tail);
    if a.scope != 0 || !(p.after <= middle + tail) {
      SkipFront(lib, p, addr);
      SkipAround(lib, p, "", a, middle, tail, k);
      assert "" + addr == addr;
    }
  }

  // ----- The extractor on four patterns -----

  function OrElse<T>(a: Option<T>, b: Option<T>): Option<T>
  {
    if a.Some? then a else b
  }

  lemma FourPatterns(lib: Libraries, a: Pattern, b: Pattern, c: Pattern, d: Pattern, clean: string)
    ensures ExtractFrom(lib, [a, b, c, d], clean)
         == OrElse(ExtractWith(lib, a, clean),
                   OrElse(ExtractWith(lib, b, clean), OrElse(ExtractWith(lib, c, clean), ExtractWith(lib, d, clean))))
  {
    LastPattern(lib, d, clean);
    NextPattern(lib, c, [d], clean);
    NextPattern(lib, b, [c, d], clean);
    NextPattern(lib, a, [b, c, d], clean);
    assert [a] + [b, c, d] == [a, b, c, d] && [b] + [c, d] == [b, c, d] && [c] + [d] == [c, d];
  }

  lemma NextPattern(lib: Libraries, p: Pattern, rest: seq<Pattern>, clean: string)
    ensures ExtractFrom(lib, [p] + rest, clean) == OrElse(ExtractWith(lib, p, clean), ExtractFrom(lib, rest, clean))
  {
    assert ([p] + rest)[1..] == rest;
  }

  lemma LastPattern(lib: Libraries, p: Pattern, clean: string)
    ensures ExtractFrom(lib, [p], clean) == ExtractWith(lib, p, clean)
  {
    assert [p][1..] == [];
  }

  // ----- What each pattern makes of each line -----

  /** Around its own address a pattern captures it, unless it has a scope. */
  lemma OwnLineCaptured(lib: Libraries, p: Pattern, prefix: string, a: SocketAddr, middle: string, tail: string, k: nat)
    requires Lawful(lib.six) && IsSocketAddr(a) && middle != [] && middle[0] == ' ' && p.after <= middle
    requires StandsOut(p, prefix) && Avoids(p, "", middle, k)
    ensures var s := prefix + (p.before + (PrintSocket(lib.six, a) + (middle + tail)));
      ExtractWith(lib, p, s) == if a.scope == 0 then Some((a.ip, p.offense)) else ExtractWith(lib, p, tail)
  {
    OwnLine(lib, p, prefix, a, middle, tail, k);
    ParsePrintIp(lib.six, a.ip);
  }

  lemma ElsewhereInTail(lib: Libraries, p: Pattern, before: string, a: SocketAddr, middle: string, tail: string, k: nat)
    requires Lawful(lib.six) && IsSocketAddr(a) && Avoids(p, before, middle, k)
    ensures ExtractWith(lib, p, before + (PrintSocket(lib.six, a) + (middle + tail))) == ExtractWith(lib, p, tail)
  {
    SkipAround(lib, p, before, a, middle, tail, k);
  }

  lemma NothingAfter(lib: Libraries, p: Pattern, middle: string)
    requires p.before != []
    ensures ExtractWith(lib, p, []) == None && middle + [] == middle
  {
    NothingInNothing(lib, p);
  }

  lemma Elsewhere(lib: Libraries, p: Pattern, before: string, a: SocketAddr, middle: string, k: nat)
    requires Lawful(lib.six) && IsSocketAddr(a) && Lacking(p, before, middle, k)
    ensures ExtractWith(lib, p, before + (PrintSocket(lib.six, a) + middle)) == None
  {
    LacksAround(before, lib.six, a, middle, p.before[k], p.before[k + 1]);
    NothingIn(lib, p, before + (PrintSocket(lib.six, a) + middle), k);
  }

  lemma NothingIn(lib: Libraries, p: Pattern, text: string, k: nat)
    requires k + 1 < |p.before| && Lacks(text, p.before[k], p.before[k + 1])
    ensures ExtractWith(lib, p, text) == None
  {
    FindNothing(Items(lib, p), p.before, AddrThen(lib, p.after), text, k);
  }

  lemma OwnRejection(lib: Libraries, p: Pattern, prefix: string, a: SocketAddr, k: nat)
    requires Lawful(lib.six) && IsSocketAddr(a) && StandsOut(p, prefix) && Avoids(p, "", p.after, k)
    ensures ExtractWith(lib, p, prefix + (p.before + (PrintSocket(lib.six, a) + p.after)))
         == if a.scope == 0 then Some((a.ip, p.offense)) else None
  {
    OwnLineCaptured(lib, p, prefix, a, p.after, [], k);
    NothingAfter(lib, p, p.after);
  }

  lemma Joins(a: string, b: string, joined: string, rest: string)
    requires a + b == joined
    ensures a + (b + rest) == joined + rest
  {
  }

  /** The extractor asks the patterns in turn. */
  lemma AskedInTurn(lib: Libraries, line: string, clean: string)
    requires StripAnsi(line) == clean
    ensures ExtractOffense(lib, line)
         == OrElse(ExtractWith(lib, CONTROL_REJECTED, clean),
                   OrElse(ExtractWith(lib, DATA_REJECTED, clean),
                          OrElse(ExtractWith(lib, CONTROL_FAILED, clean), ExtractWith(lib, UDP_FAILED, clean))))
  {
    FourPatterns(lib, CONTROL_REJECTED, DATA_REJECTED, CONTROL_FAILED, UDP_FAILED, clean);
  }

  lemma OwnLineMissed(lib: Libraries, p: Pattern, prefix: string, a: SocketAddr, middle: string, k: nat)
    requires Lawful(lib.six) && IsSocketAddr(a) && middle != [] && middle[0] == ' ' && !(p.after <= middle)
    requires StandsOut(p, prefix) && Avoids(p, "", middle, k)
    ensures ExtractWith(lib, p, prefix + (p.before + (PrintSocket(lib.six, a) + middle))) == None
  {
    NothingAfter(lib, p, middle);
    OwnLine(lib, p, prefix, a, middle, [], k);
  }

  lemma Unprefixed(s: string)
    ensures "" + s == s
  {
  }

  lemma StripPlain(text: string)
    requires ESC !in text
    ensures StripAnsi(text) == text
  {
    StripText(text, []);
    assert text + [] == text && text + StripAnsi([]) == text;
  }

  // ----- Rejections -----

  lemma ControlRejectionOwn(lib: Libraries, a: SocketAddr, s: string)
    requires Lawful(lib.six) && IsSocketAddr(a) && s == "ghostport: " + ControlRejected(lib, a)
    ensures ExtractWith(lib, CONTROL_REJECTED, s) == if a.scope == 0 then Some((a.ip, Firewall.RateLimited)) else None
  {
    ControlRejectionStandsOut();
    ControlRejectionAvoidsControlRejected();
    OwnRejection(lib, CONTROL_REJECTED, "ghostport: ", a, 0);
  }

  lemma ControlRejectionText(lib: Libraries, a: SocketAddr)
    ensures "ghostport: " + ControlRejected(lib, a) == "ghostport: control: rejected " + (PrintSocket(lib.six, a) + TOO_MANY)
  {
    Joins("ghostport: ", "control: rejected ", "ghostport: control: rejected ", PrintSocket(lib.six, a) + TOO_MANY);
  }

  lemma ControlRejectionOthers(lib: Libraries, a: SocketAddr, s: string)
    requires Lawful(lib.six) && IsSocketAddr(a) && s == "ghostport: control: rejected " + (PrintSocket(lib.six, a) + TOO_MANY)
    ensures ExtractWith(lib, DATA_REJECTED, s) == ExtractWith(lib, CONTROL_FAILED, s) == ExtractWith(lib, UDP_FAILED, s) == None
  {
    ControlRejectionLacksDataRejected();
    Elsewhere(lib, DATA_REJECTED, "ghostport: control: rejected ", a, TOO_MANY, 2);
    ControlRejectionLacksControlFailed();
    Elsewhere(lib, CONTROL_FAILED, "ghostport: control: rejected ", a, TOO_MANY, 19);
    ControlRejectionLacksUdpFailed();
    Elsewhere(lib, UDP_FAILED, "ghostport: control: rejected ", a, TOO_MANY, 8);
  }

  lemma DataRejectionOwn(lib: Libraries, a: SocketAddr, s: string)
    requires Lawful(lib.six) && IsSocketAddr(a) && s == "ghostport: " + DataRejected(lib, a)
    ensures ExtractWith(lib, DATA_REJECTED, s) == if a.scope == 0 then Some((a.ip, Firewall.RateLimited)) else None
  {
    DataRejectionStandsOut();
    DataRejectionAvoidsDataRejected();
    OwnRejection(lib, DATA_REJECTED, "ghostport: ", a, 2);
  }

  lemma DataRejectionText(lib: Libraries, a: SocketAddr)
    ensures "ghostport: " + DataRejected(lib, a) == "ghostport: data: rejected " + (PrintSocket(lib.six, a) + TOO_MANY)
  {
    Joins("ghostport: ", "data: rejected ", "ghostport: data: rejected ", PrintSocket(lib.six, a) + TOO_MANY);
  }

  lemma DataRejectionOthers(lib: Libraries, a: SocketAddr, s: string)
    requires Lawful(lib.six) && IsSocketAddr(a) && s == "ghostport: data: rejected " + (PrintSocket(lib.six, a) + TOO_MANY)
    ensures ExtractWith(lib, CONTROL_REJECTED, s) == ExtractWith(lib, CONTROL_FAILED, s) == ExtractWith(lib, UDP_FAILED, s) == None
  {
    DataRejectionLacksControlRejected();
    Elsewhere(lib, CONTROL_REJECTED, "ghostport: data: rejected ", a, TOO_MANY, 0);
    DataRejectionLacksControlFailed();
    Elsewhere(lib, CONTROL_FAILED, "ghostport: data: rejected ", a, TOO_MANY, 0);
    DataRejectionLacksUdpFailed();
    Elsewhere(lib, UDP_FAILED, "ghostport: data: rejected ", a, TOO_MANY, 8);
  }

  /** Colour codes around a whole message leave no trace. */
  lemma MessageStripped(color: seq<string>, message: string, reset: seq<string>)
    requires Codes(color) && Codes(reset) && ESC !in message
    ensures StripAnsi(Line(color, message, reset)) == "ghostport: " + message
  {
    LineStripped(color, message, [], reset);
    assert message + [] == message;
  }

  lemma NoEscape(lib: Libraries, before: string, a: SocketAddr, after: string)
    requires Lawful(lib.six) && IsSocketAddr(a) && ESC !in before && ESC !in after
    ensures ESC !in before + (PrintSocket(lib.six, a) + after)
  {
    SocketChars(lib.six, a);
  }

  lemma ControlRejectionPlain(lib: Libraries, a: SocketAddr)
    requires Lawful(lib.six) && IsSocketAddr(a)
    ensures ESC !in ControlRejected(lib, a)
  {
    NoEscape(lib, "control: rejected ", a, TOO_MANY);
  }

  lemma ControlRejectionStripped(lib: Libraries, a: SocketAddr, color: seq<string>, reset: seq<string>)
    requires Lawful(lib.six) && IsSocketAddr(a) && Codes(color) && Codes(reset)
    ensures StripAnsi(Line(color, ControlRejected(lib, a), reset)) == "ghostport: " + ControlRejected(lib, a)
  {
    ControlRejectionPlain(lib, a);
    MessageStripped(color, ControlRejected(lib, a), reset);
  }

  lemma DataRejectionStripped(lib: Libraries, a: SocketAddr, color: seq<string>, reset: seq<string>)
    requires Lawful(lib.six) && IsSocketAddr(a) && Codes(color) && Codes(reset)
    ensures StripAnsi(Line(color, DataRejected(lib, a), reset)) == "ghostport: " + DataRejected(lib, a)
  {
    NoEscape(lib, "data: rejected ", a, TOO_MANY);
    MessageStripped(color, DataRejected(lib, a), reset);
  }

  /** Every printed rejection, in any colour, gives its address; unless that has a scope, which the patterns miss. */
  lemma ControlRejectionExtracted(lib: Libraries, a: SocketAddr, color: seq<string>, reset: seq<string>)
    requires Lawful(lib.six) && IsSocketAddr(a) && Codes(color) && Codes(reset)
    ensures ExtractOffense(lib, Line(color, ControlRejected(lib, a), reset))
         == if a.scope == 0 then Some((a.ip, Firewall.RateLimited)) else None
  {
    ControlRejectionStripped(lib, a, color, reset);
    var s := "ghostport: " + ControlRejected(lib, a);
    ControlRejectionOwn(lib, a, s);
    ControlRejectionText(lib, a);
    ControlRejectionOthers(lib, a, s);
    AskedInTurn(lib, Line(color, ControlRejected(lib, a), reset), s);
  }

  lemma DataRejectionExtracted(lib: Libraries, a: SocketAddr, color: seq<string>, reset: seq<string>)
    requires Lawful(lib.six) && IsSocketAddr(a) && Codes(color) && Codes(reset)
    ensures ExtractOffense(lib, Line(color, DataRejected(lib, a), reset))
         == if a.scope == 0 then Some((a.ip, Firewall.RateLimited)) else None
  {
    DataRejectionStripped(lib, a, color, reset);
    var s := "ghostport: " + DataRejected(lib, a);
    DataRejectionOwn(lib, a, s);
    DataRejectionText(lib, a);
    DataRejectionOthers(lib, a, s);
    AskedInTurn(lib, Line(color, DataRejected(lib, a), reset), s);
  }

  // ----- Failed handshakes -----

  lemma ControlFailureStripped(lib: Libraries, a: SocketAddr, error: string, color: seq<string>, reset: seq<string>)
    requires Lawful(lib.six) && IsSocketAddr(a) && Codes(color) && Codes(reset)
    ensures StripAnsi(Line(color, ControlFailed(lib, a, error), reset)) == "ghostport: " + ControlFailed(lib, a, StripAnsi(error))
  {
    var t := PrintSocket(lib.six, a);
    NoEscape(lib, "control: handshake with ", a, " failed: ");
    LineStripped(color, "control: handshake with " + (t + " failed: "), error, reset);
    Reassociate("control: handshake with ", t, " failed: ", error);
    Reassociate("control: handshake with ", t, " failed: ", StripAnsi(error));
  }

  lemma ControlFailureOwn(lib: Libraries, a: SocketAddr, tail: string, s: string)
    requires Lawful(lib.six) && IsSocketAddr(a) && s == "ghostport: " + ControlFailed(lib, a, tail)
    ensures ExtractWith(lib, CONTROL_FAILED, s)
         == if a.scope == 0 then Some((a.ip, Firewall.HandshakeFailed)) else ExtractWith(lib, CONTROL_FAILED, tail)
  {
    ControlFailureStandsOut();
    ControlFailureAvoidsControlFailed();
    OwnLineCaptured(lib, CONTROL_FAILED, "ghostport: ", a, " failed: ", tail, 0);
  }

  lemma ControlFailureText(lib: Libraries, a: SocketAddr, tail: string)
    ensures "ghostport: " + ControlFailed(lib, a, tail)
         == "ghostport: control: handshake with " + (PrintSocket(lib.six, a) + (" failed: " + tail))
  {
    HandshakeWith();
    Joins("ghostport: ", "control: handshake with ", "ghostport: control: handshake with ",
          PrintSocket(lib.six, a) + (" failed: " + tail));
  }

  lemma ControlFailureOthers(lib: Libraries, a: SocketAddr, tail: string, s: string)
    requires Lawful(lib.six) && IsSocketAddr(a)
    requires s == "ghostport: control: handshake with " + (PrintSocket(lib.six, a) + (" failed: " + tail))
    ensures ExtractWith(lib, CONTROL_REJECTED, s) == ExtractWith(lib, CONTROL_REJECTED, tail)
    ensures ExtractWith(lib, DATA_REJECTED, s) == ExtractWith(lib, DATA_REJECTED, tail)
    ensures ExtractWith(lib, UDP_FAILED, s) == ExtractWith(lib, UDP_FAILED, tail)
  {
    ControlFailureAvoidsControlRejected();
    ElsewhereInTail(lib, CONTROL_REJECTED, "ghostport: control: handshake with ", a, " failed: ", tail, 8);
    ControlFailureAvoidsDataRejected();
    ElsewhereInTail(lib, DATA_REJECTED, "ghostport: control: handshake with ", a, " failed: ", tail, 1);
    ControlFailureAvoidsUdpFailed();
    ElsewhereInTail(lib, UDP_FAILED, "ghostport: control: handshake with ", a, " failed: ", tail, 8);
  }

  /** A failed control handshake gives its address, except that the rejection patterns are asked first, on the error text. */
  lemma ControlFailureExtracted(lib: Libraries, a: SocketAddr, error: string, color: seq<string>, reset: seq<string>)
    requires Lawful(lib.six) && IsSocketAddr(a) && Codes(color) && Codes(reset)
    ensures var tail := StripAnsi(error);
      ExtractOffense(lib, Line(color, ControlFailed(lib, a, error), reset))
      == OrElse(ExtractWith(lib, CONTROL_REJECTED, tail),
                OrElse(ExtractWith(lib, DATA_REJECTED, tail),
                       if a.scope == 0 then Some((a.ip, Firewall.HandshakeFailed))
                       else OrElse(ExtractWith(lib, CONTROL_FAILED, tail), ExtractWith(lib, UDP_FAILED, tail))))
  {
    var tail := StripAnsi(error);
    var s := "ghostport: " + ControlFailed(lib, a, tail);
    ControlFailureStripped(lib, a, error, color, reset);
    ControlFailureOwn(lib, a, tail, s);
    ControlFailureText(lib, a, tail);
    ControlFailureOthers(lib, a, tail, s);
    AskedInTurn(lib, Line(color, ControlFailed(lib, a, error), reset), s);
  }

  /** So the line is read as promised exactly when the error text does not read as a rejection. */
  lemma ControlFailureCorrectIff(lib: Libraries, a: SocketAddr, error: string, color: seq<string>, reset: seq<string>)
    requires Lawful(lib.six) && IsSocketAddr(a) && a.scope == 0 && Codes(color) && Codes(reset)
    ensures ExtractOffense(lib, Line(color, ControlFailed(lib, a, error), reset)) == Some((a.ip, Firewall.HandshakeFailed))
       <==> ExtractWith(lib, CONTROL_REJECTED, StripAnsi(error)) == None && ExtractWith(lib, DATA_REJECTED, StripAnsi(error)) == None
  {
    ControlFailureExtracted(lib, a, error, color, reset);
  }

  /** In particular when the error does not say "rejected", or any other word with a j before an e. */
  lemma ControlFailureReported(lib: Libraries, a: SocketAddr, error: string, color: seq<string>, reset: seq<string>)
    requires Lawful(lib.six) && IsSocketAddr(a) && a.scope == 0 && Codes(color) && Codes(reset)
    requires Lacks(StripAnsi(error), 'j', 'e')
    ensures ExtractOffense(lib, Line(color, ControlFailed(lib, a, error), reset)) == Some((a.ip, Firewall.HandshakeFailed))
  {
    ControlFailureCorrectIff(lib, a, error, color, reset);
    NoRejectionIn(lib, StripAnsi(error));
  }

  lemma NoRejectionIn(lib: Libraries, text: string)
    requires Lacks(text, 'j', 'e')
    ensures ExtractWith(lib, CONTROL_REJECTED, text) == None && ExtractWith(lib, DATA_REJECTED, text) == None
  {
    RejectionPairs();
    NothingIn(lib, CONTROL_REJECTED, text, 11);
    NothingIn(lib, DATA_REJECTED, text, 8);
  }

  /** What a wrong key prints on the control port: always reported under the peer's own address. */
  lemma WrongKeyReported(lib: Libraries, a: SocketAddr, color: seq<string>, reset: seq<string>)
    requires Lawful(lib.six) && IsSocketAddr(a) && a.scope == 0 && Codes(color) && Codes(reset)
    ensures ExtractOffense(lib, Line(color, ControlFailed(lib, a, NO_MATCH), reset)) == Some((a.ip, Firewall.HandshakeFailed))
  {
    NoMatchLacksRejection();
    StripPlain(NO_MATCH);
    ControlFailureReported(lib, a, NO_MATCH, color, reset);
  }

  lemma UdpFailureStripped(lib: Libraries, a: SocketAddr, name: string, error: string)
    requires Lawful(lib.six) && IsSocketAddr(a)
    ensures StripAnsi(UdpFailed(lib, a, name, error))
         == "ghostport-udp: handshake with " + (PrintSocket(lib.six, a) + (" (" + StripAnsi(Blame(name, error))))
  {
    var t := PrintSocket(lib.six, a);
    NoEscape(lib, "ghostport-udp: handshake with ", a, " (");
    StripText("ghostport-udp: handshake with " + (t + " ("), Blame(name, error));
    Reassociate("ghostport-udp: handshake with ", t, " (", Blame(name, error));
    Reassociate("ghostport-udp: handshake with ", t, " (", StripAnsi(Blame(name, error)));
  }

  lemma UdpFailureOwn(lib: Libraries, a: SocketAddr, tail: string, s: string)
    requires Lawful(lib.six) && IsSocketAddr(a)
    requires s == "ghostport-udp: handshake with " + (PrintSocket(lib.six, a) + (" (" + tail))
    ensures ExtractWith(lib, UDP_FAILED, s)
         == if a.scope == 0 then Some((a.ip, Firewall.HandshakeFailed)) else ExtractWith(lib, UDP_FAILED, tail)
  {
    UdpFailureStandsOut();
    UdpFailureAvoidsUdpFailed();
    OwnLineCaptured(lib, UDP_FAILED, "", a, " (", tail, 0);
    Unprefixed(s);
  }

  lemma UdpFailureOthers(lib: Libraries, a: SocketAddr, tail: string, s: string)
    requires Lawful(lib.six) && IsSocketAddr(a)
    requires s == "ghostport-udp: handshake with " + (PrintSocket(lib.six, a) + (" (" + tail))
    ensures ExtractWith(lib, CONTROL_REJECTED, s) == ExtractWith(lib, CONTROL_REJECTED, tail)
    ensures ExtractWith(lib, DATA_REJECTED, s) == ExtractWith(lib, DATA_REJECTED, tail)
    ensures ExtractWith(lib, CONTROL_FAILED, s) == ExtractWith(lib, CONTROL_FAILED, tail)
  {
    UdpFailureAvoidsControlRejected();
    ElsewhereInTail(lib, CONTROL_REJECTED, "ghostport-udp: handshake with ", a, " (", tail, 0);
    UdpFailureAvoidsDataRejected();
    ElsewhereInTail(lib, DATA_REJECTED, "ghostport-udp: handshake with ", a, " (", tail, 1);
    UdpFailureAvoidsControlFailed();
    ElsewhereInTail(lib, CONTROL_FAILED, "ghostport-udp: handshake with ", a, " (", tail, 0);
  }

  /** The same for a failed UDP handshake, whose pattern is asked last. */
  lemma UdpFailureExtracted(lib: Libraries, a: SocketAddr, name: string, error: string)
    requires Lawful(lib.six) && IsSocketAddr(a)
    ensures var tail := StripAnsi(Blame(name, error));
      ExtractOffense(lib, UdpFailed(lib, a, name, error))
      == OrElse(ExtractWith(lib, CONTROL_REJECTED, tail),
                OrElse(ExtractWith(lib, DATA_REJECTED, tail),
                       OrElse(ExtractWith(lib, CONTROL_FAILED, tail),
                              if a.scope == 0 then Some((a.ip, Firewall.HandshakeFailed))
                              else ExtractWith(lib, UDP_FAILED, tail))))
  {
    var tail := StripAnsi(Blame(name, error));
    UdpFailureStripped(lib, a, name, error);
    var s := StripAnsi(UdpFailed(lib, a, name, error));
    UdpFailureOwn(lib, a, tail, s);
    UdpFailureOthers(lib, a, tail, s);
    AskedInTurn(lib, UdpFailed(lib, a, name, error), s);
  }

  lemma NamesItsOffense(lib: Libraries, p: Pattern, text: string)
    ensures ExtractWith(lib, p, text).Some? ==> ExtractWith(lib, p, text).value.1 == p.offense
  {
  }

  lemma LastAnswerIff<A, B>(x: Option<(A, B)>, y: Option<(A, B)>, z: Option<(A, B)>, answer: (A, B))
    requires x.Some? ==> x.value.1 != answer.1
    requires y.Some? ==> y.value.1 != answer.1
    ensures OrElse(x, OrElse(y, OrElse(z, Some(answer)))) == Some(answer) <==>
              x == None && y == None && (z == None || z == Some(answer))
  {
  }

  /** It is read as promised exactly when name and error do not read as a rejection or as another address's failure. */
  lemma UdpFailureCorrectIff(lib: Libraries, a: SocketAddr, name: string, error: string)
    requires Lawful(lib.six) && IsSocketAddr(a) && a.scope == 0
    ensures var tail, answer := StripAnsi(Blame(name, error)), Some((a.ip, Firewall.HandshakeFailed));
      ExtractOffense(lib, UdpFailed(lib, a, name, error)) == answer
      <==> && ExtractWith(lib, CONTROL_REJECTED, tail) == None
           && ExtractWith(lib, DATA_REJECTED, tail) == None
           && (ExtractWith(lib, CONTROL_FAILED, tail) == None || ExtractWith(lib, CONTROL_FAILED, tail) == answer)
  {
    var tail := StripAnsi(Blame(name, error));
    UdpFailureExtracted(lib, a, name, error);
    NamesItsOffense(lib, CONTROL_REJECTED, tail);
    NamesItsOffense(lib, DATA_REJECTED, tail);
    LastAnswerIff(ExtractWith(lib, CONTROL_REJECTED, tail), ExtractWith(lib, DATA_REJECTED, tail),
                  ExtractWith(lib, CONTROL_FAILED, tail), (a.ip, Firewall.HandshakeFailed));
  }

  /** In particular when name and error have neither "je" nor "l:" in them. */
  lemma UdpFailureReported(lib: Libraries, a: SocketAddr, name: string, error: string)
    requires Lawful(lib.six) && IsSocketAddr(a) && a.scope == 0
    requires Lacks(StripAnsi(Blame(name, error)), 'j', 'e') && Lacks(StripAnsi(Blame(name, error)), 'l', ':')
    ensures ExtractOffense(lib, UdpFailed(lib, a, name, error)) == Some((a.ip, Firewall.HandshakeFailed))
  {
    UdpFailureCorrectIff(lib, a, name, error);
    NoRejectionIn(lib, StripAnsi(Blame(name, error)));
    FailurePair();
    NothingIn(lib, CONTROL_FAILED, StripAnsi(Blame(name, error)), 6);
  }

  /** A peer whose configured name quotes a rejection of another address has its failures reported as that rejection. */
  lemma UdpFailureMisread(lib: Libraries, a: SocketAddr, b: SocketAddr, error: string)
    requires Lawful(lib.six) && IsSocketAddr(a) && IsSocketAddr(b) && b.scope == 0
    ensures ExtractOffense(lib, UdpFailed(lib, a, ControlRejected(lib, b), error)) == Some((b.ip, Firewall.RateLimited))
  {
    var name := ControlRejected(lib, b);
    UdpFailureExtracted(lib, a, name, error);
    QuotedName(lib, b, error);
    QuotedRejection(lib, b, StripAnsi("\") failed: " + error));
  }

  lemma QuotedName(lib: Libraries, b: SocketAddr, error: string)
    requires Lawful(lib.six) && IsSocketAddr(b)
    ensures StripAnsi(Blame(ControlRejected(lib, b), error))
         == "\"" + (ControlRejected(lib, b) + StripAnsi("\") failed: " + error))
  {
    ControlRejectionPlain(lib, b);
    BlameStripped(ControlRejected(lib, b), error);
  }

  lemma BlameStripped(name: string, error: string)
    requires ESC !in name
    ensures StripAnsi(Blame(name, error)) == "\"" + (name + StripAnsi("\") failed: " + error))
  {
    var rest := "\") failed: " + error;
    assert Blame(name, error) == "\"" + (name + rest);
    StripText("\"", name + rest);
    StripText(name, rest);
  }

  lemma QuotedRejection(lib: Libraries, b: SocketAddr, rest: string)
    requires Lawful(lib.six) && IsSocketAddr(b) && b.scope == 0
    ensures ExtractWith(lib, CONTROL_REJECTED, "\"" + (ControlRejected(lib, b) + rest)) == Some((b.ip, Firewall.RateLimited))
  {
    QuotedStandsOut();
    ControlRejectionAvoidsControlRejected();
    OwnLineCaptured(lib, CONTROL_REJECTED, "\"", b, TOO_MANY, rest, 0);
    Reassociate("control: rejected ", PrintSocket(lib.six, b), TOO_MANY, rest);
  }

  // ----- Timeouts and other lines -----

  lemma ControlTimeoutStripped(lib: Libraries, a: SocketAddr, color: seq<string>, reset: seq<string>)
    requires Lawful(lib.six) && IsSocketAddr(a) && Codes(color) && Codes(reset)
    ensures StripAnsi(Line(color, ControlTimedOut(lib, a), reset)) == "ghostport: " + ControlTimedOut(lib, a)
  {
    NoEscape(lib, "control: handshake with ", a, " timed out");
    MessageStripped(color, ControlTimedOut(lib, a), reset);
  }

  lemma ControlTimeoutOwn(lib: Libraries, a: SocketAddr, s: string)
    requires Lawful(lib.six) && IsSocketAddr(a) && s == "ghostport: " + ControlTimedOut(lib, a)
    ensures ExtractWith(lib, CONTROL_FAILED, s) == None
  {
    ControlFailureStandsOut();
    ControlTimeoutAvoidsControlFailed();
    ControlTimeoutNotFailed();
    OwnLineMissed(lib, CONTROL_FAILED, "ghostport: ", a, " timed out", 0);
  }

  lemma ControlTimeoutText(lib: Libraries, a: SocketAddr)
    ensures "ghostport: " + ControlTimedOut(lib, a)
         == "ghostport: control: handshake with " + (PrintSocket(lib.six, a) + " timed out")
  {
    HandshakeWith();
    Joins("ghostport: ", "control: handshake with ", "ghostport: control: handshake with ",
          PrintSocket(lib.six, a) + " timed out");
  }

  lemma ControlTimeoutOthers(lib: Libraries, a: SocketAddr, s: string)
    requires Lawful(lib.six) && IsSocketAddr(a)
    requires s == "ghostport: control: handshake with " + (PrintSocket(lib.six, a) + " timed out")
    ensures ExtractWith(lib, CONTROL_REJECTED, s) == ExtractWith(lib, DATA_REJECTED, s) == ExtractWith(lib, UDP_FAILED, s) == None
  {
    ControlTimeoutLacksControlRejected();
    Elsewhere(lib, CONTROL_REJECTED, "ghostport: control: handshake with ", a, " timed out", 8);
    ControlTimeoutLacksDataRejected();
    Elsewhere(lib, DATA_REJECTED, "ghostport: control: handshake with ", a, " timed out", 1);
    ControlTimeoutLacksUdpFailed();
    Elsewhere(lib, UDP_FAILED, "ghostport: control: handshake with ", a, " timed out", 8);
  }

  /** Timeouts are no offense. */
  lemma ControlTimeoutIgnored(lib: Libraries, a: SocketAddr, color: seq<string>, reset: seq<string>)
    requires Lawful(lib.six) && IsSocketAddr(a) && Codes(color) && Codes(reset)
    ensures ExtractOffense(lib, Line(color, ControlTimedOut(lib, a), reset)) == None
  {
    var s := "ghostport: " + ControlTimedOut(lib, a);
    ControlTimeoutStripped(lib, a, color, reset);
    ControlTimeoutOwn(lib, a, s);
    ControlTimeoutText(lib, a);
    ControlTimeoutOthers(lib, a, s);
    AskedInTurn(lib, Line(color, ControlTimedOut(lib, a), reset), s);
  }

  lemma DataLineStripped(lib: Libraries, a: SocketAddr, report: string, color: seq<string>, reset: seq<string>)
    requires Lawful(lib.six) && IsSocketAddr(a) && Codes(color) && Codes(reset) && ESC !in report
    ensures StripAnsi(Line(color, DataLine(lib, a, report), reset))
         == "ghostport: data connection from " + (PrintSocket(lib.six, a) + report)
  {
    NoEscape(lib, "data connection from ", a, report);
    MessageStripped(color, DataLine(lib, a, report), reset);
    ConnectionFrom();
    Joins("ghostport: ", "data connection from ", "ghostport: data connection from ", PrintSocket(lib.six, a) + report);
  }

  lemma DataLineRejections(lib: Libraries, a: SocketAddr, report: string, s: string)
    requires Lawful(lib.six) && IsSocketAddr(a) && Quiet(report)
    requires s == "ghostport: data connection from " + (PrintSocket(lib.six, a) + report)
    ensures ExtractWith(lib, CONTROL_REJECTED, s) == ExtractWith(lib, DATA_REJECTED, s) == None
  {
    DataLineLacksControlRejected();
    ControlRejectedPair();
    Elsewhere(lib, CONTROL_REJECTED, "ghostport: data connection from ", a, report, 3);
    DataLineLacksDataRejected();
    DataRejectedPair();
    Elsewhere(lib, DATA_REJECTED, "ghostport: data connection from ", a, report, 5);
  }

  lemma DataLineFailures(lib: Libraries, a: SocketAddr, report: string, s: string)
    requires Lawful(lib.six) && IsSocketAddr(a) && Quiet(report)
    requires s == "ghostport: data connection from " + (PrintSocket(lib.six, a) + report)
    ensures ExtractWith(lib, CONTROL_FAILED, s) == ExtractWith(lib, UDP_FAILED, s) == None
  {
    DataLineLacksControlFailed();
    ControlFailedPair();
    Elsewhere(lib, CONTROL_FAILED, "ghostport: data connection from ", a, report, 3);
    DataLineLacksUdpFailed();
    UdpFailedPair();
    Elsewhere(lib, UDP_FAILED, "ghostport: data connection from ", a, report, 8);
  }

  lemma DataLineIgnored(lib: Libraries, a: SocketAddr, report: string, color: seq<string>, reset: seq<string>)
    requires Lawful(lib.six) && IsSocketAddr(a) && Codes(color) && Codes(reset) && Quiet(report) && ESC !in report
    ensures ExtractOffense(lib, Line(color, DataLine(lib, a, report), reset)) == None
  {
    var s := "ghostport: data connection from " + (PrintSocket(lib.six, a) + report);
    DataLineStripped(lib, a, report, color, reset);
    DataLineRejections(lib, a, report, s);
    DataLineFailures(lib, a, report, s);
    AskedInTurn(lib, Line(color, DataLine(lib, a, report), reset), s);
  }

  lemma DataTimeoutIgnored(lib: Libraries, a: SocketAddr, color: seq<string>, reset: seq<string>)
    requires Lawful(lib.six) && IsSocketAddr(a) && Codes(color) && Codes(reset)
    ensures ExtractOffense(lib, Line(color, DataLine(lib, a, ": handshake timed out"), reset)) == None
  {
    TimeoutQuiet();
    DataLineIgnored(lib, a, ": handshake timed out", color, reset);
  }

  /** What a wrong key prints on the data port matches no pattern, so it is never counted. */
  lemma DataWrongKeyIgnored(lib: Libraries, a: SocketAddr, color: seq<string>, reset: seq<string>)
    requires Lawful(lib.six) && IsSocketAddr(a) && Codes(color) && Codes(reset)
    ensures ExtractOffense(lib, Line(color, DataLine(lib, a, ": no configured peer matched"), reset)) == None
  {
    NoMatchQuiet();
    DataLineIgnored(lib, a, ": no configured peer matched", color, reset);
  }

  lemma UdpTimeoutPlain(lib: Libraries, a: SocketAddr)
    requires Lawful(lib.six) && IsSocketAddr(a)
    ensures StripAnsi(UdpTimedOut(lib, a)) == UdpTimedOut(lib, a)
  {
    NoEscape(lib, "ghostport-udp: ", a, LATE + HELLO);
    StripPlain(UdpTimedOut(lib, a));
  }

  lemma UdpTimeoutRejections(lib: Libraries, a: SocketAddr, s: string)
    requires Lawful(lib.six) && IsSocketAddr(a) && s == "ghostport-udp: " + (PrintSocket(lib.six, a) + (LATE + HELLO))
    ensures ExtractWith(lib, CONTROL_REJECTED, s) == ExtractWith(lib, DATA_REJECTED, s) == None
  {
    UdpTimeoutLacksControlRejected();
    Elsewhere(lib, CONTROL_REJECTED, "ghostport-udp: ", a, LATE + HELLO, 0);
    UdpTimeoutLacksDataRejected();
    Elsewhere(lib, DATA_REJECTED, "ghostport-udp: ", a, LATE + HELLO, 2);
  }

  lemma UdpTimeoutFailures(lib: Libraries, a: SocketAddr, s: string)
    requires Lawful(lib.six) && IsSocketAddr(a) && s == "ghostport-udp: " + (PrintSocket(lib.six, a) + (LATE + HELLO))
    ensures ExtractWith(lib, CONTROL_FAILED, s) == ExtractWith(lib, UDP_FAILED, s) == None
  {
    UdpTimeoutLacksControlFailed();
    Elsewhere(lib, CONTROL_FAILED, "ghostport-udp: ", a, LATE + HELLO, 0);
    UdpTimeoutLacksUdpFailed();
    Elsewhere(lib, UDP_FAILED, "ghostport-udp: ", a, LATE + HELLO, 25);
  }

  lemma UdpTimeoutIgnored(lib: Libraries, a: SocketAddr)
    requires Lawful(lib.six) && IsSocketAddr(a)
    ensures ExtractOffense(lib, UdpTimedOut(lib, a)) == None
  {
    UdpTimeoutPlain(lib, a);
    UdpTimeoutRejections(lib, a, UdpTimedOut(lib, a));
    UdpTimeoutFailures(lib, a, UdpTimedOut(lib, a));
    AskedInTurn(lib, UdpTimedOut(lib, a), UdpTimedOut(lib, a));
  }
}
