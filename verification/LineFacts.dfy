/**
 * Facts about fixed texts: where in a printed line each of the extractor's patterns cannot match. Every line is a text
 * before an address, the address, and a text after it; a pair of adjacent characters that a pattern needs and that the
 * line lacks rules the pattern out.
 */
module LineFacts {
  import opened Common
  import opened Regex
  import opened AddressText
  import opened ColorCodes
  import opened LogLines

  /** The last `n` characters of `text` are not `c`. */
  ghost predicate EndsWithout(text: string, n: nat, c: char)
  {
    n <= |text| && forall i :: |text| - n <= i < |text| ==> text[i] != c
  }

  /** Text before and after an address that lacks the pattern's pair number `k`, so that the pattern cannot match in it. */
  ghost predicate Lacking(p: Pattern, before: string, middle: string, k: nat)
  {
    && k + 1 < |p.before|
    && Lacks(before, p.before[k], p.before[k + 1])
    && Lacks(middle, p.before[k], p.before[k + 1])
    && (!IsSocketChar(p.before[k]) || !IsSocketChar(p.before[k + 1]))
    && (before != [] && before[|before| - 1] == p.before[k] ==> !IsSocketChar(p.before[k + 1]))
    && !IsDigit(p.before[k])
  }

  /** Such text in which no match can begin either, if more follows it. */
  ghost predicate Avoids(p: Pattern, before: string, middle: string, k: nat)
  {
    Lacking(p, before, middle, k) && EndsWithout(middle, k + 1, p.before[0])
  }

  /** A pattern whose literals do not recur within themselves or in the prefix of the line. */
  ghost predicate StandsOut(p: Pattern, prefix: string)
  {
    && |p.before| > 1
    && p.before[0] !in prefix
    && Lacks(p.before[1..], p.before[0], p.before[1])
    && p.before[|p.before| - 1] != p.before[0]
    && p.after != [] && p.after[0] == ' '
  }

  /** The text after the address in a rejection, and in a flow that never said hello. */
  const TOO_MANY := " (too many recent handshake attempts)"
  const LATE := ": timed out waiting for a "
  const HELLO := "StreamHello after the handshake"

  lemma ControlRejectionStandsOut()
    ensures StandsOut(CONTROL_REJECTED, "ghostport: ")
  {
  }

  lemma QuotedStandsOut()
    ensures StandsOut(CONTROL_REJECTED, "\"")
  {
  }

  lemma ControlRejectionAvoidsControlRejected()
    ensures Avoids(CONTROL_REJECTED, "", TOO_MANY, 0)
  {
  }

  lemma ControlRejectionLacksDataRejected()
    ensures Lacking(DATA_REJECTED, "ghostport: control: rejected ", TOO_MANY, 2)
  {
  }

  lemma ControlRejectionLacksControlFailed()
    ensures Lacking(CONTROL_FAILED, "ghostport: control: rejected ", TOO_MANY, 19)
  {
  }

  lemma ControlRejectionLacksUdpFailed()
    ensures Lacking(UDP_FAILED, "ghostport: control: rejected ", TOO_MANY, 8)
  {
  }

  lemma DataRejectionStandsOut()
    ensures StandsOut(DATA_REJECTED, "ghostport: ")
  {
  }

  lemma DataRejectionAvoidsDataRejected()
    ensures Avoids(DATA_REJECTED, "", TOO_MANY, 2)
  {
  }

  lemma DataRejectionLacksControlRejected()
    ensures Lacking(CONTROL_REJECTED, "ghostport: data: rejected ", TOO_MANY, 0)
  {
  }

  lemma DataRejectionLacksControlFailed()
    ensures Lacking(CONTROL_FAILED, "ghostport: data: rejected ", TOO_MANY, 0)
  {
  }

  lemma DataRejectionLacksUdpFailed()
    ensures Lacking(UDP_FAILED, "ghostport: data: rejected ", TOO_MANY, 8)
  {
  }

  lemma ControlFailureStandsOut()
    ensures StandsOut(CONTROL_FAILED, "ghostport: ")
  {
  }

  lemma ControlFailureAvoidsControlFailed()
    ensures Avoids(CONTROL_FAILED, "", " failed: ", 0)
  {
  }

  lemma ControlTimeoutAvoidsControlFailed()
    ensures Avoids(CONTROL_FAILED, "", " timed out", 0)
  {
  }

  lemma ControlFailureAvoidsControlRejected()
    ensures Avoids(CONTROL_REJECTED, "ghostport: control: handshake with ", " failed: ", 8)
  {
  }

  lemma ControlFailureAvoidsDataRejected()
    ensures Avoids(DATA_REJECTED, "ghostport: control: handshake with ", " failed: ", 1)
  {
  }

  lemma ControlFailureAvoidsUdpFailed()
    ensures Avoids(UDP_FAILED, "ghostport: control: handshake with ", " failed: ", 8)
  {
  }

  lemma ControlTimeoutLacksControlRejected()
    ensures Lacking(CONTROL_REJECTED, "ghostport: control: handshake with ", " timed out", 8)
  {
  }

  lemma ControlTimeoutLacksDataRejected()
    ensures Lacking(DATA_REJECTED, "ghostport: control: handshake with ", " timed out", 1)
  {
  }

  lemma ControlTimeoutLacksUdpFailed()
    ensures Lacking(UDP_FAILED, "ghostport: control: handshake with ", " timed out", 8)
  {
  }

  lemma UdpFailureStandsOut()
    ensures StandsOut(UDP_FAILED, "")
  {
  }

  lemma UdpFailureAvoidsUdpFailed()
    ensures Avoids(UDP_FAILED, "", " (", 0)
  {
  }

  lemma UdpFailureAvoidsControlRejected()
    ensures Avoids(CONTROL_REJECTED, "ghostport-udp: handshake with ", " (", 0)
  {
  }

  lemma UdpFailureAvoidsDataRejected()
    ensures Avoids(DATA_REJECTED, "ghostport-udp: handshake with ", " (", 1)
  {
  }

  lemma UdpFailureAvoidsControlFailed()
    ensures Avoids(CONTROL_FAILED, "ghostport-udp: handshake with ", " (", 0)
  {
  }

  lemma ControlTimeoutNotFailed()
    ensures !(CONTROL_FAILED.after <= " timed out")
  {
    assert CONTROL_FAILED.after[1] != " timed out"[1];
  }

  lemma HandshakeWith()
    ensures "ghostport: " + "control: handshake with " == "ghostport: control: handshake with "
  {
  }

  lemma ConnectionFrom()
    ensures "ghostport: " + "data connection from " == "ghostport: data connection from "
  {
  }

  // ----- Lines of the data listener, whatever they report -----

  lemma DataLineLacksControlRejected()
    ensures Lacking(CONTROL_REJECTED, "ghostport: data connection from ", "", 3)
  {
  }

  lemma DataLineLacksDataRejected()
    ensures Lacking(DATA_REJECTED, "ghostport: data connection from ", "", 5)
  {
  }

  lemma DataLineLacksControlFailed()
    ensures Lacking(CONTROL_FAILED, "ghostport: data connection from ", "", 3)
  {
  }

  lemma DataLineLacksUdpFailed()
    ensures Lacking(UDP_FAILED, "ghostport: data connection from ", "", 8)
  {
  }

  /** A report without the pairs "tr", " r" and "t-" reads as no offense. */
  ghost predicate Quiet(report: string)
  {
    Lacks(report, 't', 'r') && Lacks(report, ' ', 'r') && Lacks(report, 't', '-')
  }

  lemma ControlRejectedPair()
    ensures |CONTROL_REJECTED.before| > 4 && CONTROL_REJECTED.before[3] == 't' && CONTROL_REJECTED.before[4] == 'r'
  {
  }

  lemma DataRejectedPair()
    ensures |DATA_REJECTED.before| > 6 && DATA_REJECTED.before[5] == ' ' && DATA_REJECTED.before[6] == 'r'
  {
  }

  lemma ControlFailedPair()
    ensures |CONTROL_FAILED.before| > 4 && CONTROL_FAILED.before[3] == 't' && CONTROL_FAILED.before[4] == 'r'
  {
  }

  lemma UdpFailedPair()
    ensures |UDP_FAILED.before| > 9 && UDP_FAILED.before[8] == 't' && UDP_FAILED.before[9] == '-'
  {
  }

  lemma TimeoutQuiet()
    ensures Quiet(": handshake timed out")
  {
  }

  lemma NoMatchQuiet()
    ensures Quiet(": no configured peer matched")
  {
  }

  // ----- Error texts -----

  /** Every rejection says "rejected". */
  lemma RejectionPairs()
    ensures |CONTROL_REJECTED.before| > 12 && CONTROL_REJECTED.before[11] == 'j' && CONTROL_REJECTED.before[12] == 'e'
    ensures |DATA_REJECTED.before| > 9 && DATA_REJECTED.before[8] == 'j' && DATA_REJECTED.before[9] == 'e'
  {
  }

  lemma FailurePair()
    ensures |CONTROL_FAILED.before| > 7 && CONTROL_FAILED.before[6] == 'l' && CONTROL_FAILED.before[7] == ':'
  {
  }

  lemma NoMatchLacksRejection()
    ensures Lacks("no configured peer matched", 'j', 'e') && ESC !in "no configured peer matched"
  {
  }

  // ----- Sessions that never say hello -----

  lemma LateThenHello(p: Pattern, before: string, late: string, hello: string, k: nat)
    requires Lacking(p, before, late, k) && Lacking(p, "", hello, k)
    requires late != [] && late[|late| - 1] == ' ' && p.before[k] != ' '
    ensures Lacking(p, before, late + hello, k)
  {
    LacksConcat(late, hello, p.before[k], p.before[k + 1]);
  }

  lemma LateEnds()
    ensures |LATE| > 0 && LATE[|LATE| - 1] == ' '
  {
  }

  lemma LateLacksControlRejected()
    ensures Lacking(CONTROL_REJECTED, "ghostport-udp: ", LATE, 0) && CONTROL_REJECTED.before[0] == 'c'
  {
  }

  lemma HelloLacksControlRejected()
    ensures Lacking(CONTROL_REJECTED, "", HELLO, 0)
  {
  }

  lemma UdpTimeoutLacksControlRejected()
    ensures Lacking(CONTROL_REJECTED, "ghostport-udp: ", LATE + HELLO, 0)
  {
    LateLacksControlRejected();
    HelloLacksControlRejected();
    LateEnds();
    LateThenHello(CONTROL_REJECTED, "ghostport-udp: ", LATE, HELLO, 0);
  }

  lemma LateLacksDataRejected()
    ensures Lacking(DATA_REJECTED, "ghostport-udp: ", LATE, 2) && DATA_REJECTED.before[2] == 't'
  {
  }

  lemma HelloLacksDataRejected()
    ensures Lacking(DATA_REJECTED, "", HELLO, 2)
  {
  }

  lemma UdpTimeoutLacksDataRejected()
    ensures Lacking(DATA_REJECTED, "ghostport-udp: ", LATE + HELLO, 2)
  {
    LateLacksDataRejected();
    HelloLacksDataRejected();
    LateEnds();
    LateThenHello(DATA_REJECTED, "ghostport-udp: ", LATE, HELLO, 2);
  }

  lemma LateLacksControlFailed()
    ensures Lacking(CONTROL_FAILED, "ghostport-udp: ", LATE, 0) && CONTROL_FAILED.before[0] == 'c'
  {
  }

  lemma HelloLacksControlFailed()
    ensures Lacking(CONTROL_FAILED, "", HELLO, 0)
  {
  }

  lemma UdpTimeoutLacksControlFailed()
    ensures Lacking(CONTROL_FAILED, "ghostport-udp: ", LATE + HELLO, 0)
  {
    LateLacksControlFailed();
    HelloLacksControlFailed();
    LateEnds();
    LateThenHello(CONTROL_FAILED, "ghostport-udp: ", LATE, HELLO, 0);
  }

  lemma LateLacksUdpFailed()
    ensures Lacking(UDP_FAILED, "ghostport-udp: ", LATE, 25) && UDP_FAILED.before[25] == 'w'
  {
  }

  lemma HelloLacksUdpFailed()
    ensures Lacking(UDP_FAILED, "", HELLO, 25)
  {
  }

  lemma UdpTimeoutLacksUdpFailed()
    ensures Lacking(UDP_FAILED, "ghostport-udp: ", LATE + HELLO, 25)
  {
    LateLacksUdpFailed();
    HelloLacksUdpFailed();
    LateEnds();
    LateThenHello(UDP_FAILED, "ghostport-udp: ", LATE, HELLO, 25);
  }
}
