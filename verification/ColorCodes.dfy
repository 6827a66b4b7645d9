/** The colour codes around printed lines, and their removal (crates/ghostport-firewall/src/detector.rs). */
module ColorCodes {
  import opened Common

  const ESC: char := '\U{001B}'

  predicate IsParameter(c: char)
  {
    '0' <= c <= '9' || c == ';'
  }

  /** A complete SGR code. */
  predicate IsSgr(t: string)
  {
    && |t| >= 3 && t[0] == ESC && t[1] == '[' && t[|t| - 1] == 'm'
    && forall i :: 2 <= i < |t| - 1 ==> IsParameter(t[i])
  }

  function Parameters(s: string): (n: nat)
    ensures n <= |s|
  {
    if s != [] && IsParameter(s[0]) then 1 + Parameters(s[1..]) else 0
  }

  /** Length of the SGR code at the front of `s`, or 0. */
  function SgrLength(s: string): (n: nat)
    ensures n <= |s|
  {
    if |s| >= 2 && s[0] == ESC && s[1] == '[' then
      var n := 2 + Parameters(s[2..]);
      if n < |s| && s[n] == 'm' then n + 1 else 0
    else 0
  }

  function StripAnsi(s: string): string
    decreases |s|
  {
    if s == [] then []
    else if SgrLength(s) > 0 then StripAnsi(s[SgrLength(s)..])
    else [s[0]] + StripAnsi(s[1..])
  }

  lemma StripChar(c: char, s: string)
    requires c != ESC
    ensures StripAnsi([c] + s) == [c] + StripAnsi(s)
  {
    assert ([c] + s)[1..] == s;
  }

  lemma Peel(text: string, s: string)
    requires text != []
    ensures text + s == [text[0]] + (text[1..] + s)
  {
    assert text == [text[0]] + text[1..];
  }

  lemma {:induction false} StripText(text: string, s: string)
    requires ESC !in text
    ensures StripAnsi(text + s) == text + StripAnsi(s)
  {
    if text == [] {
      assert text + s == s;
    } else {
      var c, t := text[0], text[1..];
      StripText(t, s);
      StripChar(c, t + s);
      Peel(text, s);
      Peel(text, StripAnsi(s));
    }
  }

  lemma {:induction false} ParametersExact(t: string, c: char, s: string)
    requires (forall i :: 0 <= i < |t| ==> IsParameter(t[i])) && !IsParameter(c)
    ensures Parameters(t + [c] + s) == |t|
  {
    if t != [] {
      ParametersExact(t[1..], c, s);
      assert (t + [c] + s)[1..] == t[1..] + [c] + s;
    }
  }

  lemma StripCode(s: string, n: nat)
    requires n == SgrLength(s) > 0
    ensures StripAnsi(s) == StripAnsi(s[n..])
  {
  }

  lemma SgrLengthOf(code: string, s: string)
    requires IsSgr(code)
    ensures SgrLength(code + s) == |code|
  {
    var t, mid := code + s, code[2..|code| - 1];
    ParametersExact(mid, 'm', s);
    assert t[2..] == mid + ['m'] + s;
  }

  /** A code is recognised exactly where one stands, and in one length only. */
  lemma SgrLengthExact(s: string, n: nat)
    requires 0 < n <= |s|
    ensures SgrLength(s) == n <==> IsSgr(s[..n])
  {
    if IsSgr(s[..n]) {
      SgrLengthOf(s[..n], s[n..]);
      assert s == s[..n] + s[n..];
    }
    if SgrLength(s) == n {
      ParametersAll(s[2..]);
      assert forall i :: 2 <= i < n - 1 ==> s[i] == s[2..][i - 2];
    }
  }

  lemma {:induction false} ParametersAll(s: string)
    ensures forall i :: 0 <= i < Parameters(s) ==> IsParameter(s[i])
  {
    if s != [] && IsParameter(s[0]) {
      ParametersAll(s[1..]);
    }
  }

  /** Where no code stands the character stays: stripping removes codes and nothing else. */
  lemma OnlyCodesStripped(s: string)
    requires s != [] && forall n :: 0 < n <= |s| ==> !IsSgr(s[..n])
    ensures StripAnsi(s) == [s[0]] + StripAnsi(s[1..])
  {
    if SgrLength(s) > 0 {
      SgrLengthExact(s, SgrLength(s));
    }
  }

  lemma SgrStripped(code: string, s: string)
    requires IsSgr(code)
    ensures StripAnsi(code + s) == StripAnsi(s)
  {
    SgrLengthOf(code, s);
    StripCode(code + s, |code|);
    assert (code + s)[|code|..] == s;
  }

  lemma {:induction false} CodesStripped(codes: seq<string>, s: string)
    requires forall i :: 0 <= i < |codes| ==> IsSgr(codes[i])
    ensures StripAnsi(Flatten(codes) + s) == StripAnsi(s)
  {
    if codes == [] {
      assert Flatten(codes) + s == s;
    } else {
      CodesStripped(codes[1..], s);
      SgrStripped(codes[0], Flatten(codes[1..]) + s);
      assert Flatten(codes) + s == codes[0] + (Flatten(codes[1..]) + s);
    }
  }

  lemma StripOther(c: char, s: string)
    requires SgrLength([c] + s) == 0
    ensures StripAnsi([c] + s) == [c] + StripAnsi(s)
  {
    assert ([c] + s)[1..] == s;
  }

  lemma Cut(text: string, s: string, n: nat)
    requires n <= |text|
    ensures (text + s)[n..] == text[n..] + s
  {
  }

  /** What follows a text cannot complete a code the text broke off, if it starts with a code itself. */
  lemma {:induction false} StripBoundary(text: string, s: string)
    requires s == [] || s[0] == ESC
    ensures StripAnsi(text + s) == StripAnsi(text) + StripAnsi(s)
    decreases |text|
  {
    if text == [] {
      assert text + s == s;
    } else {
      SgrLengthAtBoundary(text, s);
      var n := SgrLength(text);
      if n > 0 {
        StripBoundary(text[n..], s);
        StripCode(text, n);
        StripCode(text + s, n);
        Cut(text, s, n);
      } else {
        var c, t := text[0], text[1..];
        StripBoundary(t, s);
        Peel(text, s);
        assert text == [c] + t;
        StripOther(c, t + s);
        StripOther(c, t);
        Peel([c] + StripAnsi(t), StripAnsi(s));
      }
    }
  }

  lemma SgrLengthAtBoundary(text: string, s: string)
    requires text != [] && (s == [] || s[0] == ESC)
    ensures SgrLength(text + s) == SgrLength(text)
  {
    var t := text + s;
    if |text| >= 2 {
      ParametersAtBoundary(text[2..], s);
      assert t[2..] == text[2..] + s;
    }
  }

  lemma {:induction false} ParametersAtBoundary(text: string, s: string)
    requires s == [] || s[0] == ESC
    ensures Parameters(text + s) == Parameters(text)
  {
    if text == [] {
      assert text + s == s;
    } else {
      ParametersAtBoundary(text[1..], s);
      assert (text + s)[1..] == text[1..] + s;
    }
  }
}
