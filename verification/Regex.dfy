/** The part of the regular expressions that the detector's patterns use: greedy, backtracking, leftmost. */
module Regex {
  import opened Common

  /** `\d` also takes the decimal digits beyond ASCII, which the engine's Unicode tables list. */
  datatype Class = Digit(others: set<char>) | AddrChar

  datatype Item =
    | Lit(c: char)
    | Opt(c: char)
    | Plus(class_: Class)

  predicate InClass(k: Class, c: char)
  {
    match k
    case Digit(others) => '0' <= c <= '9' || (c as int >= 128 && c in others)
    case AddrChar => '0' <= c <= '9' || 'a' <= c <= 'f' || 'A' <= c <= 'F' || c == ':' || c == '.'
  }

  // ----- What a pattern means -----

  predicate Accepts(item: Item, t: string)
  {
    match item
    case Lit(c) => t == [c]
    case Opt(c) => t == [] || t == [c]
    case Plus(k) => t != [] && forall i :: 0 <= i < |t| ==> InClass(k, t[i])
  }

  /** `pieces` are what the items of `p` take, one after the other, from the front of `s`. */
  predicate Fits(p: seq<Item>, s: string, pieces: seq<string>)
  {
    if p == [] then pieces == []
    else
      && pieces != []
      && Accepts(p[0], pieces[0])
      && pieces[0] <= s
      && Fits(p[1..], s[|pieces[0]|..], pieces[1..])
  }

  /** Earlier items prefer longer pieces. */
  predicate AtLeastAsGreedy(a: seq<string>, b: seq<string>)
  {
    if a == [] || b == [] then true
    else |a[0]| > |b[0]| || (|a[0]| == |b[0]| && AtLeastAsGreedy(a[1..], b[1..]))
  }

  // ----- Matching -----

  function Run(k: Class, s: string): nat
  {
    if s != [] && InClass(k, s[0]) then 1 + Run(k, s[1..]) else 0
  }

  /** The shortest and the longest piece an item may take from the front of `s`. */
  function Least(item: Item): nat
  {
    if item.Opt? then 0 else 1
  }

  function Most(item: Item, s: string): nat
  {
    match item
    case Lit(c) => if s != [] && s[0] == c then 1 else 0
    case Opt(c) => if s != [] && s[0] == c then 1 else 0
    case Plus(k) => Run(k, s)
  }

  lemma {:induction false} RunIsLongest(k: Class, s: string)
    ensures Run(k, s) <= |s| && forall i :: 0 <= i < Run(k, s) ==> InClass(k, s[i])
    ensures Run(k, s) < |s| ==> !InClass(k, s[Run(k, s)])
  {
    if s != [] && InClass(k, s[0]) {
      RunIsLongest(k, s[1..]);
    }
  }

  /** An item takes exactly the prefixes whose length lies between its least and its most. */
  lemma AcceptsIffBetween(item: Item, s: string, w: nat)
    requires w <= |s|
    ensures Most(item, s) <= |s|
    ensures Accepts(item, s[..w]) <==> Least(item) <= w <= Most(item, s)
  {
    if item.Plus? {
      RunIsLongest(item.class_, s);
      var run := Run(item.class_, s);
      if w > run {
        assert s[..w][run] == s[run];
      }
    }
  }

  /** The match at the front of `s`. */
  function MatchAt(p: seq<Item>, s: string): Option<seq<string>>
    decreases |p|, |s| + 1
  {
    if p == [] then Some([]) else AcceptsIffBetween(p[0], s, 0); Try(p, s, Most(p[0], s))
  }

  /** The match whose first piece has length `w` or, failing that, less. */
  function Try(p: seq<Item>, s: string, w: nat): Option<seq<string>>
    requires p != [] && w <= |s|
    decreases |p|, w
  {
    if w < Least(p[0]) then None
    else
      match MatchAt(p[1..], s[w..])
      case Some(pieces) => Some([s[..w]] + pieces)
      case None => if w == 0 then None else Try(p, s, w - 1)
  }

  /** The leftmost match. */
  function Find(p: seq<Item>, s: string): Option<seq<string>>
  {
    var m := MatchAt(p, s);
    if m.Some? || s == [] then m else Find(p, s[1..])
  }

  // ----- The matcher finds what the pattern means -----

  lemma {:induction false} MatchFits(p: seq<Item>, s: string)
    requires MatchAt(p, s).Some?
    ensures Fits(p, s, MatchAt(p, s).value)
    decreases |p|, |s| + 1
  {
    if p != [] {
      AcceptsIffBetween(p[0], s, 0);
      TryFits(p, s, Most(p[0], s));
    }
  }

  lemma {:induction false} TryFits(p: seq<Item>, s: string, w: nat)
    requires p != [] && w <= Most(p[0], s) && w <= |s| && Try(p, s, w).Some?
    ensures Fits(p, s, Try(p, s, w).value)
    decreases |p|, w
  {
    if MatchAt(p[1..], s[w..]).Some? {
      MatchFits(p[1..], s[w..]);
      AcceptsIffBetween(p[0], s, w);
    } else {
      TryFits(p, s, w - 1);
    }
  }

  lemma {:induction false} MatchIsGreediest(p: seq<Item>, s: string, pieces: seq<string>)
    requires Fits(p, s, pieces)
    ensures MatchAt(p, s).Some? && AtLeastAsGreedy(MatchAt(p, s).value, pieces)
    decreases |p|, |s| + 1
  {
    if p != [] {
      assert s[..|pieces[0]|] == pieces[0];
      AcceptsIffBetween(p[0], s, |pieces[0]|);
      TryIsGreediest(p, s, Most(p[0], s), pieces);
    }
  }

  lemma {:induction false} TryIsGreediest(p: seq<Item>, s: string, w: nat, pieces: seq<string>)
    requires p != [] && Fits(p, s, pieces) && |pieces[0]| <= w <= |s| && Least(p[0]) <= |pieces[0]|
    ensures Try(p, s, w).Some? && AtLeastAsGreedy(Try(p, s, w).value, pieces)
    decreases |p|, w
  {
    if w == |pieces[0]| {
      MatchIsGreediest(p[1..], s[w..], pieces[1..]);
    } else if MatchAt(p[1..], s[w..]).None? {
      TryIsGreediest(p, s, w - 1, pieces);
    }
  }

  lemma {:induction false} GreedierBothWays(p: seq<Item>, s: string, a: seq<string>, b: seq<string>)
    requires Fits(p, s, a) && Fits(p, s, b) && AtLeastAsGreedy(a, b) && AtLeastAsGreedy(b, a)
    ensures a == b
  {
    if p != [] {
      assert a[0] == s[..|a[0]|] == b[0];
      GreedierBothWays(p[1..], s[|a[0]|..], a[1..], b[1..]);
      assert a == [a[0]] + a[1..] && b == [b[0]] + b[1..];
    }
  }

  ghost predicate Greediest(p: seq<Item>, s: string, pieces: seq<string>)
  {
    Fits(p, s, pieces) && forall other :: Fits(p, s, other) ==> AtLeastAsGreedy(pieces, other)
  }

  ghost predicate CanFit(p: seq<Item>, s: string)
  {
    exists pieces :: Fits(p, s, pieces)
  }

  /** The matcher returns the greediest of all fits, and nothing exactly when there is none. */
  lemma MatchIsTheGreediestFit(p: seq<Item>, s: string, pieces: seq<string>)
    ensures MatchAt(p, s) == Some(pieces) <==> Greediest(p, s, pieces)
    ensures MatchAt(p, s).Some? <==> CanFit(p, s)
  {
    if MatchAt(p, s).Some? {
      var found := MatchAt(p, s).value;
      MatchFits(p, s);
      forall other | Fits(p, s, other)
        ensures AtLeastAsGreedy(found, other)
      {
        MatchIsGreediest(p, s, other);
      }
      assert CanFit(p, s);
      if Greediest(p, s, pieces) {
        GreedierBothWays(p, s, found, pieces);
      }
    } else {
      if other :| Fits(p, s, other) {
        MatchIsGreediest(p, s, other);
      }
    }
  }

  /** `Find` returns the match at the first position that has one. */
  lemma {:induction false} FindIsLeftmost(p: seq<Item>, s: string, pieces: seq<string>)
    ensures Find(p, s) == Some(pieces) <==>
              exists i :: 0 <= i <= |s| && MatchAt(p, s[i..]) == Some(pieces)
                          && forall k :: 0 <= k < i ==> MatchAt(p, s[k..]).None?
  {
    assert s[0..] == s;
    if MatchAt(p, s).Some? || s == [] {
    } else {
      FindIsLeftmost(p, s[1..], pieces);
      if Find(p, s) == Some(pieces) {
        var i :| 0 <= i <= |s[1..]| && MatchAt(p, s[1..][i..]) == Some(pieces)
                          && forall k :: 0 <= k < i ==> MatchAt(p, s[1..][k..]).None?;
        assert s[1..][i..] == s[i + 1..];
        forall k | 0 <= k < i + 1
          ensures MatchAt(p, s[k..]).None?
        {
          assert k > 0 ==> s[1..][k - 1..] == s[k..];
        }
      }
      if i :| 0 <= i <= |s| && MatchAt(p, s[i..]) == Some(pieces) && forall k :: 0 <= k < i ==> MatchAt(p, s[k..]).None? {
        assert s[1..][i - 1..] == s[i..];
        forall k | 0 <= k < i - 1
          ensures MatchAt(p, s[1..][k..]).None?
        {
          assert s[1..][k..] == s[k + 1..];
        }
      }
    }
  }

  // ----- Literal prefixes -----

  function Lits(text: string): (r: seq<Item>)
    ensures |r| == |text|
  {
    if text == [] then [] else [Lit(text[0])] + Lits(text[1..])
  }

  function Singles(text: string): (r: seq<string>)
    ensures |r| == |text|
  {
    if text == [] then [] else [[text[0]]] + Singles(text[1..])
  }

  /** A pattern that starts with literals fits only texts that start with them. */
  lemma {:induction false} LitsForced(text: string, rest: seq<Item>, s: string, pieces: seq<string>)
    requires Fits(Lits(text) + rest, s, pieces)
    ensures text <= s && |text| <= |pieces| && pieces[..|text|] == Singles(text)
    ensures Fits(rest, s[|text|..], pieces[|text|..])
  {
    var p := Lits(text) + rest;
    if text == [] {
      assert p == rest && s[0..] == s && pieces[0..] == pieces;
    } else {
      assert p[1..] == Lits(text[1..]) + rest;
      LitsForced(text[1..], rest, s[1..], pieces[1..]);
      assert s[1..][|text| - 1..] == s[|text|..] && pieces[1..][|text| - 1..] == pieces[|text|..];
      assert text == [text[0]] + text[1..] && s == [s[0]] + s[1..];
      assert pieces[..|text|] == [pieces[0]] + pieces[1..][..|text| - 1];
    }
  }

  lemma FitsCons(item: Item, rest: seq<Item>, piece: string, s: string, pieces: seq<string>)
    requires Accepts(item, piece) && Fits(rest, s, pieces)
    ensures Fits([item] + rest, piece + s, [piece] + pieces)
  {
    assert ([item] + rest)[1..] == rest && ([piece] + pieces)[1..] == pieces;
    assert (piece + s)[|piece|..] == s;
  }

  lemma TakeFirst<T>(x: T, more: seq<T>, rest: seq<T>)
    ensures ([x] + more) + rest == [x] + (more + rest)
  {
  }

  lemma {:induction false} LitsFit(text: string, rest: seq<Item>, s: string, pieces: seq<string>)
    requires Fits(rest, s, pieces)
    ensures Fits(Lits(text) + rest, text + s, Singles(text) + pieces)
  {
    if text == [] {
      assert Lits(text) + rest == rest && text + s == s && Singles(text) + pieces == pieces;
    } else {
      LitsFit(text[1..], rest, s, pieces);
      FitsCons(Lit(text[0]), Lits(text[1..]) + rest, [text[0]], text[1..] + s, Singles(text[1..]) + pieces);
      TakeFirst(Lit(text[0]), Lits(text[1..]), rest);
      assert text == [text[0]] + text[1..];
      TakeFirst(text[0], text[1..], s);
      TakeFirst([text[0]], Singles(text[1..]), pieces);
    }
  }

  lemma MatchStarts(prefix: string, rest: seq<Item>, s: string)
    requires MatchAt(Lits(prefix) + rest, s).Some?
    ensures prefix <= s
  {
    MatchFits(Lits(prefix) + rest, s);
    LitsForced(prefix, rest, s, MatchAt(Lits(prefix) + rest, s).value);
  }

  lemma MatchHas(prefix: string, rest: seq<Item>, s: string, k: nat)
    requires MatchAt(Lits(prefix) + rest, s).Some? && k + 1 < |prefix|
    ensures k + 1 < |s| && s[0] == prefix[0] && PairAt(s, k, prefix[k], prefix[k + 1])
  {
    MatchStarts(prefix, rest, s);
  }

  predicate PairAt(s: string, i: nat, x: char, y: char)
  {
    i + 1 < |s| && s[i] == x && s[i + 1] == y
  }

  /** Text without a place where the two characters stand side by side. */
  ghost predicate Lacks(s: string, x: char, y: char)
  {
    forall i: nat :: !PairAt(s, i, x, y)
  }

  lemma LacksConcat(a: string, b: string, x: char, y: char)
    requires Lacks(a, x, y) && Lacks(b, x, y)
    requires a != [] && b != [] ==> a[|a| - 1] != x || b[0] != y
    ensures Lacks(a + b, x, y)
  {
    forall i: nat | PairAt(a + b, i, x, y)
      ensures PairAt(a, i, x, y) || (i >= |a| && PairAt(b, i - |a|, x, y))
    {
    }
  }

  lemma PairInHead(a: string, b: string, i: nat, x: char, y: char)
    requires Lacks(a, x, y) && i + 1 < |a|
    ensures !PairAt(a + b, i, x, y)
  {
    assert !PairAt(a, i, x, y);
  }

  lemma LacksTail(s: string, x: char, y: char)
    requires s != [] && Lacks(s, x, y)
    ensures Lacks(s[1..], x, y)
  {
    forall i: nat | PairAt(s[1..], i, x, y)
      ensures PairAt(s, i + 1, x, y)
    {
    }
  }

  /** A literal prefix with a pair that `head` lacks can only match from the last characters of `head` on. */
  lemma {:induction false} FindSkips(p: seq<Item>, prefix: string, rest: seq<Item>, head: string, tail: string, k: nat)
    requires p == Lits(prefix) + rest && k + 1 < |prefix|
    requires Lacks(head, prefix[k], prefix[k + 1])
    requires forall i :: 0 <= i < |head| && i + k + 1 >= |head| ==> head[i] != prefix[0]
    ensures Find(p, head + tail) == Find(p, tail)
  {
    if head == [] {
      assert head + tail == tail;
    } else {
      var s := head + tail;
      if MatchAt(p, s).Some? {
        MatchHas(prefix, rest, s, k);
        PairInHead(head, tail, k, prefix[k], prefix[k + 1]);
      }
      assert s[1..] == head[1..] + tail;
      LacksTail(head, prefix[k], prefix[k + 1]);
      FindSkips(p, prefix, rest, head[1..], tail, k);
    }
  }

  /** A text that lacks a pair of the prefix has no match at all. */
  lemma {:induction false} FindNothing(p: seq<Item>, prefix: string, rest: seq<Item>, text: string, k: nat)
    requires p == Lits(prefix) + rest && k + 1 < |prefix|
    requires Lacks(text, prefix[k], prefix[k + 1])
    ensures Find(p, text) == None
  {
    if MatchAt(p, text).Some? {
      MatchHas(prefix, rest, text, k);
    }
    if text != [] {
      LacksTail(text, prefix[k], prefix[k + 1]);
      FindNothing(p, prefix, rest, text[1..], k);
    }
  }
}
