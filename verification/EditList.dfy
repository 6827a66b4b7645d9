/** Lists of named entries as the editor changes them (src/tui/app.rs). */
module EditList {
  import opened Common

  /** The entries whose key is not `name`, in order. */
  function Retain<T>(items: seq<T>, key: T -> string, name: string): seq<T>
  {
    if items == [] then []
    else (if key(items[0]) == name then [] else [items[0]]) + Retain(items[1..], key, name)
  }

  /** Position of the first entry with a given key, or 0. */
  function Position<T>(items: seq<T>, key: T -> string, name: string): nat
  {
    match FirstWith(items, key, name)
    case Some(i) => i
    case None => 0
  }

  function FirstWith<T>(items: seq<T>, key: T -> string, name: string): Option<nat>
  {
    if items == [] then None
    else if key(items[0]) == name then Some(0)
    else match FirstWith(items[1..], key, name) case Some(i) => Some(i + 1) case None => None
  }

  /** The end of a wizard: the entry under edit and any entry of the same key go, the new entry comes last. */
  function Place<T>(items: seq<T>, key: T -> string, original: Option<string>, item: T): seq<T>
  {
    var others := if original.Some? && original.value != key(item) then Retain(items, key, original.value) else items;
    Retain(others, key, key(item)) + [item]
  }

  function RemoveAt<T>(items: seq<T>, i: nat): seq<T>
    requires i < |items|
  {
    items[..i] + items[i + 1..]
  }

  /** Exactly the entries of another key stay, and none is doubled. */
  lemma {:induction false} RetainKeeps<T(!new)>(items: seq<T>, key: T -> string, name: string)
    ensures forall x :: x in Retain(items, key, name) <==> x in items && key(x) != name
    ensures DistinctKeys(items, key) ==> DistinctKeys(Retain(items, key, name), key)
  {
    if items != [] {
      var rest := Retain(items[1..], key, name);
      RetainKeeps(items[1..], key, name);
      assert items == [items[0]] + items[1..];
      assert forall j :: 0 <= j < |rest| ==> rest[j] in rest;
      if DistinctKeys(items, key) && key(items[0]) != name {
        assert forall j :: 0 <= j < |items[1..]| ==> key(items[1..][j]) != key(items[0]);
        assert Retain(items, key, name) == [items[0]] + rest;
      }
    }
  }

  /** `at` are the places of `part`'s entries in `items`, in order. */
  ghost predicate PicksInOrder<T(!new)>(items: seq<T>, part: seq<T>, at: seq<nat>)
  {
    && |at| == |part|
    && (forall i :: 0 <= i < |at| ==> at[i] < |items| && items[at[i]] == part[i])
    && (forall i, j :: 0 <= i < j < |at| ==> at[i] < at[j])
  }

  /** `at` are exactly the places that hold another key. */
  ghost predicate AllOthers<T>(items: seq<T>, key: T -> string, name: string, at: seq<nat>)
  {
    forall n :: 0 <= n < |items| ==> (n in at <==> key(items[n]) != name)
  }

  /** The places that hold another key, in order. */
  function Others<T>(items: seq<T>, key: T -> string, name: string): seq<nat>
  {
    if items == [] then []
    else if key(items[0]) == name then MovedOn(Others(items[1..], key, name))
    else [0] + MovedOn(Others(items[1..], key, name))
  }

  /** What stays keeps its order: exactly the places that hold another key, one after the other. */
  lemma RetainKeepsOrder<T(!new)>(items: seq<T>, key: T -> string, name: string) returns (at: seq<nat>)
    ensures PicksInOrder(items, Retain(items, key, name), at) && AllOthers(items, key, name, at)
  {
    at := Others(items, key, name);
    RetainPicksOthers(items, key, name);
    OthersAreAll(items, key, name);
  }

  lemma {:induction false} RetainPicksOthers<T(!new)>(items: seq<T>, key: T -> string, name: string)
    ensures PicksInOrder(items, Retain(items, key, name), Others(items, key, name))
  {
    if items != [] {
      var part, rest := Retain(items[1..], key, name), Others(items[1..], key, name);
      RetainPicksOthers(items[1..], key, name);
      MovedPicks(items, part, rest, MovedOn(rest));
      assert [] + part == part;
    }
  }

  lemma {:induction false} OthersAreAll<T(!new)>(items: seq<T>, key: T -> string, name: string)
    ensures AllOthers(items, key, name, Others(items, key, name))
  {
    if items != [] {
      var rest := Others(items[1..], key, name);
      OthersAreAll(items[1..], key, name);
      MovedOthers(items, key, name, rest, MovedOn(rest));
    }
  }

  function MovedOn(at: seq<nat>): (r: seq<nat>)
    ensures |r| == |at| && forall i :: 0 <= i < |at| ==> r[i] == at[i] + 1
  {
    seq(|at|, i requires 0 <= i < |at| => at[i] + 1)
  }

  lemma MovedOthers<T(!new)>(items: seq<T>, key: T -> string, name: string, rest: seq<nat>, moved: seq<nat>)
    requires items != [] && AllOthers(items[1..], key, name, rest) && moved == MovedOn(rest)
    ensures key(items[0]) == name ==> AllOthers(items, key, name, moved)
    ensures key(items[0]) != name ==> AllOthers(items, key, name, [0] + moved)
  {
    assert 0 !in moved;
    forall n | 0 < n < |items|
      ensures n in moved <==> key(items[n]) != name
    {
      assert items[1..][n - 1] == items[n];
      InMovedOn(rest, n);
    }
  }

  lemma InMovedOn(at: seq<nat>, n: nat)
    requires n > 0
    ensures n in MovedOn(at) <==> n - 1 in at
  {
    if n - 1 in at {
      var i :| 0 <= i < |at| && at[i] == n - 1;
      assert MovedOn(at)[i] == n;
    }
  }

  lemma MovedPicks<T(!new)>(items: seq<T>, part: seq<T>, rest: seq<nat>, moved: seq<nat>)
    requires items != [] && PicksInOrder(items[1..], part, rest)
    requires moved == MovedOn(rest)
    ensures PicksInOrder(items, part, moved)
    ensures PicksInOrder(items, [items[0]] + part, [0] + moved)
  {
  }

  lemma {:induction false} LastPosition<T(!new)>(items: seq<T>, key: T -> string, item: T)
    requires forall j :: 0 <= j < |items| ==> key(items[j]) != key(item)
    ensures Position(items + [item], key, key(item)) == |items|
    ensures FirstWith(items + [item], key, key(item)) == Some(|items|)
  {
    if items != [] {
      assert (items + [item])[1..] == items[1..] + [item];
      LastPosition(items[1..], key, item);
    }
  }

  /**
   * What a finished wizard leaves: the new entry, last and found under its key, and of the old entries exactly those
   * that have neither its key nor the key of the entry under edit. Keys that were distinct stay so.
   */
  lemma PlaceMeaning<T(!new)>(items: seq<T>, key: T -> string, original: Option<string>, item: T)
    ensures var r := Place(items, key, original, item);
      && (forall x :: x in r <==> x == item || (x in items && key(x) != key(item) && original != Some(key(x))))
      && r[|r| - 1] == item && Position(r, key, key(item)) == |r| - 1
      && (DistinctKeys(items, key) ==> DistinctKeys(r, key))
  {
    var others := if original.Some? && original.value != key(item) then Retain(items, key, original.value) else items;
    if original.Some? {
      RetainKeeps(items, key, original.value);
    }
    ReplaceMeaning(others, key, item);
  }

  /** The same where no other entry is under edit. */
  lemma ReplaceMeaning<T(!new)>(items: seq<T>, key: T -> string, item: T)
    ensures var r := Retain(items, key, key(item)) + [item];
      && (forall x :: x in r <==> x == item || (x in items && key(x) != key(item)))
      && Position(r, key, key(item)) == |r| - 1
      && (DistinctKeys(items, key) ==> DistinctKeys(r, key))
  {
    var kept := Retain(items, key, key(item));
    RetainKeeps(items, key, key(item));
    assert forall j :: 0 <= j < |kept| ==> kept[j] in kept;
    LastPosition(kept, key, item);
  }

  /** The entries a finished wizard leaves alone stay in their order, before the new one. */
  lemma PlaceKeepsOrder<T(!new)>(items: seq<T>, key: T -> string, original: Option<string>, item: T) returns (at: seq<nat>)
    ensures var r := Place(items, key, original, item); PicksInOrder(items, r[..|r| - 1], at)
    ensures forall n :: 0 <= n < |items| ==> (n in at <==> key(items[n]) != key(item) && original != Some(key(items[n])))
  {
    var r := Place(items, key, original, item);
    if original.Some? && original.value != key(item) {
      var others := Retain(items, key, original.value);
      var outer := RetainKeepsOrder(items, key, original.value);
      var inner := RetainKeepsOrder(others, key, key(item));
      at := PicksCompose(items, others, outer, r[..|r| - 1], inner);
      forall n | 0 <= n < |items|
        ensures n in at <==> key(items[n]) != key(item) && original != Some(key(items[n]))
      {
        if n in outer {
          var i :| 0 <= i < |outer| && outer[i] == n;
          assert i in inner ==> n in at;
        }
      }
    } else {
      at := RetainKeepsOrder(items, key, key(item));
      assert r[..|r| - 1] == Retain(items, key, key(item));
    }
  }

  lemma PicksCompose<T(!new)>(items: seq<T>, middle: seq<T>, outer: seq<nat>, part: seq<T>, inner: seq<nat>) returns (at: seq<nat>)
    requires PicksInOrder(items, middle, outer) && PicksInOrder(middle, part, inner)
    ensures PicksInOrder(items, part, at)
    ensures |at| == |inner| && forall i :: 0 <= i < |inner| ==> inner[i] < |outer| && at[i] == outer[inner[i]]
    ensures forall i :: 0 <= i < |outer| ==> (i in inner <==> outer[i] in at)
  {
    at := seq(|inner|, i requires 0 <= i < |inner| && inner[i] < |outer| => outer[inner[i]]);
    forall i | 0 <= i < |outer|
      ensures i in inner <==> outer[i] in at
    {
      if i in inner {
        var k :| 0 <= k < |inner| && inner[k] == i;
        assert at[k] == outer[i];
      }
      if outer[i] in at {
        var k :| 0 <= k < |at| && at[k] == outer[i];
        assert inner[k] == i;
      }
    }
  }

  /** A removal takes out the one place and moves up what follows. */
  lemma RemoveAtKeepsOrder<T>(items: seq<T>, i: nat)
    requires i < |items|
    ensures var r := RemoveAt(items, i);
      && |r| == |items| - 1
      && (forall n :: 0 <= n < i ==> r[n] == items[n])
      && (forall n :: i <= n < |r| ==> r[n] == items[n + 1])
  {
  }

  lemma RemoveAtMeaning<T(!new)>(items: seq<T>, key: T -> string, i: nat)
    requires i < |items|
    ensures forall x :: x in RemoveAt(items, i) ==> x in items
    ensures DistinctKeys(items, key) ==> DistinctKeys(RemoveAt(items, i), key)
    ensures DistinctKeys(items, key) ==> forall x :: x in RemoveAt(items, i) <==> x in items && key(x) != key(items[i])
  {
    var r := RemoveAt(items, i);
    assert forall j :: 0 <= j < |r| ==> r[j] == items[if j < i then j else j + 1];
    if DistinctKeys(items, key) {
      forall x | x in items && key(x) != key(items[i])
        ensures x in r
      {
        var j :| 0 <= j < |items| && items[j] == x;
        assert x == r[if j < i then j else j - 1];
      }
    }
  }
}
