/** Small datatypes and sequence facts shared by the models of every component. */
module Prelude {
  datatype Option<+T> = None | Some(value: T) {
    function GetOr(default: T): T {
      if None? then default else value
    }
  }

  datatype Result<+T, +E> = Ok(value: T) | Err(error: E)

  /** The entries of a queue that are not tombstones, in order. */
  function Present<T>(slots: seq<Option<T>>): seq<T> {
    if slots == [] then []
    else (if slots[0].Some? then [slots[0].value] else []) + Present(slots[1..])
  }

  lemma PresentFirst<T>(slot: Option<T>, rest: seq<Option<T>>)
    ensures Present([slot] + rest) == (if slot.Some? then [slot.value] else []) + Present(rest)
  {
    assert ([slot] + rest)[1..] == rest;
  }

  lemma {:induction false} PresentConcat<T>(a: seq<Option<T>>, b: seq<Option<T>>)
    ensures Present(a + b) == Present(a) + Present(b)
  {
    if a == [] {
      assert a + b == b;
    } else {
      assert a + b == [a[0]] + (a[1..] + b);
      PresentFirst(a[0], a[1..] + b);
      PresentConcat(a[1..], b);
    }
  }

  /** Splitting a queue at an occupied slot splits its live entries at that entry. */
  lemma PresentAt<T>(slots: seq<Option<T>>, i: nat)
    requires i < |slots| && slots[i].Some?
    ensures Present(slots) == Present(slots[..i]) + [slots[i].value] + Present(slots[i + 1..])
    ensures Present(slots[i := None]) == Present(slots[..i]) + Present(slots[i + 1..])
  {
    var before, after := slots[..i], slots[i + 1..];
    assert slots == before + [slots[i]] + after;
    assert slots[i := None] == before + [None] + after;
    PresentConcat(before + [slots[i]], after);
    PresentConcat(before, [slots[i]]);
    PresentConcat(before + [None], after);
    PresentConcat(before, [None]);
  }

  lemma {:induction false} PresentMember<T>(slots: seq<Option<T>>, x: T)
    ensures x in Present(slots) <==> Some(x) in slots
  {
    if slots != [] {
      PresentMember(slots[1..], x);
      assert slots == [slots[0]] + slots[1..];
    }
  }

  /** How many entries of a sequence of flags are still false. */
  function CountFalse(flags: seq<bool>): nat {
    if flags == [] then 0 else (if flags[0] then 0 else 1) + CountFalse(flags[1..])
  }

  lemma {:induction false} CountFalseConcat(a: seq<bool>, b: seq<bool>)
    ensures CountFalse(a + b) == CountFalse(a) + CountFalse(b)
  {
    if a == [] {
      assert a + b == b;
    } else {
      assert (a + b)[1..] == a[1..] + b;
      CountFalseConcat(a[1..], b);
    }
  }

  lemma CountFalseRaise(flags: seq<bool>, i: nat)
    requires i < |flags| && !flags[i]
    ensures CountFalse(flags[i := true]) == CountFalse(flags) - 1
  {
    assert flags == flags[..i] + [flags[i]] + flags[i + 1..];
    assert flags[i := true] == flags[..i] + [true] + flags[i + 1..];
    CountFalseConcat(flags[..i] + [flags[i]], flags[i + 1..]);
    CountFalseConcat(flags[..i], [flags[i]]);
    CountFalseConcat(flags[..i] + [true], flags[i + 1..]);
    CountFalseConcat(flags[..i], [true]);
  }

  ghost predicate Increasing(s: seq<nat>) {
    forall i, j :: 0 <= i < j < |s| ==> s[i] < s[j]
  }

  /** A sequence without the occurrences of one element. */
  function Without<T(==)>(s: seq<T>, x: T): seq<T> {
    if s == [] then [] else (if s[0] == x then [] else [s[0]]) + Without(s[1..], x)
  }

  lemma {:induction false} WithoutSplit<T>(a: seq<T>, x: T, b: seq<T>)
    requires x !in a && x !in b
    ensures Without(a + [x] + b, x) == a + b
  {
    if a == [] {
      assert [x] + b == a + [x] + b;
      WithoutAbsent(b, x);
    } else {
      assert (a + [x] + b)[1..] == a[1..] + [x] + b;
      WithoutSplit(a[1..], x, b);
    }
  }

  lemma {:induction false} WithoutAbsent<T>(s: seq<T>, x: T)
    ensures x !in Without(s, x)
    ensures x !in s ==> Without(s, x) == s
  {
    if s != [] {
      WithoutAbsent(s[1..], x);
    }
  }

  /** The elements of chunks, in order. */
  function Flatten<T>(chunks: seq<seq<T>>): seq<T> {
    if chunks == [] then [] else Flatten(chunks[..|chunks| - 1]) + chunks[|chunks| - 1]
  }

  lemma FlattenOne<T>(chunk: seq<T>)
    ensures Flatten([chunk]) == chunk
  {
    assert [chunk][..0] == [];
    assert [] + chunk == chunk;
  }

  lemma FlattenSnoc<T>(chunks: seq<seq<T>>, chunk: seq<T>)
    ensures Flatten(chunks + [chunk]) == Flatten(chunks) + chunk
  {
    assert (chunks + [chunk])[..|chunks|] == chunks;
  }

  lemma {:induction false} FlattenFirst<T>(chunk: seq<T>, chunks: seq<seq<T>>)
    ensures Flatten([chunk] + chunks) == chunk + Flatten(chunks)
    decreases |chunks|
  {
    if chunks == [] {
      assert [chunk] + chunks == [chunk];
      FlattenOne(chunk);
    } else {
      var n := |chunks| - 1;
      FlattenFirst(chunk, chunks[..n]);
      FlattenSnoc([chunk] + chunks[..n], chunks[n]);
      assert [chunk] + chunks == [chunk] + chunks[..n] + [chunks[n]];
    }
  }

  lemma {:induction false} FlattenPrefix<T>(chunks: seq<seq<T>>, n: nat) returns (tail: seq<T>)
    requires n <= |chunks|
    ensures Flatten(chunks) == Flatten(chunks[..n]) + tail
    decreases |chunks|
  {
    tail := [];
    if n == |chunks| {
      assert chunks[..n] == chunks;
    } else {
      var last := |chunks| - 1;
      tail := FlattenPrefix(chunks[..last], n);
      assert chunks[..last][..n] == chunks[..n];
      tail := tail + chunks[last];
    }
  }

  lemma TakeNext<T>(s: seq<T>, i: nat)
    requires i < |s|
    ensures s[..i + 1] == s[..i] + [s[i]]
  {
  }

  lemma TakeTwice<T>(s: seq<T>, n: nat, m: nat)
    requires m <= n <= |s|
    ensures s[..n][..m] == s[..m]
  {
  }

  lemma Associates<T>(a: seq<T>, b: seq<T>, c: seq<T>)
    ensures (a + b) + c == a + (b + c)
  {
  }

  lemma HeadAndTail<T>(s: seq<T>)
    requires s != []
    ensures s == [s[0]] + s[1..]
  {
  }

  lemma FrontAndLast<T>(s: seq<T>)
    requires s != []
    ensures s == s[..|s| - 1] + [s[|s| - 1]]
  {
  }
}
