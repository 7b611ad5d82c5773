/** String operations of ECMAScript that several components use. */
module Text {
  /** White space and line terminators. */
  predicate IsSpace(c: char) {
    || '\t' <= c <= '\r' || c == ' ' || c == '\U{00A0}' || c == '\U{1680}' || '\U{2000}' <= c <= '\U{200A}'
    || c == '\U{2028}' || c == '\U{2029}' || c == '\U{202F}' || c == '\U{205F}' || c == '\U{3000}' || c == '\U{FEFF}'
  }

  predicate IsAlphanumeric(c: char) {
    'a' <= c <= 'z' || 'A' <= c <= 'Z' || '0' <= c <= '9'
  }

  lemma AlphanumericCodes(c: char)
    ensures IsAlphanumeric(c) <==> 48 <= c as int <= 57 || 65 <= c as int <= 90 || 97 <= c as int <= 122
  {
  }

  function TrimStart(s: string): string {
    if s != "" && IsSpace(s[0]) then TrimStart(s[1..]) else s
  }

  function TrimEnd(s: string): string {
    if s != "" && IsSpace(s[|s| - 1]) then TrimEnd(s[..|s| - 1]) else s
  }

  function Trim(s: string): string {
    TrimEnd(TrimStart(s))
  }

  ghost predicate Blank(s: string) {
    forall i :: 0 <= i < |s| ==> IsSpace(s[i])
  }

  /** Without white space at either end, and not empty. */
  predicate IsBare(s: string) {
    s != "" && !IsSpace(s[0]) && !IsSpace(s[|s| - 1])
  }

  lemma {:induction false} StartIsTrimmed(a: string, s: string)
    requires Blank(a) && (s == "" || !IsSpace(s[0]))
    ensures TrimStart(a + s) == s
  {
    if a == "" {
      assert a + s == s;
    } else {
      assert (a + s)[1..] == a[1..] + s && (a + s)[0] == a[0];
      StartIsTrimmed(a[1..], s);
    }
  }

  lemma {:induction false} EndIsTrimmed(s: string, b: string)
    requires Blank(b) && (s == "" || !IsSpace(s[|s| - 1]))
    ensures TrimEnd(s + b) == s
    decreases |b|
  {
    if b == "" {
      assert s + b == s;
    } else {
      var n := |b| - 1;
      assert (s + b)[..|s + b| - 1] == s + b[..n] && (s + b)[|s + b| - 1] == b[n];
      EndIsTrimmed(s, b[..n]);
    }
  }

  /** Trimming takes the white space at the ends away, and nothing else. */
  lemma TrimBare(a: string, s: string, b: string)
    requires Blank(a) && IsBare(s) && Blank(b)
    ensures Trim(a + s + b) == s
  {
    assert a + s + b == a + (s + b);
    StartIsTrimmed(a, s + b);
    EndIsTrimmed(s, b);
  }

  lemma TrimBlank(a: string)
    requires Blank(a)
    ensures Trim(a) == ""
  {
    StartIsTrimmed(a, "");
    assert a + "" == a;
  }

  lemma {:induction false} TrimStartParts(s: string) returns (a: string)
    ensures s == a + TrimStart(s) && Blank(a) && (TrimStart(s) == "" || !IsSpace(TrimStart(s)[0]))
  {
    a := "";
    if s != "" && IsSpace(s[0]) {
      a := TrimStartParts(s[1..]);
      a := [s[0]] + a;
    }
  }

  lemma {:induction false} TrimEndParts(s: string) returns (b: string)
    ensures s == TrimEnd(s) + b && Blank(b) && (TrimEnd(s) == "" || !IsSpace(TrimEnd(s)[|TrimEnd(s)| - 1]))
    decreases |s|
  {
    b := "";
    if s != "" && IsSpace(s[|s| - 1]) {
      b := TrimEndParts(s[..|s| - 1]);
      b := b + [s[|s| - 1]];
    }
  }

  /** Every text is white space around what trimming leaves of it. */
  lemma TrimParts(s: string) returns (a: string, b: string)
    ensures s == a + Trim(s) + b && Blank(a) && Blank(b) && (Trim(s) == "" || IsBare(Trim(s)))
  {
    a := TrimStartParts(s);
    b := TrimEndParts(TrimStart(s));
    assert Trim(s) != "" ==> Trim(s)[0] == TrimStart(s)[0];
  }

  /** The index of the first `c` at or after `from`, or the length when there is none. */
  function IndexFrom(s: string, c: char, from: nat): (i: nat)
    requires from <= |s|
    ensures from <= i <= |s| && (i < |s| ==> s[i] == c)
    ensures forall j :: from <= j < i ==> s[j] != c
    decreases |s| - from
  {
    if from == |s| || s[from] == c then from else IndexFrom(s, c, from + 1)
  }

  function Split(s: string, c: char): (parts: seq<string>)
    ensures parts != []
  {
    var i := IndexFrom(s, c, 0);
    if i == |s| then [s] else [s[..i]] + Split(s[i + 1..], c)
  }

  function Join(parts: seq<string>, separator: string): string {
    if parts == [] then ""
    else if |parts| == 1 then parts[0]
    else parts[0] + separator + Join(parts[1..], separator)
  }

  lemma JoinTwo(a: string, b: string, separator: string)
    ensures Join([a, b], separator) == a + separator + b
  {
    assert [a, b][1..] == [b];
  }

  ghost predicate Free(parts: seq<string>, c: char) {
    forall i :: 0 <= i < |parts| ==> c !in parts[i]
  }

  lemma {:induction false} JoinOfSplit(s: string, c: char)
    ensures Join(Split(s, c), [c]) == s && Free(Split(s, c), c)
    decreases |s|
  {
    var i := IndexFrom(s, c, 0);
    if i < |s| {
      JoinOfSplit(s[i + 1..], c);
      assert ([s[..i]] + Split(s[i + 1..], c))[1..] == Split(s[i + 1..], c);
      assert s == s[..i] + [c] + s[i + 1..];
    }
  }

  lemma SplitOff(part: string, rest: string, c: char)
    requires c !in part
    ensures Split(part + [c] + rest, c) == [part] + Split(rest, c)
  {
    var s := part + [c] + rest;
    assert s[|part|] == c && s[..|part|] == part && s[|part| + 1..] == rest;
    assert IndexFrom(s, c, 0) == |part|;
  }

  lemma {:induction false} SplitOfJoin(parts: seq<string>, c: char)
    requires parts != [] && Free(parts, c)
    ensures Split(Join(parts, [c]), c) == parts
  {
    if |parts| > 1 {
      SplitOfJoin(parts[1..], c);
      SplitOff(parts[0], Join(parts[1..], [c]), c);
      assert parts == [parts[0]] + parts[1..];
    } else {
      assert parts == [parts[0]];
    }
  }

  lemma SplitWithout(s: string, c: char)
    ensures c !in s ==> Split(s, c) == [s]
  {
  }

  lemma {:induction false} SplitConcat(a: string, b: string, c: char)
    ensures Split(a + [c] + b, c) == Split(a, c) + Split(b, c)
    decreases |a|
  {
    var i := IndexFrom(a, c, 0);
    if i == |a| {
      SplitOff(a, b, c);
    } else {
      var rest := a[i + 1..];
      assert a + [c] + b == a[..i] + [c] + (rest + [c] + b);
      SplitOff(a[..i], rest + [c] + b, c);
      SplitConcat(rest, b, c);
      assert [a[..i]] + (Split(rest, c) + Split(b, c)) == [a[..i]] + Split(rest, c) + Split(b, c);
    }
  }

  function LowerChar(c: char): char {
    if 'A' <= c <= 'Z' then (c as int + 32) as char else c
  }

  /** Lower case, of ASCII letters. */
  function ToLower(s: string): (r: string)
    ensures |r| == |s| && forall i :: 0 <= i < |s| ==> r[i] == LowerChar(s[i])
  {
    if s == "" then "" else [LowerChar(s[0])] + ToLower(s[1..])
  }

  lemma LowerTwice(s: string)
    ensures ToLower(ToLower(s)) == ToLower(s)
  {
  }

  function LowerAll(parts: seq<string>): (r: seq<string>)
    ensures |r| == |parts| && forall i :: 0 <= i < |parts| ==> r[i] == ToLower(parts[i])
  {
    seq(|parts|, i requires 0 <= i < |parts| => ToLower(parts[i]))
  }

  lemma LowerAllCons(part: string, rest: seq<string>)
    ensures LowerAll([part] + rest) == [ToLower(part)] + LowerAll(rest)
  {
  }

  lemma LowerDot(s: string)
    ensures '.' in ToLower(s) <==> '.' in s
  {
    forall i | 0 <= i < |s| ensures ToLower(s)[i] == '.' <==> s[i] == '.' {
    }
  }

  lemma LowerAround(part: string, rest: string)
    ensures ToLower(part + ['.'] + rest) == ToLower(part) + ['.'] + ToLower(rest)
  {
  }

  /** Lower case and splitting at a dot can be exchanged. */
  lemma {:induction false} SplitLower(s: string)
    ensures Split(ToLower(s), '.') == LowerAll(Split(s, '.'))
    decreases |s|
  {
    var i := IndexFrom(s, '.', 0);
    if i == |s| {
      LowerDot(s);
      SplitWithout(s, '.');
      SplitWithout(ToLower(s), '.');
    } else {
      var part, rest := s[..i], s[i + 1..];
      SplitLower(rest);
      assert s == part + ['.'] + rest;
      LowerDot(part);
      LowerAround(part, rest);
      SplitOff(part, rest, '.');
      SplitOff(ToLower(part), ToLower(rest), '.');
      LowerAllCons(part, Split(rest, '.'));
    }
  }
}
