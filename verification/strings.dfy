/** The JavaScript string operations the metrics code relies on, over `seq<char>`. */
module Strings {

  /** The characters `String.prototype.trim` removes and the regular-expression class `\s`
      matches: the ECMAScript white-space and line-terminator characters. */
  predicate IsSpace(c: char)
  {
    || c == ' ' || c == '\t' || c == '\n' || c == '\r'
    || c == '\U{000B}' || c == '\U{000C}' || c == '\U{00A0}' || c == '\U{1680}'
    || ('\U{2000}' <= c <= '\U{200A}')
    || c == '\U{2028}' || c == '\U{2029}' || c == '\U{202F}' || c == '\U{205F}'
    || c == '\U{3000}' || c == '\U{FEFF}'
  }

  predicate AllSpace(s: string)
  {
    forall i :: 0 <= i < |s| ==> IsSpace(s[i])
  }

  /** `s.startsWith(prefix)` */
  predicate StartsWith(s: string, prefix: string)
  {
    |prefix| <= |s| && s[..|prefix|] == prefix
  }

  /** `needle` occurs in `hay` starting at index `i`. */
  predicate OccursAt(hay: string, needle: string, i: nat)
  {
    i + |needle| <= |hay| && hay[i..i + |needle|] == needle
  }

  /** `hay.includes(needle)`: some window of `hay` spells `needle`. */
  predicate Includes(hay: string, needle: string)
  {
    exists i: nat | i <= |hay| :: OccursAt(hay, needle, i)
  }

  lemma IncludesEmpty(hay: string)
    ensures Includes(hay, "")
  {
    assert OccursAt(hay, "", 0);
  }

  /** `s.trimStart()`: drops the leading white space and nothing else. */
  function TrimStart(s: string): (r: string)
    ensures |r| <= |s| && r == s[|s| - |r|..]
    ensures AllSpace(s[..|s| - |r|])
    ensures r == [] || !IsSpace(r[0])
    decreases |s|
  {
    if |s| > 0 && IsSpace(s[0]) then TrimStart(s[1..]) else s
  }

  /** `s.trimEnd()`: drops the trailing white space and nothing else. */
  function TrimEnd(s: string): (r: string)
    ensures |r| <= |s| && r == s[..|r|]
    ensures AllSpace(s[|r|..])
    ensures r == [] || !IsSpace(r[|r| - 1])
    decreases |s|
  {
    if |s| > 0 && IsSpace(s[|s| - 1]) then TrimEnd(s[..|s| - 1]) else s
  }

  lemma TrimStartEmpty(s: string)
    ensures TrimStart(s) == [] <==> AllSpace(s)
  {
    var r := TrimStart(s);
    if r == [] {
      assert s[..|s|] == s;
    }
  }

  lemma TrimEndEmpty(s: string)
    ensures TrimEnd(s) == [] <==> AllSpace(s)
  {
    var r := TrimEnd(s);
    if r == [] {
      assert s[0..] == s;
    }
  }

  /** `s.trim()`: the text between the leading and the trailing white space. It is empty
      exactly when `s` is white space only. */
  function Trim(s: string): (r: string)
    ensures SliceBetweenSpace(s, r)
    ensures r == [] || (!IsSpace(r[0]) && !IsSpace(r[|r| - 1]))
    ensures r == [] <==> AllSpace(s)
  {
    var t := TrimStart(s);
    var r := TrimEnd(t);
    TrimBetween(s, t, r);
    r
  }

  /** The text `Trim` keeps, seen from its two halves. */
  lemma TrimBetween(s: string, t: string, r: string)
    requires t == TrimStart(s) && r == TrimEnd(t)
    ensures SliceBetweenSpace(s, r)
    ensures r == [] || (!IsSpace(r[0]) && !IsSpace(r[|r| - 1]))
    ensures r == [] <==> AllSpace(s)
  {
    assert SliceBetweenSpace(s, r) by {
      SpaceBetween(s, t, r);
    }
    assert r == [] <==> AllSpace(s) by {
      TrimStartEmpty(s);
      TrimEndEmpty(t);
      assert AllSpace(t) <==> t == [] by {
        if t != [] {
          assert !IsSpace(t[0]);
        }
      }
    }
    assert r != [] ==> r[0] == t[0];
  }

  /** `r` is a slice of `s` with only white space before and after it. */
  predicate SliceBetweenSpace(s: string, r: string)
  {
    exists i, j :: 0 <= i <= j <= |s| && r == s[i..j] && AllSpace(s[..i]) && AllSpace(s[j..])
  }

  /** A prefix `r` of a suffix `t` of `s`, where what `t` leaves out and what `r` leaves out
      are white space, is a slice of `s` between white space. */
  lemma SpaceBetween(s: string, t: string, r: string)
    requires |t| <= |s| && t == s[|s| - |t|..] && AllSpace(s[..|s| - |t|])
    requires |r| <= |t| && r == t[..|r|] && AllSpace(t[|r|..])
    ensures SliceBetweenSpace(s, r)
  {
    var i := |s| - |t|;
    var j := i + |r|;
    assert s[i..j] == r;
    assert s[j..] == t[|r|..];
  }

  /** A string that neither starts nor ends with white space is its own trim. */
  lemma TrimUnchanged(s: string)
    requires s == [] || (!IsSpace(s[0]) && !IsSpace(s[|s| - 1]))
    ensures Trim(s) == s
  {
    assert TrimStart(s) == s;
    assert TrimEnd(s) == s;
  }

  /** Trimming twice is trimming once. */
  lemma TrimIdempotent(s: string)
    ensures Trim(Trim(s)) == Trim(s)
  {
    TrimUnchanged(Trim(s));
  }

  /** Index of the first `c` in `s`, or `|s|` when `s` has none. */
  function FindChar(s: string, c: char): (i: nat)
    ensures i <= |s|
    ensures i < |s| ==> s[i] == c
    ensures forall j :: 0 <= j < i ==> s[j] != c
  {
    FindFrom(s, c, 0)
  }

  /** Index of the first `c` in `s` at or after `k`, or `|s|` when there is none. */
  function FindFrom(s: string, c: char, k: nat): (i: nat)
    requires k <= |s|
    ensures k <= i <= |s|
    ensures i < |s| ==> s[i] == c
    ensures forall j :: k <= j < i ==> s[j] != c
    decreases |s| - k
  {
    if k == |s| || s[k] == c then k else FindFrom(s, c, k + 1)
  }

  /** The three parts of `a + [c] + b`, read back by position. */
  lemma Around<T>(a: seq<T>, c: T, b: seq<T>)
    ensures var s := a + [c] + b;
            |s| == |a| + 1 + |b| && s[..|a|] == a && s[|a|] == c && s[|a| + 1..] == b
  {
    var s := a + [c] + b;
    assert s[..|a|] == a;
    assert s[|a| + 1..] == b;
  }

  /** A sequence is its element at `i` between the slices on either side. */
  lemma Rejoin<T>(s: seq<T>, i: nat)
    requires i < |s|
    ensures s == s[..i] + [s[i]] + s[i + 1..]
  {
    assert s == s[..i] + [s[i]] + s[i + 1..];
  }

  /** The parts of `[x] + ([y] + ([z] + r))`, read back by position. */
  lemma Cons3<T>(x: T, y: T, z: T, r: seq<T>)
    ensures var s := [x] + ([y] + ([z] + r));
            && |s| == |r| + 3 && s[0] == x && s[1] == y && s[2] == z
            && s[2..] == [z] + r && s[3..] == r
  {
    var s := [x] + ([y] + ([z] + r));
    assert s[2..] == [z] + r;
    assert s[3..] == r;
  }

  lemma ConsTail<T>(s: seq<T>)
    requires |s| > 0
    ensures [s[0]] + s[1..] == s
  {
  }

  /** The first `c` after a prefix free of `c` is the one that follows the prefix. */
  lemma FindCharAfter(a: string, c: char, b: string)
    requires c !in a
    ensures FindChar(a + [c] + b, c) == |a|
  {
    Around(a, c, b);
  }

  /** `s.split(sep)` for a one-character separator: the pieces between separators, at least one. */
  function Split(s: string, sep: char): (parts: seq<string>)
    ensures |parts| > 0
    ensures sep !in s ==> parts == [s]
    decreases |s|
  {
    var i := FindChar(s, sep);
    if i == |s| then [s] else [s[..i]] + Split(s[i + 1..], sep)
  }

  /** No piece of a split contains the separator. */
  lemma {:induction false} SplitPieces(s: string, sep: char)
    ensures forall k :: 0 <= k < |Split(s, sep)| ==> sep !in Split(s, sep)[k]
    decreases |s|
  {
    var i := FindChar(s, sep);
    if i < |s| {
      SplitPieces(s[i + 1..], sep);
      assert sep !in s[..i];
    }
  }

  /** `parts.join(sep)` for a one-character separator. */
  function Join(parts: seq<string>, sep: char): string
  {
    if |parts| == 0 then ""
    else if |parts| == 1 then parts[0]
    else parts[0] + [sep] + Join(parts[1..], sep)
  }

  lemma JoinCons(a: string, rest: seq<string>, sep: char)
    requires |rest| > 0
    ensures Join([a] + rest, sep) == a + [sep] + Join(rest, sep)
  {
    assert ([a] + rest)[1..] == rest;
  }

  lemma SplitAt(s: string, sep: char, i: nat)
    requires i < |s| && s[i] == sep && sep !in s[..i]
    ensures Split(s, sep) == [s[..i]] + Split(s[i + 1..], sep)
  {
    assert FindChar(s, sep) == i;
  }

  /** Joining the pieces of a split gives back the string. */
  lemma {:induction false} JoinSplit(s: string, sep: char)
    ensures Join(Split(s, sep), sep) == s
    decreases |s|
  {
    var i := FindChar(s, sep);
    if i < |s| {
      var head, tail := s[..i], s[i + 1..];
      SplitAt(s, sep, i);
      JoinSplit(tail, sep);
      JoinCons(head, Split(tail, sep), sep);
      Rejoin(s, i);
    }
  }

  /** A join of pieces free of a character is free of it too, unless it is the separator. */
  lemma {:induction false} JoinFree(parts: seq<string>, sep: char, c: char)
    requires c != sep
    requires forall i :: 0 <= i < |parts| ==> c !in parts[i]
    ensures c !in Join(parts, sep)
  {
    if |parts| > 1 {
      JoinFree(parts[1..], sep, c);
      assert Join(parts, sep) == parts[0] + [sep] + Join(parts[1..], sep);
    }
  }

  /** Splitting a join of separator-free pieces gives back the pieces. */
  lemma {:induction false} SplitJoin(parts: seq<string>, sep: char)
    requires |parts| > 0
    requires forall i :: 0 <= i < |parts| ==> sep !in parts[i]
    ensures Split(Join(parts, sep), sep) == parts
  {
    if |parts| > 1 {
      SplitJoin(parts[1..], sep);
      SplitAfter(parts[0], Join(parts[1..], sep), sep);
      ConsTail(parts);
    }
  }

  /** The first piece of a split ends at the first separator. */
  lemma SplitAfter(a: string, b: string, sep: char)
    requires sep !in a
    ensures Split(a + [sep] + b, sep) == [a] + Split(b, sep)
  {
    Around(a, sep, b);
    FindCharAfter(a, sep, b);
  }

  /** The first three pieces of a split, and the split of what follows them. */
  lemma SplitParts3(a: string, b: string, c: string, d: string, sep: char)
    requires sep !in a && sep !in b && sep !in c
    ensures var parts := Split(a + [sep] + (b + [sep] + (c + [sep] + d)), sep);
            && |parts| >= 3 && parts[0] == a && parts[1] == b && parts[2] == c
            && parts[2..] == [c] + Split(d, sep) && parts[3..] == Split(d, sep)
  {
    SplitAfter(c, d, sep);
    SplitAfter(b, c + [sep] + d, sep);
    SplitAfter(a, b + [sep] + (c + [sep] + d), sep);
    Cons3(a, b, c, Split(d, sep));
  }

  function LowerChar(c: char): char
  {
    if 'A' <= c <= 'Z' then (c as int + 32) as char else c
  }

  /** `s.toLowerCase()` on the ASCII letters. */
  function ToLower(s: string): (r: string)
    ensures |r| == |s|
    ensures forall i :: 0 <= i < |s| ==> r[i] == LowerChar(s[i])
  {
    seq(|s|, i requires 0 <= i < |s| => LowerChar(s[i]))
  }

  /** `s.replace(/c/g, "")`: every `c` removed, the rest in order. */
  function RemoveAll(s: string, c: char): (r: string)
    ensures c !in r
    ensures |r| <= |s|
    ensures c !in s ==> r == s
  {
    if |s| == 0 then ""
    else (if s[0] == c then "" else [s[0]]) + RemoveAll(s[1..], c)
  }

  lemma {:induction false} RemoveAllAppend(a: string, b: string, c: char)
    ensures RemoveAll(a + b, c) == RemoveAll(a, c) + RemoveAll(b, c)
  {
    if |a| > 0 {
      assert (a + b)[1..] == a[1..] + b;
      RemoveAllAppend(a[1..], b, c);
    } else {
      assert a + b == b;
    }
  }

  /** Removing the surrounding quotes of a quoted run gives back the run. */
  lemma RemoveAllAround(v: string, c: char)
    requires c !in v
    ensures RemoveAll([c] + v + [c], c) == v
  {
    RemoveAllAppend([c] + v, [c], c);
    RemoveAllAppend([c], v, c);
    assert RemoveAll([c], c) == [];
  }
}
