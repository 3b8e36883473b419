/** `String.prototype.split` and `Array.prototype.join` / `slice` on strings. */
module Strings {

  /** The position of the first `c` in `s`, or `|s|` when there is none. */
  function IndexOf(s: string, c: char): (i: nat)
    ensures i <= |s|
    ensures i < |s| ==> s[i] == c
    ensures forall j :: 0 <= j < i ==> s[j] != c
  {
    if |s| == 0 then 0
    else if s[0] == c then 0
    else 1 + IndexOf(s[1..], c)
  }

  /** The position of the last `c` in `s`, or -1 when there is none. */
  function LastIndexOf(s: string, c: char): (i: int)
    ensures -1 <= i < |s|
    ensures 0 <= i ==> s[i] == c
    ensures forall j :: i < j < |s| ==> s[j] != c
  {
    if |s| == 0 then -1
    else if s[|s| - 1] == c then |s| - 1
    else LastIndexOf(s[..|s| - 1], c)
  }

  /** `s.split(c)[0]`: everything before the first `c`. */
  function Before(s: string, c: char): (r: string)
    ensures r <= s
    ensures c !in r
    ensures c !in s ==> r == s
  {
    s[..IndexOf(s, c)]
  }

  /** Number of occurrences of `c` in `s`. */
  function Count(s: string, c: char): nat {
    if |s| == 0 then 0 else (if s[0] == c then 1 else 0) + Count(s[1..], c)
  }

  /** `s.split(c)` for a one-character separator. */
  function Split(s: string, c: char): (parts: seq<string>)
    ensures |parts| >= 1
    decreases |s|
  {
    var i := IndexOf(s, c);
    if i == |s| then [s] else [s[..i]] + Split(s[i + 1..], c)
  }

  /** The first part is everything before the first separator, and no part holds one. */
  lemma {:induction false} SplitParts(s: string, c: char)
    ensures Split(s, c)[0] == Before(s, c)
    ensures forall i :: 0 <= i < |Split(s, c)| ==> c !in Split(s, c)[i]
    decreases |s|
  {
    var i := IndexOf(s, c);
    if i < |s| {
      SplitStep(s, c);
      SplitParts(s[i + 1..], c);
    }
  }

  /** `parts.join(c)`. */
  function Join(parts: seq<string>, c: char): string {
    if |parts| == 0 then ""
    else if |parts| == 1 then parts[0]
    else parts[0] + [c] + Join(parts[1..], c)
  }

  /** JavaScript's `Array.prototype.slice(start)` start index for an array of length `n`. */
  function SliceStart(n: nat, start: int): (k: nat)
    ensures k <= n
    ensures start < 0 ==> k == if n + start < 0 then 0 else n + start
    ensures 0 <= start ==> k == if start > n then n else start
  {
    if start < 0 then (if n + start < 0 then 0 else n + start)
    else if start > n then n
    else start
  }

  /** `a.slice(start)`. */
  function Slice<T>(a: seq<T>, start: int): (r: seq<T>)
    ensures r == a[SliceStart(|a|, start)..]
  {
    a[SliceStart(|a|, start)..]
  }

  lemma CountAppend(a: string, b: string, c: char)
    ensures Count(a + b, c) == Count(a, c) + Count(b, c)
  {
    if |a| > 0 {
      assert (a + b)[1..] == a[1..] + b;
      CountAppend(a[1..], b, c);
    } else {
      assert a + b == b;
    }
  }

  lemma CountAbsent(s: string, c: char)
    requires c !in s
    ensures Count(s, c) == 0
  {
    if |s| > 0 {
      assert s[1..] <= s[1..];
      assert forall x :: x in s[1..] ==> x in s;
      CountAbsent(s[1..], c);
    }
  }

  /** Splitting yields one more part than there are separators. */
  lemma {:induction false} SplitLength(s: string, c: char)
    ensures |Split(s, c)| == Count(s, c) + 1
    decreases |s|
  {
    var i := IndexOf(s, c);
    if i == |s| {
      CountAbsent(s, c);
    } else {
      SplitLength(s[i + 1..], c);
      assert s == s[..i] + [c] + s[i + 1..];
      CountAppend(s[..i] + [c], s[i + 1..], c);
      CountAppend(s[..i], [c], c);
      CountAbsent(s[..i], c);
    }
  }

  /** One step of `Split`: the part before the first separator, then the split of the rest. */
  lemma SplitStep(s: string, c: char)
    requires IndexOf(s, c) < |s|
    ensures Split(s, c) == [s[..IndexOf(s, c)]] + Split(s[IndexOf(s, c) + 1..], c)
  {
  }

  /** One step of `Join`. */
  lemma JoinCons(p: string, rest: seq<string>, c: char)
    requires |rest| >= 1
    ensures Join([p] + rest, c) == p + [c] + Join(rest, c)
  {
    assert ([p] + rest)[1..] == rest;
  }

  /** Joining the parts of a split gives back the original string. */
  lemma {:induction false} JoinSplit(s: string, c: char)
    ensures Join(Split(s, c), c) == s
    decreases |s|
  {
    var i := IndexOf(s, c);
    if i < |s| {
      var rest := s[i + 1..];
      SplitStep(s, c);
      JoinSplit(rest, c);
      JoinCons(s[..i], Split(rest, c), c);
      assert s == s[..i] + [c] + rest;
    }
  }

  /** Splitting a join of separator-free parts gives back the parts. */
  lemma {:induction false} SplitJoin(parts: seq<string>, c: char)
    requires |parts| >= 1
    requires forall i :: 0 <= i < |parts| ==> c !in parts[i]
    ensures Split(Join(parts, c), c) == parts
    decreases |parts|
  {
    if |parts| > 1 {
      var tail := Join(parts[1..], c);
      assert parts == [parts[0]] + parts[1..];
      JoinCons(parts[0], parts[1..], c);
      var s := parts[0] + ([c] + tail);
      assert Join(parts, c) == s;
      IndexOfAfterFree(parts[0], [c] + tail, c);
      var i := |parts[0]|;
      assert s[..i] == parts[0];
      assert s[i + 1..] == tail;
      SplitStep(s, c);
      SplitJoin(parts[1..], c);
    } else {
      assert c !in Join(parts, c);
    }
  }

  /** In `a + b` with no `c` in `a`, the first `c` is in `b`. */
  lemma {:induction false} IndexOfAfterFree(a: string, b: string, c: char)
    requires c !in a
    ensures IndexOf(a + b, c) == |a| + IndexOf(b, c)
  {
    if |a| > 0 {
      assert (a + b)[1..] == a[1..] + b;
      assert c !in a[1..] by {
        forall x | x in a[1..] ensures x in a { }
      }
      IndexOfAfterFree(a[1..], b, c);
    } else {
      assert a + b == b;
    }
  }

  /** Joining two non-empty lists of parts: the two joins with one separator between. */
  lemma {:induction false} JoinAppend(a: seq<string>, b: seq<string>, c: char)
    requires |a| >= 1 && |b| >= 1
    ensures Join(a + b, c) == Join(a, c) + [c] + Join(b, c)
  {
    if |a| == 1 {
      JoinCons(a[0], b, c);
      assert a + b == [a[0]] + b;
    } else {
      JoinAppend(a[1..], b, c);
      assert a + b == [a[0]] + (a[1..] + b);
      JoinCons(a[0], a[1..] + b, c);
      JoinCons(a[0], a[1..], c);
      assert a == [a[0]] + a[1..];
    }
  }

  /** Joining any tail of a split gives a suffix of the original string. */
  lemma JoinTailIsSuffix(s: string, c: char, k: nat)
    requires k <= |Split(s, c)|
    ensures var kept := Join(Split(s, c)[k..], c);
      |kept| <= |s| && kept == s[|s| - |kept|..]
  {
    var parts := Split(s, c);
    JoinSplit(s, c);
    if k == 0 {
      assert parts[0..] == parts;
    } else if k == |parts| {
      assert parts[k..] == [];
    } else {
      assert parts == parts[..k] + parts[k..];
      JoinAppend(parts[..k], parts[k..], c);
    }
  }

  /** A prefix never holds more separators than the whole string. */
  lemma PrefixCount(p: string, s: string, c: char)
    requires p <= s
    ensures Count(p, c) <= Count(s, c)
  {
    assert s == p + s[|p|..];
    CountAppend(p, s[|p|..], c);
  }
}
