/** The parts of Go's `strings` package the modelled code calls. */
module Strings {

  /** Position of the first `c`, or the length when there is none. */
  function Find(s: string, c: char): (i: nat)
    ensures i <= |s| && (i < |s| ==> s[i] == c) && forall j :: 0 <= j < i ==> s[j] != c
  {
    if s == [] || s[0] == c then 0 else 1 + Find(s[1..], c)
  }

  /** strings.Split with a one-character separator. */
  function Split(s: string, c: char): (parts: seq<string>)
    ensures parts != []
  {
    var i := Find(s, c);
    if i == |s| then [s] else [s[..i]] + Split(s[i + 1..], c)
  }

  function Join(parts: seq<string>, c: char): string
  {
    if parts == [] then "" else if |parts| == 1 then parts[0] else parts[0] + [c] + Join(parts[1..], c)
  }

  function TrimLeft(s: string, c: char): string
  {
    if s != [] && s[0] == c then TrimLeft(s[1..], c) else s
  }

  function TrimRight(s: string, c: char): string
  {
    if s != [] && s[|s| - 1] == c then TrimRight(s[..|s| - 1], c) else s
  }

  function Trim(s: string, c: char): string
  {
    TrimRight(TrimLeft(s, c), c)
  }

  function TrimSuffix(s: string, suffix: string): string
  {
    if HasSuffix(s, suffix) then s[..|s| - |suffix|] else s
  }

  predicate HasPrefix(s: string, prefix: string)
  {
    prefix <= s
  }

  predicate HasSuffix(s: string, suffix: string)
  {
    |suffix| <= |s| && s[|s| - |suffix|..] == suffix
  }

  lemma TrimSuffixIs(s: string, suffix: string)
    ensures TrimSuffix(s + suffix, suffix) == s
    ensures !HasSuffix(s, suffix) ==> TrimSuffix(s, suffix) == s
  {
    assert (s + suffix)[|s|..] == suffix && (s + suffix)[..|s|] == s;
  }

  lemma FindAt(a: string, c: char, rest: string)
    requires c !in a
    ensures Find(a + [c] + rest, c) == |a|
  {
    var s := a + [c] + rest;
    assert s[|a|] == c && forall j :: 0 <= j < |a| ==> s[j] == a[j];
  }

  lemma SplitFirst(a: string, c: char, rest: string)
    requires c !in a
    ensures Split(a + [c] + rest, c) == [a] + Split(rest, c)
  {
    FindAt(a, c, rest);
    var s := a + [c] + rest;
    assert s[..|a|] == a && s[|a| + 1..] == rest;
  }

  lemma SplitWhole(a: string, c: char)
    requires c !in a
    ensures Split(a, c) == [a]
  {
    assert Find(a, c) == |a|;
  }

  /** Splitting undoes joining when no part contains the separator. */
  lemma {:induction false} SplitJoin(parts: seq<string>, c: char)
    requires parts != [] && forall i :: 0 <= i < |parts| ==> c !in parts[i]
    ensures Split(Join(parts, c), c) == parts
  {
    if |parts| == 1 {
      SplitWhole(parts[0], c);
    } else {
      SplitFirst(parts[0], c, Join(parts[1..], c));
      SplitJoin(parts[1..], c);
      assert parts == [parts[0]] + parts[1..];
    }
  }

  /** Joining undoes splitting, of every string, and no part contains the separator. */
  lemma {:induction false} JoinSplit(s: string, c: char)
    ensures Join(Split(s, c), c) == s
    ensures forall i :: 0 <= i < |Split(s, c)| ==> c !in Split(s, c)[i]
  {
    var i := Find(s, c);
    if i < |s| {
      JoinSplit(s[i + 1..], c);
      assert Split(s, c)[1..] == Split(s[i + 1..], c);
      assert s == s[..i] + [c] + s[i + 1..];
    }
  }

  lemma {:induction false} TrimLeftIs(s: string, c: char)
    ensures exists i :: 0 <= i <= |s| && TrimLeft(s, c) == s[i..] && (forall j :: 0 <= j < i ==> s[j] == c) && (i < |s| ==> s[i] != c)
  {
    if s != [] && s[0] == c {
      TrimLeftIs(s[1..], c);
      var i :| 0 <= i <= |s[1..]| && TrimLeft(s[1..], c) == s[1..][i..] && (forall j :: 0 <= j < i ==> s[1..][j] == c)
               && (i < |s[1..]| ==> s[1..][i] != c);
      assert s[1..][i..] == s[i + 1..];
      assert forall j :: 0 < j < i + 1 ==> s[j] == s[1..][j - 1];
    } else {
      assert s[0..] == s;
    }
  }

  lemma {:induction false} TrimRightIs(s: string, c: char)
    ensures exists k :: 0 <= k <= |s| && TrimRight(s, c) == s[..k] && (forall j :: k <= j < |s| ==> s[j] == c) && (k > 0 ==> s[k - 1] != c)
  {
    if s != [] && s[|s| - 1] == c {
      var t := s[..|s| - 1];
      TrimRightIs(t, c);
      var k :| 0 <= k <= |t| && TrimRight(t, c) == t[..k] && (forall j :: k <= j < |t| ==> t[j] == c) && (k > 0 ==> t[k - 1] != c);
      assert t[..k] == s[..k];
    } else {
      assert s[..|s|] == s;
    }
  }

  lemma {:induction false} JoinEnds(parts: seq<string>, c: char)
    requires parts != [] && forall i :: 0 <= i < |parts| ==> c !in parts[i] && parts[i] != ""
    ensures var s := Join(parts, c); s != "" && s[0] != c && s[|s| - 1] != c
  {
    if |parts| > 1 {
      JoinEnds(parts[1..], c);
    }
  }

  /** A rooted path trims back to its joined segments. */
  lemma TrimRooted(parts: seq<string>, c: char)
    requires parts != [] && forall i :: 0 <= i < |parts| ==> c !in parts[i] && parts[i] != ""
    ensures Trim([c] + Join(parts, c), c) == Join(parts, c)
  {
    JoinEnds(parts, c);
    var s := Join(parts, c);
    assert ([c] + s)[1..] == s;
    assert TrimLeft(s, c) == s == TrimRight(s, c);
  }
}
