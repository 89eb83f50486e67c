/**
 * Text and path helpers shared by the catalog, the importer, the face pass
 * and the gallery: the handful of Python string operations the program uses
 * (str() of an integer, str.lower(), str.endswith(), str.replace(), slicing,
 * os.path.basename and os.path.join), stated over `string` = `seq<char>`.
 */
module Text {

  datatype Option<+T> = None | Some(value: T)

  /** The decimal digit character for `d`. */
  function Digit(d: nat): (c: char)
    requires d < 10
    ensures '0' <= c <= '9'
  {
    (48 + d) as char
  }

  /** Python's str(n) for a non-negative integer: its decimal digits, most significant first. */
  function NatToText(n: nat): (s: string)
    ensures |s| >= 1
    ensures n < 10 <==> |s| == 1
    ensures forall i :: 0 <= i < |s| ==> '0' <= s[i] <= '9'
    decreases n
  {
    if n < 10 then [Digit(n)] else NatToText(n / 10) + [Digit(n % 10)]
  }

  /** Two different numbers never render to the same text. */
  lemma {:induction false} NatToTextInjective(a: nat, b: nat)
    requires NatToText(a) == NatToText(b)
    ensures a == b
    decreases a
  {
    var s := NatToText(a);
    if a < 10 {
      assert |NatToText(b)| == 1;
      assert [Digit(a)] == [Digit(b)];
    } else {
      assert b >= 10;
      var n := |s|;
      assert s[n - 1] == Digit(a % 10) == Digit(b % 10);
      assert NatToText(a / 10) == s[..n - 1] == NatToText(b / 10);
      NatToTextInjective(a / 10, b / 10);
    }
  }

  /** Python's str(n) for any integer. */
  function IntToText(n: int): (s: string)
    ensures |s| >= 1
    ensures n < 0 <==> s[0] == '-'
  {
    if n < 0 then "-" + NatToText(-n) else NatToText(n)
  }

  /** str.lower() on the ASCII letters; every other character is kept. */
  function LowerChar(c: char): char
  {
    if 'A' <= c <= 'Z' then (c as int + 32) as char else c
  }

  function Lower(s: string): (r: string)
    ensures |r| == |s|
    ensures forall i :: 0 <= i < |s| ==> r[i] == LowerChar(s[i])
  {
    seq(|s|, i requires 0 <= i < |s| => LowerChar(s[i]))
  }

  /** Lowering twice is lowering once. */
  lemma LowerIsIdempotent(s: string)
    ensures Lower(Lower(s)) == Lower(s)
  {
    assert forall i :: 0 <= i < |s| ==> LowerChar(LowerChar(s[i])) == LowerChar(s[i]);
  }

  /** str.endswith(suffix). */
  predicate EndsWith(s: string, suffix: string)
  {
    |suffix| <= |s| && s[|s| - |suffix|..] == suffix
  }

  /** str.replace(c, rep) for a one-character pattern: every occurrence of `c` becomes `rep`. */
  function ReplaceChar(s: string, c: char, rep: string): (r: string)
  {
    if s == [] then []
    else (if s[0] == c then rep else [s[0]]) + ReplaceChar(s[1..], c, rep)
  }

  /** How many times `c` occurs in `s`. */
  function Occurrences(s: string, c: char): nat
  {
    if s == [] then 0 else (if s[0] == c then 1 else 0) + Occurrences(s[1..], c)
  }

  /** Python's s[lo:hi] for non-negative bounds: both bounds are clamped to the length. */
  function Slice(s: string, lo: nat, hi: nat): (r: string)
    ensures |r| <= |s|
    ensures hi <= |s| && lo <= hi ==> r == s[lo..hi]
    ensures lo >= hi || lo >= |s| ==> r == []
  {
    var l := if lo < |s| then lo else |s|;
    var h := if hi < |s| then hi else |s|;
    if l < h then s[l..h] else []
  }

  /** One past the last '/' among the first k characters of p, or 0 when there is none: rfind('/') + 1. */
  function SegmentStart(p: string, k: nat): (s: nat)
    requires k <= |p|
    ensures s <= k
  {
    if k == 0 then 0
    else if p[k - 1] == '/' then k
    else SegmentStart(p, k - 1)
  }

  /** os.path.basename on POSIX paths: everything after the last '/'. */
  function Basename(p: string): string
  {
    p[SegmentStart(p, |p|)..]
  }

  /** SegmentStart stops just after a '/', and no '/' lies between it and k. */
  lemma {:induction false} SegmentStartIsLastSeparator(p: string, k: nat)
    requires k <= |p|
    ensures var s := SegmentStart(p, k);
      && (s > 0 ==> p[s - 1] == '/')
      && forall j :: s <= j < k ==> p[j] != '/'
  {
    if k > 0 && p[k - 1] != '/' {
      SegmentStartIsLastSeparator(p, k - 1);
    }
  }

  /** When m follows a '/' (or is 0) and no '/' lies in p[m..k], the segment of the first k characters starts at m. */
  lemma {:induction false} SegmentStartAfter(p: string, m: nat, k: nat)
    requires m <= k <= |p|
    requires m == 0 || p[m - 1] == '/'
    requires forall j :: m <= j < k ==> p[j] != '/'
    ensures SegmentStart(p, k) == m
    decreases k
  {
    if k > m {
      SegmentStartAfter(p, m, k - 1);
    }
  }

  /** The base name is the longest suffix without a separator: it holds no '/', and it is the whole path or follows a '/'. */
  lemma BasenameIsLastSegment(p: string)
    ensures var r := Basename(p);
      && '/' !in r
      && |r| <= |p| && p[|p| - |r|..] == r
      && (|r| < |p| ==> p[|p| - |r| - 1] == '/')
  {
    SegmentStartIsLastSeparator(p, |p|);
    var r := Basename(p);
    assert forall j :: 0 <= j < |r| ==> r[j] == p[SegmentStart(p, |p|) + j];
  }

  /** os.path.join(a, b) on POSIX paths. */
  function Join(a: string, b: string): string
  {
    if |b| > 0 && b[0] == '/' then b
    else if a == [] || a[|a| - 1] == '/' then a + b
    else a + "/" + b
  }

  /** A plain name placed after a separator (or at the start) is the base name of the whole path. */
  lemma BasenameAfterSeparator(prefix: string, name: string)
    requires prefix == [] || prefix[|prefix| - 1] == '/'
    requires '/' !in name
    ensures Basename(prefix + name) == name
  {
    var p := prefix + name;
    forall j | |prefix| <= j < |p| ensures p[j] != '/' {
      assert p[j] == name[j - |prefix|];
      assert name[j - |prefix|] in name;
    }
    SegmentStartAfter(p, |prefix|, |p|);
    assert p[|prefix|..] == name;
  }

  /** A name without a separator is its own base name. */
  lemma BasenameOfName(name: string)
    requires '/' !in name
    ensures Basename(name) == name
  {
    BasenameAfterSeparator([], name);
    assert [] + name == name;
  }

  /** Joining a directory and a plain file name, then taking the base name, gives the file name back. */
  lemma BasenameOfJoin(dir: string, name: string)
    requires '/' !in name
    ensures Basename(Join(dir, name)) == name
  {
    if |name| > 0 {
      assert name[0] != '/' by { assert name[0] in name; }
    }
    if dir == [] || dir[|dir| - 1] == '/' {
      BasenameAfterSeparator(dir, name);
    } else {
      BasenameAfterSeparator(dir + "/", name);
      assert dir + "/" + name == (dir + "/") + name;
    }
  }
}
