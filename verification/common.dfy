/** Small shared vocabulary: optional values, crash-or-value results, and the
    string operations the pipeline borrows from Python (`s[:n]`, `lower()`,
    `upper()`, `str(n)`, `os.path.join`, `str.replace`). Character classes are
    modelled on ASCII. */
module Common {

  /** A value that may be absent (a missing document key, a `None`). */
  datatype Option<+T> = None | Some(value: T) {
    function GetOr(default: T): T {
      match this
      case Some(v) => v
      case None => default
    }
  }

  /** `Ok` for a run that finished; `Err` for an exception that escaped the
      stage and ended the process. */
  datatype Result<+T> = Ok(value: T) | Err(reason: string)

  /** Python truthiness of an optional string: present and non-empty. */
  predicate Truthy(s: Option<string>) { s.Some? && s.value != "" }

  function Min(a: int, b: int): int { if a <= b then a else b }

  function Max(a: int, b: int): int { if a >= b then a else b }

  /** Python's slice `s[:n]` for a non-negative `n`. */
  function Take<T>(s: seq<T>, n: nat): (r: seq<T>)
    ensures |r| == Min(|s|, n)
    ensures r == s[..|r|]
  {
    if |s| <= n then s else s[..n]
  }

  function LowerChar(c: char): char {
    if 'A' <= c <= 'Z' then (c as int + 32) as char else c
  }

  function UpperChar(c: char): char {
    if 'a' <= c <= 'z' then (c as int - 32) as char else c
  }

  /** Python's `str.lower()` on the ASCII letters. */
  function Lower(s: string): (r: string)
    ensures |r| == |s|
    ensures forall i :: 0 <= i < |s| ==> r[i] == LowerChar(s[i])
  {
    if s == [] then [] else [LowerChar(s[0])] + Lower(s[1..])
  }

  /** Python's `str.upper()` on the ASCII letters. */
  function Upper(s: string): (r: string)
    ensures |r| == |s|
    ensures forall i :: 0 <= i < |s| ==> r[i] == UpperChar(s[i])
  {
    if s == [] then [] else [UpperChar(s[0])] + Upper(s[1..])
  }

  predicate IsDigit(c: char) { '0' <= c <= '9' }

  function DigitChar(d: nat): (c: char)
    requires d < 10
    ensures IsDigit(c) && c as int - '0' as int == d
  {
    (d + '0' as int) as char
  }

  /** Python's `str(n)` for a non-negative integer: decimal, no leading zero. */
  function NatToString(n: nat): (r: string)
    ensures |r| > 0
    ensures forall i :: 0 <= i < |r| ==> IsDigit(r[i])
    ensures n > 0 ==> r[0] != '0'
  {
    if n < 10 then [DigitChar(n)] else NatToString(n / 10) + [DigitChar(n % 10)]
  }

  function DigitValue(c: char): nat
    requires IsDigit(c)
  {
    c as int - '0' as int
  }

  /** The value of a run of decimal digits, as Python's `int()` reads it. */
  function ParseDigits(s: string): nat
    requires forall i :: 0 <= i < |s| ==> IsDigit(s[i])
  {
    if s == [] then 0
    else ParseDigits(s[..|s| - 1]) * 10 + DigitValue(s[|s| - 1])
  }

  /** Reading back the decimal form of `n` gives `n`. */
  lemma {:induction false} ParseNatToString(n: nat)
    ensures ParseDigits(NatToString(n)) == n
  {
    var r := NatToString(n);
    if n >= 10 {
      ParseNatToString(n / 10);
      assert r[..|r| - 1] == NatToString(n / 10);
    }
  }

  /** POSIX `os.path.join(a, b)`: an absolute `b` replaces `a`; otherwise one
      `/` separates the two unless `a` is empty or already ends with `/`. */
  function PathJoin(a: string, b: string): string {
    if |b| > 0 && b[0] == '/' then b
    else if a == [] || a[|a| - 1] == '/' then a + b
    else a + "/" + b
  }

  /** Joining a directory that does not end in `/` with a relative name puts
      exactly one `/` between them. */
  lemma PathJoinPlain(a: string, b: string)
    requires |a| > 0 && a[|a| - 1] != '/'
    requires b == [] || b[0] != '/'
    ensures PathJoin(a, b) == a + "/" + b
  {
  }

  /** Joining one directory with two relative names gives the same path only
      for the same name. */
  lemma PathJoinInjective(a: string, b1: string, b2: string)
    requires |b1| > 0 && b1[0] != '/' && |b2| > 0 && b2[0] != '/'
    requires PathJoin(a, b1) == PathJoin(a, b2)
    ensures b1 == b2
  {
    var sep := if a == [] || a[|a| - 1] == '/' then a else a + "/";
    assert PathJoin(a, b1) == sep + b1 && PathJoin(a, b2) == sep + b2;
    assert b1 == (sep + b1)[|sep|..];
    assert b2 == (sep + b2)[|sep|..];
  }

  /** Decimal spelling is one-to-one. */
  lemma NatToStringInjective(i: nat, j: nat)
    requires NatToString(i) == NatToString(j)
    ensures i == j
  {
    ParseNatToString(i);
    ParseNatToString(j);
  }

  /** A file name holding one number, as in `f"{pre}{n}{post}"`. */
  function Numbered(pre: string, n: nat, post: string): string {
    pre + NatToString(n) + post
  }

  /** Names built around different numbers differ. */
  lemma NumberedInjective(pre: string, i: nat, j: nat, post: string)
    requires Numbered(pre, i, post) == Numbered(pre, j, post)
    ensures i == j
  {
    var x, y := NatToString(i), NatToString(j);
    assert |x| == |y|;
    assert x == (pre + x + post)[|pre|..|pre| + |x|];
    assert y == (pre + y + post)[|pre|..|pre| + |y|];
    NatToStringInjective(i, j);
  }

  /** When what follows the number starts with a non-digit, the number and
      the rest are both recovered from the name. */
  lemma NumberedSplit(pre: string, i: nat, r1: string, j: nat, r2: string)
    requires |r1| > 0 && !IsDigit(r1[0]) && |r2| > 0 && !IsDigit(r2[0])
    requires Numbered(pre, i, r1) == Numbered(pre, j, r2)
    ensures i == j && r1 == r2
  {
    var x1, x2 := NatToString(i), NatToString(j);
    var s, t := pre + x1 + r1, pre + x2 + r2;
    assert |x1| == |x2|;
    assert x1 == s[|pre|..|pre| + |x1|];
    assert x2 == t[|pre|..|pre| + |x2|];
    assert r1 == s[|pre| + |x1|..];
    assert r2 == t[|pre| + |x2|..];
    NatToStringInjective(i, j);
  }

  /** Python's `s.replace(pat, rep)`: every non-overlapping occurrence of
      `pat`, scanning left to right, is replaced. */
  function ReplaceAll(s: string, pat: string, rep: string): string
    requires |pat| > 0
    decreases |s|
  {
    if |s| < |pat| then s
    else if s[..|pat|] == pat then rep + ReplaceAll(s[|pat|..], pat, rep)
    else [s[0]] + ReplaceAll(s[1..], pat, rep)
  }

  /** `pat` occurs in `s` starting at index `i`. */
  predicate OccursAt(s: string, pat: string, i: nat) {
    i + |pat| <= |s| && s[i..i + |pat|] == pat
  }

  /** Replacing in a name that holds the pattern only as its suffix replaces
      just that suffix. */
  lemma {:induction false} ReplaceSuffix(base: string, pat: string, rep: string)
    requires |pat| > 0
    requires forall i: nat :: i < |base| ==> !OccursAt(base + pat, pat, i)
    ensures ReplaceAll(base + pat, pat, rep) == base + rep
    decreases |base|
  {
    var s := base + pat;
    if base == [] {
      assert s == pat && s[..|pat|] == pat && s[|pat|..] == [];
    } else {
      assert !OccursAt(s, pat, 0);
      assert s[..|pat|] != pat;
      assert s[1..] == base[1..] + pat;
      forall i: nat | i < |base[1..]|
        ensures !OccursAt(base[1..] + pat, pat, i)
      {
        assert !OccursAt(s, pat, i + 1);
        assert (base[1..] + pat)[i..i + |pat|] == s[i + 1..i + 1 + |pat|];
      }
      ReplaceSuffix(base[1..], pat, rep);
      assert [base[0]] + (base[1..] + rep) == base + rep;
    }
  }

  /** Removing every copy of a character: Python's `s.replace(c, "")`. */
  function DropChar(s: string, c: char): (r: string)
    ensures c !in r
    ensures forall x :: x in r <==> x in s && x != c
    ensures (c !in s) ==> r == s
  {
    if s == [] then []
    else (if s[0] == c then [] else [s[0]]) + DropChar(s[1..], c)
  }

  /** Removal keeps the order of what stays: around any one character, the
      two sides are cleaned independently. */
  lemma DropCharSplit(x: string, d: char, y: string, c: char)
    ensures DropChar(x + [d] + y, c) == DropChar(x, c) + (if d == c then [] else [d]) + DropChar(y, c)
  {
    DropCharAppend(x + [d], y, c);
    DropCharAppend(x, [d], c);
    assert [d][1..] == [];
  }

  /** Removal distributes over concatenation. */
  lemma {:induction false} DropCharAppend(a: string, b: string, c: char)
    ensures DropChar(a + b, c) == DropChar(a, c) + DropChar(b, c)
  {
    if a == [] {
      assert a + b == b;
    } else {
      var h := if a[0] == c then [] else [a[0]];
      assert (a + b)[0] == a[0];
      assert (a + b)[1..] == a[1..] + b;
      calc {
        DropChar(a + b, c);
        h + DropChar(a[1..] + b, c);
        { DropCharAppend(a[1..], b, c); }
        h + (DropChar(a[1..], c) + DropChar(b, c));
        (h + DropChar(a[1..], c)) + DropChar(b, c);
      }
    }
  }
}
