/** The .NET string operations the service relies on, written out on
    `seq<char>`: `String.Split(char)`, `String.Trim()`, an ordinal
    `StartsWith`, `String.Replace(value, "")` and `UInt64.TryParse` with its
    default number style. */
module Strings {
  import opened Wrappers
  import opened Seqs

  /** `Char.IsWhiteSpace`: the space, line and paragraph separators of
      Unicode plus the control characters U+0009 to U+000D and U+0085. */
  predicate IsWhiteSpace(c: char) {
    ('\U{0009}' <= c <= '\U{000D}') || c == ' ' || c == '\U{0085}' || c == '\U{00A0}'
    || c == '\U{1680}' || ('\U{2000}' <= c <= '\U{200A}') || c == '\U{2028}' || c == '\U{2029}'
    || c == '\U{202F}' || c == '\U{205F}' || c == '\U{3000}'
  }

  /** Drops the white space that starts `s`, and nothing else. */
  function TrimStart(s: string): (r: string)
    ensures |r| <= |s| && r == s[|s| - |r|..]
    ensures r == [] || !IsWhiteSpace(r[0])
  {
    if |s| > 0 && IsWhiteSpace(s[0]) then TrimStart(s[1..]) else s
  }

  /** Drops the white space that ends `s`, and nothing else. */
  function TrimEnd(s: string): (r: string)
    ensures |r| <= |s| && r == s[..|r|]
    ensures r == [] || !IsWhiteSpace(r[|r| - 1])
  {
    if |s| > 0 && IsWhiteSpace(s[|s| - 1]) then TrimEnd(s[..|s| - 1]) else s
  }

  /** The part `TrimStart` drops is white space. */
  lemma {:induction false} TrimStartDrops(s: string)
    ensures forall k :: 0 <= k < |s| - |TrimStart(s)| ==> IsWhiteSpace(s[k])
  {
    if |s| > 0 && IsWhiteSpace(s[0]) {
      TrimStartDrops(s[1..]);
    }
  }

  /** The part `TrimEnd` drops is white space. */
  lemma {:induction false} TrimEndDrops(s: string)
    ensures forall k :: |TrimEnd(s)| <= k < |s| ==> IsWhiteSpace(s[k])
  {
    if |s| > 0 && IsWhiteSpace(s[|s| - 1]) {
      TrimEndDrops(s[..|s| - 1]);
    }
  }

  /** `String.Trim()`: drops leading and trailing white space. */
  function Trim(s: string): (r: string)
    ensures |r| <= |s|
    ensures r == [] || (!IsWhiteSpace(r[0]) && !IsWhiteSpace(r[|r| - 1]))
  {
    TrimEnd(TrimStart(s))
  }

  /** What `Trim` keeps: the slice of `s` between a white-space prefix and
      a white-space suffix. With `Trim`'s own ensures (the slice neither
      starts nor ends with white space) this determines the result. */
  lemma TrimSlice(s: string)
    ensures var a := |s| - |TrimStart(s)|; var r := Trim(s);
      && a + |r| <= |s| && r == s[a..a + |r|]
      && (forall k :: 0 <= k < a ==> IsWhiteSpace(s[k]))
      && (forall k :: a + |r| <= k < |s| ==> IsWhiteSpace(s[k]))
  {
    var t := TrimStart(s);
    TrimStartDrops(s);
    TrimEndDrops(t);
    var a := |s| - |t|;
    forall k | a + |Trim(s)| <= k < |s|
      ensures IsWhiteSpace(s[k])
    {
      assert s[k] == t[k - a];
    }
  }

  lemma TrimUnchanged(s: string)
    requires |s| > 0 && !IsWhiteSpace(s[0]) && !IsWhiteSpace(s[|s| - 1])
    ensures Trim(s) == s
  {
  }

  lemma TrimIdempotent(s: string)
    ensures Trim(Trim(s)) == Trim(s)
  {
  }

  /** `String.Split(c)`: every occurrence of `c` separates two pieces, so
      `n` separators give `n + 1` pieces, empty ones included. */
  function Split(s: string, c: char): (r: seq<string>)
    ensures |r| >= 1
    ensures forall i :: 0 <= i < |r| ==> c !in r[i]
  {
    if |s| == 0 then [""]
    else
      var rest := Split(s[1..], c);
      if s[0] == c then [""] + rest else [[s[0]] + rest[0]] + rest[1..]
  }

  /** `String.Join(c, pieces)`, the inverse of `Split`. */
  function Join(pieces: seq<string>, c: char): string
    requires |pieces| >= 1
  {
    if |pieces| == 1 then pieces[0] else pieces[0] + [c] + Join(pieces[1..], c)
  }

  lemma {:induction false} JoinSplit(s: string, c: char)
    ensures Join(Split(s, c), c) == s
  {
    if |s| > 0 {
      JoinSplit(s[1..], c);
      var rest := Split(s[1..], c);
      if s[0] != c {
        if |rest| > 1 {
          assert ([[s[0]] + rest[0]] + rest[1..])[1..] == rest[1..];
        }
      }
    }
  }

  lemma {:induction false} SplitNoSeparator(p: string, c: char)
    requires c !in p
    ensures Split(p, c) == [p]
  {
    if |p| > 0 {
      SplitNoSeparator(p[1..], c);
      assert [p[0]] + p[1..] == p;
    }
  }

  lemma {:induction false} SplitAtSeparator(p: string, t: string, c: char)
    requires c !in p
    ensures Split(p + [c] + t, c) == [p] + Split(t, c)
  {
    if |p| == 0 {
      assert (p + [c] + t)[1..] == t;
    } else {
      assert (p + [c] + t)[1..] == p[1..] + [c] + t;
      SplitAtSeparator(p[1..], t, c);
      assert [p[0]] + p[1..] == p;
    }
  }

  /** Splitting the join of separator-free pieces gives the pieces back. */
  lemma {:induction false} SplitJoin(pieces: seq<string>, c: char)
    requires |pieces| >= 1
    requires forall i :: 0 <= i < |pieces| ==> c !in pieces[i]
    ensures Split(Join(pieces, c), c) == pieces
  {
    if |pieces| == 1 {
      SplitNoSeparator(pieces[0], c);
    } else {
      SplitJoin(pieces[1..], c);
      SplitAtSeparator(pieces[0], Join(pieces[1..], c), c);
    }
  }

  /** Ordinal `String.StartsWith(prefix)`. */
  predicate StartsWith(s: string, prefix: string) {
    |prefix| <= |s| && s[..|prefix|] == prefix
  }

  /** `String.Replace(pattern, "")`: deletes the non-overlapping occurrences
      of `pattern` found scanning left to right, in a single pass. */
  function RemoveAll(s: string, pattern: string): (r: string)
    requires |pattern| > 0
    ensures |r| <= |s|
    decreases |s|
  {
    if |s| < |pattern| then s
    else if s[..|pattern|] == pattern then RemoveAll(s[|pattern|..], pattern)
    else [s[0]] + RemoveAll(s[1..], pattern)
  }

  /** Deleting a one-character pattern keeps exactly the other characters,
      in their order and number: no occurrence of `c` is left and every
      other character survives. */
  lemma {:induction false} RemoveAllChar(s: string, c: char)
    ensures RemoveAll(s, [c]) == Without(s, [c])
    ensures c !in RemoveAll(s, [c])
    ensures forall d :: d != c ==> (d in RemoveAll(s, [c]) <==> d in s)
    decreases |s|
  {
    if |s| > 0 {
      RemoveAllChar(s[1..], c);
      if s[..1] == [c] {
        assert s == [c] + s[1..];
      } else {
        assert s == [s[0]] + s[1..];
      }
    }
  }

  /** A string in which the pattern never occurs is left unchanged. */
  lemma {:induction false} RemoveAllAbsent(s: string, pattern: string)
    requires |pattern| > 0
    requires forall i :: 0 <= i < |s| ==> !StartsWith(s[i..], pattern)
    ensures RemoveAll(s, pattern) == s
    decreases |s|
  {
    if |s| >= |pattern| {
      assert s[0..] == s;
      assert !StartsWith(s[0..], pattern);
      forall i | 0 <= i < |s[1..]|
        ensures !StartsWith(s[1..][i..], pattern)
      {
        assert s[1..][i..] == s[i + 1..];
      }
      RemoveAllAbsent(s[1..], pattern);
      assert s == [s[0]] + s[1..];
    }
  }

  /** A prefix holding no occurrence of the pattern's first character is
      kept as it is. */
  lemma {:induction false} RemoveAllSkip(a: string, b: string, pattern: string)
    requires |pattern| > 0 && pattern[0] !in a
    ensures RemoveAll(a + b, pattern) == a + RemoveAll(b, pattern)
    decreases |a|
  {
    if |a| == 0 {
      assert a + b == b;
    } else {
      var ab := a + b;
      assert ab[0] == a[0] != pattern[0];
      assert ab[1..] == a[1..] + b;
      if |ab| >= |pattern| {
        assert ab[..|pattern|][0] == a[0];
        assert RemoveAll(ab, pattern) == [a[0]] + RemoveAll(ab[1..], pattern);
      } else {
        assert RemoveAll(ab, pattern) == ab;
        assert RemoveAll(b, pattern) == b;
        assert RemoveAll(ab[1..], pattern) == ab[1..];
      }
      RemoveAllSkip(a[1..], b, pattern);
      assert a == [a[0]] + a[1..];
    }
  }

  // A proof step for `Bookmark.ExampleStripPrefix`: a leading occurrence of the pattern is dropped.
  lemma RemoveAllPrefix(pattern: string, rest: string)
    requires |pattern| > 0
    ensures RemoveAll(pattern + rest, pattern) == RemoveAll(rest, pattern)
  {
    var s := pattern + rest;
    assert s[..|pattern|] == pattern && s[|pattern|..] == rest;
  }

  // ---- UInt64.TryParse with NumberStyles.Integer ----

  const ULongLimit: nat := 0x1_0000_0000_0000_0000

  predicate IsDigit(c: char) { '0' <= c <= '9' }

  /** The white space number parsing accepts: U+0009 to U+000D and space. */
  predicate IsNumberWhite(c: char) { c == ' ' || ('\U{0009}' <= c <= '\U{000D}') }

  predicate AllDigits(d: string) { forall i :: 0 <= i < |d| ==> IsDigit(d[i]) }

  /** Length of the white space that starts `s`. */
  function WhiteLength(s: string): (n: nat)
    ensures n <= |s|
    ensures forall i :: 0 <= i < n ==> IsNumberWhite(s[i])
    ensures n < |s| ==> !IsNumberWhite(s[n])
  {
    if |s| > 0 && IsNumberWhite(s[0]) then 1 + WhiteLength(s[1..]) else 0
  }

  /** Length of the decimal digits that start `s`. */
  function DigitLength(s: string): (n: nat)
    ensures n <= |s|
    ensures forall i :: 0 <= i < n ==> IsDigit(s[i])
    ensures n < |s| ==> !IsDigit(s[n])
  {
    if |s| > 0 && IsDigit(s[0]) then 1 + DigitLength(s[1..]) else 0
  }

  function DigitValue(c: char): nat
    requires IsDigit(c)
  {
    (c as int - '0' as int) as nat
  }

  /** The value of a decimal digit string, most significant digit first. */
  function DigitsValue(d: string): nat
    requires AllDigits(d)
  {
    if |d| == 0 then 0 else DigitsValue(d[..|d| - 1]) * 10 + DigitValue(d[|d| - 1])
  }

  /** `UInt64.TryParse(s, out v)`: optional white space, an optional `+` or
      `-`, at least one decimal digit, optional white space and trailing NUL
      characters; the value must fit in 64 bits, and `-` is accepted only
      before a zero value. */
  function ParseULong(s: string): (r: Option<nat>)
    ensures r.Some? ==> r.value < ULongLimit
  {
    ParseSigned(s[WhiteLength(s)..])
  }

  function ParseSigned(t: string): (r: Option<nat>)
    ensures r.Some? ==> r.value < ULongLimit
  {
    var signed := |t| > 0 && (t[0] == '-' || t[0] == '+');
    ParseDigits(if signed then t[1..] else t, signed && t[0] == '-')
  }

  function ParseDigits(u: string, negative: bool): (r: Option<nat>)
    ensures r.Some? ==> r.value < ULongLimit
  {
    var n := DigitLength(u);
    if n == 0 || !IsNumberTail(u[n..]) then None
    else
      var v := DigitsValue(u[..n]);
      if v >= ULongLimit || (negative && v != 0) then None else Some(v)
  }

  /** What may follow the digits: white space, then NUL characters only. */
  predicate IsNumberTail(rest: string) {
    var tail := rest[WhiteLength(rest)..];
    forall i :: 0 <= i < |tail| ==> tail[i] == '\0'
  }

  /** `UInt64.ToString()`: the decimal digits of `n`, no leading zeros. */
  function FormatULong(n: nat): (r: string)
    ensures |r| >= 1 && AllDigits(r)
    ensures r[0] != '0' || n == 0
  {
    var d := ['0' + (n % 10) as char];
    if n < 10 then d else FormatULong(n / 10) + d
  }

  lemma {:induction false} FormatValue(n: nat)
    ensures DigitsValue(FormatULong(n)) == n
  {
    var d := ['0' + (n % 10) as char];
    if n >= 10 {
      FormatValue(n / 10);
      var f := FormatULong(n / 10) + d;
      assert f[..|f| - 1] == FormatULong(n / 10);
    }
  }

  /** Every 64-bit value survives printing followed by parsing. */
  lemma ParseFormat(n: nat)
    requires n < ULongLimit
    ensures ParseULong(FormatULong(n)) == Some(n)
  {
    var f := FormatULong(n);
    FormatValue(n);
    AllDigitsPrefix(f);
    assert f[0] != '+' && f[0] != '-' && !IsNumberWhite(f[0]);
    assert f[WhiteLength(f)..] == f;
    assert f[..|f|] == f;
  }

  lemma {:induction false} AllDigitsPrefix(d: string)
    requires AllDigits(d)
    ensures DigitLength(d) == |d|
  {
    if |d| > 0 {
      AllDigitsPrefix(d[1..]);
    }
  }

  lemma ParseEmpty()
    ensures ParseULong("") == None
  {
  }
}
