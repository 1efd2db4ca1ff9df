/** The Python string built-ins the chat flow relies on, over ASCII:
    `str.strip()`, `str.lower()`, `str.split(sep)` (with its inverse `sep.join`)
    and the decimal rendering of an `int` in an f-string. */
module Text {

  /** A character `str.strip()` removes, restricted to ASCII: tab, line feed,
      vertical tab, form feed, carriage return, the separators 0x1C-0x1F and space. */
  predicate IsSpace(c: char) {
    ('\t' <= c <= '\r') || ('\U{1C}' <= c <= ' ')
  }

  predicate AllSpace(s: string) {
    forall k :: 0 <= k < |s| ==> IsSpace(s[k])
  }

  /** No whitespace at either end: what `str.strip()` returns. */
  predicate Stripped(s: string) {
    s == [] || (!IsSpace(s[0]) && !IsSpace(s[|s| - 1]))
  }

  /** Drops the leading whitespace. */
  function TrimStart(s: string): (r: string)
    ensures |r| <= |s| && r == s[|s| - |r|..]
    ensures AllSpace(s[..|s| - |r|])
    ensures r != [] ==> !IsSpace(r[0])
  {
    if s != [] && IsSpace(s[0]) then
      var r := TrimStart(s[1..]);
      assert s[..|s| - |r|] == [s[0]] + s[1..][..|s| - 1 - |r|];
      r
    else
      s
  }

  /** Drops the trailing whitespace. */
  function TrimEnd(s: string): (r: string)
    ensures |r| <= |s| && r == s[..|r|]
    ensures AllSpace(s[|r|..])
    ensures r != [] ==> !IsSpace(r[|r| - 1])
  {
    if s != [] && IsSpace(s[|s| - 1]) then
      var r := TrimEnd(s[..|s| - 1]);
      assert s[|r|..] == s[..|s| - 1][|r|..] + [s[|s| - 1]];
      r
    else
      s
  }

  /** `s.strip()`: what is left after removing whitespace at both ends. */
  function Strip(s: string): (r: string)
    ensures Stripped(r)
    ensures r == [] <==> AllSpace(s)
  {
    var t := TrimStart(s);
    var r := TrimEnd(t);
    assert r == [] ==> s == s[..|s| - |t|] + t[|r|..];
    r
  }

  /** Where the stripped core starts in `s`. */
  function StripOffset(s: string): (i: nat)
    ensures i + |Strip(s)| <= |s|
  {
    |s| - |TrimStart(s)|
  }

  /** Strip keeps a contiguous piece of `s` and removes only whitespace around it. */
  lemma StripInfix(s: string)
    ensures var i, r := StripOffset(s), Strip(s);
      r == s[i..i + |r|] && AllSpace(s[..i]) && AllSpace(s[i + |r|..])
  {
    TrimmedParts(s, TrimStart(s), TrimEnd(TrimStart(s)));
  }

  /** A suffix `t` of `s` behind whitespace and a prefix `r` of `t` before
      whitespace: `s` is whitespace, `r`, whitespace. */
  lemma TrimmedParts(s: string, t: string, r: string)
    requires |t| <= |s| && t == s[|s| - |t|..] && AllSpace(s[..|s| - |t|])
    requires |r| <= |t| && r == t[..|r|] && AllSpace(t[|r|..])
    ensures r == s[|s| - |t|..|s| - |t| + |r|]
    ensures AllSpace(s[..|s| - |t|]) && AllSpace(s[|s| - |t| + |r|..])
  {
    var i := |s| - |t|;
    assert s[i..][..|r|] == s[i..i + |r|];
    assert s[i..][|r|..] == s[i + |r|..];
  }

  /** Every character Strip keeps comes from `s`. */
  lemma StripKeeps(s: string, c: char)
    requires c in Strip(s)
    ensures c in s
  {
    StripInfix(s);
    var r, i := Strip(s), StripOffset(s);
    var k :| 0 <= k < |r| && r[k] == c;
    assert s[i + k] == c;
  }

  lemma {:induction false} TrimStartExactly(s: string, i: nat)
    requires i <= |s| && AllSpace(s[..i])
    requires i < |s| ==> !IsSpace(s[i])
    ensures TrimStart(s) == s[i..]
    decreases i
  {
    if i > 0 {
      assert s[0] == s[..i][0];
      assert s[1..][..i - 1] == s[..i][1..];
      TrimStartExactly(s[1..], i - 1);
    }
  }

  lemma {:induction false} TrimEndExactly(s: string, j: nat)
    requires j <= |s| && AllSpace(s[j..])
    requires j > 0 ==> !IsSpace(s[j - 1])
    ensures TrimEnd(s) == s[..j]
    decreases |s| - j
  {
    if j < |s| {
      assert s[|s| - 1] == s[j..][|s| - 1 - j];
      assert s[..|s| - 1][j..] == s[j..][..|s| - 1 - j];
      TrimEndExactly(s[..|s| - 1], j);
    }
  }

  /** The decomposition Strip makes is the only one: whitespace, a stripped
      core, whitespace. */
  lemma StripExactly(s: string, i: nat, j: nat)
    requires i <= j <= |s|
    requires AllSpace(s[..i]) && AllSpace(s[j..]) && Stripped(s[i..j])
    ensures Strip(s) == s[i..j]
  {
    if i < j {
      StripCore(s, i, j);
    } else {
      assert AllSpace(s[..|s|]) by {
        forall k | 0 <= k < |s| ensures IsSpace(s[k]) {
          if k < i { assert s[k] == s[..i][k]; } else { assert s[k] == s[j..][k - j]; }
        }
      }
      TrimStartExactly(s, |s|);
    }
  }

  /** StripExactly for a non-empty core: TrimStart stops at `i`, TrimEnd at `j`. */
  lemma StripCore(s: string, i: nat, j: nat)
    requires i < j <= |s|
    requires AllSpace(s[..i]) && AllSpace(s[j..]) && Stripped(s[i..j])
    ensures Strip(s) == s[i..j]
  {
    SuffixSlices(s, i, j);
    TrimEndExactly(s[i..], j - i);
    TrimStartExactly(s, i);
  }

  /** The pieces of the suffix `s[i..]` around position `j - i`. */
  lemma SuffixSlices<T>(s: seq<T>, i: nat, j: nat)
    requires i < j <= |s|
    ensures s[i] == s[i..j][0] && s[i..][j - i - 1] == s[i..j][j - i - 1]
    ensures s[i..][j - i..] == s[j..] && s[i..][..j - i] == s[i..j]
  {
  }

  /** A stripped string is a fixed point of Strip. */
  lemma StripStripped(s: string)
    requires Stripped(s)
    ensures Strip(s) == s
  {
    assert s[..0] == [] && s[|s|..] == [] && s[0..|s|] == s;
    StripExactly(s, 0, |s|);
  }

  function LowerChar(c: char): char {
    if 'A' <= c <= 'Z' then (c as int - 'A' as int + 'a' as int) as char else c
  }

  /** `s.lower()` over ASCII: A-Z become a-z, every other character stays. */
  function Lower(s: string): (r: string)
    ensures |r| == |s|
  {
    seq(|s|, k requires 0 <= k < |s| => LowerChar(s[k]))
  }

  /** `s.split(sep)`: the pieces between occurrences of `sep`, empty pieces
      included; the empty string splits into one empty piece. */
  function Split(s: string, sep: char): (parts: seq<string>)
    ensures |parts| >= 1
    ensures forall k :: 0 <= k < |parts| ==> sep !in parts[k]
  {
    if s == [] then [[]]
    else
      var rest := Split(s[1..], sep);
      if s[0] == sep then [[]] + rest else [[s[0]] + rest[0]] + rest[1..]
  }

  /** The pieces of a whitespace string are whitespace. */
  lemma {:induction false} SplitAllSpace(s: string, sep: char)
    requires AllSpace(s)
    ensures forall k :: 0 <= k < |Split(s, sep)| ==> AllSpace(Split(s, sep)[k])
  {
    if s != [] {
      SplitAllSpace(s[1..], sep);
      var rest := Split(s[1..], sep);
      if s[0] != sep {
        var p := [s[0]] + rest[0];
        assert AllSpace(rest[0]);
        assert forall k :: 1 <= k < |p| ==> p[k] == rest[0][k - 1];
      }
    }
  }

  /** `sep.join(parts)`. */
  function Join(parts: seq<string>, sep: char): string {
    if parts == [] then []
    else if |parts| == 1 then parts[0]
    else parts[0] + [sep] + Join(parts[1..], sep)
  }

  /** Splitting at one separator splits the two sides independently. */
  lemma {:induction false} SplitAt(a: string, sep: char, b: string)
    ensures Split(a + [sep] + b, sep) == Split(a, sep) + Split(b, sep)
  {
    if a == [] {
      assert a + [sep] + b == [sep] + b;
      assert ([sep] + b)[1..] == b;
    } else {
      assert (a + [sep] + b)[0] == a[0];
      assert (a + [sep] + b)[1..] == a[1..] + [sep] + b;
      SplitAt(a[1..], sep, b);
    }
  }

  /** A string without the separator is a single piece. */
  lemma {:induction false} SplitWhole(s: string, sep: char)
    requires sep !in s
    ensures Split(s, sep) == [s]
  {
    if s != [] {
      assert s[0] != sep;
      SplitWhole(s[1..], sep);
      assert [s[0]] + s[1..] == s;
    }
  }

  /** Joining the pieces gives back the string. */
  lemma {:induction false} JoinSplit(s: string, sep: char)
    ensures Join(Split(s, sep), sep) == s
  {
    if s != [] {
      JoinSplit(s[1..], sep);
      var rest := Split(s[1..], sep);
      if s[0] == sep {
        assert Split(s, sep)[1..] == rest;
      } else {
        var parts := Split(s, sep);
        assert parts[1..] == rest[1..];
        if |rest| == 1 {
          assert s == [s[0]] + rest[0];
        } else {
          assert Join(rest, sep) == rest[0] + [sep] + Join(rest[1..], sep);
          assert s == [s[0]] + rest[0] + [sep] + Join(rest[1..], sep);
        }
      }
    }
  }

  /** Splitting a join of separator-free pieces gives back the pieces. */
  lemma {:induction false} SplitJoin(parts: seq<string>, sep: char)
    requires |parts| >= 1
    requires forall k :: 0 <= k < |parts| ==> sep !in parts[k]
    ensures Split(Join(parts, sep), sep) == parts
  {
    SplitWhole(parts[0], sep);
    if |parts| > 1 {
      SplitJoin(parts[1..], sep);
      SplitAt(parts[0], sep, Join(parts[1..], sep));
      assert parts == [parts[0]] + parts[1..];
    }
  }

  /** A join of whitespace pieces at a whitespace separator is whitespace. */
  lemma {:induction false} JoinAllSpace(parts: seq<string>, sep: char)
    requires IsSpace(sep)
    requires forall k :: 0 <= k < |parts| ==> AllSpace(parts[k])
    ensures AllSpace(Join(parts, sep))
  {
    if |parts| > 1 {
      JoinAllSpace(parts[1..], sep);
      var rest := Join(parts[1..], sep);
      var j := parts[0] + [sep] + rest;
      forall k | 0 <= k < |j| ensures IsSpace(j[k]) {
        if k < |parts[0]| {
          assert j[k] == parts[0][k];
        } else if k > |parts[0]| {
          assert j[k] == rest[k - |parts[0]| - 1];
        }
      }
    }
  }

  function Digit(d: nat): char
    requires d < 10
  {
    ('0' as int + d) as char
  }

  /** `str(n)` for a non-negative int: decimal digits, most significant first. */
  function NatToString(n: nat): (s: string)
    ensures s != []
    ensures forall k :: 0 <= k < |s| ==> '0' <= s[k] <= '9'
    ensures s[0] == '0' ==> n == 0
  {
    if n < 10 then [Digit(n)] else NatToString(n / 10) + [Digit(n % 10)]
  }

  /** The number a string of decimal digits denotes. */
  function DecimalValue(s: string): nat
    requires forall k :: 0 <= k < |s| ==> '0' <= s[k] <= '9'
  {
    if s == [] then 0 else DecimalValue(s[..|s| - 1]) * 10 + (s[|s| - 1] as int - '0' as int)
  }

  /** Reading back the rendering of `n` gives `n`, so distinct numbers render distinctly. */
  lemma {:induction false} DecimalRoundTrip(n: nat)
    ensures DecimalValue(NatToString(n)) == n
  {
    if n >= 10 {
      DecimalRoundTrip(n / 10);
      var s := NatToString(n);
      assert s[..|s| - 1] == NatToString(n / 10);
    }
  }
}
