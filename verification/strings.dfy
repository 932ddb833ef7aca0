/**
 * The few Python string built-ins the backend relies on: `str(int)`, `int(str)`,
 * `str.split(sep)`, `str.strip()` and ASCII lower-casing.
 */
module Strings {
  import opened Wrappers

  predicate IsDigit(c: char) { '0' <= c <= '9' }

  predicate AllDigits(s: string) { forall k :: 0 <= k < |s| ==> IsDigit(s[k]) }

  /** `str.isspace()`, the whitespace `str.strip()` removes: tab to carriage return, the four
      information separators 0x1C-0x1F, space, and the Unicode spaces and line separators. */
  predicate IsSpace(c: char)
  {
    var n := c as int;
    || 0x09 <= n <= 0x0D || 0x1C <= n <= 0x20 || n == 0x85 || n == 0xA0 || n == 0x1680
    || 0x2000 <= n <= 0x200A || n == 0x2028 || n == 0x2029 || n == 0x202F || n == 0x205F || n == 0x3000
  }

  function DigitChar(d: nat): (c: char)
    requires d < 10
    ensures IsDigit(c) && c as int - '0' as int == d
  {
    (d + '0' as int) as char
  }

  /** Decimal rendering of a natural number, without leading zeros. */
  function NatToString(n: nat): (r: string)
    ensures |r| >= 1 && AllDigits(r)
    ensures |r| > 1 ==> r[0] != '0'
    decreases n
  {
    if n < 10 then [DigitChar(n)] else NatToString(n / 10) + [DigitChar(n % 10)]
  }

  /** Python `str(i)`. */
  function IntToString(i: int): (r: string)
    ensures |r| >= 1
    ensures (r[0] == '-') <==> i < 0
  {
    if i < 0 then "-" + NatToString(-i) else NatToString(i)
  }

  /** Value of a string of decimal digits, most significant first. */
  function DigitsValue(s: string): nat
    requires AllDigits(s)
  {
    if |s| == 0 then 0
    else DigitsValue(s[..|s| - 1]) * 10 + DigitValue(s[|s| - 1])
  }

  function DigitValue(c: char): (d: nat)
    requires IsDigit(c)
    ensures d < 10 && DigitChar(d) == c
  {
    c as int - '0' as int
  }

  /** Python `int(s)` for a decimal literal: surrounding whitespace, an optional sign, at least one digit. */
  function ParseInt(s: string): Option<int>
  {
    var t := Strip(s);
    if |t| == 0 then None
    else
      var neg := t[0] == '-';
      var body := if t[0] == '-' || t[0] == '+' then t[1..] else t;
      if |body| == 0 || !AllDigits(body) then None
      else Some(if neg then 0 - DigitsValue(body) as int else DigitsValue(body) as int)
  }

  lemma {:induction false} DigitsOfNatToString(n: nat)
    ensures DigitsValue(NatToString(n)) == n
    decreases n
  {
    if n >= 10 {
      var prefix := NatToString(n / 10);
      var s := prefix + [DigitChar(n % 10)];
      assert s[..|s| - 1] == prefix;
      DigitsOfNatToString(n / 10);
    }
  }

  /** A run of digits parses to its value. */
  lemma ParseIntOfDigits(s: string, n: nat)
    requires |s| >= 1 && AllDigits(s) && DigitsValue(s) == n
    ensures ParseInt(s) == Some(n)
  {
    StripOfUnspaced(s);
    assert s[0] != '-' && s[0] != '+';
  }

  /** A minus followed by a run of digits parses to the negated value. */
  lemma ParseIntOfNegatedDigits(s: string, n: nat)
    requires |s| >= 2 && s[0] == '-' && AllDigits(s[1..]) && DigitsValue(s[1..]) == n
    ensures ParseInt(s) == Some(-(n as int))
  {
    assert IsDigit(s[1..][|s| - 2]);
    StripOfUnspaced(s);
  }

  /** `int(str(i)) == i`: the user id written into a token's "sub" claim reads back unchanged. */
  lemma ParseIntOfIntToString(i: int)
    ensures ParseInt(IntToString(i)) == Some(i)
  {
    if i < 0 {
      assert IntToString(i)[1..] == NatToString(-i);
      DigitsOfNatToString(-i);
      ParseIntOfNegatedDigits(IntToString(i), -i);
    } else {
      DigitsOfNatToString(i);
      ParseIntOfDigits(IntToString(i), i);
    }
  }

  // ---------------------------------------------------------------- strip

  /** `s` with its leading whitespace removed. */
  function TrimStart(s: string): (r: string)
    ensures |r| <= |s| && r == s[|s| - |r|..]
    ensures |r| > 0 ==> !IsSpace(r[0])
    ensures forall k :: 0 <= k < |s| - |r| ==> IsSpace(s[k])
  {
    if |s| > 0 && IsSpace(s[0]) then TrimStart(s[1..]) else s
  }

  /** `s` with its trailing whitespace removed. */
  function TrimEnd(s: string): (r: string)
    ensures |r| <= |s| && r == s[..|r|]
    ensures |r| > 0 ==> !IsSpace(r[|r| - 1])
    ensures forall k :: |r| <= k < |s| ==> IsSpace(s[k])
  {
    if |s| > 0 && IsSpace(s[|s| - 1]) then TrimEnd(s[..|s| - 1]) else s
  }

  /** Python `s.strip()`. */
  function Strip(s: string): (r: string)
    ensures |r| > 0 ==> !IsSpace(r[0]) && !IsSpace(r[|r| - 1])
  {
    TrimEnd(TrimStart(s))
  }

  /** Where the piece `strip` keeps starts and ends. */
  lemma StripBounds(s: string) returns (i: nat, j: nat)
    ensures i <= j <= |s| && Strip(s) == s[i..j]
    ensures forall k :: 0 <= k < i ==> IsSpace(s[k])
    ensures forall k :: j <= k < |s| ==> IsSpace(s[k])
  {
    var t := TrimStart(s);
    var r := TrimEnd(t);
    i, j := |s| - |t|, |s| - |t| + |r|;
    assert t == s[i..] && r == t[..|r|];
    forall k | j <= k < |s| ensures IsSpace(s[k]) {
      assert s[k] == t[k - i];
    }
  }

  /** What `strip` keeps is one contiguous piece of its input, and only whitespace is cut off. */
  lemma StripIsInfix(s: string)
    ensures exists i, j :: (0 <= i <= j <= |s| && Strip(s) == s[i..j]
                              && (forall k :: 0 <= k < i ==> IsSpace(s[k]))
                              && (forall k :: j <= k < |s| ==> IsSpace(s[k])))
  {
    var i, j := StripBounds(s);
  }

  /** A string that neither starts nor ends with whitespace is its own strip. */
  lemma StripOfUnspaced(s: string)
    requires |s| > 0 ==> !IsSpace(s[0]) && !IsSpace(s[|s| - 1])
    ensures Strip(s) == s
  {
  }

  /** `strip` is idempotent. */
  lemma StripIdempotent(s: string)
    ensures Strip(Strip(s)) == Strip(s)
  {
    StripOfUnspaced(Strip(s));
  }

  // ---------------------------------------------------------------- split

  /** Number of occurrences of `c` in `s`. */
  function Count(s: string, c: char): nat
  {
    if |s| == 0 then 0 else Count(s[..|s| - 1], c) + (if s[|s| - 1] == c then 1 else 0)
  }

  /** Python `s.split(sep)` for a one-character separator: cut at every occurrence. */
  function Split(s: string, sep: char): (r: seq<string>)
    ensures |r| >= 1
    decreases |s|
  {
    if |s| == 0 then [""]
    else if s[|s| - 1] == sep then Split(s[..|s| - 1], sep) + [""]
    else
      var front := Split(s[..|s| - 1], sep);
      front[..|front| - 1] + [front[|front| - 1] + [s[|s| - 1]]]
  }

  /** Python `sep.join(parts)`. */
  function Join(parts: seq<string>, sep: char): string
  {
    if |parts| == 0 then ""
    else if |parts| == 1 then parts[0]
    else Join(parts[..|parts| - 1], sep) + [sep] + parts[|parts| - 1]
  }

  /** Splitting gives one more piece than there are separators. */
  lemma {:induction false} SplitCount(s: string, sep: char)
    ensures |Split(s, sep)| == Count(s, sep) + 1
    decreases |s|
  {
    if |s| > 0 {
      SplitCount(s[..|s| - 1], sep);
    }
  }

  /** No piece of a split holds the separator. */
  lemma {:induction false} SplitPiecesFree(s: string, sep: char)
    ensures forall k :: 0 <= k < |Split(s, sep)| ==> sep !in Split(s, sep)[k]
    decreases |s|
  {
    if |s| > 0 && s[|s| - 1] != sep {
      var front := Split(s[..|s| - 1], sep);
      SplitPiecesFree(s[..|s| - 1], sep);
      var r := front[..|front| - 1] + [front[|front| - 1] + [s[|s| - 1]]];
      forall k | 0 <= k < |r| ensures sep !in r[k] {
        if k < |r| - 1 {
          assert r[k] == front[k];
        }
      }
    } else if |s| > 0 {
      SplitPiecesFree(s[..|s| - 1], sep);
    }
  }

  /** Joining one more piece adds a separator and the piece. */
  lemma JoinSnoc(parts: seq<string>, x: string, sep: char)
    requires |parts| >= 1
    ensures Join(parts + [x], sep) == Join(parts, sep) + [sep] + x
  {
    assert (parts + [x])[..|parts|] == parts;
  }

  /** Appending a character to the last piece appends it to the joined string. */
  lemma JoinExtendLast(parts: seq<string>, c: char, sep: char)
    requires |parts| >= 1
    ensures Join(parts[..|parts| - 1] + [parts[|parts| - 1] + [c]], sep) == Join(parts, sep) + [c]
  {
    var f := parts[..|parts| - 1];
    var last := parts[|parts| - 1];
    if |parts| == 1 {
      assert f + [last + [c]] == [last + [c]];
    } else {
      JoinSnoc(f, last + [c], sep);
      assert parts == f + [last];
      JoinSnoc(f, last, sep);
    }
  }

  /** Joining the pieces of a split gives the original string back. */
  lemma {:induction false} JoinOfSplit(s: string, sep: char)
    ensures Join(Split(s, sep), sep) == s
    decreases |s|
  {
    if |s| > 0 {
      var init := s[..|s| - 1];
      var last := s[|s| - 1];
      JoinOfSplit(init, sep);
      var front := Split(init, sep);
      assert s == init + [last];
      if last == sep {
        JoinSnoc(front, "", sep);
      } else {
        JoinExtendLast(front, last, sep);
      }
    }
  }

  /** Splitting gives one more piece than there are separators, no piece holds the separator,
      and joining the pieces back gives the original string. */
  lemma SplitJoin(s: string, sep: char)
    ensures |Split(s, sep)| == Count(s, sep) + 1
    ensures forall k :: 0 <= k < |Split(s, sep)| ==> sep !in Split(s, sep)[k]
    ensures Join(Split(s, sep), sep) == s
  {
    SplitCount(s, sep);
    SplitPiecesFree(s, sep);
    JoinOfSplit(s, sep);
  }

  /** A string without the separator splits into itself alone. */
  lemma {:induction false} SplitNoSep(s: string, sep: char)
    requires sep !in s
    ensures Split(s, sep) == [s]
    decreases |s|
  {
    if |s| > 0 {
      assert sep !in s[..|s| - 1];
      SplitNoSep(s[..|s| - 1], sep);
      assert s[..|s| - 1] + [s[|s| - 1]] == s;
    }
  }

  /** Splitting `a + [sep] + b`, where `b` holds no separator, adds `b` as one more piece. */
  lemma {:induction false} SplitAppend(a: string, sep: char, b: string)
    requires sep !in b
    ensures Split(a + [sep] + b, sep) == Split(a, sep) + [b]
    decreases |b|
  {
    if |b| == 0 {
      assert (a + [sep] + b)[..|a + [sep] + b| - 1] == a;
    } else {
      var s := a + [sep] + b;
      var b' := b[..|b| - 1];
      assert s[..|s| - 1] == a + [sep] + b';
      assert sep !in b';
      SplitAppend(a, sep, b');
      assert b' + [b[|b| - 1]] == b;
    }
  }

  /** Joining pieces free of the separator and splitting again gives the pieces back. */
  lemma {:induction false} JoinSplit(parts: seq<string>, sep: char)
    requires |parts| >= 1
    requires forall k :: 0 <= k < |parts| ==> sep !in parts[k]
    ensures Split(Join(parts, sep), sep) == parts
    decreases |parts|
  {
    if |parts| == 1 {
      SplitNoSep(parts[0], sep);
    } else {
      var init := parts[..|parts| - 1];
      JoinSplit(init, sep);
      assert init + [parts[|parts| - 1]] == parts;
      JoinSnoc(init, parts[|parts| - 1], sep);
      SplitAppend(Join(init, sep), sep, parts[|parts| - 1]);
    }
  }

  // ---------------------------------------------------------------- case

  /** Lower-case an ASCII letter; every other character is left alone. */
  function LowerChar(c: char): char
  {
    if 'A' <= c <= 'Z' then (c as int + 32) as char else c
  }

  /** SQL `lower(s)` on the ASCII letters. */
  function Lower(s: string): (r: string)
    ensures |r| == |s| && forall k :: 0 <= k < |s| ==> r[k] == LowerChar(s[k])
  {
    seq(|s|, k requires 0 <= k < |s| => LowerChar(s[k]))
  }

  /** True iff `w` occurs in `s` as a contiguous piece. */
  predicate Contains(s: string, w: string)
  {
    exists i | 0 <= i <= |s| - |w| :: OccursAt(s, w, i)
  }

  predicate OccursAt(s: string, w: string, i: int)
  {
    0 <= i <= |s| - |w| && s[i..i + |w|] == w
  }
}
