/**
 * String primitives of JavaScript that the screens rely on, stated over
 * `seq<char>`: the `\s` class of regular expressions, ASCII lowercasing,
 * `includes`, `startsWith`, `split`/`join` on one character, `toString` and
 * `padStart` of integers, and decimal `parseInt`.
 */
module Text {
  import opened Util

  /** `a || b` on two strings: the first unless it is empty. */
  function Or(a: string, b: string): string
  {
    if a != "" then a else b
  }

  predicate IsDigit(c: char) { '0' <= c <= '9' }

  predicate AllDigits(s: string) { forall i :: 0 <= i < |s| ==> IsDigit(s[i]) }

  /** The characters matched by `\s` in a JavaScript regular expression. */
  predicate IsJsSpace(c: char)
  {
    c == ' ' || c == '\t' || c == '\n' || c == '\U{000B}' || c == '\U{000C}' || c == '\r'
    || c == '\U{00A0}' || c == '\U{1680}' || ('\U{2000}' <= c <= '\U{200A}')
    || c == '\U{2028}' || c == '\U{2029}' || c == '\U{202F}' || c == '\U{205F}'
    || c == '\U{3000}' || c == '\U{FEFF}'
  }

  /** `toLowerCase`, restricted to the ASCII letters. */
  function LowerChar(c: char): (r: char)
    ensures 'A' <= c <= 'Z' ==> 'a' <= r <= 'z'
    ensures !('A' <= c <= 'Z') ==> r == c
  {
    if 'A' <= c <= 'Z' then (c as int + 32) as char else c
  }

  function Lower(s: string): (r: string)
    ensures |r| == |s|
    ensures forall i :: 0 <= i < |s| ==> r[i] == LowerChar(s[i])
  {
    seq(|s|, i requires 0 <= i < |s| => LowerChar(s[i]))
  }

  lemma LowerIdempotent(s: string)
    ensures Lower(Lower(s)) == Lower(s)
  {
  }

  /** `s.startsWith(p)`. */
  predicate StartsWith(s: string, p: string)
  {
    |p| <= |s| && s[..|p|] == p
  }

  /** `s.includes(t)`, computed by trying each start position in turn. */
  predicate Contains(s: string, t: string)
    decreases |s|
  {
    StartsWith(s, t) || (|s| > 0 && Contains(s[1..], t))
  }

  /** `t` occurs in `s` starting at position `i`. */
  predicate OccursAt(s: string, t: string, i: int)
  {
    0 <= i <= |s| - |t| && s[i..i + |t|] == t
  }

  /** `Contains` holds exactly when `t` occurs at some position of `s`. */
  lemma {:induction false} ContainsIff(s: string, t: string)
    ensures Contains(s, t) <==> exists i :: OccursAt(s, t, i)
    decreases |s|
  {
    if StartsWith(s, t) {
      assert s[0..0 + |t|] == t;
      assert OccursAt(s, t, 0);
    } else if |s| > 0 {
      ContainsIff(s[1..], t);
      if Contains(s[1..], t) {
        var i :| OccursAt(s[1..], t, i);
        assert s[1..][i..i + |t|] == s[i + 1..i + 1 + |t|];
        assert OccursAt(s, t, i + 1);
      } else {
        forall i | 0 <= i <= |s| - |t|
          ensures !OccursAt(s, t, i)
        {
          if i == 0 {
            assert s[..|t|] == s[0..0 + |t|];
          } else {
            assert s[1..][i - 1..i - 1 + |t|] == s[i..i + |t|];
            assert !OccursAt(s[1..], t, i - 1);
          }
        }
      }
    } else {
      assert forall i :: !OccursAt(s, t, i);
    }
  }

  /** The empty string is contained in every string, as in JavaScript. */
  lemma ContainsEmpty(s: string)
    ensures Contains(s, "")
  {
    assert StartsWith(s, "");
  }

  // ---------------------------------------------------------------
  // split and join on one separator character

  /** `s.split(sep)` for a one-character separator. */
  function Split(s: string, sep: char): (parts: seq<string>)
    ensures |parts| >= 1
    ensures forall i :: 0 <= i < |parts| ==> sep !in parts[i]
    decreases |s|
  {
    if s == [] then [""]
    else
      var rest := Split(s[1..], sep);
      if s[0] == sep then [""] + rest
      else [[s[0]] + rest[0]] + rest[1..]
  }

  /** `parts.join(sep)`. */
  function Join(parts: seq<string>, sep: char): string
    requires |parts| >= 1
    decreases |parts|
  {
    if |parts| == 1 then parts[0] else parts[0] + [sep] + Join(parts[1..], sep)
  }

  /** Joining what `split` produced gives the string back. */
  lemma {:induction false} JoinSplit(s: string, sep: char)
    ensures Join(Split(s, sep), sep) == s
    decreases |s|
  {
    if s != [] {
      JoinSplit(s[1..], sep);
      var rest := Split(s[1..], sep);
      if s[0] == sep {
        assert Split(s, sep)[1..] == rest;
      } else {
        var parts := Split(s, sep);
        if |rest| == 1 {
          assert parts == [[s[0]] + rest[0]];
        } else {
          assert parts[1..] == rest[1..];
          assert Join(rest, sep) == rest[0] + [sep] + Join(rest[1..], sep);
        }
      }
    }
  }

  /** Splitting a join of separator-free parts gives the parts back. */
  lemma {:induction false} SplitJoin(parts: seq<string>, sep: char)
    requires |parts| >= 1
    requires forall i :: 0 <= i < |parts| ==> sep !in parts[i]
    ensures Split(Join(parts, sep), sep) == parts
    decreases |parts|, |parts[0]|
  {
    if parts[0] == [] {
      if |parts| > 1 {
        SplitJoin(parts[1..], sep);
        SplitJoinEmptyFirst(parts, sep);
      }
    } else {
      var tail := [parts[0][1..]] + parts[1..];
      assert tail[1..] == parts[1..];
      assert parts[0][0] in parts[0];
      SplitJoin(tail, sep);
      SplitJoinStep(parts, tail, sep);
    }
  }

  /** The step of `SplitJoin` for an empty first part. */
  lemma SplitJoinEmptyFirst(parts: seq<string>, sep: char)
    requires |parts| > 1 && parts[0] == []
    requires Split(Join(parts[1..], sep), sep) == parts[1..]
    ensures Split(Join(parts, sep), sep) == parts
  {
    var j := Join(parts[1..], sep);
    var whole := Join(parts, sep);
    assert whole == [sep] + j;
    assert whole[0] == sep && whole[1..] == j;
    assert Split(whole, sep) == [""] + Split(j, sep);
    assert [""] + parts[1..] == parts;
  }

  /** The step of `SplitJoin` for a non-empty first part: its first character is put back in front. */
  lemma SplitJoinStep(parts: seq<string>, tail: seq<string>, sep: char)
    requires |parts| >= 1 && parts[0] != [] && parts[0][0] != sep
    requires tail == [parts[0][1..]] + parts[1..]
    requires Split(Join(tail, sep), sep) == tail
    ensures Split(Join(parts, sep), sep) == parts
  {
    var p0 := parts[0];
    JoinConsChar(parts, tail, sep);
    var whole := Join(parts, sep);
    assert whole[0] == p0[0] && whole[1..] == Join(tail, sep);
    assert Split(whole, sep) == [[p0[0]] + p0[1..]] + parts[1..];
    assert [p0[0]] + p0[1..] == p0;
    assert [p0] + parts[1..] == parts;
  }

  /** Joining puts the first part's first character in front of the join with that character removed. */
  lemma JoinConsChar(parts: seq<string>, tail: seq<string>, sep: char)
    requires |parts| >= 1 && parts[0] != []
    requires tail == [parts[0][1..]] + parts[1..]
    ensures Join(parts, sep) == [parts[0][0]] + Join(tail, sep)
  {
    var p0 := parts[0];
    assert |tail| == |parts|;
    if |parts| > 1 {
      assert tail[1..] == parts[1..];
      assert Join(tail, sep) == p0[1..] + [sep] + Join(parts[1..], sep);
      assert p0 == [p0[0]] + p0[1..];
    } else {
      assert p0 == [p0[0]] + p0[1..];
    }
  }

  /** A character other than the separator that no part holds is not in the joined string either. */
  lemma {:induction false} JoinAvoids(parts: seq<string>, sep: char, c: char)
    requires |parts| >= 1 && c != sep
    requires forall i :: 0 <= i < |parts| ==> c !in parts[i]
    ensures c !in Join(parts, sep)
    decreases |parts|
  {
    if |parts| > 1 {
      JoinAvoids(parts[1..], sep, c);
    }
  }

  /** A string with no separator splits into itself alone. */
  lemma {:induction false} SplitNoSeparator(s: string, sep: char)
    requires sep !in s
    ensures Split(s, sep) == [s]
    decreases |s|
  {
    if s != [] {
      assert forall c :: c in s[1..] ==> c in s;
      SplitNoSeparator(s[1..], sep);
      assert s[0] != sep;
      assert [s[0]] + s[1..] == s;
    }
  }

  /** The first part of a split: everything before the first separator. */
  lemma {:induction false} SplitFirstPart(a: string, sep: char, b: string)
    requires sep !in a
    ensures Split(a + [sep] + b, sep)[0] == a
    decreases |a|
  {
    if a == [] {
      assert a + [sep] + b == [sep] + b;
    } else {
      assert (a + [sep] + b)[1..] == a[1..] + [sep] + b;
      assert forall c :: c in a[1..] ==> c in a;
      SplitFirstPart(a[1..], sep, b);
    }
  }

  /** `key.split(sep).pop()`: the part after the last separator. */
  function LastPart(s: string, sep: char): (r: string)
    ensures sep !in r
    ensures |r| <= |s|
  {
    JoinSplit(s, sep);
    JoinEndsWithLast(Split(s, sep), sep);
    var parts := Split(s, sep);
    parts[|parts| - 1]
  }

  lemma {:induction false} JoinEndsWithLast(parts: seq<string>, sep: char)
    requires |parts| >= 1
    ensures |parts[|parts| - 1]| <= |Join(parts, sep)|
    decreases |parts|
  {
    if |parts| > 1 {
      JoinEndsWithLast(parts[1..], sep);
    }
  }

  // ---------------------------------------------------------------
  // Integers as decimal text

  function DigitChar(d: nat): (c: char)
    requires d < 10
    ensures IsDigit(c)
  {
    (48 + d) as char
  }

  function DigitValue(c: char): nat
    requires IsDigit(c)
  {
    c as int - 48
  }

  /** Decimal digits of a natural number, most significant first, no leading zeros. */
  function NatToString(n: nat): (s: string)
    ensures |s| >= 1 && AllDigits(s)
    ensures n >= 10 ==> |s| >= 2
    ensures n >= 100 ==> |s| >= 3
    ensures n < 10 ==> |s| == 1
    ensures n < 100 ==> |s| <= 2
    decreases n
  {
    if n < 10 then [DigitChar(n)] else NatToString(n / 10) + [DigitChar(n % 10)]
  }

  /** `n.toString()` for an integer `n`. */
  function IntToString(n: int): (s: string)
    ensures |s| >= 1
    ensures n >= 0 ==> AllDigits(s)
    ensures n < 0 ==> |s| >= 2 && s[0] == '-' && AllDigits(s[1..])
  {
    if n >= 0 then NatToString(n) else "-" + NatToString(-n)
  }

  /** The value of a string of decimal digits. */
  function DigitsValue(s: string): nat
    requires AllDigits(s)
    decreases |s|
  {
    if s == [] then 0 else DigitsValue(s[..|s| - 1]) * 10 + DigitValue(s[|s| - 1])
  }

  lemma {:induction false} DigitsOfNat(n: nat)
    ensures DigitsValue(NatToString(n)) == n
    decreases n
  {
    if n >= 10 {
      DigitsOfNat(n / 10);
      var s := NatToString(n);
      assert s[..|s| - 1] == NatToString(n / 10);
    }
  }

  /** A leading '0' does not change the value of a digit string. */
  lemma {:induction false} LeadingZero(s: string)
    requires AllDigits(s)
    ensures AllDigits("0" + s) && DigitsValue("0" + s) == DigitsValue(s)
    decreases |s|
  {
    if s != [] {
      var t := "0" + s;
      assert t[..|t| - 1] == "0" + s[..|s| - 1];
      LeadingZero(s[..|s| - 1]);
    }
  }

  /** `k` copies of `c` (none when `k` is not positive). */
  function Repeat(c: char, k: int): (r: string)
    ensures |r| == if k > 0 then k else 0
    ensures forall i :: 0 <= i < |r| ==> r[i] == c
    decreases k
  {
    if k <= 0 then [] else [c] + Repeat(c, k - 1)
  }

  /** `s.padStart(n, c)`: prefix copies of `c` until the length is at least `n`; never truncates. */
  function PadStart(s: string, n: nat, c: char): (r: string)
    ensures |r| == if |s| >= n then |s| else n
    ensures r[|r| - |s|..] == s
    ensures forall i :: 0 <= i < |r| - |s| ==> r[i] == c
  {
    Repeat(c, n - |s|) + s
  }

  /** The length of the longest prefix of `s` made of digits. */
  function DigitPrefix(s: string): (k: nat)
    ensures k <= |s| && AllDigits(s[..k])
    ensures k < |s| ==> !IsDigit(s[k])
    decreases |s|
  {
    if s == [] || !IsDigit(s[0]) then 0
    else
      var k := 1 + DigitPrefix(s[1..]);
      assert s[..k] == [s[0]] + s[1..][..k - 1];
      k
  }

  function TrimStart(s: string): (r: string)
    ensures |r| <= |s|
    decreases |s|
  {
    if s != [] && IsJsSpace(s[0]) then TrimStart(s[1..]) else s
  }

  /**
   * `parseInt(s)` in base ten: skip leading white space, read an optional
   * sign, then the longest run of digits; `None` stands for `NaN`.
   */
  function ParseInt(s: string): (r: Option<int>)
    ensures r.None? <==> DigitPrefix(SignFree(TrimStart(s))) == 0
  {
    var t := TrimStart(s);
    var u := SignFree(t);
    var k := DigitPrefix(u);
    if k == 0 then None
    else
      var v: int := DigitsValue(u[..k]);
      if |t| > 0 && t[0] == '-' then Some(-v) else Some(v)
  }

  function SignFree(t: string): string
  {
    if |t| > 0 && (t[0] == '-' || t[0] == '+') then t[1..] else t
  }

  lemma DigitPrefixAll(s: string)
    requires AllDigits(s)
    ensures DigitPrefix(s) == |s|
  {
  }

  lemma TrimStartKeeps(s: string)
    requires s != [] && !IsJsSpace(s[0])
    ensures TrimStart(s) == s
  {
  }

  /** `parseInt` of a string of digits is the value of those digits. */
  lemma ParseDigits(s: string)
    requires |s| >= 1 && AllDigits(s)
    ensures ParseInt(s) == Some(DigitsValue(s) as int)
  {
    assert !IsJsSpace(s[0]);
    TrimStartKeeps(s);
    assert SignFree(s) == s;
    DigitPrefixAll(s);
    assert s[..|s|] == s;
  }

  /** `parseInt(n.toString())` is `n`. */
  lemma IntRoundTrip(n: int)
    ensures ParseInt(IntToString(n)) == Some(n)
  {
    var s := IntToString(n);
    if n >= 0 {
      ParseDigits(s);
      DigitsOfNat(n);
    } else {
      var d := NatToString(-n);
      assert s == "-" + d;
      TrimStartKeeps(s);
      assert SignFree(s) == d;
      DigitPrefixAll(d);
      assert d[..|d|] == d;
      DigitsOfNat(-n);
    }
  }

  /** `parseInt(n.toString().padStart(2, '0'))` is `n`: padding only adds a leading zero. */
  lemma PaddedRoundTrip(n: int)
    ensures ParseInt(PadStart(IntToString(n), 2, '0')) == Some(n)
  {
    var s := IntToString(n);
    if |s| >= 2 {
      IntRoundTrip(n);
    } else {
      assert n >= 0;
      var p := PadStart(s, 2, '0');
      assert Repeat('0', 1) == "0";
      assert p == "0" + s;
      LeadingZero(s);
      ParseDigits(p);
      DigitsOfNat(n);
    }
  }
}
