/** The Python string operations the RTSP and configuration parsers rely on, on `string`
    (a sequence of characters): `str.split(sep)`, `"\n".join`, `splitlines`, `strip`,
    whitespace `split()`, the `in` substring test, `int()` and `str()` of a natural number. */
module Text {
  import opened Common

  /** `s.split(sep)` for a non-empty separator: pieces between the non-overlapping
      occurrences of `sep`, found left to right; empty pieces are kept. */
  function SplitOn(s: string, sep: string): (r: seq<string>)
    requires |sep| > 0
    ensures |r| >= 1
    decreases |s|
  {
    if |s| < |sep| then [s]
    else if s[..|sep|] == sep then [""] + SplitOn(s[|sep|..], sep)
    else
      var rest := SplitOn(s[1..], sep);
      [[s[0]] + rest[0]] + rest[1..]
  }

  /** `s.split(c)` for a one-character separator. */
  function Split(s: string, c: char): (r: seq<string>)
    ensures |r| >= 1
  {
    SplitOn(s, [c])
  }

  /** `sep.join(parts)` */
  function Join(parts: seq<string>, sep: string): (r: string)
    requires |parts| >= 1
  {
    if |parts| == 1 then parts[0] else parts[0] + sep + Join(parts[1..], sep)
  }

  /** Python's `sub in s`. */
  predicate Contains(s: string, sub: string)
    decreases |s|
  {
    StartsWith(s, sub) || (|s| > 0 && Contains(s[1..], sub))
  }

  /** `s.splitlines()` for text whose only line break is "\n": no trailing empty line, and
      no line at all for the empty string. */
  function SplitLines(s: string): (r: seq<string>)
    ensures forall i | 0 <= i < |r| :: '\n' !in r[i]
  {
    if s == [] then []
    else
      var p := Split(s, '\n');
      SplitNoSep(s, '\n');
      if p[|p| - 1] == "" then p[..|p| - 1] else p
  }

  /** The characters Python's `str.isspace()` accepts, which `str.strip()` and
      `str.split()` remove: the Unicode characters of general category Zs or of
      bidirectional class WS, B or S. */
  predicate IsSpace(c: char) {
    var k := c as int;
    k == 0x20 || 0x09 <= k <= 0x0D || 0x1C <= k <= 0x1F || k == 0x85 || k == 0xA0
    || k == 0x1680 || 0x2000 <= k <= 0x200A || k == 0x2028 || k == 0x2029
    || k == 0x202F || k == 0x205F || k == 0x3000
  }

  /** `s.strip()` */
  function Strip(s: string): (r: string)
    ensures |r| <= |s|
    ensures |r| > 0 ==> !IsSpace(r[0]) && !IsSpace(r[|r| - 1])
    decreases |s|
  {
    if |s| > 0 && IsSpace(s[0]) then Strip(s[1..])
    else if |s| > 0 && IsSpace(s[|s| - 1]) then Strip(s[..|s| - 1])
    else s
  }

  /** `s.split()` with no argument: the maximal runs of non-space characters. */
  function Words(s: string): (r: seq<string>)
    ensures forall i | 0 <= i < |r| :: r[i] != "" && forall c | c in r[i] :: !IsSpace(c)
    decreases |s|
  {
    if s == [] then []
    else if IsSpace(s[0]) then Words(s[1..])
    else
      var n := WordLength(s);
      [s[..n]] + Words(s[n..])
  }

  /** Length of the run of non-space characters that starts `s`. */
  function WordLength(s: string): (n: nat)
    ensures n <= |s|
    ensures forall i | 0 <= i < n :: !IsSpace(s[i])
    ensures n < |s| ==> IsSpace(s[n])
    ensures |s| > 0 && !IsSpace(s[0]) ==> n > 0
  {
    if s == [] || IsSpace(s[0]) then 0 else 1 + WordLength(s[1..])
  }

  predicate IsDigit(c: char) {
    '0' <= c <= '9'
  }

  function DigitValue(c: char): nat
    requires IsDigit(c)
  {
    c as int - '0' as int
  }

  /** `str(n)` for a natural number: its decimal digits, no leading zero. */
  function NatToString(n: nat): (r: string)
    ensures |r| >= 1
    ensures forall i | 0 <= i < |r| :: IsDigit(r[i])
    ensures n > 0 ==> r[0] != '0'
  {
    if n < 10 then [('0' as int + n) as char]
    else NatToString(n / 10) + [('0' as int + n % 10) as char]
  }

  /** `str(i)` for any integer: a minus sign before the digits of a negative number. */
  function IntToString(i: int): (r: string)
    ensures |r| >= 1 && !IsSpace(r[0]) && !IsSpace(r[|r| - 1])
    ensures forall k | 0 <= k < |r| :: r[k] != ' ' && r[k] != '\n'
  {
    if i < 0 then "-" + NatToString(-i) else NatToString(i)
  }

  /** `str(i)` is made of digits and, for a negative number, a minus sign. */
  lemma IntToStringChars(i: int)
    ensures forall k | 0 <= k < |IntToString(i)| :: IntToString(i)[k] == '-' || IsDigit(IntToString(i)[k])
  {
  }

  /** The value of a string of decimal digits, read left to right. */
  function DigitsValue(s: string): nat
    requires forall i | 0 <= i < |s| :: IsDigit(s[i])
  {
    if s == [] then 0 else DigitsValue(s[..|s| - 1]) * 10 + DigitValue(s[|s| - 1])
  }

  /** `int(s)` on text whose digits are ASCII and carry no `_` separator: white space
      around an optional sign and at least one digit. Such a text without that shape
      raises `ValueError`, which is `None` here; this model also answers `None` for the
      other digits and the underscores `int` accepts. */
  function ParseInt(s: string): (r: Option<int>)
    ensures r.Some? ==> exists i | 0 <= i < |s| :: IsDigit(s[i])
  {
    var t := Strip(s);
    var neg := |t| > 0 && t[0] == '-';
    var body := if |t| > 0 && (t[0] == '-' || t[0] == '+') then t[1..] else t;
    if |body| > 0 && forall i | 0 <= i < |body| :: IsDigit(body[i]) then
      assert body[0] in s by { StripInside(s); }
      Some(if neg then -(DigitsValue(body) as int) else DigitsValue(body))
    else None
  }

  // ---------------------------------------------------------------------------------
  // Lemmas

  /** Every character of `Strip(s)` occurs in `s`. */
  lemma {:induction false} StripInside(s: string)
    ensures forall c | c in Strip(s) :: c in s
    decreases |s|
  {
    if |s| > 0 && IsSpace(s[0]) {
      StripInside(s[1..]);
    } else if |s| > 0 && IsSpace(s[|s| - 1]) {
      StripInside(s[..|s| - 1]);
    }
  }

  /** A text without white space at either end strips to itself. */
  lemma StripClean(s: string)
    requires |s| > 0 ==> !IsSpace(s[0]) && !IsSpace(s[|s| - 1])
    ensures Strip(s) == s
  {
  }

  /** No piece of a split contains the (one-character) separator. */
  lemma {:induction false} SplitNoSep(s: string, c: char)
    ensures forall i | 0 <= i < |Split(s, c)| :: c !in Split(s, c)[i]
    decreases |s|
  {
    if |s| >= 1 && s[..1] != [c] {
      SplitNoSep(s[1..], c);
      assert s[..1] == [s[0]];
      var rest := SplitOn(s[1..], [c]);
      assert rest == Split(s[1..], c);
      assert c !in [s[0]] + rest[0];
    } else if |s| >= 1 {
      SplitNoSep(s[1..], c);
      assert Split(s, c) == [""] + Split(s[1..], c);
    }
  }

  /** A character the text does not contain is in none of its pieces. */
  lemma {:induction false} SplitInside(s: string, c: char, x: char)
    requires x !in s
    ensures forall i | 0 <= i < |Split(s, c)| :: x !in Split(s, c)[i]
    decreases |s|
  {
    if |s| >= 1 {
      assert forall y | y in s[1..] :: y in s;
      SplitInside(s[1..], c, x);
      if s[..1] != [c] {
        assert s[..1] == [s[0]];
        var rest := SplitOn(s[1..], [c]);
        assert rest == Split(s[1..], c);
        assert x !in [s[0]] + rest[0];
      } else {
        assert Split(s, c) == [""] + Split(s[1..], c);
      }
    }
  }

  /** Splitting `p + sep + rest` where `p` does not contain the one-character separator
      gives `p` followed by the pieces of `rest`. */
  lemma {:induction false} SplitFirst(p: string, c: char, rest: string)
    requires c !in p
    ensures Split(p + [c] + rest, c) == [p] + Split(rest, c)
    decreases |p|
  {
    var s := p + [c] + rest;
    if p == [] {
      assert s[..1] == [c];
      assert s[1..] == rest;
    } else {
      assert s[0] == p[0] && p[0] in p;
      assert s[..1] != [c];
      assert s[1..] == p[1..] + [c] + rest;
      SplitFirst(p[1..], c, rest);
      assert SplitOn(s[1..], [c]) == [p[1..]] + Split(rest, c);
      assert [p[0]] + p[1..] == p;
    }
  }

  /** A text without the separator is a single piece. */
  lemma {:induction false} SplitNone(p: string, c: char)
    requires c !in p
    ensures Split(p, c) == [p]
    decreases |p|
  {
    if p != [] {
      assert p[0] in p;
      assert p[..1] != [c];
      SplitNone(p[1..], c);
      assert SplitOn(p[1..], [c]) == [p[1..]];
      assert [p[0]] + p[1..] == p;
    }
  }

  /** Joining with a one-character separator and splitting again gives back the pieces,
      provided no piece contains the separator. */
  lemma {:induction false} SplitJoin(parts: seq<string>, c: char)
    requires |parts| >= 1
    requires forall i | 0 <= i < |parts| :: c !in parts[i]
    ensures Split(Join(parts, [c]), c) == parts
    decreases |parts|
  {
    if |parts| == 1 {
      SplitNone(parts[0], c);
    } else {
      SplitJoin(parts[1..], c);
      SplitFirst(parts[0], c, Join(parts[1..], [c]));
    }
  }

  /** Splitting and joining again gives back the text, for any separator. */
  lemma {:induction false} JoinSplit(s: string, sep: string)
    requires |sep| > 0
    ensures Join(SplitOn(s, sep), sep) == s
    decreases |s|
  {
    if |s| < |sep| {
    } else if s[..|sep|] == sep {
      var rest := SplitOn(s[|sep|..], sep);
      JoinSplit(s[|sep|..], sep);
      assert SplitOn(s, sep) == [""] + rest;
      assert Join([""] + rest, sep) == "" + sep + Join(rest, sep);
      assert s == sep + s[|sep|..];
    } else {
      var rest := SplitOn(s[1..], sep);
      JoinSplit(s[1..], sep);
      var parts := [[s[0]] + rest[0]] + rest[1..];
      assert SplitOn(s, sep) == parts;
      if |rest| == 1 {
        assert Join(parts, sep) == [s[0]] + rest[0];
        assert rest[0] == s[1..];
      } else {
        assert parts[1..] == rest[1..];
        assert Join(parts, sep) == [s[0]] + (rest[0] + sep + Join(rest[1..], sep));
        assert rest[0] + sep + Join(rest[1..], sep) == s[1..];
      }
      assert [s[0]] + s[1..] == s;
    }
  }

  /** `int(str(n)) == n` */
  lemma ParseNatToString(n: nat)
    ensures ParseInt(NatToString(n)) == Some(n)
  {
    var s := NatToString(n);
    StripClean(s);
    DigitsRoundTrip(n);
  }

  /** `int(str(i)) == i` */
  lemma ParseIntToString(i: int)
    ensures ParseInt(IntToString(i)) == Some(i)
  {
    if i < 0 {
      var d := NatToString(-i);
      assert IntToString(i) == "-" + d;
      DigitsRoundTrip(-i);
      assert -(DigitsValue(d) as int) == i;
      ParseSigned("-" + d, d);
    } else {
      assert IntToString(i) == NatToString(i);
      ParseNatToString(i);
    }
  }

  /** A minus sign followed by decimal digits reads as the negated number. */
  lemma ParseSigned(s: string, d: string)
    requires |d| > 0 && (forall k | 0 <= k < |d| :: IsDigit(d[k])) && s == "-" + d
    ensures ParseInt(s) == Some(-(DigitsValue(d) as int))
  {
    assert !IsSpace(d[|d| - 1]);
    StripClean(s);
    assert s[1..] == d;
  }

  /** Reading back the digits that `NatToString` writes. */
  lemma {:induction false} DigitsRoundTrip(n: nat)
    ensures DigitsValue(NatToString(n)) == n
  {
    if n >= 10 {
      var s := NatToString(n);
      assert s[..|s| - 1] == NatToString(n / 10);
      DigitsRoundTrip(n / 10);
    }
  }

  /** A text is a prefix of itself followed by anything. */
  lemma ContainsPrefix(s: string, t: string)
    ensures Contains(s + t, s)
  {
    assert (s + t)[..|s|] == s;
  }

  /** A text that occurs inside the tail also occurs inside the whole. */
  lemma {:induction false} ContainsAppendLeft(a: string, s: string, sub: string)
    requires Contains(s, sub)
    ensures Contains(a + s, sub)
    decreases |a|
  {
    if a == [] {
      assert a + s == s;
    } else {
      ContainsAppendLeft(a[1..], s, sub);
      assert (a + s)[1..] == a[1..] + s;
      assert Contains((a + s)[1..], sub);
    }
  }

  /** Three lines and an empty one, joined by line breaks. */
  lemma JoinLinesEnded(l0: string, l1: string, l2: string)
    ensures Join([l0, l1, l2, ""], "\n") == l0 + "\n" + l1 + "\n" + l2 + "\n"
  {
    var parts := [l0, l1, l2, ""];
    assert parts[1..] == [l1, l2, ""] && parts[1..][1..] == [l2, ""] && parts[1..][1..][1..] == [""];
    assert Join([l2, ""], "\n") == l2 + "\n";
    assert Join([l1, l2, ""], "\n") == l1 + "\n" + (l2 + "\n");
  }

  /** A word, a space and a value without spaces split on the space into the two. */
  lemma SpacePair(word: string, value: string)
    requires ' ' !in word && ' ' !in value
    ensures Split(word + " " + value, ' ') == [word, value]
  {
    SplitJoin([word, value], ' ');
    assert Join([word, value], " ") == word + " " + value;
  }

  /** Three pieces joined by a separator. */
  lemma Join3(a: string, b: string, c: string, sep: string)
    ensures Join([a, b, c], sep) == a + sep + b + sep + c
  {
    var parts := [a, b, c];
    assert parts[1..] == [b, c] && parts[1..][1..] == [c];
    assert Join([b, c], sep) == b + sep + c;
  }
}
