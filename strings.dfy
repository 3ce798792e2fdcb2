/**
 * The string operations of Python's standard library that the collage tools
 * rely on: `str.isdigit`, `int`, decimal formatting of an `int`, `str.split`
 * and `str.join` on one separator, and the POSIX `os.path.split` and
 * `os.path.splitext` on a path string.
 */
module Strings {

  predicate IsDigit(c: char) { '0' <= c <= '9' }

  function DigitValue(c: char): (d: nat)
    requires IsDigit(c)
    ensures d <= 9
  {
    c as int - '0' as int
  }

  function DigitChar(d: nat): (c: char)
    requires d <= 9
    ensures IsDigit(c) && DigitValue(c) == d
  {
    ('0' as int + d) as char
  }

  /** `str.isdigit()`: true of a non-empty string of digits only. */
  predicate IsDigits(s: string)
  {
    |s| > 0 && forall i :: 0 <= i < |s| ==> IsDigit(s[i])
  }

  /** `int(s)` on a string of digits, leading zeros allowed. */
  function ParseDecimal(s: string): (n: nat)
    requires forall i :: 0 <= i < |s| ==> IsDigit(s[i])
    ensures |s| == 1 ==> n == DigitValue(s[0])
    ensures |s| >= 1 && s[0] != '0' ==> n >= 1
  {
    if s == [] then 0 else ParseDecimal(s[..|s| - 1]) * 10 + DigitValue(s[|s| - 1])
  }

  /** `f"{n}"` for a non-negative `int`: its decimal digits, no leading zero. */
  function NatToString(n: nat): (s: string)
    ensures IsDigits(s)
    ensures |s| > 1 ==> s[0] != '0'
  {
    if n < 10 then [DigitChar(n)] else NatToString(n / 10) + [DigitChar(n % 10)]
  }

  lemma {:induction false} ParseNatToString(n: nat)
    ensures ParseDecimal(NatToString(n)) == n
  {
    if n >= 10 {
      var s := NatToString(n);
      assert s[..|s| - 1] == NatToString(n / 10);
      ParseNatToString(n / 10);
    }
  }

  /** A digit string without a leading zero is the decimal text of the number `int` reads from it. */
  lemma {:induction false} DecimalRoundTrip(s: string)
    requires IsDigits(s) && (|s| == 1 || s[0] != '0')
    ensures NatToString(ParseDecimal(s)) == s
  {
    if |s| > 1 {
      var front, last := s[..|s| - 1], s[|s| - 1];
      assert IsDigits(front) && front[0] == s[0];
      DecimalRoundTrip(front);
      var n := ParseDecimal(s);
      assert n == ParseDecimal(front) * 10 + DigitValue(last);
      assert n / 10 == ParseDecimal(front) && n % 10 == DigitValue(last);
      assert DigitChar(DigitValue(last)) == last;
      assert s == front + [last];
    } else {
      assert DigitChar(DigitValue(s[0])) == s[0];
    }
  }

  /** Different numbers are written differently. */
  lemma NatToStringInjective(m: nat, n: nat)
    requires NatToString(m) == NatToString(n)
    ensures m == n
  {
    ParseNatToString(m);
    ParseNatToString(n);
  }

  /** `s.split(sep)`: the pieces between the separators, always at least one. */
  function Split(s: string, sep: char): (parts: seq<string>)
    ensures |parts| >= 1
    ensures forall k :: 0 <= k < |parts| ==> sep !in parts[k]
  {
    if s == [] then [[]]
    else
      var rest := Split(s[1..], sep);
      if s[0] == sep then [[]] + rest
      else [[s[0]] + rest[0]] + rest[1..]
  }

  /** `sep.join(parts)`: the first piece, then the separator before each further piece. */
  function Join(parts: seq<string>, sep: char): (r: string)
    requires |parts| >= 1
    ensures parts[0] <= r
    ensures |parts| > 1 ==> |r| > |parts[0]| && r[|parts[0]|] == sep
  {
    if |parts| == 1 then parts[0] else parts[0] + [sep] + Join(parts[1..], sep)
  }

  lemma {:induction false} JoinSplit(s: string, sep: char)
    ensures Join(Split(s, sep), sep) == s
  {
    if s != [] {
      var rest := Split(s[1..], sep);
      JoinSplit(s[1..], sep);
      if s[0] != sep {
        if |rest| == 1 {
          assert Split(s, sep) == [[s[0]] + rest[0]];
        } else {
          assert Split(s, sep) == [[s[0]] + rest[0]] + rest[1..];
          assert Split(s, sep)[1..] == rest[1..];
        }
      } else {
        assert Split(s, sep)[1..] == rest;
      }
    }
  }

  lemma {:induction false} SplitJoin(parts: seq<string>, sep: char)
    requires |parts| >= 1
    requires forall k :: 0 <= k < |parts| ==> sep !in parts[k]
    ensures Split(Join(parts, sep), sep) == parts
  {
    if |parts| == 1 {
      SplitNoSep(parts[0], sep);
    } else {
      SplitJoin(parts[1..], sep);
      SplitConcat(parts[0], Join(parts[1..], sep), sep);
      SplitNoSep(parts[0], sep);
      assert [parts[0]] + parts[1..] == parts;
    }
  }

  /** A string without the separator is one piece. */
  lemma {:induction false} SplitNoSep(s: string, sep: char)
    requires sep !in s
    ensures Split(s, sep) == [s]
  {
    if s != [] {
      SplitNoSep(s[1..], sep);
      assert [s[0]] + s[1..] == s;
    }
  }

  /** Splitting two strings joined by the separator splits each of them. */
  lemma {:induction false} SplitConcat(a: string, b: string, sep: char)
    ensures Split(a + [sep] + b, sep) == Split(a, sep) + Split(b, sep)
  {
    var s := a + [sep] + b;
    if a == [] {
      assert s[0] == sep && s[1..] == b;
    } else {
      assert s[0] == a[0] && s[1..] == a[1..] + [sep] + b;
      SplitConcat(a[1..], b, sep);
      SplitCons(a[0], Split(a[1..], sep), Split(b, sep), sep);
    }
  }

  /** The step of `Split` for a leading character, applied to two concatenated piece lists. */
  lemma SplitCons(c: char, left: seq<string>, right: seq<string>, sep: char)
    requires |left| >= 1
    ensures var rest := left + right;
      (if c == sep then [[]] + rest else [[c] + rest[0]] + rest[1..])
      == (if c == sep then [[]] + left else [[c] + left[0]] + left[1..]) + right
  {
    if c != sep {
      var rest := left + right;
      assert rest[0] == left[0] && rest[1..] == left[1..] + right;
    }
  }

  /** Index of the first occurrence of `c` in `s`. */
  function FirstIndex(s: string, c: char): (i: nat)
    requires c in s
    ensures i < |s| && s[i] == c && c !in s[..i]
  {
    if s[0] == c then 0
    else
      var i := 1 + FirstIndex(s[1..], c);
      assert s[..i] == [s[0]] + s[1..][..i - 1];
      i
  }

  /** Index of the last occurrence of `c` in `s` (`str.rfind`). */
  function LastIndex(s: string, c: char): (i: nat)
    requires c in s
    ensures i < |s| && s[i] == c && c !in s[i + 1..]
  {
    if s[|s| - 1] == c then |s| - 1
    else
      assert c in s[..|s| - 1] by {
        var k :| 0 <= k < |s| && s[k] == c;
        assert s[..|s| - 1][k] == c;
      }
      LastIndex(s[..|s| - 1], c)
  }

  /** The first piece of a split is what precedes the first separator. */
  lemma {:induction false} SplitFirst(s: string, sep: char)
    ensures Split(s, sep)[0] == if sep in s then s[..FirstIndex(s, sep)] else s
  {
    if s != [] && s[0] != sep {
      SplitFirst(s[1..], sep);
      if sep in s {
        assert sep in s[1..];
        assert FirstIndex(s, sep) == 1 + FirstIndex(s[1..], sep);
        assert s[..FirstIndex(s, sep)] == [s[0]] + s[1..][..FirstIndex(s[1..], sep)];
      } else {
        assert [s[0]] + s[1..] == s;
      }
    }
  }

  predicate AllSame(s: string, c: char)
  {
    forall j :: 0 <= j < |s| ==> s[j] == c
  }

  /**
   * `os.path.splitext` on a file name: the extension starts at the last dot,
   * unless every character before that dot is a dot too (a leading-dot name
   * such as ".profile" has no extension).
   */
  function SplitExt(name: string): (r: (string, string))
    ensures r.0 + r.1 == name
    ensures r.1 != [] ==> r.1[0] == '.' && '.' !in r.1[1..] && !AllSame(r.0, '.')
    ensures r.1 == [] ==> '.' !in name || AllSame(name[..LastIndex(name, '.')], '.')
  {
    if '.' !in name then (name, [])
    else
      var i := LastIndex(name, '.');
      if AllSame(name[..i], '.') then (name, [])
      else
        assert name[i..][1..] == name[i + 1..];
        (name[..i], name[i..])
  }

  /** `s.rstrip(c)`. */
  function StripTrailing(s: string, c: char): (r: string)
    ensures r <= s && AllSame(s[|r|..], c)
    ensures r == [] || r[|r| - 1] != c
  {
    if s == [] || s[|s| - 1] != c then s
    else
      var r := StripTrailing(s[..|s| - 1], c);
      assert s[|r|..] == s[..|s| - 1][|r|..] + [c];
      r
  }

  /** `name` ends `path`, holds no '/', and is the whole path or follows a '/': the path's last component. */
  predicate LastComponent(path: string, name: string)
  {
    '/' !in name
    && |name| <= |path| && path[|path| - |name|..] == name
    && (|name| < |path| ==> path[|path| - |name| - 1] == '/')
  }

  /**
   * POSIX `os.path.split`: the tail is what follows the last '/', the head
   * what precedes it, with its trailing slashes removed unless it is made of
   * slashes only.
   */
  function SplitPath(path: string): (r: (string, string))
    ensures r.0 <= path
    ensures LastComponent(path, r.1)
  {
    var i := if '/' in path then LastIndex(path, '/') + 1 else 0;
    var head := path[..i];
    var tail := path[i..];
    assert path == head + tail;
    if head != [] && !AllSame(head, '/') then (StripTrailing(head, '/'), tail) else (head, tail)
  }

  /** `get_src`, and `os.path.split` in the window: the file name of a path. */
  function FileName(path: string): (name: string)
    ensures LastComponent(path, name)
  {
    SplitPath(path).1
  }
}
