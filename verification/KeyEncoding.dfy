/** Strings used as map keys: decimal integers, separators, and why the parts can be read back. */
module KeyEncoding {
  import opened Sorting

  function Digit(d: nat): char
    requires d < 10
  {
    '0' + d as char
  }

  function NatString(n: nat): string {
    if n < 10 then [Digit(n)] else NatString(n / 10) + [Digit(n % 10)]
  }

  /** Go's strconv.FormatInt(n, 10) and %d. */
  function IntString(n: int): string {
    if n < 0 then "-" + NatString(-n) else NatString(n)
  }

  predicate IsDigit(c: char) {
    '0' <= c <= '9'
  }

  function NatValue(s: string): int {
    if s == "" then 0 else NatValue(s[..|s| - 1]) * 10 + (s[|s| - 1] as int - '0' as int)
  }

  lemma {:induction false} NatStringReadsBack(n: nat)
    ensures NatValue(NatString(n)) == n
    ensures NatString(n) != "" && forall c | c in NatString(n) :: IsDigit(c)
  {
    if n >= 10 {
      NatStringReadsBack(n / 10);
      var front := NatString(n / 10);
      assert NatString(n)[..|NatString(n)| - 1] == front;
    } else {
      assert NatString(n)[..0] == "";
    }
  }

  /** The sign, and what follows it. */
  lemma IntStringShape(n: int)
    ensures IntString(n) != "" && (IntString(n)[0] == '-' <==> n < 0)
    ensures n < 0 ==> NatValue(IntString(n)[1..]) == -n
    ensures n >= 0 ==> NatValue(IntString(n)) == n
    ensures forall c | c in IntString(n) :: IsDigit(c) || c == '-'
  {
    NatStringReadsBack(if n < 0 then -n else n);
    if n < 0 {
      assert IntString(n)[1..] == NatString(-n);
    } else {
      assert IntString(n)[0] in IntString(n);
    }
  }

  /** Different integers print differently, without `|` or byte 0xff. */
  lemma IntStringIsInjective(m: int, n: int)
    ensures IntString(m) == IntString(n) <==> m == n
    ensures '|' !in IntString(n) && '\U{00ff}' !in IntString(n)
  {
    IntStringShape(m);
    IntStringShape(n);
  }

  /** The last separator splits a string in one way only. */
  lemma SplitAtLast(a: string, x: string, b: string, y: string, sep: char)
    requires sep !in x && sep !in y
    ensures a + [sep] + x == b + [sep] + y <==> a == b && x == y
  {
    var s, t := a + [sep] + x, b + [sep] + y;
    assert t[|b|] == sep && s[|a|] == sep;
    assert |a| < |b| < |s| ==> s[|b|] == x[|b| - |a| - 1];
    assert |b| < |a| < |t| ==> t[|a|] == y[|a| - |b| - 1];
    if s == t {
      assert a == s[..|a|] && b == t[..|b|];
      assert x == s[|a| + 1..] && y == t[|b| + 1..];
    }
  }

  /** So does the first one. */
  lemma SplitAtFirst(x: string, a: string, y: string, b: string, sep: char)
    requires sep !in x && sep !in y
    ensures x + [sep] + a == y + [sep] + b <==> x == y && a == b
  {
    var s, t := x + [sep] + a, y + [sep] + b;
    assert s[|x|] == sep && t[|y|] == sep;
    assert |x| < |y| ==> t[|x|] == y[|x|];
    assert |y| < |x| ==> s[|y|] == x[|y|];
    if s == t {
      assert x == s[..|x|] && y == t[..|y|];
      assert a == s[|x| + 1..] && b == t[|y| + 1..];
    }
  }

  /** A string followed by a named, printed integer. */
  function WithInt(s: string, name: string, n: int): string {
    s + ['|'] + (name + IntString(n))
  }

  lemma WithIntSplits(s: string, m: int, t: string, n: int, name: string)
    requires '|' !in name
    ensures WithInt(s, name, m) == WithInt(t, name, n) <==> s == t && m == n
  {
    IntStringIsInjective(m, n);
    IntStringIsInjective(n, m);
    SplitAtLast(s, name + IntString(m), t, name + IntString(n), '|');
    if name + IntString(m) == name + IntString(n) {
      assert IntString(m) == (name + IntString(m))[|name|..];
      assert IntString(n) == (name + IntString(n))[|name|..];
    }
  }

  // ---- Joining strings ------------------------------------------------------------------

  /** Go's strings.Join. */
  function Join(parts: seq<string>, sep: char): string {
    if parts == [] then "" else if |parts| == 1 then parts[0] else parts[0] + [sep] + Join(parts[1..], sep)
  }

  ghost predicate Free(parts: seq<string>, sep: char) {
    forall i | 0 <= i < |parts| :: sep !in parts[i]
  }

  lemma {:induction false} JoinHasSeparator(parts: seq<string>, sep: char)
    requires Free(parts, sep)
    ensures sep in Join(parts, sep) <==> |parts| >= 2
  {
    if |parts| >= 2 {
      assert (parts[0] + [sep])[|parts[0]|] == sep;
      assert sep in parts[0] + [sep];
    }
  }

  /** Joining separator-free parts loses nothing, except that no part and one empty part join to
      the same empty string. */
  lemma {:induction false} JoinIsAlmostInjective(a: seq<string>, b: seq<string>, sep: char)
    requires Free(a, sep) && Free(b, sep)
    ensures Join(a, sep) == Join(b, sep) <==> a == b || (a == [] && b == [""]) || (a == [""] && b == [])
  {
    JoinHasSeparator(a, sep);
    JoinHasSeparator(b, sep);
    if |a| >= 2 && |b| >= 2 {
      SplitAtFirst(a[0], Join(a[1..], sep), b[0], Join(b[1..], sep), sep);
      assert Free(a[1..], sep) && Free(b[1..], sep);
      JoinIsAlmostInjective(a[1..], b[1..], sep);
      assert a == [a[0]] + a[1..] && b == [b[0]] + b[1..];
    } else if |a| <= 1 && |b| <= 1 {
      assert a != [] ==> a == [a[0]];
      assert b != [] ==> b == [b[0]];
    }
  }
}
