// Decimal numerals and separator-joined texts, as formatted strings make them.
module TextKeys {
  const DIGITS: string := "0123456789"

  function Decimal(n: nat): string {
    if n < 10 then [DIGITS[n]] else Decimal(n / 10) + [DIGITS[n % 10]]
  }

  function IntText(n: int): string {
    if n < 0 then "-" + Decimal(-n) else Decimal(n)
  }

  lemma {:induction false} DecimalUsesDigits(n: nat)
    ensures Decimal(n) != []
    ensures forall k :: 0 <= k < |Decimal(n)| ==> '0' <= Decimal(n)[k] <= '9'
  {
    if n >= 10 {
      DecimalUsesDigits(n / 10);
    }
  }

  lemma {:induction false} DecimalInjective(m: nat, n: nat)
    requires Decimal(m) == Decimal(n)
    ensures m == n
  {
    var s, t := Decimal(m), Decimal(n);
    assert s[|s| - 1] == DIGITS[m % 10] && t[|t| - 1] == DIGITS[n % 10];
    assert m % 10 == n % 10;
    if m >= 10 && n >= 10 {
      assert s[..|s| - 1] == Decimal(m / 10) && t[..|t| - 1] == Decimal(n / 10);
      DecimalInjective(m / 10, n / 10);
    } else {
      DecimalUsesDigits(m / 10);
      DecimalUsesDigits(n / 10);
    }
  }

  lemma SignShows(n: int)
    ensures IntText(n) != [] && (IntText(n)[0] == '-' <==> n < 0)
  {
    DecimalUsesDigits(if n < 0 then -n else n);
  }

  lemma IntTextInjective(m: int, n: int)
    requires IntText(m) == IntText(n)
    ensures m == n
  {
    SignShows(m);
    SignShows(n);
    if m < 0 {
      assert IntText(m)[1..] == Decimal(-m) && IntText(n)[1..] == Decimal(-n);
      DecimalInjective(-m, -n);
    } else {
      DecimalInjective(m, n);
    }
  }

  lemma IntTextAvoids(n: int, separator: char)
    requires separator != '-' && !('0' <= separator <= '9')
    ensures separator !in IntText(n)
  {
    DecimalUsesDigits(if n < 0 then -n else n);
  }

  // The parts with the separator between them.
  function Join(parts: seq<string>, separator: char): string {
    if parts == [] then []
    else if |parts| == 1 then parts[0]
    else parts[0] + [separator] + Join(parts[1..], separator)
  }

  ghost predicate Free(parts: seq<string>, separator: char) {
    forall k :: 0 <= k < |parts| ==> separator !in parts[k]
  }

  lemma FirstPart(a: string, b: string, s: string, t: string, separator: char)
    requires separator !in a && separator !in b
    requires a + [separator] + s == b + [separator] + t
    ensures a == b && s == t
  {
    var left, right := a + [separator] + s, b + [separator] + t;
    assert left[|a|] == separator && right[|b|] == separator;
    assert forall k :: 0 <= k < |a| ==> left[k] == a[k];
    assert forall k :: 0 <= k < |b| ==> right[k] == b[k];
    assert a == left[..|a|] == right[..|b|] == b;
    assert s == left[|a| + 1..] == right[|b| + 1..] == t;
  }

  lemma {:induction false} SeparatorShows(parts: seq<string>, separator: char)
    requires |parts| >= 2
    ensures separator in Join(parts, separator)
  {
    assert Join(parts, separator)[|parts[0]|] == separator;
  }

  // Parts without the separator can be read back from the joined text.
  lemma {:induction false} JoinInjective(s: seq<string>, t: seq<string>, separator: char)
    requires s != [] && t != [] && Free(s, separator) && Free(t, separator)
    requires Join(s, separator) == Join(t, separator)
    ensures s == t
  {
    if |s| == 1 || |t| == 1 {
      if |s| > 1 {
        SeparatorShows(s, separator);
        assert false;
      }
      if |t| > 1 {
        SeparatorShows(t, separator);
        assert false;
      }
      assert s == [s[0]] && t == [t[0]];
    } else {
      FirstPart(s[0], t[0], Join(s[1..], separator), Join(t[1..], separator), separator);
      JoinInjective(s[1..], t[1..], separator);
      assert s == [s[0]] + s[1..] && t == [t[0]] + t[1..];
    }
  }
}
