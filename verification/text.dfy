/**
 String helpers the companion report is built from: concatenation of a list
 of lines, joining and splitting on a separator, character search and
 counting, and the decimal rendering of an integer (Swift's `String(Int)`)
 together with its parser.
 */
module Text {
  import opened Options

  /** The lines one after the other, with nothing inserted between them. */
  function Concat(lines: seq<string>): (text: string)
  {
    if |lines| == 0 then "" else Concat(lines[..|lines| - 1]) + lines[|lines| - 1]
  }

  lemma {:induction false} ConcatAppend(lines: seq<string>, extra: seq<string>)
    ensures Concat(lines + extra) == Concat(lines) + Concat(extra)
    decreases |extra|
  {
    if |extra| == 0 {
      assert lines + extra == lines;
    } else {
      var init := extra[..|extra| - 1];
      var last := extra[|extra| - 1];
      assert (lines + extra)[..|lines + extra| - 1] == lines + init;
      ConcatAppend(lines, init);
    }
  }

  /** Concatenating one more line extends the text by exactly that line. */
  lemma ConcatSnoc(lines: seq<string>, line: string)
    ensures Concat(lines + [line]) == Concat(lines) + line
  {
    assert (lines + [line])[..|lines|] == lines;
  }

  /** The names separated by single `sep` characters. */
  function Join(names: seq<string>, sep: char): (joined: string)
  {
    if |names| == 0 then ""
    else if |names| == 1 then names[0]
    else names[0] + [sep] + Join(names[1..], sep)
  }

  lemma JoinCons(first: string, rest: seq<string>, sep: char)
    requires |rest| >= 1
    ensures Join([first] + rest, sep) == first + [sep] + Join(rest, sep)
  {
    assert ([first] + rest)[1..] == rest;
  }

  /** The pieces of `s` between occurrences of `sep`; never empty. */
  function Split(s: string, sep: char): (pieces: seq<string>)
    ensures |pieces| >= 1
    ensures |pieces| == CountChar(s, sep) + 1
  {
    if |s| == 0 then [""]
    else if s[0] == sep then [""] + Split(s[1..], sep)
    else
      var rest := Split(s[1..], sep);
      [[s[0]] + rest[0]] + rest[1..]
  }

  /** Number of occurrences of `c` in `s`. */
  function CountChar(s: string, c: char): (count: nat)
  {
    if |s| == 0 then 0 else (if s[0] == c then 1 else 0) + CountChar(s[1..], c)
  }

  lemma {:induction false} CountCharZero(s: string, c: char)
    ensures CountChar(s, c) == 0 <==> c !in s
    decreases |s|
  {
    if |s| > 0 {
      CountCharZero(s[1..], c);
      assert s == [s[0]] + s[1..];
    }
  }

  lemma {:induction false} CountCharAppend(a: string, b: string, c: char)
    ensures CountChar(a + b, c) == CountChar(a, c) + CountChar(b, c)
    decreases |a|
  {
    if |a| > 0 {
      assert (a + b)[1..] == a[1..] + b;
      CountCharAppend(a[1..], b, c);
    } else {
      assert a + b == b;
    }
  }

  /** A piece free of the separator splits to itself. */
  lemma {:induction false} SplitNoSep(a: string, sep: char)
    requires sep !in a
    ensures Split(a, sep) == [a]
    decreases |a|
  {
    if |a| > 0 {
      assert a[0] != sep && sep !in a[1..];
      SplitNoSep(a[1..], sep);
      assert [a[0]] + a[1..] == a;
    }
  }

  /** A separator-free piece followed by the separator is split off whole. */
  lemma {:induction false} SplitFirst(a: string, b: string, sep: char)
    requires sep !in a
    ensures Split(a + [sep] + b, sep) == [a] + Split(b, sep)
    decreases |a|
  {
    if |a| == 0 {
      assert a + [sep] + b == [sep] + b;
      assert ([sep] + b)[1..] == b;
    } else {
      var s := a + [sep] + b;
      assert s[0] == a[0];
      assert s[1..] == a[1..] + [sep] + b;
      assert sep !in a[1..];
      SplitFirst(a[1..], b, sep);
      assert [a[0]] + a[1..] == a;
    }
  }

  /** Splitting undoes joining, when no name holds the separator. */
  lemma {:induction false} SplitJoin(names: seq<string>, sep: char)
    requires |names| >= 1
    requires forall i :: 0 <= i < |names| ==> sep !in names[i]
    ensures Split(Join(names, sep), sep) == names
    decreases |names|
  {
    if |names| == 1 {
      SplitNoSep(names[0], sep);
    } else {
      SplitJoin(names[1..], sep);
      SplitFirst(names[0], Join(names[1..], sep), sep);
      assert [names[0]] + names[1..] == names;
    }
  }

  /** A character that is neither the separator nor in any name is not in the join. */
  lemma {:induction false} JoinAvoids(names: seq<string>, sep: char, c: char)
    requires c != sep
    requires forall i :: 0 <= i < |names| ==> c !in names[i]
    ensures c !in Join(names, sep)
    decreases |names|
  {
    if |names| > 1 {
      JoinAvoids(names[1..], sep, c);
    }
  }

  /** The position of the first `c` in `s`, if any. */
  function IndexOf(s: string, c: char): (r: Option<nat>)
    ensures r.Some? ==> r.value < |s| && s[r.value] == c && c !in s[..r.value]
    ensures r.None? ==> c !in s
  {
    if |s| == 0 then None
    else if s[0] == c then Some(0)
    else match IndexOf(s[1..], c)
      case None => None
      case Some(i) =>
        assert s[..i + 1] == [s[0]] + s[1..][..i];
        Some(i + 1)
  }

  /** The first `c` after a `c`-free prefix is the one that ends the prefix. */
  lemma {:induction false} IndexOfFirst(a: string, c: char, b: string)
    requires c !in a
    ensures IndexOf(a + [c] + b, c) == Some(|a|)
    decreases |a|
  {
    if |a| > 0 {
      var s := a + [c] + b;
      assert s[0] == a[0];
      assert s[1..] == a[1..] + [c] + b;
      assert c !in a[1..];
      IndexOfFirst(a[1..], c, b);
    }
  }

  // Decimal rendering of integers, as Swift's `String(Int)` writes them.

  function DigitChar(d: nat): (c: char)
    requires d < 10
  {
    "0123456789"[d]
  }

  predicate IsDigit(c: char)
  {
    '0' <= c <= '9'
  }

  function DigitValue(c: char): (d: nat)
    requires IsDigit(c)
  {
    (c - '0') as nat
  }

  /** Digits of `n`, most significant first, without leading zeros. */
  function NatDigits(n: nat): (digits: string)
  {
    if n < 10 then [DigitChar(n)] else NatDigits(n / 10) + [DigitChar(n % 10)]
  }

  /** `String(n)`: a leading minus sign for negative values, then the digits. */
  function Decimal(n: int): (text: string)
  {
    if n < 0 then "-" + NatDigits(-n) else NatDigits(n)
  }

  predicate AllDigits(s: string)
  {
    forall i :: 0 <= i < |s| ==> IsDigit(s[i])
  }

  /** The value of a string of digits read most significant first. */
  function DigitsValue(s: string): (value: nat)
    requires AllDigits(s)
  {
    if |s| == 0 then 0 else 10 * DigitsValue(s[..|s| - 1]) + DigitValue(s[|s| - 1])
  }

  /** Reads back an optional minus sign followed by at least one digit. */
  function ParseDecimal(s: string): (r: Option<int>)
  {
    if |s| > 0 && s[0] == '-' then
      if |s| > 1 && AllDigits(s[1..]) then Some(-(DigitsValue(s[1..]) as int)) else None
    else if |s| > 0 && AllDigits(s) then Some(DigitsValue(s))
    else None
  }

  lemma DigitRoundTrip(d: nat)
    requires d < 10
    ensures IsDigit(DigitChar(d)) && DigitValue(DigitChar(d)) == d
  {
  }

  lemma {:induction false} NatDigitsValue(n: nat)
    ensures |NatDigits(n)| >= 1
    ensures AllDigits(NatDigits(n))
    ensures DigitsValue(NatDigits(n)) == n
    decreases n
  {
    if n < 10 {
      DigitRoundTrip(n);
    } else {
      var q, r := n / 10, n % 10;
      NatDigitsValue(q);
      DigitRoundTrip(r);
      var s := NatDigits(n);
      assert s == NatDigits(q) + [DigitChar(r)];
      assert s[..|s| - 1] == NatDigits(q);
      assert AllDigits(s) by {
        forall i | 0 <= i < |s|
          ensures IsDigit(s[i])
        {
          if i < |s| - 1 {
            assert s[i] == NatDigits(q)[i];
          }
        }
      }
      assert DigitsValue(s) == 10 * q + r;
    }
  }

  /** Reading the decimal form of any integer gives that integer back. */
  lemma DecimalRoundTrip(n: int)
    ensures ParseDecimal(Decimal(n)) == Some(n)
  {
    var m: nat := if n < 0 then -n else n;
    var d := NatDigits(m);
    NatDigitsValue(m);
    assert IsDigit(d[0]);
    if n < 0 {
      var s := Decimal(n);
      assert s == "-" + d;
      assert s[1..] == d;
      assert ParseDecimal(s) == Some(-(DigitsValue(d) as int));
    } else {
      assert Decimal(n) == d;
    }
  }

  /** Numbers of two or more digits start with a nonzero digit. */
  lemma {:induction false} NatDigitsLeading(n: nat)
    ensures |NatDigits(n)| >= 1
    ensures |NatDigits(n)| > 1 <==> n >= 10
    ensures n >= 10 ==> NatDigits(n)[0] != '0'
    ensures IsDigit(NatDigits(n)[0])
    decreases n
  {
    if n < 10 {
      DigitRoundTrip(n);
    } else {
      NatDigitsLeading(n / 10);
      var q := NatDigits(n / 10);
      assert NatDigits(n)[0] == q[0];
      if n / 10 < 10 {
        DigitRoundTrip(n / 10);
        assert q[0] != '0';
      }
    }
  }

  /**
   The decimal form is canonical, as `String(Int)` writes it: a minus sign
   exactly for negative values, and no leading zero.
   */
  lemma DecimalCanonical(n: int)
    ensures |Decimal(n)| >= 1
    ensures (Decimal(n)[0] == '-') <==> n < 0
    ensures n >= 0 && |Decimal(n)| > 1 ==> Decimal(n)[0] != '0'
    ensures n < 0 ==> Decimal(n)[1] != '0' && IsDigit(Decimal(n)[1])
  {
    var m: nat := if n < 0 then -n else n;
    NatDigitsLeading(m);
    if n < 0 {
      assert Decimal(n) == "-" + NatDigits(m);
      if m < 10 {
        DigitRoundTrip(m);
      }
    }
  }

  /** The decimal form holds neither a comma nor a line break. */
  lemma DecimalPlain(n: int)
    ensures ',' !in Decimal(n) && '\n' !in Decimal(n)
  {
    NatDigitsValue(if n < 0 then -n else n);
    if n < 0 {
      assert Decimal(n) == "-" + NatDigits(-n);
    }
  }

  predicate StartsWith(s: string, prefix: string)
  {
    |prefix| <= |s| && s[..|prefix|] == prefix
  }

  /** A prefix put in front of a text is found there, and dropping it leaves the text. */
  lemma StartsWithAppend(prefix: string, s: string)
    ensures StartsWith(prefix + s, prefix) && (prefix + s)[|prefix|..] == s
  {
  }

  /** Dropping the last character of `s + [c]` gives `s` back. */
  lemma DropLast(s: string, c: char)
    ensures (s + [c])[..|s|] == s && (s + [c])[|s|] == c && |s + [c]| == |s| + 1
  {
  }
}
