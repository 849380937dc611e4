/** The few pieces of Go's `strings` and `fmt` packages the mail server and its
    test client use: `strings.Join`, the LF to CRLF `strings.ReplaceAll` of the
    client, and the `%d` rendering of an integer. Two more serve to state what
    these produce: `strings.Split` on a one-character separator, which the server
    never calls but which reads a joined message back into its parts, and the
    CRLF to LF `strings.ReplaceAll`, which only the integration test applies to a
    received message. */
module GoStrings {

  /** The total length of some strings. */
  function Lengths(xs: seq<string>): nat
  {
    if |xs| == 0 then 0 else |xs[0]| + Lengths(xs[1..])
  }

  /** `strings.Join(xs, sep)`: the strings one after another, starting with the
      first, with one `sep` between each two of them and none at either end. */
  function Join(xs: seq<string>, sep: string): (r: string)
    ensures |xs| == 0 ==> r == ""
    ensures |xs| > 0 ==> |r| == Lengths(xs) + (|xs| - 1) * |sep|
    ensures |xs| > 0 ==> r[..|xs[0]|] == xs[0]
  {
    if |xs| == 0 then ""
    else if |xs| == 1 then xs[0]
    else xs[0] + sep + Join(xs[1..], sep)
  }

  /** `strings.Split(s, string(c))`: the pieces between occurrences of `c`; never empty. */
  function Split(s: string, c: char): (r: seq<string>)
    ensures |r| >= 1
  {
    if |s| == 0 then [""]
    else
      var rest := Split(s[1..], c);
      if s[0] == c then [""] + rest else [[s[0]] + rest[0]] + rest[1..]
  }

  /** No string joined contains `c`, then neither does the join as long as `sep` does not. */
  lemma {:induction false} JoinExcludes(xs: seq<string>, sep: string, c: char)
    requires forall i :: 0 <= i < |xs| ==> c !in xs[i]
    requires c !in sep
    ensures c !in Join(xs, sep)
  {
    if |xs| > 1 {
      JoinExcludes(xs[1..], sep, c);
    }
  }

  lemma {:induction false} SplitFree(x: string, c: char)
    requires c !in x
    ensures Split(x, c) == [x]
  {
    if |x| > 0 {
      SplitFree(x[1..], c);
      assert [x[0]] + x[1..] == x;
    }
  }

  lemma {:induction false} SplitAfterFree(x: string, c: char, t: string)
    requires c !in x
    ensures Split(x + [c] + t, c) == [x] + Split(t, c)
  {
    if |x| == 0 {
      assert x + [c] + t == [c] + t;
      assert ([c] + t)[1..] == t;
    } else {
      SplitAfterFree(x[1..], c, t);
      assert (x + [c] + t)[1..] == x[1..] + [c] + t;
      assert [x[0]] + x[1..] == x;
    }
  }

  /** Splitting a join on its one-character separator gives back the joined strings,
      provided none of them contains the separator. */
  lemma {:induction false} SplitJoin(xs: seq<string>, c: char)
    requires |xs| >= 1
    requires forall i :: 0 <= i < |xs| ==> c !in xs[i]
    ensures Split(Join(xs, [c]), c) == xs
  {
    if |xs| == 1 {
      SplitFree(xs[0], c);
    } else {
      SplitJoin(xs[1..], c);
      SplitAfterFree(xs[0], c, Join(xs[1..], [c]));
      assert [xs[0]] + xs[1..] == xs;
    }
  }

  /** The character at `i` is a line feed only where a carriage return precedes it. */
  predicate LfAfterCr(r: string, i: nat)
    requires i < |r|
  {
    r[i] == '\n' ==> 0 < i && r[i - 1] == '\r'
  }

  /** `strings.ReplaceAll(s, "\n", "\r\n")`: every line feed gets a carriage return
      in front of it. The result is longer by the number of line feeds, every line
      feed in it follows a carriage return, and it does not start with a line feed. */
  function CrlfFromLf(s: string): (r: string)
    ensures |r| == |s| + multiset(s)['\n']
    ensures forall i :: 0 <= i < |r| ==> LfAfterCr(r, i)
    ensures |r| > 0 ==> r[0] != '\n'
  {
    if |s| == 0 then ""
    else
      assert s == [s[0]] + s[1..];
      var rest := CrlfFromLf(s[1..]);
      var head := if s[0] == '\n' then "\r\n" else [s[0]];
      var r := head + rest;
      assert forall i :: |head| <= i < |r| ==> r[i] == rest[i - |head|];
      assert forall i :: |head| <= i < |r| ==> LfAfterCr(r, i) by {
        forall i | |head| <= i < |r| ensures LfAfterCr(r, i) {
          assert LfAfterCr(rest, i - |head|);
          if i > |head| {
            assert r[i - 1] == rest[i - 1 - |head|];
          }
        }
      }
      r
  }

  /** `strings.ReplaceAll(s, "\r\n", "\n")`, matching left to right without overlap.
      It never lengthens a string and leaves one without carriage returns as it is. */
  function LfFromCrlf(s: string): (r: string)
    ensures |r| <= |s|
    ensures '\r' !in s ==> r == s
  {
    if |s| >= 2 && s[0] == '\r' && s[1] == '\n' then "\n" + LfFromCrlf(s[2..])
    else if |s| == 0 then ""
    else [s[0]] + LfFromCrlf(s[1..])
  }

  /** Converting back to LF endings undoes the CRLF conversion, for every string. */
  lemma {:induction false} LfFromCrlfInverse(s: string)
    ensures LfFromCrlf(CrlfFromLf(s)) == s
  {
    if |s| > 0 {
      var rest := CrlfFromLf(s[1..]);
      LfFromCrlfInverse(s[1..]);
      assert [s[0]] + s[1..] == s;
      if s[0] == '\n' {
        var r := "\r\n" + rest;
        assert CrlfFromLf(s) == r;
        assert r[0] == '\r' && r[1] == '\n' && r[2..] == rest;
        assert LfFromCrlf(r) == "\n" + LfFromCrlf(rest);
      } else {
        var r := [s[0]] + rest;
        assert CrlfFromLf(s) == r;
        assert r[1..] == rest;
        assert |r| >= 2 ==> r[1] != '\n';
        assert LfFromCrlf(r) == [s[0]] + LfFromCrlf(rest);
      }
    }
  }

  /** The CRLF conversion works piece by piece. */
  lemma {:induction false} CrlfFromLfConcat(a: string, b: string)
    ensures CrlfFromLf(a + b) == CrlfFromLf(a) + CrlfFromLf(b)
  {
    if |a| > 0 {
      CrlfFromLfConcat(a[1..], b);
      assert (a + b)[1..] == a[1..] + b;
      assert (a + b)[0] == a[0];
    } else {
      assert a + b == b;
    }
  }

  /** A string without line feeds is left as it is. */
  lemma {:induction false} CrlfFromLfFree(s: string)
    requires '\n' !in s
    ensures CrlfFromLf(s) == s
  {
    if |s| > 0 {
      CrlfFromLfFree(s[1..]);
      assert [s[0]] + s[1..] == s;
    }
  }

  predicate IsDigit(ch: char)
  {
    '0' <= ch <= '9'
  }

  function Digit(d: nat): (ch: char)
    requires d < 10
    ensures IsDigit(ch) && ch as int - '0' as int == d
  {
    (d + '0' as int) as char
  }

  /** The decimal digits of `n`, most significant first, without leading zeros. */
  function NatDecimal(n: nat): (r: string)
    ensures |r| >= 1
    ensures forall i :: 0 <= i < |r| ==> IsDigit(r[i])
  {
    if n < 10 then [Digit(n)] else NatDecimal(n / 10) + [Digit(n % 10)]
  }

  /** `fmt.Sprintf("%d", n)`: a minus sign exactly for a negative number, then at
      least one decimal digit and nothing else. */
  function Decimal(n: int): (r: string)
    ensures |r| >= 1 && (r[0] == '-' <==> n < 0)
    ensures n < 0 ==> |r| >= 2
    ensures forall i :: (if n < 0 then 1 else 0) <= i < |r| ==> IsDigit(r[i])
  {
    if n < 0 then "-" + NatDecimal(-n) else NatDecimal(n)
  }

  /** The value of a string of decimal digits. */
  function ParseNat(s: string): nat
    requires forall i :: 0 <= i < |s| ==> IsDigit(s[i])
  {
    if |s| == 0 then 0
    else
      assert IsDigit(s[|s| - 1]);
      ParseNat(s[..|s| - 1]) * 10 + (s[|s| - 1] as int - '0' as int)
  }

  /** The value of an optionally negative decimal numeral. */
  function ParseInt(s: string): int
    requires |s| > 0 && s[0] == '-' ==> forall i :: 1 <= i < |s| ==> IsDigit(s[i])
    requires (|s| == 0 || s[0] != '-') ==> forall i :: 0 <= i < |s| ==> IsDigit(s[i])
  {
    if |s| > 0 && s[0] == '-' then -(ParseNat(s[1..]) as int) else ParseNat(s)
  }

  lemma {:induction false} ParseNatDecimal(n: nat)
    ensures ParseNat(NatDecimal(n)) == n
  {
    if n >= 10 {
      ParseNatDecimal(n / 10);
      var r := NatDecimal(n);
      assert r[..|r| - 1] == NatDecimal(n / 10);
    }
  }

  /** `%d` renders no colon, and reading the numeral back gives the number. */
  lemma ParseDecimal(n: int)
    ensures ':' !in Decimal(n)
    ensures ParseInt(Decimal(n)) == n
  {
    var d := NatDecimal(if n < 0 then -n else n);
    ParseNatDecimal(if n < 0 then -n else n);
    assert ':' !in d by {
      forall i | 0 <= i < |d| ensures d[i] != ':' {
        assert IsDigit(d[i]);
      }
    }
    if n < 0 {
      assert ("-" + d)[1..] == d;
    }
  }
}
