/** String building blocks shared by the SQL text generator and the
    marshaling layer: comma joining (and the split that undoes it), the
    decimal rendering that std::to_string gives an int, and the C-string
    view that std::string((const char*)p) takes of engine text. */
module Text {

  /** xs joined with sep between neighbours, no leading or trailing sep. */
  function Join(sep: string, xs: seq<string>): string
    decreases |xs|
  {
    if |xs| == 0 then ""
    else if |xs| == 1 then xs[0]
    else xs[0] + sep + Join(sep, xs[1..])
  }

  /** Appending one more element to a non-empty join adds sep and it. */
  lemma {:induction false} JoinSnoc(sep: string, xs: seq<string>, y: string)
    requires |xs| > 0
    ensures Join(sep, xs + [y]) == Join(sep, xs) + sep + y
    decreases |xs|
  {
    if |xs| == 1 {
      assert xs + [y] == [xs[0], y];
      assert ([xs[0], y])[1..] == [y];
    } else {
      assert (xs + [y])[1..] == xs[1..] + [y];
      JoinSnoc(sep, xs[1..], y);
    }
  }

  /** Every occurrence of c in s splits it; the pieces between occurrences,
      in order, are the result (always at least one piece). */
  function Split(c: char, s: string): (pieces: seq<string>)
    ensures |pieces| >= 1
    decreases |s|
  {
    if |s| == 0 then [""]
    else if s[0] == c then [""] + Split(c, s[1..])
    else
      var rest := Split(c, s[1..]);
      [[s[0]] + rest[0]] + rest[1..]
  }

  lemma {:induction false} SplitNoSeparator(c: char, x: string)
    requires c !in x
    ensures Split(c, x) == [x]
    decreases |x|
  {
    if |x| > 0 {
      SplitNoSeparator(c, x[1..]);
      assert [x[0]] + x[1..] == x;
    }
  }

  lemma {:induction false} SplitPiece(c: char, x: string, rest: string)
    requires c !in x
    ensures Split(c, x + [c] + rest) == [x] + Split(c, rest)
    decreases |x|
  {
    if |x| == 0 {
      assert x + [c] + rest == [c] + rest;
      assert ([c] + rest)[1..] == rest;
    } else {
      var s := x + [c] + rest;
      assert s[0] == x[0] && s[0] != c;
      assert s[1..] == x[1..] + [c] + rest;
      SplitPiece(c, x[1..], rest);
      assert [x[0]] + x[1..] == x;
    }
  }

  /** Joining with a one-character separator that occurs in no element is
      undone by splitting on that character: the list can be read back. */
  lemma {:induction false} SplitJoin(c: char, xs: seq<string>)
    requires |xs| >= 1
    requires forall i :: 0 <= i < |xs| ==> c !in xs[i]
    ensures Split(c, Join([c], xs)) == xs
    decreases |xs|
  {
    if |xs| == 1 {
      SplitNoSeparator(c, xs[0]);
    } else {
      SplitJoin(c, xs[1..]);
      SplitPiece(c, xs[0], Join([c], xs[1..]));
      assert [xs[0]] + xs[1..] == xs;
    }
  }

  /** n copies of s. */
  function Repeat(s: string, n: nat): (r: seq<string>)
    ensures |r| == n
    ensures forall i :: 0 <= i < n ==> r[i] == s
  {
    if n == 0 then [] else Repeat(s, n - 1) + [s]
  }

  /** Number of occurrences of c in s. */
  function Occurrences(c: char, s: string): nat
  {
    if |s| == 0 then 0 else (if s[0] == c then 1 else 0) + Occurrences(c, s[1..])
  }

  lemma {:induction false} OccurrencesAppend(c: char, s: string, t: string)
    ensures Occurrences(c, s + t) == Occurrences(c, s) + Occurrences(c, t)
    decreases |s|
  {
    if |s| == 0 {
      assert s + t == t;
    } else {
      assert (s + t)[1..] == s[1..] + t;
      OccurrencesAppend(c, s[1..], t);
    }
  }

  lemma {:induction false} OccurrencesAbsent(c: char, s: string)
    requires c !in s
    ensures Occurrences(c, s) == 0
    decreases |s|
  {
    if |s| > 0 {
      OccurrencesAbsent(c, s[1..]);
    }
  }

  /** The placeholder list "?,?,...,?" with n marks holds exactly n marks
      and has length 2n - 1. */
  lemma {:induction false} PlaceholderList(n: nat)
    requires n >= 1
    ensures Occurrences('?', Join(",", Repeat("?", n))) == n
    ensures |Join(",", Repeat("?", n))| == 2 * n - 1
    decreases n
  {
    if n > 1 {
      PlaceholderList(n - 1);
      JoinSnoc(",", Repeat("?", n - 1), "?");
      var j := Join(",", Repeat("?", n - 1));
      OccurrencesAppend('?', j + ",", "?");
      OccurrencesAppend('?', j, ",");
    }
  }

  // ---------------------------------------------------------------------
  // std::to_string(int)

  function DigitChar(d: nat): (ch: char)
    requires d < 10
  {
    "0123456789"[d]
  }

  function DigitValue(ch: char): (d: nat)
    requires '0' <= ch <= '9'
    ensures d < 10
  {
    (ch as int - '0' as int) as nat
  }

  predicate IsDigits(s: string)
  {
    |s| > 0 && forall i :: 0 <= i < |s| ==> '0' <= s[i] <= '9'
  }

  /** Decimal digits of n, most significant first, no leading zeros. */
  function NatToString(n: nat): (s: string)
    ensures IsDigits(s)
    decreases n
  {
    if n < 10 then [DigitChar(n)] else NatToString(n / 10) + [DigitChar(n % 10)]
  }

  /** std::to_string of an int: a '-' before the magnitude when negative. */
  function IntToString(i: int): string
  {
    if i < 0 then "-" + NatToString(-i) else NatToString(i)
  }

  /** Reads a string of decimal digits. */
  function ParseNat(s: string): nat
    requires IsDigits(s)
    decreases |s|
  {
    if |s| == 1 then DigitValue(s[0])
    else ParseNat(s[..|s| - 1]) * 10 + DigitValue(s[|s| - 1])
  }

  /** An optional '-' followed by decimal digits. */
  predicate IsIntText(s: string)
  {
    IsDigits(s) || (|s| > 1 && s[0] == '-' && IsDigits(s[1..]))
  }

  /** Reads what IntToString writes. */
  function ParseInt(s: string): int
    requires IsIntText(s)
  {
    if s[0] == '-' then -(ParseNat(s[1..]) as int) else ParseNat(s)
  }

  lemma {:induction false} NatRoundTrip(n: nat)
    ensures ParseNat(NatToString(n)) == n
    decreases n
  {
    if n >= 10 {
      NatRoundTrip(n / 10);
      var s := NatToString(n);
      assert s[..|s| - 1] == NatToString(n / 10);
    }
  }

  /** The decimal rendering of an int is read back as the same int, so
      distinct default values give distinct DEFAULT literals. */
  lemma IntRoundTrip(i: int)
    ensures IsIntText(IntToString(i)) && ParseInt(IntToString(i)) == i
  {
    var s := IntToString(i);
    if i < 0 {
      NatRoundTrip(-i);
      assert s[1..] == NatToString(-i);
    } else {
      NatRoundTrip(i);
    }
  }

  // ---------------------------------------------------------------------
  // C strings

  /** What std::string((const char*)p) keeps of a text: everything before
      the first NUL character. */
  function CString(s: string): (r: string)
    ensures |r| <= |s| && r == s[..|r|]
    ensures '\0' !in r
    ensures |r| < |s| ==> s[|r|] == '\0'
    decreases |s|
  {
    if |s| == 0 || s[0] == '\0' then "" else [s[0]] + CString(s[1..])
  }

  lemma {:induction false} CStringOfPlainText(s: string)
    requires '\0' !in s
    ensures CString(s) == s
    decreases |s|
  {
    if |s| > 0 {
      CStringOfPlainText(s[1..]);
      assert [s[0]] + s[1..] == s;
    }
  }
}
