/** The string operations the print route relies on, as JavaScript defines them:
    `split` on a one-character separator, joining with a separator, `parseInt` on
    decimal digits, number-to-string conversion, `slice(-n)`, and the way a template
    literal prints `undefined`. */
module Text {
  import opened Wrappers

  /** `s.split(sep)`: the pieces between occurrences of `sep`, including the empty
      pieces that adjacent, leading or trailing separators produce; never empty. */
  function Split(s: string, sep: char): (parts: seq<string>)
    ensures |parts| >= 1
    decreases |s|
  {
    if s == [] then [[]]
    else
      var r := Split(s[..|s| - 1], sep);
      if s[|s| - 1] == sep then r + [[]]
      else r[..|r| - 1] + [r[|r| - 1] + [s[|s| - 1]]]
  }

  /** `parts.join(sep)`. */
  function Join(parts: seq<string>, sep: char): string
    decreases |parts|
  {
    if |parts| == 0 then []
    else if |parts| == 1 then parts[0]
    else Join(parts[..|parts| - 1], sep) + [sep] + parts[|parts| - 1]
  }

  /** `parts.join(sep)` with a separator of any length. */
  function JoinWith(parts: seq<string>, sep: string): string
    decreases |parts|
  {
    if |parts| == 0 then []
    else if |parts| == 1 then parts[0]
    else JoinWith(parts[..|parts| - 1], sep) + sep + parts[|parts| - 1]
  }

  /** With a one-character separator the two joins agree. */
  lemma {:induction false} JoinWithChar(parts: seq<string>, sep: char)
    ensures JoinWith(parts, [sep]) == Join(parts, sep)
    decreases |parts|
  {
    if |parts| > 1 {
      JoinWithChar(parts[..|parts| - 1], sep);
    }
  }

  /** No piece `sep` cuts out of a string contains `sep`. */
  predicate Free(parts: seq<string>, sep: char)
  {
    forall i :: 0 <= i < |parts| ==> sep !in parts[i]
  }

  lemma JoinSnoc(parts: seq<string>, x: string, sep: char)
    ensures Join(parts + [x], sep) == if parts == [] then x else Join(parts, sep) + [sep] + x
  {
    assert (parts + [x])[..|parts|] == parts;
  }

  /** Joining the pieces again restores the string. */
  lemma {:induction false} JoinSplit(s: string, sep: char)
    ensures Join(Split(s, sep), sep) == s
    decreases |s|
  {
    if s != [] {
      var init, c := s[..|s| - 1], s[|s| - 1];
      assert s == init + [c];
      var r := Split(init, sep);
      JoinSplit(init, sep);
      if c == sep {
        JoinSnoc(r, [], sep);
      } else {
        var front, last := r[..|r| - 1], r[|r| - 1];
        assert r == front + [last];
        JoinSnoc(front, last + [c], sep);
        JoinSnoc(front, last, sep);
      }
    }
  }

  /** The pieces never contain the separator. */
  lemma {:induction false} SplitFree(s: string, sep: char)
    ensures Free(Split(s, sep), sep)
    decreases |s|
  {
    if s != [] {
      var init, c := s[..|s| - 1], s[|s| - 1];
      var r := Split(init, sep);
      SplitFree(init, sep);
      if c != sep {
        assert sep !in r[|r| - 1];
        assert sep !in r[|r| - 1] + [c];
      }
    }
  }

  /** A string without the separator is one piece. */
  lemma {:induction false} SplitWithout(s: string, sep: char)
    requires sep !in s
    ensures Split(s, sep) == [s]
    decreases |s|
  {
    if s != [] {
      var init := s[..|s| - 1];
      assert sep !in init by {
        forall i | 0 <= i < |init| ensures init[i] != sep { assert init[i] == s[i]; }
      }
      SplitWithout(init, sep);
      assert init + [s[|s| - 1]] == s;
    }
  }

  /** Splitting at a separator splits each side on its own. */
  lemma {:induction false} SplitConcat(a: string, b: string, sep: char)
    ensures Split(a + [sep] + b, sep) == Split(a, sep) + Split(b, sep)
    decreases |b|
  {
    if b == [] {
      SplitSnoc(a, sep, sep);
      assert a + [sep] + b == a + [sep];
    } else {
      var init, c := b[..|b| - 1], b[|b| - 1];
      assert b == init + [c];
      assert a + [sep] + b == (a + [sep] + init) + [c];
      SplitConcat(a, init, sep);
      SplitSnoc(a + [sep] + init, c, sep);
      SplitSnoc(init, c, sep);
      if c != sep {
        SnocLast(Split(a, sep), Split(init, sep), c);
      }
    }
  }

  /** One more character either starts a new piece or extends the last one. */
  lemma SplitSnoc(t: string, c: char, sep: char)
    ensures var r := Split(t, sep);
      Split(t + [c], sep) == if c == sep then r + [[]] else r[..|r| - 1] + [r[|r| - 1] + [c]]
  {
    assert (t + [c])[..|t|] == t;
  }

  /** Growing the last piece of `ra + rb` grows the last piece of `rb`. */
  lemma SnocLast(ra: seq<string>, rb: seq<string>, c: char)
    requires |rb| >= 1
    ensures var r := ra + rb;
      r[..|r| - 1] + [r[|r| - 1] + [c]] == ra + (rb[..|rb| - 1] + [rb[|rb| - 1] + [c]])
  {
    var r := ra + rb;
    assert r[..|r| - 1] == ra + rb[..|rb| - 1];
  }

  /** Splitting a join of separator-free pieces gives the pieces back. */
  lemma {:induction false} SplitJoin(parts: seq<string>, sep: char)
    requires |parts| >= 1 && Free(parts, sep)
    ensures Split(Join(parts, sep), sep) == parts
    decreases |parts|
  {
    if |parts| == 1 {
      SplitWithout(parts[0], sep);
    } else {
      var front := parts[..|parts| - 1];
      SplitJoin(front, sep);
      SplitConcat(Join(front, sep), parts[|parts| - 1], sep);
      SplitWithout(parts[|parts| - 1], sep);
      assert front + [parts[|parts| - 1]] == parts;
    }
  }

  /** The element at `i` of an array, `undefined` past its end. */
  function At(parts: seq<string>, i: nat): (r: Option<string>)
    ensures r.Some? <==> i < |parts|
  {
    if i < |parts| then Some(parts[i]) else None
  }

  /** How a template literal prints a string that may be `undefined`. */
  function Show(o: Option<string>): string
  {
    match o
    case Some(s) => s
    case None => "undefined"
  }

  /** `s.slice(-n)` for a positive `n`: the last `n` characters, or all of `s` when it
      is shorter. (`slice(-0)` is `slice(0)`, the whole string.) */
  function SliceFromEnd(s: string, n: nat): (r: string)
    requires n > 0
    ensures |r| == if |s| < n then |s| else n
    ensures r == s[|s| - |r|..]
  {
    if |s| < n then s else s[|s| - n..]
  }

  predicate IsDigit(c: char)
  {
    '0' <= c <= '9'
  }

  predicate AllDigits(s: string)
  {
    forall i :: 0 <= i < |s| ==> IsDigit(s[i])
  }

  function DigitValue(c: char): (d: nat)
    requires IsDigit(c)
    ensures d < 10
  {
    c as int - '0' as int
  }

  /** The number a string of decimal digits denotes. */
  function DigitsValue(s: string): nat
    requires AllDigits(s)
    decreases |s|
  {
    if s == [] then 0
    else 10 * DigitsValue(s[..|s| - 1]) + DigitValue(s[|s| - 1])
  }

  /** The length of the longest prefix of `s` made of digits. */
  function DigitPrefix(s: string): (k: nat)
    ensures k <= |s|
    ensures AllDigits(s[..k])
    ensures k < |s| ==> !IsDigit(s[k])
    decreases |s|
  {
    if s == [] || !IsDigit(s[0]) then 0
    else
      var k := DigitPrefix(s[1..]);
      assert s[..k + 1] == [s[0]] + s[1..][..k];
      k + 1
  }

  /** `parseInt(s)` for strings without sign or leading blanks: the value of the
      leading digits; `None` (NaN) when `s` does not start with a digit. */
  function ParseInt(s: string): (r: Option<nat>)
    ensures r.None? <==> s == [] || !IsDigit(s[0])
  {
    var k := DigitPrefix(s);
    if k == 0 then None else Some(DigitsValue(s[..k]))
  }

  /** A string of digits parses to the number it denotes. */
  lemma ParseIntDigits(s: string)
    requires s != [] && AllDigits(s)
    ensures ParseInt(s) == Some(DigitsValue(s))
  {
    assert s[..DigitPrefix(s)] == s;
  }

  /** `parseInt` stops at the first character that is not a digit. */
  lemma ParseIntPrefix(a: string, b: string)
    requires a != [] && AllDigits(a)
    requires b == [] || !IsDigit(b[0])
    ensures ParseInt(a + b) == Some(DigitsValue(a))
  {
    var k := DigitPrefix(a + b);
    assert forall i :: 0 <= i < |a| ==> (a + b)[i] == a[i];
    assert b != [] ==> (a + b)[|a|] == b[0];
    assert k == |a|;
    assert (a + b)[..k] == a;
  }

  function DigitChar(d: nat): (c: char)
    requires d < 10
    ensures IsDigit(c) && DigitValue(c) == d
  {
    ('0' as int + d) as char
  }

  /** `${n}` for a non-negative integer: its decimal digits, without leading zeros. */
  function Decimal(n: nat): (s: string)
    ensures s != [] && AllDigits(s)
    ensures s[0] == '0' ==> n == 0
    decreases n
  {
    if n < 10 then [DigitChar(n)]
    else Decimal(n / 10) + [DigitChar(n % 10)]
  }

  /** Reading the printed digits back gives the number. */
  lemma {:induction false} DecimalValue(n: nat)
    ensures DigitsValue(Decimal(n)) == n
    decreases n
  {
    var s := Decimal(n);
    if n >= 10 {
      DecimalValue(n / 10);
      assert s[..|s| - 1] == Decimal(n / 10);
    }
  }

  /** `parseInt(String(n)) === n`. */
  lemma ParseDecimal(n: nat)
    ensures ParseInt(Decimal(n)) == Some(n)
  {
    ParseIntDigits(Decimal(n));
    DecimalValue(n);
  }

  /** A digit string holds no separator character. */
  lemma DigitsWithout(s: string, c: char)
    requires AllDigits(s) && !IsDigit(c)
    ensures c !in s
  {
  }
}
