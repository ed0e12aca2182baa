/** String helpers with the semantics of the host languages' library calls:
    `String.prototype.split` / `str.split` with a one-character separator,
    `startsWith` / `endswith`, and decimal rendering of integers. */
module Text {

  predicate StartsWith(s: string, prefix: string) {
    |prefix| <= |s| && s[..|prefix|] == prefix
  }

  predicate EndsWith(s: string, suffix: string) {
    |suffix| <= |s| && s[|s| - |suffix|..] == suffix
  }

  /** `s.split(sep)`: the maximal separator-free pieces of `s`, in order.
      There is always at least one piece, and "" splits into [""]. */
  function Split(s: string, sep: char): (r: seq<string>)
    ensures |r| >= 1
    decreases |s|
  {
    if s == [] then [""]
    else
      var rest := Split(s[1..], sep);
      if s[0] == sep then [""] + rest
      else [[s[0]] + rest[0]] + rest[1..]
  }

  /** No piece contains the separator, and a separator-free text is its own only piece. */
  lemma {:induction false} SplitPieces(s: string, sep: char)
    ensures forall i :: 0 <= i < |Split(s, sep)| ==> sep !in Split(s, sep)[i]
    ensures sep !in s ==> Split(s, sep) == [s]
    decreases |s|
  {
    if s != [] {
      assert s == [s[0]] + s[1..];
      assert sep !in s ==> sep !in s[1..];
      SplitPieces(s[1..], sep);
    }
  }

  /** `pieces.join(sep)`. */
  function Join(pieces: seq<string>, sep: char): string
    requires |pieces| >= 1
    decreases |pieces|
  {
    if |pieces| == 1 then pieces[0] else pieces[0] + [sep] + Join(pieces[1..], sep)
  }

  /** Joining the pieces back gives the original text. */
  lemma {:induction false} SplitJoin(s: string, sep: char)
    ensures Join(Split(s, sep), sep) == s
    decreases |s|
  {
    if s != [] {
      var rest := Split(s[1..], sep);
      SplitJoin(s[1..], sep);
      if s[0] == sep {
        assert Split(s, sep)[1..] == rest;
      } else if |rest| == 1 {
        assert Split(s, sep) == [[s[0]] + rest[0]];
      } else {
        var r := Split(s, sep);
        assert r[1..] == rest[1..];
        assert Join(rest, sep) == rest[0] + [sep] + Join(rest[1..], sep);
        assert s == [s[0]] + s[1..];
      }
    }
  }

  /** A separator-free prefix glues onto the first piece of what follows. */
  lemma {:induction false} SplitPrefix(a: string, rest: string, sep: char)
    requires sep !in a
    ensures Split(a + rest, sep) == [a + Split(rest, sep)[0]] + Split(rest, sep)[1..]
    decreases |a|
  {
    if a != [] {
      assert (a + rest)[1..] == a[1..] + rest;
      SplitPrefix(a[1..], rest, sep);
      assert [a[0]] + (a[1..] + Split(rest, sep)[0]) == a + Split(rest, sep)[0];
    } else {
      var rs := Split(rest, sep);
      assert a + rest == rest && a + rs[0] == rs[0];
      assert rs == [rs[0]] + rs[1..];
    }
  }

  /** Splitting the join of separator-free pieces gives the pieces back. */
  lemma {:induction false} JoinSplit(pieces: seq<string>, sep: char)
    requires |pieces| >= 1
    requires forall i :: 0 <= i < |pieces| ==> sep !in pieces[i]
    ensures Split(Join(pieces, sep), sep) == pieces
    decreases |pieces|
  {
    if |pieces| > 1 {
      var tail := Join(pieces[1..], sep);
      JoinSplit(pieces[1..], sep);
      assert Split([sep] + tail, sep) == [""] + pieces[1..] by {
        assert ([sep] + tail)[1..] == tail;
        SplitCons([sep] + tail, sep);
      }
      assert Join(pieces, sep) == pieces[0] + ([sep] + tail);
      SplitPrefix(pieces[0], [sep] + tail, sep);
      calc {
        Split(Join(pieces, sep), sep);
        [pieces[0] + ""] + pieces[1..];
        { assert pieces[0] + "" == pieces[0]; }
        [pieces[0]] + pieces[1..];
        pieces;
      }
    } else {
      SplitPieces(pieces[0], sep);
    }
  }

  /** All pieces but the last: the separator-terminated ones. */
  function Init(pieces: seq<string>): seq<string>
    requires |pieces| >= 1
  {
    pieces[..|pieces| - 1]
  }

  /** The last piece: the text after the last separator. */
  function Last(pieces: seq<string>): string
    requires |pieces| >= 1
  {
    pieces[|pieces| - 1]
  }

  /** The concatenation law of `Split`, stated piecewise. */
  predicate SplitsAsAppend(x: string, y: string, sep: char) {
    var xs, ys := Split(x, sep), Split(y, sep);
    Split(x + y, sep) == Init(xs) + [Last(xs) + ys[0]] + ys[1..]
  }

  /** Splitting a concatenation: the last piece of `x` glues onto the first piece of `y`. */
  lemma {:induction false} SplitAppend(x: string, y: string, sep: char)
    ensures SplitsAsAppend(x, y, sep)
    decreases |x|
  {
    if x == [] {
      var ys := Split(y, sep);
      assert x + y == y && "" + ys[0] == ys[0];
      assert ys == [ys[0]] + ys[1..];
    } else {
      assert (x + y)[1..] == x[1..] + y;
      assert (x + y)[0] == x[0];
      SplitAppend(x[1..], y, sep);
      SplitCons(x + y, sep);
      SplitCons(x, sep);
      var xs', ys, t := Split(x[1..], sep), Split(y, sep), Split(x[1..] + y, sep);
      if x[0] == sep {
        GlueSeparator(xs', ys, t);
      } else {
        GlueChar(x[0], xs', ys, t);
      }
    }
  }

  /** One unfolding of `Split` on a non-empty text. */
  lemma SplitCons(s: string, sep: char)
    requires s != []
    ensures s[0] == sep ==> Split(s, sep) == [""] + Split(s[1..], sep)
    ensures s[0] != sep ==> Split(s, sep) == [[s[0]] + Split(s[1..], sep)[0]] + Split(s[1..], sep)[1..]
  {
  }

  /** The step of `SplitAppend` for a leading separator, on the pieces alone. */
  lemma GlueSeparator(xs: seq<string>, ys: seq<string>, t: seq<string>)
    requires |xs| >= 1 && |ys| >= 1
    requires t == Init(xs) + [Last(xs) + ys[0]] + ys[1..]
    ensures [""] + t == Init([""] + xs) + [Last([""] + xs) + ys[0]] + ys[1..]
  {
    assert Init([""] + xs) == [""] + Init(xs);
  }

  /** The step of `SplitAppend` for a leading ordinary character, on the pieces alone. */
  lemma GlueChar(c: char, xs: seq<string>, ys: seq<string>, t: seq<string>)
    requires |xs| >= 1 && |ys| >= 1
    requires t == Init(xs) + [Last(xs) + ys[0]] + ys[1..]
    ensures [[c] + t[0]] + t[1..]
         == Init([[c] + xs[0]] + xs[1..]) + [Last([[c] + xs[0]] + xs[1..]) + ys[0]] + ys[1..]
  {
    var xc := [[c] + xs[0]] + xs[1..];
    if |xs| == 1 {
      assert t == [xs[0] + ys[0]] + ys[1..];
      assert Init(xc) == [] && Last(xc) == [c] + xs[0];
      assert [c] + (xs[0] + ys[0]) == ([c] + xs[0]) + ys[0];
    } else {
      var mid := Init(xs)[1..];
      assert Init(xs) == [xs[0]] + mid;
      assert t == [xs[0]] + (mid + [Last(xs) + ys[0]] + ys[1..]);
      assert Init(xc) == [[c] + xs[0]] + mid && Last(xc) == Last(xs);
    }
  }

  predicate IsDigits(s: string) {
    forall i :: 0 <= i < |s| ==> '0' <= s[i] <= '9'
  }

  /** The number a run of decimal digits spells, most significant first. */
  function DecimalValue(s: string): nat
    requires IsDigits(s)
    decreases |s|
  {
    if s == [] then 0 else 10 * DecimalValue(s[..|s| - 1]) + (s[|s| - 1] as int - '0' as int)
  }

  /** A numeral without leading zeros: non-empty, and "0" is the only one that starts
      with a zero. */
  predicate Canonical(s: string) {
    |s| >= 1 && (s[0] == '0' ==> |s| == 1)
  }

  /** The decimal digits of `n`, as `str(n)` / template interpolation print it. */
  function NatToString(n: nat): (s: string)
    ensures IsDigits(s) && Canonical(s)
    ensures s[0] == '0' <==> n == 0
    decreases n
  {
    var d := ["0123456789"[n % 10]];
    if n < 10 then d else NatToString(n / 10) + d
  }

  /** The digits written for `n` spell `n`. */
  lemma {:induction false} NatToStringValue(n: nat)
    ensures DecimalValue(NatToString(n)) == n
    decreases n
  {
    var s := NatToString(n);
    DigitChar(n % 10);
    if n < 10 {
      assert s[..0] == [];
    } else {
      NatToStringValue(n / 10);
      assert s[..|s| - 1] == NatToString(n / 10);
    }
  }

  /** A canonical numeral is the one written for its value, so two canonical numerals
      with the same value are the same string. */
  lemma {:induction false} CanonicalIsNatToString(s: string)
    requires IsDigits(s) && Canonical(s)
    ensures s == NatToString(DecimalValue(s))
    decreases |s|
  {
    var v := DecimalValue(s);
    var c := s[|s| - 1];
    var d := c as int - '0' as int;
    if |s| == 1 {
      assert s[..|s| - 1] == [];
      assert v == 10 * DecimalValue(s[..|s| - 1]) + d;
      assert "0123456789"[d] == c;
    } else {
      var init := s[..|s| - 1];
      assert init[0] == s[0];
      CanonicalIsNatToString(init);
      LeadingDigitPositive(init);
      assert v == 10 * DecimalValue(init) + d;
      assert v / 10 == DecimalValue(init) && v % 10 == d;
      assert "0123456789"[d] == c;
      assert s == init + [c];
    }
  }

  /** A numeral that does not start with a zero spells a positive number. */
  lemma {:induction false} LeadingDigitPositive(s: string)
    requires IsDigits(s) && |s| >= 1 && s[0] != '0'
    ensures DecimalValue(s) >= 1
    decreases |s|
  {
    if |s| > 1 {
      var init := s[..|s| - 1];
      assert init[0] == s[0];
      LeadingDigitPositive(init);
    } else {
      assert s[..0] == [];
    }
  }

  lemma CanonicalUnique(a: string, b: string)
    requires IsDigits(a) && Canonical(a) && IsDigits(b) && Canonical(b)
    requires DecimalValue(a) == DecimalValue(b)
    ensures a == b
  {
    CanonicalIsNatToString(a);
    CanonicalIsNatToString(b);
  }

  lemma DigitChar(k: nat)
    requires k < 10
    ensures "0123456789"[k] as int - '0' as int == k
  {
  }

  /** `str(i)` for a possibly negative integer: its digits, after a minus sign when
      it is negative. */
  function IntToString(i: int): (s: string)
    ensures i >= 0 ==> IsDigits(s) && Canonical(s) && DecimalValue(s) == i
    ensures i < 0 ==> |s| >= 2 && s[0] == '-' && IsDigits(s[1..]) && Canonical(s[1..]) && s[1] != '0'
    ensures i < 0 ==> DecimalValue(s[1..]) == -i
  {
    if i < 0 then
      var digits := NatToString(-i);
      NatToStringValue(-i);
      assert ("-" + digits)[1..] == digits && ("-" + digits)[1] == digits[0];
      "-" + digits
    else
      NatToStringValue(i);
      NatToString(i)
  }

  /** The text between a known prefix and suffix. */
  lemma Between(prefix: string, middle: string, suffix: string)
    ensures var s := prefix + middle + suffix;
            StartsWith(s, prefix) && EndsWith(s, suffix) && s[|prefix|..|s| - |suffix|] == middle
  {
    var s := prefix + middle + suffix;
    assert s[..|prefix|] == prefix;
    assert s[|s| - |suffix|..] == suffix;
  }
}
