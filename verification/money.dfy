/**
 * Amounts of money. The stores keep integer cents (`valor`); the entry form
 * reads them back from the masked money input, and the lists print them as
 * `(valor / 100).toFixed(2)`.
 */
module Money {
  import opened Wrappers
  import opened Seqs
  import opened Text

  /**
   * The amount typed into the masked input: the base-10 integer spelt by
   * its digits, every other character ignored; `None` is the `NaN` that
   * `parseInt` gives when there is no digit at all.
   */
  function ParseCents(masked: string): (r: Option<nat>)
    ensures r.None? <==> forall k :: 0 <= k < |masked| ==> !IsDigit(masked[k])
    ensures r.Some? ==> r.value == ValueOf(DigitsOf(masked))
  {
    var ds := DigitsOf(masked);
    FilterMembers(masked, IsDigit);
    if ds == [] then None
    else
      assert ds[0] in ds;
      Some(ValueOf(ds))
  }

  /** The digits of a concatenation are the digits of its parts. */
  lemma DigitsOfAppend(a: string, b: string)
    ensures DigitsOf(a + b) == DigitsOf(a) + DigitsOf(b)
  {
    FilterAppend(a, b, IsDigit);
  }

  /** Inserting a character that is not a digit anywhere in the input does not change the amount. */
  lemma ParseIgnoresNonDigit(a: string, c: char, b: string)
    requires !IsDigit(c)
    ensures ParseCents(a + [c] + b) == ParseCents(a + b)
  {
    assert DigitsOf([c]) == [] by {
      assert [c][1..] == [];
    }
    DigitsOfAppend(a + [c], b);
    DigitsOfAppend(a, [c]);
    DigitsOfAppend(a, b);
    assert DigitsOf(a + [c] + b) == DigitsOf(a + b);
  }

  /** Text without digits in front of the amount does not change it. */
  lemma ParseSkipsText(prefix: string, s: string)
    requires forall k :: 0 <= k < |prefix| ==> !IsDigit(prefix[k])
    ensures ParseCents(prefix + s) == ParseCents(s)
  {
    DigitsOfAppend(prefix, s);
    FilterNone(prefix, IsDigit);
    assert DigitsOf(prefix) == [];
    assert DigitsOf(prefix + s) == DigitsOf(s);
  }

  /** The value of a numeral followed by two more digits. */
  lemma ValueOfTwoMore(a: string, b: string)
    requires AllDigits(a) && AllDigits(b) && |b| == 2
    ensures AllDigits(a + b)
    ensures ValueOf(a + b) == ValueOf(a) * 100 + ValueOf(b)
  {
    var a1 := a + [b[0]];
    var ab := a + b;
    assert ab[..|ab| - 1] == a1;
    assert a1[..|a1| - 1] == a;
    assert ValueOf(a1) == ValueOf(a) * 10 + DigitValue(b[0]);
    assert ValueOf(ab) == ValueOf(a1) * 10 + DigitValue(b[1]);
    assert b[..|b| - 1] == [b[0]];
    assert ValueOf([b[0]]) == DigitValue(b[0]) by {
      assert [b[0]][..0] == [];
    }
    assert ValueOf(b) == DigitValue(b[0]) * 10 + DigitValue(b[1]);
  }

  /** `(cents / 100).toFixed(2)`: the whole units, a point and exactly two digits of cents. */
  function Fixed2(cents: nat): (r: string)
    ensures |r| >= 4 && r[|r| - 3] == '.'
    ensures AllDigits(r[..|r| - 3]) && AllDigits(r[|r| - 2..])
    ensures r[0] == '0' ==> |r| == 4
  {
    var r := NatToDecimal(cents / 100) + "." + TwoDigits(cents % 100);
    assert r[..|r| - 3] == NatToDecimal(cents / 100);
    assert r[|r| - 2..] == TwoDigits(cents % 100);
    r
  }

  /** String replacement with a one-character pattern given as a string. */
  function ReplaceFirst(s: string, from: char, to: char): (r: string)
    ensures |r| == |s|
    ensures from !in s ==> r == s
  {
    if s == [] then []
    else if s[0] == from then [to] + s[1..]
    else [s[0]] + ReplaceFirst(s[1..], from, to)
  }

  /**
   * With the pattern present, exactly its first occurrence is replaced:
   * the text before it, which does not contain the pattern, and the text
   * after it are kept.
   */
  lemma {:induction false} ReplaceFirstOccurrence(s: string, from: char, to: char)
    requires from in s
    ensures ReplaceFirst(s, from, to) == s[..FirstIndex(s, from)] + [to] + s[FirstIndex(s, from) + 1..]
  {
    if s[0] != from {
      assert from in s[1..] by {
        var k :| 0 <= k < |s| && s[k] == from;
        assert s[1..][k - 1] == from;
      }
      ReplaceFirstOccurrence(s[1..], from, to);
      var j := FirstIndex(s[1..], from);
      assert s[..j + 1] == [s[0]] + s[1..][..j];
      FirstIndexAt(s, from, j + 1);
      assert s[j + 2..] == s[1..][j + 1..];
    }
  }

  /** The cents printed by `Fixed2`, with any digit-free text before it, read back as the same cents. */
  lemma {:induction false} Fixed2RoundTrip(prefix: string, cents: nat)
    requires forall k :: 0 <= k < |prefix| ==> !IsDigit(prefix[k])
    ensures ParseCents(prefix + Fixed2(cents)) == Some(cents)
  {
    var whole, frac := NatToDecimal(cents / 100), TwoDigits(cents % 100);
    assert prefix + Fixed2(cents) == prefix + whole + ['.'] + frac;
    FilterAppend(prefix + whole + ['.'], frac, IsDigit);
    FilterAppend(prefix + whole, ['.'], IsDigit);
    FilterAppend(prefix, whole, IsDigit);
    FilterNone(prefix, IsDigit);
    FilterAll(whole, IsDigit);
    FilterAll(frac, IsDigit);
    assert ['.'][1..] == [];
    assert DigitsOf(['.']) == [];
    assert DigitsOf(prefix + Fixed2(cents)) == whole + frac;
    ValueOfTwoMore(whole, frac);
  }

  /** The amount with two decimals and its first point replaced by a comma, as Brazilian Portuguese writes it. */
  function CommaFixed2(cents: nat): (r: string)
    ensures |r| >= 4 && r[|r| - 3] == ','
    ensures AllDigits(r[..|r| - 3]) && AllDigits(r[|r| - 2..])
    ensures r[0] == '0' ==> |r| == 4
    ensures ParseCents(r) == Some(cents)
  {
    var whole, frac := NatToDecimal(cents / 100), TwoDigits(cents % 100);
    var s := Fixed2(cents);
    assert s == whole + ['.'] + frac;
    assert '.' !in whole;
    ReplaceAfter(whole, ['.'] + frac, '.', ',');
    assert s == whole + (['.'] + frac);
    var r := ReplaceFirst(s, '.', ',');
    assert r == whole + [','] + frac;
    Fixed2RoundTrip([], cents);
    assert [] + s == s;
    ReplaceKeepsDigits(s, '.', ',');
    r
  }

  /** A printed amount: digits without a leading zero, a separator and two digits. */
  predicate AmountText(a: string, sep: char)
  {
    |a| >= 4 && a[|a| - 3] == sep && AllDigits(a[..|a| - 3]) && AllDigits(a[|a| - 2..])
    && (a[0] == '0' ==> |a| == 4)
  }

  /** A printed amount keeps its shape behind a prefix. */
  lemma PrefixedAmount(p: string, a: string, sep: char)
    requires AmountText(a, sep)
    ensures (p + a)[..|p|] == p && AmountText((p + a)[|p|..], sep)
  {
    assert (p + a)[|p|..] == a;
  }

  /** The first occurrence lies past a prefix that does not contain the pattern. */
  lemma {:induction false} ReplaceAfter(a: string, b: string, from: char, to: char)
    requires from !in a
    ensures ReplaceFirst(a + b, from, to) == a + ReplaceFirst(b, from, to)
  {
    if a != [] {
      assert (a + b)[0] == a[0] && (a + b)[1..] == a[1..] + b;
      assert a[0] != from && from !in a[1..];
      ReplaceAfter(a[1..], b, from, to);
      calc {
        ReplaceFirst(a + b, from, to);
        [a[0]] + ReplaceFirst(a[1..] + b, from, to);
        [a[0]] + (a[1..] + ReplaceFirst(b, from, to));
        ([a[0]] + a[1..]) + ReplaceFirst(b, from, to);
        { assert [a[0]] + a[1..] == a; }
        a + ReplaceFirst(b, from, to);
      }
    } else {
      assert a + b == b;
    }
  }

  /** Replacing one non-digit by another leaves the digits of the text unchanged. */
  lemma {:induction false} ReplaceKeepsDigits(s: string, from: char, to: char)
    requires !IsDigit(from) && !IsDigit(to)
    ensures DigitsOf(ReplaceFirst(s, from, to)) == DigitsOf(s)
  {
    if s != [] {
      if s[0] == from {
        assert ReplaceFirst(s, from, to) == [to] + s[1..];
        assert DigitsOf([to] + s[1..]) == DigitsOf(s[1..]) by {
          assert ([to] + s[1..])[1..] == s[1..];
        }
      } else {
        ReplaceKeepsDigits(s[1..], from, to);
        assert ([s[0]] + ReplaceFirst(s[1..], from, to))[1..] == ReplaceFirst(s[1..], from, to);
      }
    }
  }
}
