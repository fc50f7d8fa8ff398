/** `fmt_int`: a natural number written in decimal with its digits grouped in threes from the
    right, the groups separated by single spaces (Python's `f"{n:,}"` with `,` replaced by ` `). */
module Format {
  import opened Text
  import opened Decimal

  /** The `,` format specifier applied to a digit string: a comma before every group of three
      digits counted from the right. */
  function Group(d: string): string
  {
    if |d| <= 3 then d else Group(d[..|d| - 3]) + "," + d[|d| - 3..]
  }

  function FmtInt(n: nat): string
  {
    Replace(Group(ToDecimal(n)), ',', " ")
  }

  lemma NoSeparators(d: string)
    requires AllDigits(d)
    ensures ',' !in d && ' ' !in d
  {
    assert forall i | 0 <= i < |d| :: IsDigit(d[i]);
  }

  /** The grouped digit string with spaces for commas, built group by group. */
  lemma SpacedGroups(d: string)
    requires |d| > 3 && AllDigits(d)
    ensures Replace(Group(d), ',', " ")
         == Replace(Group(d[..|d| - 3]), ',', " ") + " " + d[|d| - 3..]
  {
    var p, q := d[..|d| - 3], d[|d| - 3..];
    var g := Group(p);
    assert Group(d) == g + "," + q;
    DigitsSlice(d, |d| - 3, |d|);
    NoSeparators(q);
    ReplaceAppend(g + ",", q, ',', " ");
    ReplaceAppend(g, ",", ',', " ");
    ReplaceOne(',', ',', " ");
  }

  /** The grouped form of a digit string holds no space, and deleting its commas gives the digit
      string back. */
  lemma {:induction false} GroupUngroup(d: string)
    requires AllDigits(d)
    ensures ' ' !in Group(d) && Remove(Group(d), ',') == d
  {
    if |d| > 3 {
      var p, q := d[..|d| - 3], d[|d| - 3..];
      var g := Group(p);
      DigitsSlice(d, 0, |d| - 3);
      DigitsSlice(d, |d| - 3, |d|);
      GroupUngroup(p);
      NoSeparators(q);
      assert Group(d) == g + "," + q;
      RemoveTrailing(g, ',');
      RemoveAppend(g + ",", q, ',');
      assert p + q == d;
    } else {
      NoSeparators(d);
    }
  }

  /** Deleting the separators from the grouped form gives back the digits. */
  lemma UngroupDigits(d: string)
    requires AllDigits(d)
    ensures Remove(Replace(Group(d), ',', " "), ' ') == d
  {
    GroupUngroup(d);
    RemoveReplaced(Group(d), ',', ' ');
  }

  /** Removing the spaces from `fmt_int(n)` gives exactly `str(n)`. */
  lemma FmtIntUngroups(n: nat)
    ensures Remove(FmtInt(n), ' ') == ToDecimal(n)
  {
    UngroupDigits(ToDecimal(n));
  }

  /** `int(fmt_int(n).replace(" ", "")) == n`: the formatted count reads back as the count. */
  lemma FmtIntRoundTrip(n: nat)
    ensures AllDigits(Remove(FmtInt(n), ' '))
    ensures DigitsValue(Remove(FmtInt(n), ' ')) == n
  {
    FmtIntUngroups(n);
    ValueOfDecimal(n);
  }

  /** Groups of three digits from the right, single spaces between groups, a leading group of one
      to three digits: the character at distance k from the end is a space exactly when k is a
      multiple of 4, every other character is a digit, and the length is not a multiple of 4. */
  predicate GroupedDigits(s: string)
  {
    && |s| > 0
    && |s| % 4 != 0
    && forall i | 0 <= i < |s| :: (s[i] == ' ' <==> (|s| - i) % 4 == 0) && (s[i] != ' ' ==> IsDigit(s[i]))
  }

  /** One more group of three digits after a space keeps the grouping. */
  lemma GroupedAppend(sp: string, q: string)
    requires GroupedDigits(sp) && |q| == 3 && AllDigits(q)
    ensures GroupedDigits(sp + " " + q)
  {
    var s := sp + " " + q;
    forall i | 0 <= i < |s|
      ensures (s[i] == ' ' <==> (|s| - i) % 4 == 0) && (s[i] != ' ' ==> IsDigit(s[i]))
    {
      if i < |sp| {
        assert s[i] == sp[i];
        assert (|s| - i) % 4 == (|sp| - i) % 4;
      } else if i > |sp| {
        assert s[i] == q[i - |sp| - 1];
      }
    }
  }

  lemma {:induction false} GroupedSpaced(d: string)
    requires |d| > 0 && AllDigits(d)
    ensures GroupedDigits(Replace(Group(d), ',', " "))
    ensures |Replace(Group(d), ',', " ")| == |d| + (|d| - 1) / 3
  {
    if |d| > 3 {
      var p, q := d[..|d| - 3], d[|d| - 3..];
      assert AllDigits(p) && AllDigits(q);
      SpacedGroups(d);
      GroupedSpaced(p);
      GroupedAppend(Replace(Group(p), ',', " "), q);
    } else {
      assert Group(d) == d;
      NoSeparators(d);
    }
  }

  /** `fmt_int(n)` is digit groups of three separated by single spaces, with a leading group of
      one to three digits. */
  lemma FmtIntGrouped(n: nat)
    ensures GroupedDigits(FmtInt(n))
  {
    GroupedSpaced(ToDecimal(n));
  }

  /** `fmt_int(n)` contains a space exactly when `n >= 1000`. */
  lemma FmtIntSpaceIff(n: nat)
    ensures ' ' in FmtInt(n) <==> n >= 1000
  {
    var d := ToDecimal(n);
    ShortDecimal(n);
    GroupedSpaced(d);
    var s := FmtInt(n);
    if n >= 1000 {
      assert s[|s| - 4] == ' ';
    } else {
      NoSeparators(d);
    }
  }

  /** Different counts are formatted differently. */
  lemma FmtIntInjective(m: nat, n: nat)
    requires FmtInt(m) == FmtInt(n)
    ensures m == n
  {
    FmtIntRoundTrip(m);
    FmtIntRoundTrip(n);
  }

  /** A zero count is written as a single `0`. */
  lemma FmtIntZero()
    ensures FmtInt(0) == "0"
  {
    assert ToDecimal(0) == "0";
    assert Group("0") == "0";
  }

  /** `k` as exactly three digits, with leading zeros. */
  function Pad3(k: nat): (s: string)
    requires k < 1000
    ensures |s| == 3 && AllDigits(s)
  {
    [DigitChar(k / 100), DigitChar(k / 10 % 10), DigitChar(k % 10)]
  }

  /** The decimal form of `1000 * m + k` is that of `m` followed by `k` in three digits. */
  lemma DecimalSplit(m: nat, k: nat)
    requires m > 0 && k < 1000
    ensures ToDecimal(1000 * m + k) == ToDecimal(m) + Pad3(k)
  {
    var n := 1000 * m + k;
    var n1, n2 := 100 * m + k / 10, 10 * m + k / 100;
    assert n / 10 == n1 && n % 10 == k % 10;
    assert n1 / 10 == n2 && n1 % 10 == k / 10 % 10;
    assert n2 / 10 == m && n2 % 10 == k / 100;
    assert ToDecimal(n) == ToDecimal(n1) + [DigitChar(k % 10)];
    assert ToDecimal(n1) == ToDecimal(n2) + [DigitChar(k / 10 % 10)];
    assert ToDecimal(n2) == ToDecimal(m) + [DigitChar(k / 100)];
  }

  /** `fmt_int(1000 * m + k)` for `m > 0` is `fmt_int(m)`, a space and `k` in three digits. */
  lemma FmtIntSplit(m: nat, k: nat)
    requires m > 0 && k < 1000
    ensures FmtInt(1000 * m + k) == FmtInt(m) + " " + Pad3(k)
  {
    var d := ToDecimal(1000 * m + k);
    DecimalSplit(m, k);
    assert d[..|d| - 3] == ToDecimal(m) && d[|d| - 3..] == Pad3(k);
    SpacedGroups(d);
  }

}
