/** The money text of the price cells and of the price summary:
    `f"{n:,} ₽".replace(',', ' ')`, i.e. thousands grouped with single spaces
    followed by a space and the rouble sign. */
module Money {
  import opened Text

  const Rouble: char := '₽'

  /** What follows the amount: a space and the rouble sign. */
  const Suffix: string := " ₽"

  /** The digit grouping of the `,` format specifier: a separator before
      every block of three digits counted from the right. */
  function GroupDigits(ds: string, sep: char): string
    decreases |ds|
  {
    if |ds| <= 3 then ds else GroupDigits(ds[..|ds| - 3], sep) + [sep] + ds[|ds| - 3..]
  }

  /** `f"{n:,}"`. */
  function WithCommas(n: int): string {
    if n < 0 then "-" + GroupDigits(NatToString(-n), ',') else GroupDigits(NatToString(n), ',')
  }

  /** The amount part of the money text, grouped with spaces. */
  function Amount(n: int): string {
    if n < 0 then "-" + GroupDigits(NatToString(-n), ' ') else GroupDigits(NatToString(n), ' ')
  }

  /** Blocks of digits separated by single spaces: a leading block of one to
      three digits and then blocks of exactly three. */
  ghost predicate Grouped(s: string)
    decreases |s|
  {
    || (1 <= |s| <= 3 && AllDigits(s))
    || (|s| > 4 && Grouped(s[..|s| - 4]) && s[|s| - 4] == ' ' && AllDigits(s[|s| - 3..]))
  }

  /** No digit is a space or a comma. */
  lemma DigitsHaveNoSeparator(ds: string)
    requires AllDigits(ds)
    ensures ' ' !in ds && ',' !in ds
  {
    forall i | 0 <= i < |ds| ensures ds[i] != ' ' && ds[i] != ',' {
      assert IsDigit(ds[i]);
    }
  }

  /** Grouping with spaces yields the block shape and keeps the first
      digit in front. */
  lemma {:induction false} GroupDigitsShape(ds: string)
    requires |ds| > 0 && AllDigits(ds)
    ensures Grouped(GroupDigits(ds, ' '))
    ensures GroupDigits(ds, ' ')[0] == ds[0]
    decreases |ds|
  {
    if |ds| > 3 {
      var hi := ds[..|ds| - 3];
      var lo := ds[|ds| - 3..];
      GroupDigitsShape(hi);
      var g := GroupDigits(hi, ' ');
      var r := g + [' '] + lo;
      assert r[..|r| - 4] == g;
      assert r[|r| - 3..] == lo;
      assert AllDigits(lo);
    }
  }

  /** Dropping the spaces of the grouping gives the digits back. */
  lemma {:induction false} GroupDigitsUngroup(ds: string)
    requires AllDigits(ds)
    ensures RemoveChar(GroupDigits(ds, ' '), ' ') == ds
    decreases |ds|
  {
    if |ds| <= 3 {
      DigitsHaveNoSeparator(ds);
      RemoveAbsentChar(ds, ' ');
    } else {
      var hi := ds[..|ds| - 3];
      var lo := ds[|ds| - 3..];
      GroupDigitsUngroup(hi);
      var g := GroupDigits(hi, ' ');
      DigitsHaveNoSeparator(lo);
      RemoveCharAppend(g + [' '], lo, ' ');
      RemoveCharAppend(g, [' '], ' ');
      RemoveAbsentChar(lo, ' ');
      assert hi + lo == ds;
    }
  }

  /** Replacing a character that does not occur changes nothing. */
  lemma {:induction false} ReplaceAbsentChar(s: string, c: char, d: string)
    requires c !in s
    ensures ReplaceAll(s, [c], d) == s
    decreases |s|
  {
    if |s| > 0 {
      assert s[0] != c;
      NoMatchHere(s, [c], d);
      ReplaceAbsentChar(s[1..], c, d);
      assert [s[0]] + s[1..] == s;
    }
  }

  /** Replacing the commas of the comma grouping by spaces is the same as
      grouping with spaces. */
  lemma {:induction false} CommasToSpaces(ds: string)
    requires AllDigits(ds)
    ensures ReplaceAll(GroupDigits(ds, ','), ",", " ") == GroupDigits(ds, ' ')
    decreases |ds|
  {
    if |ds| <= 3 {
      DigitsHaveNoSeparator(ds);
      ReplaceAbsentChar(ds, ',', " ");
    } else {
      var hi := ds[..|ds| - 3];
      var lo := ds[|ds| - 3..];
      CommasToSpaces(hi);
      DigitsHaveNoSeparator(lo);
      ReplaceAbsentChar(lo, ',', " ");
      ReplaceCharAppend(GroupDigits(hi, ',') + [','], lo, ',', " ");
      ReplaceCharAppend(GroupDigits(hi, ','), [','], ',', " ");
      assert ReplaceAll([','], ",", " ") == " ";
    }
  }

  /** How the comma grouping of `f"{n:,} ₽"` turns into the space grouping
      once the commas are replaced. */
  lemma MoneyText(n: int)
    ensures ReplaceAll(WithCommas(n) + Suffix, ",", " ") == Amount(n) + Suffix
    ensures RemoveChar(Amount(n), ' ') == IntToString(n)
    ensures n >= 0 ==> Grouped(Amount(n)) && IsDigit(Amount(n)[0])
  {
    var abs := if n < 0 then -n else n;
    var ds := NatToString(abs);
    CommasToSpaces(ds);
    GroupDigitsShape(ds);
    GroupDigitsUngroup(ds);
    ReplaceAbsentChar(Suffix, ',', " ");
    ReplaceCharAppend(WithCommas(n), Suffix, ',', " ");
    if n < 0 {
      ReplaceAbsentChar("-", ',', " ");
      ReplaceCharAppend("-", GroupDigits(ds, ','), ',', " ");
      RemoveCharAppend("-", GroupDigits(ds, ' '), ' ');
      RemoveAbsentChar("-", ' ');
    }
  }

  /** The money text: `f"{n:,} ₽".replace(',', ' ')`. It is the amount
      grouped by spaces followed by `" ₽"`; removing the spaces of the
      amount gives back `str(n)`, and for a non-negative amount the grouped
      part is made of digit blocks. */
  function FormatMoney(n: int): (r: string)
    ensures r == Amount(n) + Suffix
    ensures RemoveChar(Amount(n), ' ') == IntToString(n)
    ensures n >= 0 ==> Grouped(Amount(n)) && IsDigit(r[0])
  {
    MoneyText(n);
    ReplaceAll(WithCommas(n) + Suffix, ",", " ")
  }

  /** The worked example of the price summary: 95000 is shown as
      `95 000 ₽`. */
  lemma FormatExample()
    ensures FormatMoney(95000) == "95 000 ₽"
    ensures FormatMoney(0) == "0 ₽"
  {
    assert NatToString(95000) == "95000" by {
      assert NatToString(9) == "9";
      assert NatToString(95) == "95";
      assert NatToString(950) == "950";
      assert NatToString(9500) == "9500";
    }
    assert GroupDigits("95000", ' ') == "95 000" by {
      assert "95000"[..2] == "95";
      assert "95000"[2..] == "000";
    }
  }
}
