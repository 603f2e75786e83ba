/** The amount string printed on a sales note's PDF: Python's `"${:,.0f}".format(n)` with
    every `,` then replaced by `.`, i.e. a dollar sign and the decimal digits grouped in
    threes from the right with `.` between groups. */
module Money {
  import opened Text

  /** 2^53: below it in absolute value every integer survives the conversion to a float
      that the `f` format performs. */
  const FloatExact: int := 0x20_0000_0000_0000

  /** Digits grouped in threes from the right, the groups separated by `sep`. */
  function Group(d: string, sep: char): string
    decreases |d|
  {
    if |d| <= 3 then d else Group(d[..|d| - 3], sep) + [sep] + d[|d| - 3..]
  }

  function Sign(n: int): string { if n < 0 then "-" else "" }

  function Abs(n: int): nat { if n < 0 then -n else n }

  /** `"{:,.0f}".format(n)` for an integer. */
  function CommaFormat(n: int): string
  {
    Sign(n) + Group(NatString(Abs(n)), ',')
  }

  /** `"${:,.0f}".format(n).replace(',', '.')`. */
  function FormatMonto(n: int): string
    requires -FloatExact < n < FloatExact
  {
    ReplaceChar("$" + CommaFormat(n), ',', '.')
  }

  /** `g` is digits in groups of three counted from the right, separated by `sep`, with a
      first group of one to three digits. */
  predicate ThousandsGrouped(g: string, sep: char)
  {
    && |g| % 4 != 0
    && (forall i :: 0 <= i < |g| ==> (g[i] == sep <==> (|g| - i) % 4 == 0))
    && (forall i :: 0 <= i < |g| && g[i] != sep ==> IsDigit(g[i]))
  }

  lemma {:induction false} GroupShape(d: string, sep: char)
    requires |d| >= 1 && AllDigits(d) && !IsDigit(sep)
    ensures ThousandsGrouped(Group(d, sep), sep)
    ensures |Group(d, sep)| == |d| + (|d| - 1) / 3
    decreases |d|
  {
    if |d| > 3 {
      var d' := d[..|d| - 3];
      var tail := d[|d| - 3..];
      GroupShape(d', sep);
      GroupStep(d, sep);
      var g' := Group(d', sep);
      var g := Group(d, sep);
      assert g == g' + [sep] + tail;
      forall i | 0 <= i < |g|
        ensures g[i] == sep <==> (|g| - i) % 4 == 0
        ensures g[i] != sep ==> IsDigit(g[i])
      {
        if i < |g'| {
          assert g[i] == g'[i];
          assert (|g| - i) % 4 == (|g'| - i) % 4;
        } else if i > |g'| {
          assert g[i] == tail[i - |g'| - 1];
        }
      }
    }
  }

  /** One step of `Group`: the leading digits grouped, a separator, the last three digits. */
  lemma GroupStep(d: string, sep: char)
    requires |d| > 3
    ensures Group(d, sep) == Group(d[..|d| - 3], sep) + [sep] + d[|d| - 3..]
  {
  }

  /** Digits contain no character that is not a digit. */
  lemma DigitsExclude(d: string, c: char)
    requires AllDigits(d) && !IsDigit(c)
    ensures c !in d
  {
    forall i | 0 <= i < |d| ensures d[i] != c {
      assert IsDigit(d[i]);
    }
  }

  lemma {:induction false} GroupRemoveSep(d: string, sep: char)
    requires sep !in d
    ensures RemoveChar(Group(d, sep), sep) == d
    decreases |d|
  {
    if |d| > 3 {
      var d', tail := d[..|d| - 3], d[|d| - 3..];
      var g' := Group(d', sep);
      assert sep !in d' && sep !in tail;
      calc {
        RemoveChar(Group(d, sep), sep);
        { GroupStep(d, sep); }
        RemoveChar(g' + [sep] + tail, sep);
        { RemoveCharAppend(g' + [sep], tail, sep); }
        RemoveChar(g' + [sep], sep) + RemoveChar(tail, sep);
        { RemoveCharAppend(g', [sep], sep); assert RemoveChar([sep], sep) == []; }
        RemoveChar(g', sep) + RemoveChar(tail, sep);
        { GroupRemoveSep(d', sep); RemoveAbsentChar(tail, sep); }
        d' + tail;
        { assert d == d' + tail; }
        d;
      }
    } else {
      RemoveAbsentChar(d, sep);
    }
  }

  lemma {:induction false} GroupReplaceSep(d: string, a: char, b: char)
    requires a !in d
    ensures ReplaceChar(Group(d, a), a, b) == Group(d, b)
    decreases |d|
  {
    if |d| > 3 {
      var d' := d[..|d| - 3];
      var tail := d[|d| - 3..];
      assert a !in d' && a !in tail;
      GroupStep(d, a);
      GroupStep(d, b);
      GroupReplaceSep(d', a, b);
      ReplaceCharAppend(Group(d', a) + [a], tail, a, b);
      ReplaceCharAppend(Group(d', a), [a], a, b);
      ReplaceAbsentChar(tail, a, b);
    } else {
      ReplaceAbsentChar(d, a, b);
    }
  }

  /** The printed amount is `$`, then `-` for a negative amount, then the digits of its
      magnitude grouped in threes with `.`. */
  lemma FormatMontoUsesDots(n: int)
    requires -FloatExact < n < FloatExact
    ensures FormatMonto(n) == "$" + Sign(n) + Group(NatString(Abs(n)), '.')
  {
    var d := NatString(Abs(n));
    var prefix := "$" + Sign(n);
    DigitsExclude(d, ',');
    ReplaceCharAppend(prefix, Group(d, ','), ',', '.');
    ReplaceAbsentChar(prefix, ',', '.');
    GroupReplaceSep(d, ',', '.');
    calc {
      FormatMonto(n);
      ReplaceChar("$" + CommaFormat(n), ',', '.');
      { assert "$" + CommaFormat(n) == prefix + Group(d, ','); }
      ReplaceChar(prefix + Group(d, ','), ',', '.');
      prefix + Group(d, '.');
    }
  }

  /** Grouping is all that is added: dropping the `$` and the `.`s gives back `str(n)`. */
  lemma FormatMontoRoundTrip(n: int)
    requires -FloatExact < n < FloatExact
    ensures RemoveChar(RemoveChar(FormatMonto(n), '.'), '$') == DecimalString(n)
  {
    var d := NatString(Abs(n));
    DigitsExclude(d, '.');
    DigitsExclude(d, '$');
    FormatMontoUsesDots(n);
    var prefix := "$" + Sign(n);
    assert '.' !in prefix;
    RemoveCharAppend(prefix, Group(d, '.'), '.');
    RemoveAbsentChar(prefix, '.');
    GroupRemoveSep(d, '.');
    assert RemoveChar(FormatMonto(n), '.') == prefix + d;
    assert prefix + d == "$" + (Sign(n) + d);
    RemoveCharAppend("$", Sign(n) + d, '$');
    assert '$' !in Sign(n) + d;
    RemoveAbsentChar(Sign(n) + d, '$');
    assert RemoveChar("$", '$') == [];
    assert DecimalString(n) == Sign(n) + d;
  }

  /** Layout of the printed amount: `$`, an optional `-`, then well-formed groups of three. */
  lemma FormatMontoShape(n: int)
    requires -FloatExact < n < FloatExact
    ensures var s := FormatMonto(n);
      && |s| >= 2 && s[0] == '$'
      && (s[1] == '-' <==> n < 0)
      && ThousandsGrouped(s[1 + |Sign(n)|..], '.')
  {
    var d := NatString(Abs(n));
    FormatMontoUsesDots(n);
    GroupShape(d, '.');
    var s := FormatMonto(n);
    assert s[1 + |Sign(n)|..] == Group(d, '.');
    assert Group(d, '.')[0] != '.' && IsDigit(Group(d, '.')[0]);
  }

  /** The digits of the example amount. */
  lemma NatStringExample()
    ensures NatString(12500000) == "12500000"
  {
    assert NatString(12) == "12";
    assert NatString(125) == "125";
    assert NatString(1250) == "1250";
    assert NatString(12500) == "12500";
    assert NatString(125000) == "125000";
    assert NatString(1250000) == "1250000";
  }

  /** A twelve-and-a-half-million peso sale prints as `$12.500.000`. */
  lemma FormatMontoExample()
    ensures FormatMonto(12500000) == "$12.500.000"
  {
    FormatMontoUsesDots(12500000);
    NatStringExample();
    GroupStep("12500000", '.');
    GroupStep("12500", '.');
    assert "12500000"[..5] == "12500" && "12500000"[5..] == "000";
    assert "12500"[..2] == "12" && "12500"[2..] == "500";
  }

  /** A negative amount keeps its sign after the dollar sign. */
  lemma FormatMontoNegativeExample()
    ensures FormatMonto(-950) == "$-950"
  {
    FormatMontoUsesDots(-950);
    assert NatString(95) == "95";
    assert NatString(950) == "950";
  }
}
