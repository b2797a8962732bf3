/**
 * Decimal text for integers: Python's `str(n)` for a primary key, reading a
 * plain digit string back, and Python's `int(s)`, the conversion Django
 * applies to a `text_id` string before looking it up.
 */
module Decimal {
  import opened Wrappers
  import opened Strings

  predicate IsDigit(c: char) {
    '0' <= c <= '9'
  }

  function DigitChar(d: nat): (c: char)
    requires d < 10
    ensures IsDigit(c) && c as int - '0' as int == d
  {
    ('0' as int + d) as char
  }

  function DigitValue(c: char): (d: nat)
    requires IsDigit(c)
    ensures d < 10
  {
    c as int - '0' as int
  }

  /** `str(n)`: the shortest decimal spelling of `n`. */
  function ToDecimal(n: nat): (s: string)
    ensures |s| > 0
    ensures forall i :: 0 <= i < |s| ==> IsDigit(s[i])
    ensures |s| > 1 ==> s[0] != '0'
    decreases n
  {
    if n < 10 then [DigitChar(n)] else ToDecimal(n / 10) + [DigitChar(n % 10)]
  }

  /** The value of a string of digits, read most significant digit first. */
  function DigitsValue(s: string): nat
    requires forall i :: 0 <= i < |s| ==> IsDigit(s[i])
  {
    if |s| == 0 then 0
    else 10 * DigitsValue(s[..|s| - 1]) + DigitValue(s[|s| - 1])
  }

  /** A plain string of ASCII digits read as a number; anything else is None. */
  function ParseDecimal(s: string): (r: Option<nat>)
    ensures r.Some? <==> |s| > 0 && forall i :: 0 <= i < |s| ==> IsDigit(s[i])
  {
    if |s| > 0 && forall i :: 0 <= i < |s| ==> IsDigit(s[i]) then Some(DigitsValue(s)) else None
  }

  /** Reading back what `str(n)` printed gives `n`. */
  lemma {:induction false} ParseToDecimal(n: nat)
    ensures ParseDecimal(ToDecimal(n)) == Some(n)
    decreases n
  {
    var s := ToDecimal(n);
    if n < 10 {
      assert s[..0] == [];
      assert DigitsValue(s) == DigitValue(DigitChar(n));
    } else {
      ParseToDecimal(n / 10);
      assert s[..|s| - 1] == ToDecimal(n / 10);
      assert DigitValue(s[|s| - 1]) == n % 10;
    }
  }

  /** Without leading zeros a decimal spelling is unique: printing the parsed value gives the text back. */
  lemma {:induction false} ToDecimalParse(s: string)
    requires ParseDecimal(s).Some?
    requires |s| > 1 ==> s[0] != '0'
    ensures ToDecimal(ParseDecimal(s).value) == s
    decreases |s|
  {
    var n := DigitsValue(s);
    if |s| == 1 {
      assert s[..0] == [];
      assert DigitsValue(s[..0]) == 0;
      assert n == DigitValue(s[0]);
      assert s == [DigitChar(n)];
    } else {
      var p := s[..|s| - 1];
      assert forall i :: 0 <= i < |p| ==> IsDigit(p[i]);
      ToDecimalParse(p);
      DigitsValueLeading(p);
      assert n / 10 == DigitsValue(p);
      assert s == p + [s[|s| - 1]];
    }
  }

  /** A digit string of two or more digits whose first is not zero has a value of at least 10^(len-1) >= 1. */
  lemma {:induction false} DigitsValueLeading(p: string)
    requires |p| > 0 && forall i :: 0 <= i < |p| ==> IsDigit(p[i])
    requires p[0] != '0'
    ensures DigitsValue(p) >= 1
    decreases |p|
  {
    if |p| > 1 {
      var q := p[..|p| - 1];
      assert q[0] == p[0];
      DigitsValueLeading(q);
    }
  }

  // ---------------------------------------------------------------------------
  // int(s) in base 10
  // ---------------------------------------------------------------------------

  /**
   * The blanks `int()` skips around a number: space and `\t` to `\r`, and
   * every non-ASCII character `str.isspace` accepts (CPython turns those into
   * a space first). The ASCII separators U+001C to U+001F pass through that
   * step unchanged and are then refused.
   */
  predicate IsIntSpace(c: char) {
    c == ' ' || '\t' <= c <= '\r' || (c as int >= 127 && IsSpace(c))
  }

  /** `s` without its leading blanks. */
  function TrimStart(s: string): (r: string)
    ensures r == "" || !IsIntSpace(r[0])
  {
    if s != [] && IsIntSpace(s[0]) then TrimStart(s[1..]) else s
  }

  /** `s` without its trailing blanks. */
  function TrimEnd(s: string): (r: string)
    ensures r == "" || !IsIntSpace(r[|r| - 1])
  {
    if s != [] && IsIntSpace(s[|s| - 1]) then TrimEnd(s[..|s| - 1]) else s
  }

  /** Position `i` of `s` holds a digit, or an underscore with a digit on either side. */
  predicate GroupChar(s: string, i: int)
    requires 0 <= i < |s|
  {
    IsDigit(s[i]) || (s[i] == '_' && 0 < i < |s| - 1 && IsDigit(s[i - 1]) && IsDigit(s[i + 1]))
  }

  /** Digits with single underscores between them: `1_000`, but not `_1`, `1_` or `1__0`. */
  predicate IsDigitGroups(s: string) {
    |s| > 0 && forall i :: 0 <= i < |s| ==> GroupChar(s, i)
  }

  /** Leading blanks are skipped, and trimming stops at the first other character. */
  lemma TrimStartStep(c: char, s: string)
    ensures IsIntSpace(c) ==> TrimStart([c] + s) == TrimStart(s)
    ensures !IsIntSpace(c) ==> TrimStart([c] + s) == [c] + s
  {
    assert ([c] + s)[1..] == s;
  }

  /** Trailing blanks are skipped, and trimming stops at the last other character. */
  lemma TrimEndStep(s: string, c: char)
    ensures IsIntSpace(c) ==> TrimEnd(s + [c]) == TrimEnd(s)
    ensures !IsIntSpace(c) ==> TrimEnd(s + [c]) == s + [c]
  {
    assert (s + [c])[..|s|] == s;
  }

  /** `s` with its underscores dropped. */
  function DropUnderscores(s: string): string {
    if s == [] then []
    else
      var rest := DropUnderscores(s[..|s| - 1]);
      if s[|s| - 1] == '_' then rest else rest + [s[|s| - 1]]
  }

  /** Dropping the underscores of a digit-group string leaves only digits. */
  lemma {:induction false} DropUnderscoresDigits(s: string)
    requires forall i :: 0 <= i < |s| ==> IsDigit(s[i]) || s[i] == '_'
    ensures forall i :: 0 <= i < |DropUnderscores(s)| ==> IsDigit(DropUnderscores(s)[i])
    decreases |s|
  {
    if s != [] {
      DropUnderscoresDigits(s[..|s| - 1]);
    }
  }

  /** The value of a digit-group string: its digits read without the underscores. */
  function GroupsValue(g: string): nat
    requires IsDigitGroups(g)
  {
    assert forall i :: 0 <= i < |g| ==> IsDigit(g[i]) || g[i] == '_' by {
      forall i | 0 <= i < |g|
        ensures IsDigit(g[i]) || g[i] == '_'
      {
        assert GroupChar(g, i);
      }
    }
    DropUnderscoresDigits(g);
    DigitsValue(DropUnderscores(g))
  }

  /**
   * What `int()` makes of a string whose blanks are already stripped: an
   * optional `+` or `-` followed by digit groups; None for anything else.
   */
  function ParseTrimmed(t: string): Option<int> {
    if |t| > 0 && (t[0] == '+' || t[0] == '-') then
      if IsDigitGroups(t[1..]) then Some(if t[0] == '-' then -(GroupsValue(t[1..]) as int) else GroupsValue(t[1..]))
      else None
    else if IsDigitGroups(t) then Some(GroupsValue(t))
    else None
  }

  /**
   * Python's `int(s)` for a `str`, base 10: optional blanks, an optional `+`
   * or `-`, ASCII digits with single underscores between them, optional
   * blanks. None stands for the ValueError anything else raises.
   */
  function ParseInt(s: string): Option<int> {
    ParseTrimmed(TrimEnd(TrimStart(s)))
  }

  /** A string with no blank at either end is left as it is by trimming. */
  lemma Untrimmed(s: string)
    requires s != [] && !IsIntSpace(s[0]) && !IsIntSpace(s[|s| - 1])
    ensures TrimEnd(TrimStart(s)) == s
  {
  }

  /** A string without underscores loses nothing to DropUnderscores. */
  lemma {:induction false} DropNoUnderscores(s: string)
    requires '_' !in s
    ensures DropUnderscores(s) == s
    decreases |s|
  {
    if s != [] {
      assert s[|s| - 1] in s;
      assert forall c :: c in s[..|s| - 1] ==> c in s;
      DropNoUnderscores(s[..|s| - 1]);
      assert s == s[..|s| - 1] + [s[|s| - 1]];
    }
  }

  /** On a plain digit string `int()` and the plain reader agree. */
  lemma ParseIntOfDigits(s: string)
    requires ParseDecimal(s).Some?
    ensures ParseInt(s) == Some(ParseDecimal(s).value as int)
  {
    assert !IsIntSpace(s[0]) && !IsIntSpace(s[|s| - 1]);
    assert TrimStart(s) == s;
    assert TrimEnd(s) == s;
    assert IsDigitGroups(s) by {
      forall i | 0 <= i < |s|
        ensures GroupChar(s, i)
      {
        assert IsDigit(s[i]);
      }
    }
    assert '_' !in s by {
      forall i | 0 <= i < |s|
        ensures s[i] != '_'
      {
        assert IsDigit(s[i]);
      }
    }
    DropNoUnderscores(s);
  }

  /** A digit string without leading zeros is one digit group, worth the number it spells. */
  lemma DecimalIsDigitGroups(n: nat)
    ensures IsDigitGroups(ToDecimal(n)) && GroupsValue(ToDecimal(n)) == n
  {
    var d := ToDecimal(n);
    ParseToDecimal(n);
    ParseIntOfDigits(d);
    assert '_' !in d by {
      forall i | 0 <= i < |d|
        ensures d[i] != '_'
      {
        assert IsDigit(d[i]);
      }
    }
    DropNoUnderscores(d);
  }

  /** `int(str(n)) == n`. */
  lemma ParseIntDecimal(n: nat)
    ensures ParseInt(ToDecimal(n)) == Some(n)
  {
    ParseToDecimal(n);
    ParseIntOfDigits(ToDecimal(n));
  }

  /** A sign is read off the front of a digit-group string. */
  lemma ParseIntSign(c: char, g: string)
    requires IsDigitGroups(g) && (c == '+' || c == '-')
    ensures ParseInt([c] + g) == Some(if c == '-' then -(GroupsValue(g) as int) else GroupsValue(g))
  {
    var t := [c] + g;
    assert GroupChar(g, |g| - 1);
    assert t[|t| - 1] == g[|g| - 1];
    Untrimmed(t);
    assert t[1..] == g;
  }

  /** Blanks around a string are skipped: one before and one after. */
  lemma ParseIntBlanks(s: string)
    requires s != [] && !IsIntSpace(s[0]) && !IsIntSpace(s[|s| - 1])
    ensures ParseInt(" " + s + "\n") == ParseInt(s)
  {
    var b := " " + s + "\n";
    assert TrimStart(b) == s + "\n" by {
      TrimStartStep(' ', s + "\n");
      assert b == [' '] + (s + "\n");
      TrimStartStep(s[0], s[1..] + "\n");
      assert s + "\n" == [s[0]] + (s[1..] + "\n");
    }
    assert TrimEnd(s + "\n") == s by {
      TrimEndStep(s, '\n');
      TrimEndStep(s[..|s| - 1], s[|s| - 1]);
      assert s[..|s| - 1] + [s[|s| - 1]] == s;
    }
    Untrimmed(s);
  }

  /** A `+`-signed digit-group string between blanks is read as its value. */
  lemma ParseIntPadded(g: string)
    requires IsDigitGroups(g)
    ensures ParseInt(" +" + g + "\n") == Some(GroupsValue(g))
  {
    ParseIntSign('+', g);
    assert GroupChar(g, |g| - 1);
    ParseIntBlanks("+" + g);
    assert " +" + g + "\n" == " " + ("+" + g) + "\n";
  }

  /** `int()` also takes `str(n)` with a sign and surrounded by blanks. */
  lemma ParseIntSigned(n: nat)
    ensures ParseInt(" +" + ToDecimal(n) + "\n") == Some(n)
    ensures ParseInt("-" + ToDecimal(n)) == Some(-(n as int))
  {
    DecimalIsDigitGroups(n);
    ParseIntPadded(ToDecimal(n));
    ParseIntSign('-', ToDecimal(n));
  }

  /** A string with no blank at either end and no sign is read as one digit-group string. */
  lemma ParseIntUnpadded(s: string)
    requires s != [] && !IsIntSpace(s[0]) && !IsIntSpace(s[|s| - 1]) && s[0] != '+' && s[0] != '-'
    ensures ParseInt(s) == if IsDigitGroups(s) then Some(GroupsValue(s) as int) else None
  {
    Untrimmed(s);
  }

  /**
   * What `int()` lets through beyond plain digits: an underscore between
   * digits, a non-ASCII blank and a minus sign.
   */
  lemma ParseIntAccepts()
    ensures ParseInt("0_7") == Some(7)
    ensures ParseInt("\U{a0}7") == Some(7)
    ensures ParseInt("-1") == Some(-1)
  {
    assert ParseInt("0_7") == Some(7) by {
      var g := "0_7";
      ParseIntUnpadded(g);
      assert IsDigitGroups(g) by {
        assert GroupChar(g, 0) && GroupChar(g, 1) && GroupChar(g, 2);
      }
      assert DropUnderscores(g) == "07" by {
        assert g[..2] == "0_" && "0_"[..1] == "0" && "0"[..0] == "";
      }
      assert DigitsValue("07") == 7 by {
        assert "07"[..1] == "0" && "0"[..0] == "";
      }
    }
    assert ParseInt("\U{a0}7") == Some(7) by {
      TrimStartStep('\U{a0}', "7");
      assert "\U{a0}7" == ['\U{a0}'] + "7";
      Untrimmed("7");
      SevenAndOne();
    }
    assert ParseInt("-1") == Some(-1) by {
      SevenAndOne();
    }
  }

  lemma SevenAndOne()
    ensures ParseInt("7") == Some(7) && ParseInt("-1") == Some(-1)
  {
    assert ParseInt("7") == Some(7) by {
      ParseIntDecimal(7);
      assert ToDecimal(7) == "7";
    }
    assert ParseInt("-1") == Some(-1) by {
      ParseIntSigned(1);
      assert ToDecimal(1) == "1";
    }
  }

  /**
   * What `int()` refuses: a leading, trailing or doubled underscore, an inner
   * blank, the separator U+001C and the empty string.
   */
  lemma ParseIntRefuses()
    ensures ParseInt("_7").None? && ParseInt("7_").None? && ParseInt("1__0").None?
    ensures ParseInt("7 7").None? && ParseInt("\U{1c}7").None? && ParseInt("").None?
  {
    assert ParseInt("_7").None? by {
      ParseIntUnpadded("_7");
      assert !GroupChar("_7", 0);
    }
    assert ParseInt("7_").None? by {
      ParseIntUnpadded("7_");
      assert !GroupChar("7_", 1);
    }
    assert ParseInt("1__0").None? by {
      ParseIntUnpadded("1__0");
      assert !GroupChar("1__0", 1);
    }
    assert ParseInt("7 7").None? by {
      ParseIntUnpadded("7 7");
      assert !GroupChar("7 7", 1);
    }
    assert ParseInt("\U{1c}7").None? by {
      ParseIntUnpadded("\U{1c}7");
      assert !GroupChar("\U{1c}7", 0);
    }
  }
}
