/**
 * String formatting helpers of the bot (dog/core/utils/formatting.py): truncation,
 * code-block escaping, list and dict layout, thousands separators, the file-size unit
 * choice and the `describe` text every log line uses for users, channels, roles and emoji.
 */
module Formatting {
  import opened Wrappers

  /** ZERO WIDTH SPACE, used to break up backticks. */
  const Zwsp: char := '\U{200B}'

  /** A Markdown code fence. */
  const Fence: string := "```"

  // ---------------------------------------------------------------------------
  // Generic string helpers
  // ---------------------------------------------------------------------------

  /** Number of occurrences of `c` in `s`. */
  function Count(s: string, c: char): nat
  {
    if s == [] then 0 else (if s[0] == c then 1 else 0) + Count(s[1..], c)
  }

  lemma {:induction false} CountConcat(a: string, b: string, c: char)
    ensures Count(a + b, c) == Count(a, c) + Count(b, c)
  {
    if a == [] {
      assert a + b == b;
    } else {
      assert (a + b)[0] == a[0];
      assert (a + b)[1..] == a[1..] + b;
      CountConcat(a[1..], b, c);
    }
  }

  lemma {:induction false} CountAbsent(s: string, c: char)
    requires forall i :: 0 <= i < |s| ==> s[i] != c
    ensures Count(s, c) == 0
  {
    if s != [] {
      CountAbsent(s[1..], c);
    }
  }

  function Repeat(c: char, k: nat): (r: string)
    ensures |r| == k && forall i :: 0 <= i < k ==> r[i] == c
  {
    seq(k, _ => c)
  }

  /** Zero-padding to width `w` (format spec `0>w`): leading zeros, never truncating. */
  function ZeroPad(s: string, w: nat): (r: string)
  {
    if |s| >= w then s else Repeat('0', w - |s|) + s
  }

  /** Left-justifying to width `w` (format spec ` <w`): trailing spaces, never truncating. */
  function PadRight(s: string, w: nat): (r: string)
  {
    if |s| >= w then s else s + Repeat(' ', w - |s|)
  }

  /** Left alignment keeps the text in front and only spaces behind it. */
  lemma PadRightShape(s: string, w: nat)
    ensures |PadRight(s, w)| == if |s| >= w then |s| else w
    ensures PadRight(s, w)[..|s|] == s
    ensures forall i :: |s| <= i < |PadRight(s, w)| ==> PadRight(s, w)[i] == ' '
  {
  }

  /** `sep.join(parts)`. */
  function Join(sep: string, parts: seq<string>): string
  {
    if parts == [] then ""
    else if |parts| == 1 then parts[0]
    else parts[0] + sep + Join(sep, parts[1..])
  }

  /** A join starts with its first part, so joining non-empty parts is empty only for no parts. */
  lemma JoinStartsWithFirst(sep: string, parts: seq<string>)
    requires |parts| >= 1
    ensures parts[0] <= Join(sep, parts)
  {
  }

  /** `x` occurs in `s` starting at index `k`. */
  predicate OccursAt(x: string, s: string, k: int)
  {
    0 <= k && k + |x| <= |s| && s[k..k + |x|] == x
  }

  /** `x` occurs somewhere in `s`. */
  predicate Mentions(s: string, x: string)
  {
    exists k :: 0 <= k <= |s| && OccursAt(x, s, k)
  }

  /** An occurrence in `b` is one in `a + b`, shifted by `|a|`. */
  lemma OccursShift(x: string, a: string, b: string, k: int)
    requires OccursAt(x, b, k)
    ensures OccursAt(x, a + b, |a| + k)
  {
    assert (a + b)[|a| + k..|a| + k + |x|] == b[k..k + |x|];
  }

  /** Every part occurs in the joined string. */
  lemma {:induction false} JoinContains(sep: string, parts: seq<string>, i: nat)
    requires i < |parts|
    ensures exists k :: OccursAt(parts[i], Join(sep, parts), k)
  {
    if i == 0 {
      JoinStartsWithFirst(sep, parts);
      assert OccursAt(parts[0], Join(sep, parts), 0);
    } else {
      JoinContains(sep, parts[1..], i - 1);
      var k :| OccursAt(parts[1..][i - 1], Join(sep, parts[1..]), k);
      var head := parts[0] + sep;
      var rest := Join(sep, parts[1..]);
      assert Join(sep, parts) == head + rest;
      assert (head + rest)[|head| + k..|head| + k + |parts[i]|] == rest[k..k + |parts[i]|];
      assert OccursAt(parts[i], Join(sep, parts), |head| + k);
    }
  }

  lemma JoinMentions(sep: string, parts: seq<string>, i: nat)
    requires i < |parts|
    ensures Mentions(Join(sep, parts), parts[i])
  {
    JoinContains(sep, parts, i);
  }

  /** `s.split(c)` for a one-character separator (a reference definition for `Join`). */
  function Split(s: string, c: char): (r: seq<string>)
    ensures |r| >= 1
  {
    if s == [] then [""]
    else if s[0] == c then [""] + Split(s[1..], c)
    else
      var rest := Split(s[1..], c);
      [[s[0]] + rest[0]] + rest[1..]
  }

  lemma {:induction false} SplitNoSeparator(s: string, c: char)
    requires forall i :: 0 <= i < |s| ==> s[i] != c
    ensures Split(s, c) == [s]
  {
    if s != [] {
      SplitNoSeparator(s[1..], c);
      assert [s[0]] + s[1..] == s;
    }
  }

  lemma {:induction false} SplitAfterPiece(a: string, c: char, b: string)
    requires forall i :: 0 <= i < |a| ==> a[i] != c
    ensures Split(a + [c] + b, c) == [a] + Split(b, c)
  {
    if a == [] {
      assert a + [c] + b == [c] + b;
      assert ([c] + b)[1..] == b;
    } else {
      var s := a + [c] + b;
      assert s[0] == a[0];
      assert s[1..] == a[1..] + [c] + b;
      SplitAfterPiece(a[1..], c, b);
      assert [a[0]] + a[1..] == a;
    }
  }

  /** Splitting a join on its one-character separator gives the pieces back. */
  lemma {:induction false} SplitJoin(parts: seq<string>, c: char)
    requires |parts| >= 1
    requires forall k, i :: 0 <= k < |parts| && 0 <= i < |parts[k]| ==> parts[k][i] != c
    ensures Split(Join([c], parts), c) == parts
  {
    if |parts| == 1 {
      SplitNoSeparator(parts[0], c);
    } else {
      SplitJoin(parts[1..], c);
      SplitAfterPiece(parts[0], c, Join([c], parts[1..]));
      assert [parts[0]] + parts[1..] == parts;
    }
  }

  // ---------------------------------------------------------------------------
  // Decimal numbers
  // ---------------------------------------------------------------------------

  predicate IsDigit(c: char)
  {
    '0' <= c <= '9'
  }

  predicate AllDigits(s: string)
  {
    forall i :: 0 <= i < |s| ==> IsDigit(s[i])
  }

  function DigitChar(d: nat): (c: char)
    requires d < 10
    ensures IsDigit(c)
  {
    ('0' as int + d) as char
  }

  function DigitValue(c: char): (d: nat)
    requires IsDigit(c)
    ensures d < 10
  {
    c as int - '0' as int
  }

  /** `str(n)` for a non-negative integer. */
  function NatToString(n: nat): (s: string)
    ensures 1 <= |s| && AllDigits(s)
  {
    if n < 10 then [DigitChar(n)] else NatToString(n / 10) + [DigitChar(n % 10)]
  }

  /** `str(n)` for any integer. */
  function IntToString(n: int): string
  {
    if n < 0 then "-" + NatToString(-n) else NatToString(n)
  }

  /** The value a string of decimal digits denotes (leading zeros allowed). */
  function DecimalValue(s: string): nat
    requires AllDigits(s)
  {
    if s == [] then 0 else 10 * DecimalValue(s[..|s| - 1]) + DigitValue(s[|s| - 1])
  }

  /** Reading back the digits of `str(n)` gives `n`. */
  lemma {:induction false} DecimalRoundTrip(n: nat)
    ensures DecimalValue(NatToString(n)) == n
  {
    if n >= 10 {
      var s := NatToString(n);
      assert s[..|s| - 1] == NatToString(n / 10);
      DecimalRoundTrip(n / 10);
    }
  }

  /** Leading zeros do not change the value. */
  lemma {:induction false} DecimalLeadingZeros(k: nat, s: string)
    requires AllDigits(s)
    ensures AllDigits(Repeat('0', k) + s)
    ensures DecimalValue(Repeat('0', k) + s) == DecimalValue(s)
  {
    if s != [] {
      var t := Repeat('0', k) + s;
      assert t[..|t| - 1] == Repeat('0', k) + s[..|s| - 1];
      DecimalLeadingZeros(k, s[..|s| - 1]);
    } else {
      assert Repeat('0', k) + s == Repeat('0', k);
      ZerosValue(k);
    }
  }

  lemma {:induction false} ZerosValue(k: nat)
    ensures AllDigits(Repeat('0', k)) && DecimalValue(Repeat('0', k)) == 0
  {
    if k > 0 {
      assert Repeat('0', k)[..k - 1] == Repeat('0', k - 1);
      ZerosValue(k - 1);
    }
  }

  lemma ShortNatToString(n: nat)
    requires n < 1000
    ensures |NatToString(n)| <= 3
    ensures n < 100 ==> |NatToString(n)| <= 2
  {
    if 10 <= n < 100 {
      assert |NatToString(n / 10)| == 1;
    } else if n >= 100 {
      assert n / 10 / 10 < 10;
      assert |NatToString(n / 10 / 10)| == 1;
      assert |NatToString(n / 10)| == 2;
    }
  }

  /** Format spec `03d`: at least three digits, zero-padded. */
  function Pad3(n: nat): string
  {
    ZeroPad(NatToString(n), 3)
  }

  /** A zero-padded number is all digits, at least `w` long, and reads back as the number. */
  lemma ZeroPaddedNumber(n: nat, w: nat)
    ensures AllDigits(ZeroPad(NatToString(n), w))
    ensures |ZeroPad(NatToString(n), w)| == if |NatToString(n)| >= w then |NatToString(n)| else w
    ensures DecimalValue(ZeroPad(NatToString(n), w)) == n
  {
    DecimalRoundTrip(n);
    var s := NatToString(n);
    if |s| < w {
      DecimalLeadingZeros(w - |s|, s);
    }
  }

  /** The index label of `format_list` reads back as the number it was made from. */
  lemma Pad3Shape(n: nat)
    ensures AllDigits(Pad3(n))
    ensures |Pad3(n)| == if |NatToString(n)| >= 3 then |NatToString(n)| else 3
    ensures DecimalValue(Pad3(n)) == n
  {
    ZeroPaddedNumber(n, 3);
  }

  lemma Pad3Digits(m: nat)
    requires m < 1000
    ensures Pad3(m) == [DigitChar(m / 100), DigitChar(m / 10 % 10), DigitChar(m % 10)]
  {
    if m < 10 {
      assert NatToString(m) == [DigitChar(m)];
    } else if m < 100 {
      assert NatToString(m / 10) == [DigitChar(m / 10)];
      assert m / 10 % 10 == m / 10;
    } else {
      assert m / 10 / 10 == m / 100;
      assert NatToString(m / 100) == [DigitChar(m / 100)];
      assert NatToString(m / 10) == [DigitChar(m / 100), DigitChar(m / 10 % 10)];
    }
  }

  lemma NatToStringSplit(n: nat)
    requires n >= 1000
    ensures NatToString(n) == NatToString(n / 1000) + Pad3(n % 1000)
  {
    var q, m := n / 1000, n % 1000;
    assert n / 10 / 10 == n / 100;
    assert n / 100 / 10 == q;
    assert n % 10 == m % 10;
    assert n / 10 % 10 == m / 10 % 10;
    assert n / 100 % 10 == m / 100;
    Pad3Digits(m);
    assert NatToString(n / 100) == NatToString(q) + [DigitChar(m / 100)];
    assert NatToString(n / 10) == NatToString(n / 100) + [DigitChar(m / 10 % 10)];
  }

  // ---------------------------------------------------------------------------
  // commas
  // ---------------------------------------------------------------------------

  /** The digits of `n` in groups of three from the right, joined by commas. */
  function GroupThousands(n: nat): string
  {
    if n < 1000 then NatToString(n) else GroupThousands(n / 1000) + "," + Pad3(n % 1000)
  }

  /** Format spec `,d`: American thousands separators, sign kept. */
  function Commas(number: int): string
  {
    if number < 0 then "-" + GroupThousands(-number) else GroupThousands(number)
  }

  function RemoveCommas(s: string): string
  {
    if s == [] then [] else (if s[0] == ',' then "" else [s[0]]) + RemoveCommas(s[1..])
  }

  lemma {:induction false} RemoveCommasConcat(a: string, b: string)
    ensures RemoveCommas(a + b) == RemoveCommas(a) + RemoveCommas(b)
  {
    if a == [] {
      assert a + b == b;
    } else {
      assert (a + b)[0] == a[0];
      assert (a + b)[1..] == a[1..] + b;
      RemoveCommasConcat(a[1..], b);
    }
  }

  lemma {:induction false} RemoveCommasDigits(s: string)
    requires AllDigits(s)
    ensures RemoveCommas(s) == s
  {
    if s != [] {
      RemoveCommasDigits(s[1..]);
      assert [s[0]] + s[1..] == s;
    }
  }

  /** Deleting the separators from `commas(n)` leaves exactly `str(n)`. */
  lemma {:induction false} CommasRoundTrip(number: int)
    ensures RemoveCommas(Commas(number)) == IntToString(number)
  {
    if number < 0 {
      GroupThousandsDigits(-number);
      RemoveCommasConcat("-", GroupThousands(-number));
    } else {
      GroupThousandsDigits(number);
    }
  }

  lemma {:induction false} GroupThousandsDigits(n: nat)
    ensures RemoveCommas(GroupThousands(n)) == NatToString(n)
  {
    if n < 1000 {
      RemoveCommasDigits(NatToString(n));
    } else {
      var g, p := GroupThousands(n / 1000), Pad3(n % 1000);
      GroupThousandsDigits(n / 1000);
      Pad3Shape(n % 1000);
      RemoveCommasConcat(g + ",", p);
      RemoveCommasConcat(g, ",");
      assert RemoveCommas(",") == "";
      RemoveCommasDigits(p);
      assert RemoveCommas(g + ",") == NatToString(n / 1000);
      NatToStringSplit(n);
    }
  }

  /** One to three leading digits, then zero or more `,ddd` groups. */
  predicate Grouped(s: string)
    decreases |s|
  {
    || (1 <= |s| <= 3 && AllDigits(s))
    || (|s| >= 5 && s[|s| - 4] == ',' && AllDigits(s[|s| - 3..]) && Grouped(s[..|s| - 4]))
  }

  /** `commas` groups digits in threes from the right and keeps the sign in front. */
  lemma {:induction false} CommasGrouped(number: int)
    ensures number < 0 ==> Commas(number)[0] == '-' && Grouped(Commas(number)[1..])
    ensures number >= 0 ==> Grouped(Commas(number))
  {
    if number < 0 {
      assert Commas(number)[1..] == GroupThousands(-number);
      GroupThousandsGrouped(-number);
    } else {
      GroupThousandsGrouped(number);
    }
  }

  lemma {:induction false} GroupThousandsGrouped(n: nat)
    ensures Grouped(GroupThousands(n))
  {
    if n < 1000 {
      ShortNatToString(n);
    } else {
      GroupThousandsGrouped(n / 1000);
      Pad3Digits(n % 1000);
      var s := GroupThousands(n);
      assert s[..|s| - 4] == GroupThousands(n / 1000);
      assert s[|s| - 3..] == Pad3(n % 1000);
    }
  }

  // ---------------------------------------------------------------------------
  // truncate
  // ---------------------------------------------------------------------------

  /** Python's `s[:k]`, where a negative `k` counts from the end. */
  function PyPrefix(s: string, k: int): (r: string)
  {
    if k >= 0 then (if k <= |s| then s[..k] else s)
    else (if |s| + k >= 0 then s[..|s| + k] else "")
  }

  /** `truncate` exactly as the source writes it, Python slicing included. */
  function TruncateAsWritten(text: string, desiredLength: int): string
  {
    if |text| > desiredLength then PyPrefix(text, desiredLength - 3) + "..." else text
  }

  /** With a desired length below three the as-written result is longer than asked for. */
  lemma TruncateAsWrittenTooLong()
    ensures TruncateAsWritten("hello", 2) == "hell..."
    ensures |TruncateAsWritten("hello", 2)| == 7
    ensures |TruncateAsWritten("a", 0)| == 3
  {
    assert PyPrefix("hello", -1) == "hell";
    assert PyPrefix("a", -3) == "";
  }

  /**
   * `truncate`: text longer than `desiredLength` is cut so that, ellipsis included, it is
   * exactly `desiredLength` long; with no room for the ellipsis, it is cut to that length.
   */
  function Truncate(text: string, desiredLength: int): (r: string)
    ensures |text| <= desiredLength ==> r == text
    ensures |text| > desiredLength >= 3 ==> |r| == desiredLength && r == text[..desiredLength - 3] + "..."
    ensures |text| > desiredLength ==> |r| == if desiredLength < 0 then 0 else desiredLength
    ensures |text| > desiredLength && 0 <= desiredLength < 3 ==> r == text[..desiredLength]
  {
    if |text| <= desiredLength then text
    else if desiredLength >= 3 then text[..desiredLength - 3] + "..."
    else if desiredLength >= 0 then text[..desiredLength]
    else ""
  }

  /** Wherever the ellipsis fits, the corrected `truncate` is the source's. */
  lemma TruncateAgrees(text: string, desiredLength: int)
    requires desiredLength >= 3
    ensures Truncate(text, desiredLength) == TruncateAsWritten(text, desiredLength)
  {
  }

  // ---------------------------------------------------------------------------
  // prevent_codeblock_breakout, codeblock
  // ---------------------------------------------------------------------------

  /** `text.replace('`', ZWSP + '`' + ZWSP)`. */
  function PreventCodeblockBreakout(text: string): (r: string)
    ensures |r| == |text| + 2 * Count(text, '`')
    ensures forall i :: 0 <= i < |r| && r[i] == '`' ==> 0 < i < |r| - 1 && r[i - 1] == Zwsp && r[i + 1] == Zwsp
  {
    if text == [] then []
    else (if text[0] == '`' then [Zwsp, '`', Zwsp] else [text[0]]) + PreventCodeblockBreakout(text[1..])
  }

  /** Every escaped backtick is wrapped, so no two backticks are adjacent any more. */
  lemma NoAdjacentBackticks(text: string)
    ensures forall i :: 0 <= i < |PreventCodeblockBreakout(text)| - 1 ==>
      !(PreventCodeblockBreakout(text)[i] == '`' && PreventCodeblockBreakout(text)[i + 1] == '`')
  {
  }

  /** The inverse of the escaping: every ZWSP-backtick-ZWSP triple becomes a backtick again. */
  function RestoreBackticks(s: string): string
    decreases |s|
  {
    if |s| >= 3 && s[0] == Zwsp && s[1] == '`' && s[2] == Zwsp then "`" + RestoreBackticks(s[3..])
    else if s == [] then []
    else [s[0]] + RestoreBackticks(s[1..])
  }

  /** The escaping loses nothing: every other character is kept, in order. */
  lemma {:induction false} BreakoutRoundTrip(text: string)
    ensures RestoreBackticks(PreventCodeblockBreakout(text)) == text
  {
    if text != [] {
      var rest := PreventCodeblockBreakout(text[1..]);
      BreakoutRoundTrip(text[1..]);
      var r := PreventCodeblockBreakout(text);
      if text[0] == '`' {
        assert r == [Zwsp, '`', Zwsp] + rest;
        assert r[3..] == rest;
      } else {
        assert r == [text[0]] + rest;
        assert r[1..] == rest;
        assert rest != [] ==> rest[0] != '`';
      }
      assert [text[0]] + text[1..] == text;
    }
  }

  /** `codeblock(text, lang=lang)`. */
  function Codeblock(text: string, lang: string): (r: string)
    ensures |r| == |lang| + |text| + 8
    ensures r[..3] == Fence && r[|r| - 3..] == Fence
    ensures r[3..] == lang + "\n" + text + "\n" + Fence
  {
    Fence + lang + "\n" + text + "\n" + Fence
  }

  /**
   * Escaped content cannot close the block early: in a code block of escaped text the only
   * runs of three backticks are the opening and the closing fence.
   */
  lemma CodeblockNoBreakout(content: string, lang: string)
    requires forall i :: 0 <= i < |lang| ==> lang[i] != '`'
    ensures var r := Codeblock(PreventCodeblockBreakout(content), lang);
      forall i :: 0 <= i <= |r| - 3 && r[i] == '`' && r[i + 1] == '`' && r[i + 2] == '`' ==>
        i == 0 || i == |r| - 3
  {
    var t := PreventCodeblockBreakout(content);
    var r := Codeblock(t, lang);
    var h := 4 + |lang|;
    assert r == Fence + lang + "\n" + t + "\n" + Fence;
    forall i | 0 < i < |r| - 3
      ensures !(r[i] == '`' && r[i + 1] == '`' && r[i + 2] == '`')
    {
      if i < 3 {
        if lang == [] {
          assert r[3] == '\n';
        } else {
          assert r[3] == lang[0];
        }
      } else if i < h - 1 {
        assert r[i] == lang[i - 3];
      } else if i == h - 1 {
        assert r[i] == '\n';
      } else if i < h + |t| - 1 {
        assert r[i] == t[i - h];
        assert r[i + 1] == t[i + 1 - h];
      } else if i == h + |t| - 1 {
        assert r[i + 1] == '\n';
      } else {
        assert r[i] == '\n';
      }
    }
  }

  // ---------------------------------------------------------------------------
  // format_list
  // ---------------------------------------------------------------------------

  /** One line of `format_list`: the one-based index, zero-padded, then the value. */
  function ListLine(index: nat, value: string): string
  {
    "`" + Pad3(index + 1) + "`: " + value
  }

  function ListLines(lst: seq<string>): seq<string>
  {
    seq(|lst|, i requires 0 <= i < |lst| => ListLine(i, lst[i]))
  }

  /** `format_list(lst)`. */
  function FormatList(lst: seq<string>): string
  {
    Join("\n", ListLines(lst))
  }

  /**
   * `format_list` emits exactly one line per element (for values without line breaks):
   * splitting its output at newlines gives back the lines, line `i` being the label of
   * `i + 1` and the value.
   */
  lemma FormatListLines(lst: seq<string>)
    requires |lst| >= 1
    requires forall k, i :: 0 <= k < |lst| && 0 <= i < |lst[k]| ==> lst[k][i] != '\n'
    ensures Split(FormatList(lst), '\n') == ListLines(lst)
    ensures forall i :: 0 <= i < |lst| ==> Split(FormatList(lst), '\n')[i] == "`" + Pad3(i + 1) + "`: " + lst[i]
  {
    var lines := ListLines(lst);
    forall k, i | 0 <= k < |lines| && 0 <= i < |lines[k]| ensures lines[k][i] != '\n' {
      ListLineNoBreak(k, lst[k]);
    }
    SplitJoin(lines, '\n');
  }

  /** A line of `format_list` has a line break only where its value has one. */
  lemma ListLineNoBreak(index: nat, value: string)
    requires forall i :: 0 <= i < |value| ==> value[i] != '\n'
    ensures forall i :: 0 <= i < |ListLine(index, value)| ==> ListLine(index, value)[i] != '\n'
  {
    Pad3Shape(index + 1);
    var line := ListLine(index, value);
    var n := |Pad3(index + 1)|;
    forall i | 0 <= i < |line| ensures line[i] != '\n' {
      if i == 0 {
      } else if i <= n {
        assert line[i] == Pad3(index + 1)[i - 1];
      } else if i < n + 4 {
      } else {
        assert line[i] == value[i - n - 4];
      }
    }
  }

  // ---------------------------------------------------------------------------
  // format_dict
  // ---------------------------------------------------------------------------

  /** The longest key length of a dict (0 for an empty dict, where Python raises). */
  function MaxKeyLength(d: seq<(string, string)>): (w: nat)
    ensures forall i :: 0 <= i < |d| ==> |d[i].0| <= w
    ensures |d| > 0 ==> exists i :: 0 <= i < |d| && |d[i].0| == w
  {
    if d == [] then 0
    else
      var rest := MaxKeyLength(d[1..]);
      assert forall i :: 1 <= i < |d| ==> |d[i].0| <= rest by {
        forall i | 1 <= i < |d| ensures |d[i].0| <= rest { assert d[i] == d[1..][i - 1]; }
      }
      if |d[0].0| >= rest then |d[0].0| else rest
  }

  /** The `style` argument of `format_dict`: "equals", "ini", or any other string. */
  datatype DictStyle = EqualsStyle | IniStyle | OtherStyle

  /** The opening fence of `format_dict`, `ini` highlighted in the ini style. */
  function DictOpening(style: DictStyle): string
  {
    Fence + (if style == IniStyle then "ini" else "") + "\n"
  }

  /** One entry of `format_dict`; a style other than `equals` and `ini` writes nothing. */
  function DictLine(name: string, value: string, style: DictStyle, padding: nat): string
  {
    match style
    case EqualsStyle => PadRight(name, padding) + " = " + value + "\n"
    case IniStyle => PadRight("[" + name + "]", padding + 2) + " " + value + "\n"
    case OtherStyle => ""
  }

  function DictLines(d: seq<(string, string)>, style: DictStyle, padding: nat): seq<string>
  {
    seq(|d|, i requires 0 <= i < |d| => DictLine(d[i].0, d[i].1, style, padding))
  }

  /** Concatenation of lines, built front to back as `+=` does. */
  function Concat(lines: seq<string>): string
  {
    if lines == [] then "" else Concat(lines[..|lines| - 1]) + lines[|lines| - 1]
  }

  /** One more line appended to a text that already holds the earlier ones. */
  lemma ConcatPrefix(start: string, lines: seq<string>, i: nat)
    requires i < |lines|
    ensures start + Concat(lines[..i + 1]) == (start + Concat(lines[..i])) + lines[i]
  {
    assert lines[..i + 1][..i] == lines[..i];
  }

  /**
   * `format_dict(d, style=style)`: an empty dict is an error (`max` of no keys); otherwise
   * the opening fence, one line per entry in order, and the closing fence.
   */
  method FormatDict(d: seq<(string, string)>, style: DictStyle) returns (r: Result<string>)
    ensures |d| == 0 <==> r.Failure?
    ensures |d| > 0 ==> r == Success(DictOpening(style) + Concat(DictLines(d, style, MaxKeyLength(d))) + Fence)
  {
    if |d| == 0 {
      return Failure("max() arg is an empty sequence");
    }
    var codeBlock := DictOpening(style);
    var padding := MaxKeyLength(d);
    ghost var lines := DictLines(d, style, padding);
    var i := 0;
    while i < |d|
      invariant 0 <= i <= |d|
      invariant codeBlock == DictOpening(style) + Concat(lines[..i])
    {
      var line := DictLine(d[i].0, d[i].1, style, padding);
      assert line == lines[i];
      ConcatPrefix(DictOpening(style), lines, i);
      codeBlock := codeBlock + line;
      i := i + 1;
    }
    assert lines[..|d|] == lines;
    codeBlock := codeBlock + Fence;
    r := Success(codeBlock);
  }

  /** An `equals` line: the key, spaces up to column `w`, " = ", the value, a newline. */
  predicate EqualsShaped(line: string, name: string, value: string, w: nat)
    requires |name| <= w
  {
    && |line| == w + 3 + |value| + 1
    && line[..|name|] == name
    && (forall j :: |name| <= j < w ==> line[j] == ' ')
    && line[w..w + 3] == " = "
    && line[w + 3..] == value + "\n"
  }

  /** An `ini` line: the bracketed key, spaces up to column `w + 2`, a space, the value, a newline. */
  predicate IniShaped(line: string, name: string, value: string, w: nat)
    requires |name| <= w
  {
    && |line| == w + 3 + |value| + 1
    && line[..|name| + 2] == "[" + name + "]"
    && (forall j :: |name| + 2 <= j < w + 2 ==> line[j] == ' ')
    && line[w + 2] == ' '
    && line[w + 3..] == value + "\n"
  }

  lemma EqualsLineShape(name: string, value: string, w: nat)
    requires |name| <= w
    ensures EqualsShaped(DictLine(name, value, EqualsStyle, w), name, value, w)
  {
    PadRightShape(name, w);
    var p := PadRight(name, w);
    var line := DictLine(name, value, EqualsStyle, w);
    assert line == p + (" = " + value + "\n");
  }

  lemma IniLineShape(name: string, value: string, w: nat)
    requires |name| <= w
    ensures IniShaped(DictLine(name, value, IniStyle, w), name, value, w)
  {
    var key := "[" + name + "]";
    PadRightShape(key, w + 2);
    var p := PadRight(key, w + 2);
    var line := DictLine(name, value, IniStyle, w);
    assert line == p + (" " + value + "\n");
  }

  /** In the `equals` style every key is padded to the longest key, so the `=` signs line up. */
  lemma DictEqualsAligned(d: seq<(string, string)>)
    ensures forall i :: 0 <= i < |d| ==>
      EqualsShaped(DictLines(d, EqualsStyle, MaxKeyLength(d))[i], d[i].0, d[i].1, MaxKeyLength(d))
  {
    var w := MaxKeyLength(d);
    forall i | 0 <= i < |d|
      ensures EqualsShaped(DictLines(d, EqualsStyle, w)[i], d[i].0, d[i].1, w)
    {
      assert DictLines(d, EqualsStyle, w)[i] == DictLine(d[i].0, d[i].1, EqualsStyle, w);
      EqualsLineShape(d[i].0, d[i].1, w);
    }
  }

  /** In the `ini` style every bracketed key is padded to the longest key plus two. */
  lemma DictIniAligned(d: seq<(string, string)>)
    ensures forall i :: 0 <= i < |d| ==>
      IniShaped(DictLines(d, IniStyle, MaxKeyLength(d))[i], d[i].0, d[i].1, MaxKeyLength(d))
  {
    var w := MaxKeyLength(d);
    forall i | 0 <= i < |d|
      ensures IniShaped(DictLines(d, IniStyle, w)[i], d[i].0, d[i].1, w)
    {
      assert DictLines(d, IniStyle, w)[i] == DictLine(d[i].0, d[i].1, IniStyle, w);
      IniLineShape(d[i].0, d[i].1, w);
    }
  }

  // ---------------------------------------------------------------------------
  // filesize
  // ---------------------------------------------------------------------------

  datatype SizeUnit = Kilobytes | Megabytes

  /** The unit `filesize` picks: megabytes above 0.5 MB, kilobytes otherwise. */
  function FilesizeUnit(bytes: int): SizeUnit
  {
    if bytes > 500000 then Megabytes else Kilobytes
  }

  /**
   * `filesize(bytes)`. The rounded amount (`round(bytes / 10**6, 2)` or
   * `round(bytes / 1000, 2)`, printed as a float) is supplied by `amount`.
   */
  function Filesize(bytes: int, amount: (int, SizeUnit) -> string): (r: string)
    ensures |r| >= 3
  {
    var unit := FilesizeUnit(bytes);
    amount(bytes, unit) + (if unit == Megabytes then " MB" else " KB")
  }

  /** The text ends in " MB" exactly when the size is over 500000 bytes, else in " KB". */
  lemma FilesizeThreshold(bytes: int, amount: (int, SizeUnit) -> string)
    ensures var r := Filesize(bytes, amount);
      (r[|r| - 3..] == " MB" <==> bytes > 500000) && (r[|r| - 3..] == " KB" <==> bytes <= 500000)
  {
    var r := Filesize(bytes, amount);
    if bytes > 500000 {
      assert r[|r| - 3..] == " MB";
    } else {
      assert r[|r| - 3..] == " KB";
    }
  }

  // ---------------------------------------------------------------------------
  // describe
  // ---------------------------------------------------------------------------

  /** What kind of Discord object a described thing is; `describe` treats these specially. */
  datatype Kind = MemberKind | UserKind | ObjectKind | EmojiKind(requireColons: bool) | OtherKind

  /**
   * A Discord object as `describe` sees it: `display` is `str(thing)`, `name` its bare name,
   * and the two `...Ago` texts are what `ago` renders for its creation and join times.
   */
  datatype Thing = Thing(
    kind: Kind,
    display: string,
    name: string,
    id: nat,
    mention: string,
    createdAt: int,
    createdAgo: string,
    joinedAt: int,
    joinedAgo: string)

  /** The name part of `describe`: `str`, or the mention, emoji in backticks, optionally quoted. */
  function DescribeName(thing: Thing, mention: bool, quote: bool): string
  {
    var name := if thing.kind.EmojiKind? then
        "`" + (if thing.kind.requireColons then ":" + thing.name + ":" else thing.name) + "`"
      else if mention then thing.mention
      else thing.display;
    if quote then "\"" + name + "\"" else name
  }

  /** The first part of `describe`: name and id, or just the id for a bare Object. */
  function DescribeBase(thing: Thing, mention: bool, quote: bool): string
  {
    if thing.kind.ObjectKind? then "`" + NatToString(thing.id) + "`"
    else DescribeName(thing, mention, quote) + " (`" + NatToString(thing.id) + "`)"
  }

  /** Where each of four concatenated parts sits. */
  lemma DescribeParts(a: string, b: string, c: string, d: string)
    ensures var r := a + b + c + d;
      && r[..|a|] == a
      && r[|a|..|a| + |b|] == b
      && r[|a| + |b|..|a| + |b| + |c|] == c
      && r[|a| + |b| + |c|..] == d
  {
    var r := a + b + c + d;
    assert r == a + (b + (c + d));
    assert (b + (c + d))[..|b|] == b;
    assert (c + d)[..|c|] == c;
  }

  /**
   * `describe(thing, mention=, before=, created=, joined=, quote=)`: the base, then
   * " before", then ", created ...", then ", joined ..." for members only.
   */
  function Describe(thing: Thing, mention: bool, before: string, created: bool, joined: bool, quote: bool): (r: string)
    ensures var base := DescribeBase(thing, mention, quote);
      && |base| >= 3
      && base <= r
      && |r| == |base| + (if before != "" then 1 + |before| else 0)
                       + (if created then 10 + |thing.createdAgo| else 0)
                       + (if joined && thing.kind.MemberKind? then 9 + |thing.joinedAgo| else 0)
    ensures var base := DescribeBase(thing, mention, quote);
      var lb := if before != "" then 1 + |before| else 0;
      var lc := if created then 10 + |thing.createdAgo| else 0;
      && |base| + lb + lc <= |r|
      && r[|base|..|base| + lb] == (if before != "" then " " + before else "")
      && r[|base| + lb..|base| + lb + lc] == (if created then ", created " + thing.createdAgo else "")
      && r[|base| + lb + lc..] == (if joined && thing.kind.MemberKind? then ", joined " + thing.joinedAgo else "")
  {
    var base := DescribeBase(thing, mention, quote);
    var beforePart := if before != "" then " " + before else "";
    var createdPart := if created then ", created " + thing.createdAgo else "";
    var joinedPart := if joined && thing.kind.MemberKind? then ", joined " + thing.joinedAgo else "";
    DescribeParts(base, beforePart, createdPart, joinedPart);
    base + beforePart + createdPart + joinedPart
  }

  /** `describe(thing)` with every option at its default. */
  function DescribePlain(thing: Thing): string
  {
    Describe(thing, false, "", false, false, false)
  }
}
