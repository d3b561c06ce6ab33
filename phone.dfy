/**
 * Phone input handling of the contacts step: the key filter and the
 * formatter of the phone field
 * (src/components/views/modals/form/contactsModalView.ts), and the
 * controller's normalisation of the formatted value before it is stored
 * (src/index.ts).
 */
module PhoneFormat {

  predicate IsDigit(c: char)
  {
    '0' <= c <= '9'
  }

  predicate AllDigits(s: string)
  {
    forall i :: 0 <= i < |s| ==> IsDigit(s[i])
  }

  function Min(a: nat, b: nat): nat
  {
    if a <= b then a else b
  }

  /** The string with every non-digit removed (`replace(/\D/g, '')`). */
  function Digits(s: string): (d: string)
    ensures |d| <= |s|
    ensures AllDigits(d)
  {
    if s == [] then []
    else (if IsDigit(s[0]) then [s[0]] else []) + Digits(s[1..])
  }

  /**
   * Digits keeps every digit of the input as often as it occurs and drops
   * every other character; with DigitsAppend, which keeps the order, this
   * determines the result.
   */
  lemma {:induction false} DigitsMultiset(s: string)
    ensures forall c :: multiset(Digits(s))[c] == if IsDigit(c) then multiset(s)[c] else 0
  {
    if s != [] {
      DigitsMultiset(s[1..]);
      assert s == [s[0]] + s[1..];
      assert multiset(s) == multiset([s[0]]) + multiset(s[1..]);
    }
  }

  lemma {:induction false} DigitsAppend(a: string, b: string)
    ensures Digits(a + b) == Digits(a) + Digits(b)
  {
    if a == [] {
      assert a + b == b;
    } else {
      assert (a + b)[1..] == a[1..] + b;
      DigitsAppend(a[1..], b);
    }
  }

  /** A string made only of digits is its own digit string. */
  lemma {:induction false} DigitsOfDigits(s: string)
    requires AllDigits(s)
    ensures Digits(s) == s
  {
    if s != [] {
      DigitsOfDigits(s[1..]);
    }
  }

  /** JavaScript's `substring(start, end)` for `start <= end`: both ends clamped to the length. */
  function Substring(s: string, start: nat, end: nat): (r: string)
    requires start <= end
    ensures end <= |s| ==> r == s[start..end]
    ensures start < |s| < end ==> r == s[start..]
    ensures |s| <= start ==> r == []
  {
    s[Min(start, |s|)..Min(end, |s|)]
  }

  /**
   * The digits the formatter lays out: the input's digits, with a 7 put in
   * front when they are non-empty and do not already start with 7, cut to 11.
   */
  function PhoneDigits(input: string): (v: string)
    ensures AllDigits(v) && |v| <= 11
    ensures v == [] <==> Digits(input) == []
    ensures v != [] ==> v[0] == '7'
    ensures Digits(input) != [] && Digits(input)[0] == '7' ==>
              v <= Digits(input) && |v| == Min(11, |Digits(input)|)
    ensures Digits(input) != [] && Digits(input)[0] != '7' ==>
              v[1..] <= Digits(input) && |v| == Min(11, |Digits(input)| + 1)
  {
    var value := Digits(input);
    var value := if !(|value| > 0 && value[0] == '7') && |value| > 0 then "7" + value else value;
    if |value| > 11 then value[..11] else value
  }

  /** One group of the layout: the separator and the digits from `start` to `end`, when the digits reach past `start`. */
  function Group(v: string, sep: string, start: nat, end: nat): string
    requires start <= end
  {
    if |v| > start then sep + Substring(v, start, end) else ""
  }

  /** The layout `+7 (ddd) ddd-dd-dd`, filled as far as the digits go. */
  function Layout(v: string): string
  {
    "+7 (" + Group(v, "", 1, 4) + Group(v, ") ", 4, 7) + Group(v, "-", 7, 9) + Group(v, "-", 9, 11)
  }

  /** The complete layout of eleven digits `7abcdefghij`: `+7 (abc) def-gh-ij`. */
  function FullLayout(w: string): string
    requires |w| == 11
  {
    "+7 (" + w[1..4] + ") " + w[4..7] + "-" + w[7..9] + "-" + w[9..11]
  }

  /** The whitespace class `\s` of JavaScript regular expressions. */
  predicate IsJsSpace(c: char)
  {
    c == ' ' || c == '\t' || c == '\n' || c == '\r' || c == '\U{000B}' || c == '\U{000C}'
    || c == '\U{00A0}' || c == '\U{1680}' || ('\U{2000}' <= c <= '\U{200A}')
    || c == '\U{2028}' || c == '\U{2029}' || c == '\U{202F}' || c == '\U{205F}'
    || c == '\U{3000}' || c == '\U{FEFF}'
  }

  /** The characters the final clean-up keeps at the end: digits, `+`, `(`, `)`, `\s`, `-`. */
  predicate IsLayoutChar(c: char)
  {
    IsDigit(c) || c == '+' || c == '(' || c == ')' || IsJsSpace(c) || c == '-'
  }

  /** The final clean-up: drops one last character that is not a layout character. */
  function StripTrailing(s: string): (r: string)
    ensures r == s || (|s| > 0 && r == s[..|s| - 1])
    ensures r != s <==> |s| > 0 && !IsLayoutChar(s[|s| - 1])
  {
    if |s| > 0 && !IsLayoutChar(s[|s| - 1]) then s[..|s| - 1] else s
  }

  /** The phone field's value after an input event (`formatPhoneNumber`). */
  function FormatPhone(input: string): (r: string)
    ensures |r| >= 4 && r[..4] == "+7 ("
  {
    StripTrailing(Layout(PhoneDigits(input)))
  }

  /** A group the digits reach ends in a digit. */
  lemma GroupEndsInDigit(v: string, sep: string, start: nat, end: nat)
    requires AllDigits(v) && start < end && |v| > start
    ensures var g := Group(v, sep, start, end); g != [] && IsDigit(g[|g| - 1])
  {
    var w := Substring(v, start, end);
    assert w != [] && w[|w| - 1] == v[Min(end, |v|) - 1];
    assert Group(v, sep, start, end) == sep + w;
  }

  /** The layout of digits always ends in `(` or a digit, so the clean-up never fires. */
  lemma LayoutClean(v: string)
    requires AllDigits(v)
    ensures StripTrailing(Layout(v)) == Layout(v)
  {
    var g1, g2, g3, g4 := Group(v, "", 1, 4), Group(v, ") ", 4, 7), Group(v, "-", 7, 9), Group(v, "-", 9, 11);
    var l := Layout(v);
    assert l == "+7 (" + g1 + g2 + g3 + g4;
    if |v| > 9 {
      GroupEndsInDigit(v, "-", 9, 11);
      assert l[|l| - 1] == g4[|g4| - 1];
    } else if |v| > 7 {
      GroupEndsInDigit(v, "-", 7, 9);
      assert l == "+7 (" + g1 + g2 + g3;
      assert l[|l| - 1] == g3[|g3| - 1];
    } else if |v| > 4 {
      GroupEndsInDigit(v, ") ", 4, 7);
      assert l == "+7 (" + g1 + g2;
      assert l[|l| - 1] == g2[|g2| - 1];
    } else if |v| > 1 {
      GroupEndsInDigit(v, "", 1, 4);
      assert l == "+7 (" + g1;
      assert l[|l| - 1] == g1[|g1| - 1];
    } else {
      assert l == "+7 (";
    }
  }

  /** The formatted value is exactly the layout of the phone digits. */
  lemma FormatIsLayout(input: string)
    ensures FormatPhone(input) == Layout(PhoneDigits(input))
  {
    LayoutClean(PhoneDigits(input));
  }

  /** Input without digits (the empty input included) formats to `+7 (`. */
  lemma FormatNoDigits(input: string)
    requires Digits(input) == []
    ensures FormatPhone(input) == "+7 ("
  {
    FormatIsLayout(input);
  }

  /** Eleven phone digits `7abcdefghij` give `+7 (abc) def-gh-ij`. */
  lemma FormatEleven(input: string)
    requires |PhoneDigits(input)| == 11
    ensures FormatPhone(input) == FullLayout(PhoneDigits(input))
  {
    FormatIsLayout(input);
  }

  /** The layout case by case, for at most eleven digits. */
  lemma LayoutShape(v: string)
    requires |v| <= 11
    ensures |v| <= 1 ==> Layout(v) == "+7 ("
    ensures 1 < |v| <= 4 ==> Layout(v) == "+7 (" + v[1..]
    ensures 4 < |v| <= 7 ==> Layout(v) == "+7 (" + v[1..4] + ") " + v[4..]
    ensures 7 < |v| <= 9 ==> Layout(v) == "+7 (" + v[1..4] + ") " + v[4..7] + "-" + v[7..]
    ensures 9 < |v| ==> Layout(v) == "+7 (" + v[1..4] + ") " + v[4..7] + "-" + v[7..9] + "-" + v[9..]
  {
    var n := |v|;
    var g1, g2, g3, g4 := Group(v, "", 1, 4), Group(v, ") ", 4, 7), Group(v, "-", 7, 9), Group(v, "-", 9, 11);
    assert Layout(v) == "+7 (" + g1 + g2 + g3 + g4;
    if n <= 1 {
      assert g1 == [] && g2 == [] && g3 == [] && g4 == [];
    } else if n <= 4 {
      assert g1 == v[1..] && g2 == [] && g3 == [] && g4 == [];
    } else if n <= 7 {
      assert g1 == v[1..4] && g2 == ") " + v[4..] && g3 == [] && g4 == [];
    } else if n <= 9 {
      assert g1 == v[1..4] && g2 == ") " + v[4..7] && g3 == "-" + v[7..] && g4 == [];
    } else {
      assert g1 == v[1..4] && g2 == ") " + v[4..7] && g3 == "-" + v[7..9] && g4 == "-" + v[9..];
    }
  }

  /** Fewer digits give the matching prefix of the complete layout of any eleven-digit extension. */
  lemma LayoutPrefix(v: string, w: string)
    requires |w| == 11 && v <= w
    ensures Layout(v) <= FullLayout(w)
  {
    LayoutShape(v);
    var n := |v|;
    assert v == w[..n];
    if n <= 1 {
      OpeningPrefix(w);
    } else if n <= 4 {
      assert v[1..] == w[1..n];
      FirstGroupPrefix(w, n);
    } else if n <= 7 {
      assert v[1..4] == w[1..4] && v[4..] == w[4..n];
      SecondGroupPrefix(w, n);
    } else if n <= 9 {
      assert v[1..4] == w[1..4] && v[4..7] == w[4..7] && v[7..] == w[7..n];
      ThirdGroupPrefix(w, n);
    } else {
      assert v[1..4] == w[1..4] && v[4..7] == w[4..7] && v[7..9] == w[7..9] && v[9..] == w[9..n];
      FourthGroupPrefix(w, n);
    }
  }

  /** The layout with no digits after the 7 is a prefix of the complete layout. */
  lemma OpeningPrefix(w: string)
    requires |w| == 11
    ensures "+7 (" <= FullLayout(w)
  {
    assert FullLayout(w) == "+7 (" + (w[1..4] + ") " + w[4..7] + "-" + w[7..9] + "-" + w[9..11]);
  }

  /** The layout ending inside the first group is a prefix of the complete layout. */
  lemma FirstGroupPrefix(w: string, n: nat)
    requires |w| == 11 && 1 < n <= 4
    ensures "+7 (" + w[1..n] <= FullLayout(w)
  {
    assert w[1..4] == w[1..n] + w[n..4];
    assert FullLayout(w) == ("+7 (" + w[1..n]) + (w[n..4] + ") " + w[4..7] + "-" + w[7..9] + "-" + w[9..11]);
  }

  /** The layout ending inside the second group is a prefix of the complete layout. */
  lemma SecondGroupPrefix(w: string, n: nat)
    requires |w| == 11 && 4 < n <= 7
    ensures "+7 (" + w[1..4] + ") " + w[4..n] <= FullLayout(w)
  {
    assert w[4..7] == w[4..n] + w[n..7];
    assert FullLayout(w) == ("+7 (" + w[1..4] + ") " + w[4..n]) + (w[n..7] + "-" + w[7..9] + "-" + w[9..11]);
  }

  /** The layout ending inside the third group is a prefix of the complete layout. */
  lemma ThirdGroupPrefix(w: string, n: nat)
    requires |w| == 11 && 7 < n <= 9
    ensures "+7 (" + w[1..4] + ") " + w[4..7] + "-" + w[7..n] <= FullLayout(w)
  {
    assert w[7..9] == w[7..n] + w[n..9];
    assert FullLayout(w) == ("+7 (" + w[1..4] + ") " + w[4..7] + "-" + w[7..n]) + (w[n..9] + "-" + w[9..11]);
  }

  /** The layout ending inside the fourth group is a prefix of the complete layout. */
  lemma FourthGroupPrefix(w: string, n: nat)
    requires |w| == 11 && 9 < n <= 11
    ensures "+7 (" + w[1..4] + ") " + w[4..7] + "-" + w[7..9] + "-" + w[9..n] <= FullLayout(w)
  {
    assert w[9..11] == w[9..n] + w[n..11];
    assert FullLayout(w) == ("+7 (" + w[1..4] + ") " + w[4..7] + "-" + w[7..9] + "-" + w[9..n]) + w[n..11];
  }

  /**
   * The formatter's output for fewer digits is the matching prefix of the
   * complete layout of any eleven-digit extension of its phone digits.
   */
  lemma FormatPrefix(input: string, w: string)
    requires |w| == 11 && PhoneDigits(input) <= w
    ensures FormatPhone(input) <= FullLayout(w)
  {
    FormatIsLayout(input);
    LayoutPrefix(PhoneDigits(input), w);
  }

  /** The digits of the layout's fixed pieces. */
  lemma SeparatorDigits()
    ensures Digits("+7 (") == "7" && Digits(") ") == [] && Digits("-") == []
  {
    assert "+7 ("[1..] == "7 (";
    assert "7 ("[1..] == " (";
    assert " ("[1..] == "(";
    assert "("[1..] == "";
    assert ") "[1..] == " ";
    assert " "[1..] == "";
    assert "-"[1..] == "";
  }

  /** Digits skip a separator without digits and keep a run of digits. */
  lemma DigitsJoin(a: string, sep: string, b: string)
    requires Digits(sep) == [] && AllDigits(b)
    ensures Digits(a + sep + b) == Digits(a) + b
  {
    DigitsAppend(a, sep);
    DigitsAppend(a + sep, b);
    DigitsOfDigits(b);
  }

  /** The fixed opening `+7 (` contributes its 7 to the digits. */
  lemma OpeningDigits(x: string)
    requires AllDigits(x)
    ensures Digits("+7 (" + x) == "7" + x
  {
    SeparatorDigits();
    DigitsAppend("+7 (", x);
    DigitsOfDigits(x);
  }

  /** The digits of a layout are the laid-out digits after the fixed leading 7. */
  lemma LayoutDigitsTail(v: string)
    requires |v| <= 11 && AllDigits(v)
    ensures Digits(Layout(v)) == "7" + v[Min(1, |v|)..]
  {
    LayoutShape(v);
    SeparatorDigits();
    var n := |v|;
    if n <= 1 {
      assert Layout(v) == "+7 (" + [];
      OpeningDigits([]);
    } else if n <= 4 {
      OpeningDigits(v[1..]);
    } else if n <= 7 {
      var p := "+7 (" + v[1..4];
      OpeningDigits(v[1..4]);
      DigitsJoin(p, ") ", v[4..]);
      assert v[1..4] + v[4..] == v[1..];
    } else if n <= 9 {
      var p := "+7 (" + v[1..4] + ") " + v[4..7];
      OpeningDigits(v[1..4]);
      DigitsJoin("+7 (" + v[1..4], ") ", v[4..7]);
      DigitsJoin(p, "-", v[7..]);
      assert v[1..4] + v[4..7] + v[7..] == v[1..];
    } else {
      var p := "+7 (" + v[1..4] + ") " + v[4..7];
      var q := p + "-" + v[7..9];
      OpeningDigits(v[1..4]);
      DigitsJoin("+7 (" + v[1..4], ") ", v[4..7]);
      DigitsJoin(p, "-", v[7..9]);
      DigitsJoin(q, "-", v[9..]);
      assert v[1..4] + v[4..7] + v[7..9] + v[9..] == v[1..];
    }
  }

  /** The digits of a layout are the laid-out digits, with the fixed leading 7. */
  lemma LayoutDigits(v: string)
    requires |v| <= 11 && AllDigits(v) && (v != [] ==> v[0] == '7')
    ensures Digits(Layout(v)) == if v == [] then "7" else v
  {
    LayoutDigitsTail(v);
    if v != [] {
      assert v == [v[0]] + v[1..];
    }
  }

  /** The digits of the formatted value are the phone digits (a lone `7` when there were none). */
  lemma DigitsOfFormat(input: string)
    ensures Digits(FormatPhone(input)) == if PhoneDigits(input) == [] then "7" else PhoneDigits(input)
  {
    FormatIsLayout(input);
    LayoutDigits(PhoneDigits(input));
  }

  /** Formatting an already formatted value leaves it unchanged. */
  lemma FormatIdempotent(input: string)
    ensures FormatPhone(FormatPhone(input)) == FormatPhone(input)
  {
    var v := PhoneDigits(input);
    var f := FormatPhone(input);
    DigitsOfFormat(input);
    var d := Digits(f);
    assert d != [] && d[0] == '7' && |d| <= 11;
    assert PhoneDigits(f) == d;
    FormatIsLayout(input);
    FormatIsLayout(f);
    if v == [] {
      assert Layout("7") == Layout(v);
    }
  }

  /** Removes one leading `c`, as `replace(/^c/, '')` does. */
  function StripLeading(c: char, s: string): (r: string)
    ensures r == s || (s != [] && s[0] == c && r == s[1..])
    ensures r != s <==> s != [] && s[0] == c
  {
    if |s| > 0 && s[0] == c then s[1..] else s
  }

  /**
   * The phone the controller stores: `+7`, then the input's digits without
   * one leading 7 and then one leading 8. Which of `78`, `7`, `8` or nothing
   * is dropped depends on how the digits start.
   */
  function NormalizePhone(phone: string): (r: string)
    ensures |r| >= 2 && r[..2] == "+7" && AllDigits(r[2..])
    ensures var d := Digits(phone);
            |d| >= 2 && d[0] == '7' && d[1] == '8' ==> d == "78" + r[2..]
    ensures var d := Digits(phone);
            d != [] && d[0] == '7' && !(|d| >= 2 && d[1] == '8') ==> d == "7" + r[2..]
    ensures var d := Digits(phone);
            d != [] && d[0] == '8' ==> d == "8" + r[2..]
    ensures var d := Digits(phone);
            (d == [] || (d[0] != '7' && d[0] != '8')) ==> d == r[2..]
  {
    "+7" + StripLeading('8', StripLeading('7', Digits(phone)))
  }

  /**
   * Normalising a formatted value whose digit after the leading 7 is not 8
   * gives `+7` followed by the phone digits after that 7.
   */
  lemma NormalizeFormatted(input: string)
    requires var v := PhoneDigits(input); |v| < 2 || v[1] != '8'
    ensures var v := PhoneDigits(input);
            NormalizePhone(FormatPhone(input)) == "+7" + (if v == [] then [] else v[1..])
  {
    DigitsOfFormat(input);
  }

  /**
   * A formatted value whose area code starts with 8 loses that 8 too: the
   * normalisation strips the leading 7 and then the 8 behind it, so
   * `+7 (800) 555-35-35` is stored as `+7005553535`.
   */
  lemma NormalizeFormattedEight(input: string)
    requires var v := PhoneDigits(input); |v| >= 2 && v[1] == '8'
    ensures NormalizePhone(FormatPhone(input)) == "+7" + PhoneDigits(input)[2..]
  {
    DigitsOfFormat(input);
    var v := PhoneDigits(input);
    assert v == "78" + v[2..];
  }

  /**
   * An eleven-digit number typed with the trunk prefix 8 loses its last
   * digit: the formatter puts a 7 in front and cuts to eleven, and the
   * normalisation then strips that 7 and the 8.
   */
  lemma TrunkEightDropsLastDigit(input: string)
    requires |Digits(input)| == 11 && Digits(input)[0] == '8'
    ensures NormalizePhone(FormatPhone(input)) == "+7" + Digits(input)[1..10]
  {
    var d := Digits(input);
    var v := PhoneDigits(input);
    assert |v| == 11 && v[1..] <= d;
    assert v[1..] == d[..10];
    assert v[1] == '8' && v[2..] == d[1..10];
    NormalizeFormattedEight(input);
  }

  /** The keys the phone field lets through besides digits. */
  const EditingKeys: seq<string> :=
    ["Backspace", "Delete", "Tab", "ArrowLeft", "ArrowRight", "ArrowUp", "ArrowDown"]

  /**
   * Whether the key filter blocks a key: anything that is neither an
   * editing key nor a single digit. For one-character keys this agrees
   * with the formatter: a key is blocked exactly when the formatter would
   * drop the character.
   */
  function KeyBlocked(key: string): (blocked: bool)
    ensures key in EditingKeys ==> !blocked
    ensures |key| == 1 ==> (blocked <==> Digits(key) == [])
    ensures |key| != 1 && key !in EditingKeys ==> blocked
  {
    assert |key| == 1 ==> key[1..] == [];
    if key in EditingKeys then false
    else !(|key| == 1 && IsDigit(key[0]))
  }
}
