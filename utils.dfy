/**
 * The string helpers of src/utils/utils.ts: PascalCase to kebab-case,
 * the selector and emptiness tests, and BEM class-name building.
 */
module Utils {
  import opened Wrappers

  predicate IsUpper(c: char)
  {
    'A' <= c <= 'Z'
  }

  predicate IsLower(c: char)
  {
    'a' <= c <= 'z'
  }

  /**
   * The class `[a-z0–9]` as written: between `0` and `9` stands an en dash
   * (U+2013), so the class holds `a`-`z`, `0`, the en dash and `9` only.
   */
  predicate IsHyphenTrigger(c: char)
  {
    IsLower(c) || c == '0' || c == '\U{2013}' || c == '9'
  }

  /** The class `[a-z0-9]` the helper evidently means. */
  predicate IsHyphenTriggerIntended(c: char)
  {
    IsLower(c) || ('0' <= c <= '9')
  }

  /** Lower-cases `A`-`Z`; every other character is kept. */
  function LowerChar(c: char): (r: char)
    ensures !IsUpper(r)
    ensures IsUpper(c) ==> IsLower(r) && r as int == c as int + 32
    ensures !IsUpper(c) ==> r == c
  {
    if IsUpper(c) then (c as int + 32) as char else c
  }

  /** The string with `A`-`Z` lower-cased. */
  function ToLower(s: string): (r: string)
    ensures |r| == |s|
    ensures forall i :: 0 <= i < |r| ==> !IsUpper(r[i])
    ensures forall i :: 0 <= i < |s| && !IsUpper(s[i]) ==> r[i] == s[i]
    ensures forall i :: 0 <= i < |s| ==> r[i] == LowerChar(s[i])
  {
    seq(|s|, i requires 0 <= i < |s| => LowerChar(s[i]))
  }

  /**
   * The global replace of `(trigger)([A-Z])` by `$1-$2`: scanning left to
   * right, each trigger character directly followed by `A`-`Z` gets a hyphen
   * between the two, and the scan resumes after the pair.
   */
  function InsertHyphens(s: string, trigger: char -> bool): string
  {
    if |s| >= 2 && trigger(s[0]) && IsUpper(s[1]) then [s[0], '-', s[1]] + InsertHyphens(s[2..], trigger)
    else if s != [] then [s[0]] + InsertHyphens(s[1..], trigger)
    else []
  }

  /** The string without its hyphens. */
  function NoHyphens(s: string): (r: string)
    ensures |r| <= |s|
    ensures forall i :: 0 <= i < |r| ==> r[i] != '-'
  {
    if s == [] then []
    else (if s[0] == '-' then [] else [s[0]]) + NoHyphens(s[1..])
  }

  lemma {:induction false} NoHyphensAppend(a: string, b: string)
    ensures NoHyphens(a + b) == NoHyphens(a) + NoHyphens(b)
  {
    if a == [] {
      assert a + b == b;
    } else {
      assert (a + b)[1..] == a[1..] + b;
      NoHyphensAppend(a[1..], b);
    }
  }

  /** Only hyphens are added: with hyphens removed, input and output agree. */
  lemma {:induction false} InsertHyphensOnlyAddsHyphens(s: string, trigger: char -> bool)
    ensures NoHyphens(InsertHyphens(s, trigger)) == NoHyphens(s)
  {
    if |s| >= 2 && trigger(s[0]) && IsUpper(s[1]) {
      InsertHyphensOnlyAddsHyphens(s[2..], trigger);
      NoHyphensAppend([s[0], '-', s[1]], InsertHyphens(s[2..], trigger));
      NoHyphensAppend([s[0], s[1]], s[2..]);
      assert s == [s[0], s[1]] + s[2..];
      assert NoHyphens([s[0], '-', s[1]]) == NoHyphens([s[0], s[1]]) by {
        assert [s[0], '-', s[1]][1..] == ['-', s[1]];
        assert ['-', s[1]][1..] == [s[1]];
        assert [s[0], s[1]][1..] == [s[1]];
      }
    } else if s != [] {
      InsertHyphensOnlyAddsHyphens(s[1..], trigger);
      NoHyphensAppend([s[0]], InsertHyphens(s[1..], trigger));
      NoHyphensAppend([s[0]], s[1..]);
      assert s == [s[0]] + s[1..];
    }
  }

  /** A string without `A`-`Z` gets no hyphen. */
  lemma {:induction false} InsertHyphensNoUpper(s: string, trigger: char -> bool)
    requires forall i :: 0 <= i < |s| ==> !IsUpper(s[i])
    ensures InsertHyphens(s, trigger) == s
  {
    if s != [] {
      assert forall i :: 0 <= i < |s[1..]| ==> s[1..][i] == s[i + 1];
      InsertHyphensNoUpper(s[1..], trigger);
    }
  }

  /** `a` is a subsequence of `b`: `b` is `a` with characters inserted. */
  predicate IsSubsequence(a: string, b: string)
    decreases |b|
  {
    a == [] || (b != [] && if a[0] == b[0] then IsSubsequence(a[1..], b[1..]) else IsSubsequence(a, b[1..]))
  }

  /**
   * The input is a subsequence of the output. With
   * InsertHyphensOnlyAddsHyphens (equal once hyphens are removed), every
   * inserted character is a hyphen and nothing is dropped.
   */
  lemma {:induction false} InsertHyphensKeepsInput(s: string, trigger: char -> bool)
    ensures IsSubsequence(s, InsertHyphens(s, trigger))
  {
    var out := InsertHyphens(s, trigger);
    if |s| >= 2 && trigger(s[0]) && IsUpper(s[1]) {
      var rest := InsertHyphens(s[2..], trigger);
      InsertHyphensKeepsInput(s[2..], trigger);
      assert out == [s[0], '-', s[1]] + rest;
      assert out[1..] == ['-', s[1]] + rest;
      assert out[1..][1..] == [s[1]] + rest;
      assert ([s[1]] + rest)[1..] == rest;
      assert s[1..][1..] == s[2..];
      assert IsSubsequence(s[1..], [s[1]] + rest);
      assert IsSubsequence(s[1..], out[1..]);
    } else if s != [] {
      InsertHyphensKeepsInput(s[1..], trigger);
      assert out == [s[0]] + InsertHyphens(s[1..], trigger);
      assert out[1..] == InsertHyphens(s[1..], trigger);
    }
  }

  /** No trigger character stands directly before `A`-`Z`. */
  predicate NoTriggerBeforeCapital(s: string, trigger: char -> bool)
  {
    forall i :: 0 <= i < |s| - 1 ==> !(trigger(s[i]) && IsUpper(s[i + 1]))
  }

  /** The scan starts with the first character of its input. */
  lemma InsertHyphensHead(s: string, trigger: char -> bool)
    requires s != []
    ensures InsertHyphens(s, trigger) != [] && InsertHyphens(s, trigger)[0] == s[0]
  {
  }

  /**
   * After the replace, no trigger character is left directly before a
   * capital, for every input, when a trigger is never a capital and the
   * hyphen is not a trigger (both hold for `[a-z0–9]` and `[a-z0-9]`).
   */
  lemma {:induction false} InsertHyphensNoPair(s: string, trigger: char -> bool)
    requires forall c :: trigger(c) ==> !IsUpper(c)
    requires !trigger('-')
    ensures NoTriggerBeforeCapital(InsertHyphens(s, trigger), trigger)
  {
    var out := InsertHyphens(s, trigger);
    if |s| >= 2 && trigger(s[0]) && IsUpper(s[1]) {
      var rest := InsertHyphens(s[2..], trigger);
      InsertHyphensNoPair(s[2..], trigger);
      assert out == [s[0], '-', s[1]] + rest;
      forall i | 0 <= i < |out| - 1
        ensures !(trigger(out[i]) && IsUpper(out[i + 1]))
      {
        if i >= 3 {
          assert out[i] == rest[i - 3] && out[i + 1] == rest[i - 2];
        }
      }
    } else if s != [] {
      var rest := InsertHyphens(s[1..], trigger);
      InsertHyphensNoPair(s[1..], trigger);
      assert out == [s[0]] + rest;
      if |s| >= 2 {
        InsertHyphensHead(s[1..], trigger);
      }
      forall i | 0 <= i < |out| - 1
        ensures !(trigger(out[i]) && IsUpper(out[i + 1]))
      {
        if i >= 1 {
          assert out[i] == rest[i - 1] && out[i + 1] == rest[i];
        }
      }
    }
  }

  /** Every hyphen of `s` stands between a trigger character and `A`-`Z`. */
  predicate HyphensBetweenPairs(s: string, trigger: char -> bool)
  {
    forall i :: 0 <= i < |s| && s[i] == '-' ==> 0 < i < |s| - 1 && trigger(s[i - 1]) && IsUpper(s[i + 1])
  }

  /** For input without hyphens, every hyphen of the output was put between a trigger and a capital. */
  lemma {:induction false} InsertHyphensPlacement(s: string, trigger: char -> bool)
    requires forall i :: 0 <= i < |s| ==> s[i] != '-'
    ensures HyphensBetweenPairs(InsertHyphens(s, trigger), trigger)
  {
    var out := InsertHyphens(s, trigger);
    if |s| >= 2 && trigger(s[0]) && IsUpper(s[1]) {
      var rest := InsertHyphens(s[2..], trigger);
      assert forall i :: 0 <= i < |s[2..]| ==> s[2..][i] == s[i + 2];
      InsertHyphensPlacement(s[2..], trigger);
      assert out == [s[0], '-', s[1]] + rest;
      forall i | 0 <= i < |out| && out[i] == '-'
        ensures 0 < i < |out| - 1 && trigger(out[i - 1]) && IsUpper(out[i + 1])
      {
        if i >= 3 {
          assert out[i] == rest[i - 3];
          assert out[i - 1] == rest[i - 4] && out[i + 1] == rest[i - 2];
        }
      }
    } else if s != [] {
      var rest := InsertHyphens(s[1..], trigger);
      assert forall i :: 0 <= i < |s[1..]| ==> s[1..][i] == s[i + 1];
      InsertHyphensPlacement(s[1..], trigger);
      assert out == [s[0]] + rest;
      if |s| >= 2 {
        InsertHyphensHead(s[1..], trigger);
      }
      forall i | 0 <= i < |out| && out[i] == '-'
        ensures 0 < i < |out| - 1 && trigger(out[i - 1]) && IsUpper(out[i + 1])
      {
        assert out[i] == rest[i - 1];
        assert out[i - 1] == rest[i - 2];
        assert out[i + 1] == rest[i];
      }
    }
  }

  /** `pascalToKebab`, with the character class as written. */
  function PascalToKebab(value: string): (r: string)
    ensures forall i :: 0 <= i < |r| ==> !IsUpper(r[i])
  {
    ToLower(InsertHyphens(value, IsHyphenTrigger))
  }

  /** `pascalToKebab` with the class `[a-z0-9]` it evidently means. */
  function PascalToKebabIntended(value: string): (r: string)
    ensures forall i :: 0 <= i < |r| ==> !IsUpper(r[i])
  {
    ToLower(InsertHyphens(value, IsHyphenTriggerIntended))
  }

  /**
   * For input without hyphens, each hyphen of the result stands right
   * after a character of the class and right before the lower-cased capital
   * it was put in front of.
   */
  lemma PascalToKebabHyphens(value: string)
    requires forall i :: 0 <= i < |value| ==> value[i] != '-'
    ensures var r := PascalToKebab(value);
            forall i :: 0 <= i < |r| && r[i] == '-' ==>
              0 < i < |r| - 1 && IsHyphenTrigger(r[i - 1]) && IsLower(r[i + 1])
  {
    var h := InsertHyphens(value, IsHyphenTrigger);
    InsertHyphensPlacement(value, IsHyphenTrigger);
    var r := PascalToKebab(value);
    assert |r| == |h|;
    forall i | 0 <= i < |r| && r[i] == '-'
      ensures 0 < i < |r| - 1 && IsHyphenTrigger(r[i - 1]) && IsLower(r[i + 1])
    {
      assert r[i] == LowerChar(h[i]);
      assert h[i] == '-';
      assert r[i - 1] == LowerChar(h[i - 1]) && r[i + 1] == LowerChar(h[i + 1]);
    }
  }

  /**
   * A string without `A`-`Z` comes back unchanged. This rests on the
   * ASCII-only lower-casing of ToLower; JavaScript would also lower-case
   * non-ASCII capitals.
   */
  lemma PascalToKebabNoUpper(value: string)
    requires forall i :: 0 <= i < |value| ==> !IsUpper(value[i])
    ensures PascalToKebab(value) == value
  {
    InsertHyphensNoUpper(value, IsHyphenTrigger);
  }

  /** Apart from the added hyphens, the output is the input lower-cased. */
  lemma PascalToKebabKeepsLetters(value: string)
    ensures NoHyphens(PascalToKebab(value)) == NoHyphens(ToLower(value))
  {
    var h := InsertHyphens(value, IsHyphenTrigger);
    InsertHyphensOnlyAddsHyphens(value, IsHyphenTrigger);
    NoHyphensToLower(h);
    NoHyphensToLower(value);
  }

  /** Lower-casing and removing hyphens commute. */
  lemma {:induction false} NoHyphensToLower(s: string)
    ensures NoHyphens(ToLower(s)) == ToLower(NoHyphens(s))
  {
    if s != [] {
      NoHyphensToLower(s[1..]);
      assert ToLower(s) == [LowerChar(s[0])] + ToLower(s[1..]);
      var rest := NoHyphens(s[1..]);
      if s[0] != '-' {
        assert ToLower([s[0]] + rest) == [LowerChar(s[0])] + ToLower(rest);
      }
    }
  }

  /** The documented example: `MyClassName` becomes `my-class-name`. */
  lemma PascalToKebabExample()
    ensures PascalToKebab("MyClassName") == "my-class-name"
  {
    ExampleHyphens('M', 'y', 'C', 'l', 'a', 's', 'N', 'm', 'e');
    ExampleLower();
  }

  /** The scan over any word shaped like `MyClassName`: capital, lower, capital, four lower, capital, three lower. */
  lemma ExampleHyphens(M: char, y: char, C: char, l: char, a: char, s: char, N: char, m: char, e: char)
    requires IsUpper(M) && IsUpper(C) && IsUpper(N)
    requires IsLower(y) && IsLower(l) && IsLower(a) && IsLower(s) && IsLower(m) && IsLower(e)
    ensures InsertHyphens([M, y, C, l, a, s, s, N, a, m, e], IsHyphenTrigger)
         == [M, y, '-', C, l, a, s, s, '-', N, a, m, e]
  {
    var t := IsHyphenTrigger;
    var r0 := [a, m, e];
    InsertHyphensCopy(r0, [], t);
    assert r0 + [] == r0;
    var r1 := [s, N] + r0;
    InsertHyphensMatch(s, N, r0, t);
    var r2 := [l, a, s] + r1;
    InsertHyphensCopy([l, a, s], r1, t);
    var r3 := [y, C] + r2;
    InsertHyphensMatch(y, C, r2, t);
    var r4 := [M] + r3;
    InsertHyphensSkip(M, r3, t);
    assert r4 == [M, y, C, l, a, s, s, N, a, m, e];
  }

  /** A stretch with no capital after its first character, followed by a non-capital, is copied as it is. */
  lemma {:induction false} InsertHyphensCopy(w: string, rest: string, t: char -> bool)
    requires forall i :: 1 <= i < |w| ==> !IsUpper(w[i])
    requires rest != [] ==> !IsUpper(rest[0])
    ensures InsertHyphens(w + rest, t) == w + InsertHyphens(rest, t)
  {
    if w != [] {
      InsertHyphensCopy(w[1..], rest, t);
      var tail := w[1..] + rest;
      assert tail != [] ==> tail[0] == (if |w| > 1 then w[1] else rest[0]);
      InsertHyphensSkip(w[0], tail, t);
      assert w + rest == [w[0]] + tail;
      assert w == [w[0]] + w[1..];
    } else {
      assert w + rest == rest;
    }
  }

  lemma ExampleLower()
    ensures ToLower("My-Class-Name") == "my-class-name"
  {
  }

  /** One step of the scan over a character that does not start a match. */
  lemma InsertHyphensSkip(c: char, rest: string, trigger: char -> bool)
    requires !(rest != [] && trigger(c) && IsUpper(rest[0]))
    ensures InsertHyphens([c] + rest, trigger) == [c] + InsertHyphens(rest, trigger)
  {
    assert ([c] + rest)[1..] == rest;
  }

  /** One step of the scan over a match: the pair is emitted with a hyphen in between. */
  lemma InsertHyphensMatch(c: char, u: char, rest: string, trigger: char -> bool)
    requires trigger(c) && IsUpper(u)
    ensures InsertHyphens([c, u] + rest, trigger) == [c, '-', u] + InsertHyphens(rest, trigger)
  {
    assert ([c, u] + rest)[2..] == rest;
  }

  /** Of the digits, only `0` and `9` trigger a hyphen before a capital. */
  lemma PascalToKebabDigitBeforeCapital(d: char, u: char)
    requires '0' <= d <= '9' && IsUpper(u)
    ensures PascalToKebab([d, u]) == if d == '0' || d == '9' then [d, '-', LowerChar(u)] else [d, LowerChar(u)]
  {
    if d == '0' || d == '9' {
      InsertHyphensMatch(d, u, [], IsHyphenTrigger);
      assert [d, u] + [] == [d, u];
      assert InsertHyphens([d, u], IsHyphenTrigger) == [d, '-', u];
    } else {
      InsertHyphensSkip(d, [u], IsHyphenTrigger);
      InsertHyphensSkip(u, [], IsHyphenTrigger);
      assert [d] + [u] == [d, u];
      assert [u] + [] == [u];
      assert InsertHyphens([d, u], IsHyphenTrigger) == [d, u];
    }
  }

  /** With the intended class, every digit before a capital gets a hyphen. */
  lemma PascalToKebabIntendedDigitBeforeCapital(d: char, u: char)
    requires '0' <= d <= '9' && IsUpper(u)
    ensures PascalToKebabIntended([d, u]) == [d, '-', LowerChar(u)]
  {
    InsertHyphensMatch(d, u, [], IsHyphenTriggerIntended);
    assert [d, u] + [] == [d, u];
    assert InsertHyphens([d, u], IsHyphenTriggerIntended) == [d, '-', u];
  }

  /** `Item1Name` keeps `1N` together as written, and is split as intended. */
  lemma PascalToKebabItem1Name()
    ensures PascalToKebab("Item1Name") == "item1name"
    ensures PascalToKebabIntended("Item1Name") == "item1-name"
  {
    DigitWordHyphens('I', 't', 'e', 'm', '1', 'N', 'a', 'm', 'e');
    DigitWordHyphensIntended('I', 't', 'e', 'm', '1', 'N', 'a', 'm', 'e');
    Item1NameLower();
  }

  lemma Item1NameLower()
    ensures ToLower("Item1Name") == "item1name"
    ensures ToLower("Item1-Name") == "item1-name"
  {
  }

  /** The scan over a word shaped like `Item1Name`, for any digit in the middle, as written. */
  lemma DigitWordHyphens(I: char, t: char, e: char, m: char, d: char, N: char, a: char, m': char, e': char)
    requires IsUpper(I) && IsLower(t) && IsLower(e) && IsLower(m) && '0' <= d <= '9'
    requires IsUpper(N) && IsLower(a) && IsLower(m') && IsLower(e')
    ensures InsertHyphens([I, t, e, m, d, N, a, m', e'], IsHyphenTrigger)
         == if d == '0' || d == '9' then [I, t, e, m, d, '-', N, a, m', e'] else [I, t, e, m, d, N, a, m', e']
  {
    var w := IsHyphenTrigger;
    var r0 := [a, m', e'];
    InsertHyphensNoUpper(r0, w);
    var r1 := [d, N] + r0;
    if d == '0' || d == '9' {
      InsertHyphensMatch(d, N, r0, w);
    } else {
      var r := [N] + r0;
      InsertHyphensSkip(N, r0, w);
      InsertHyphensSkip(d, r, w);
      assert [d] + r == r1;
    }
    WordPrefixSkip(I, t, e, m, r1, w);
    assert [I, t, e, m] + r1 == [I, t, e, m, d, N, a, m', e'];
    if d == '0' || d == '9' {
      assert [I, t, e, m] + ([d, '-', N] + r0) == [I, t, e, m, d, '-', N, a, m', e'];
    }
  }

  /** The same word with the intended class: every digit before the capital gets a hyphen. */
  lemma DigitWordHyphensIntended(I: char, t: char, e: char, m: char, d: char, N: char, a: char, m': char, e': char)
    requires IsUpper(I) && IsLower(t) && IsLower(e) && IsLower(m) && '0' <= d <= '9'
    requires IsUpper(N) && IsLower(a) && IsLower(m') && IsLower(e')
    ensures InsertHyphens([I, t, e, m, d, N, a, m', e'], IsHyphenTriggerIntended)
         == [I, t, e, m, d, '-', N, a, m', e']
  {
    var u := IsHyphenTriggerIntended;
    var r0 := [a, m', e'];
    InsertHyphensNoUpper(r0, u);
    var r1 := [d, N] + r0;
    InsertHyphensMatch(d, N, r0, u);
    WordPrefixSkip(I, t, e, m, r1, u);
    assert [I, t, e, m] + r1 == [I, t, e, m, d, N, a, m', e'];
    assert [I, t, e, m] + ([d, '-', N] + r0) == [I, t, e, m, d, '-', N, a, m', e'];
  }

  /** A capital and three lower-case letters in front of a digit are copied as they are. */
  lemma WordPrefixSkip(I: char, t: char, e: char, m: char, rest: string, trigger: char -> bool)
    requires IsUpper(I) && IsLower(t) && IsLower(e) && IsLower(m)
    requires rest != [] && !IsUpper(rest[0])
    ensures InsertHyphens([I, t, e, m] + rest, trigger) == [I, t, e, m] + InsertHyphens(rest, trigger)
  {
    var r2 := [m] + rest;
    InsertHyphensSkip(m, rest, trigger);
    var r3 := [e] + r2;
    InsertHyphensSkip(e, r2, trigger);
    var r4 := [t] + r3;
    InsertHyphensSkip(t, r3, trigger);
    InsertHyphensSkip(I, r4, trigger);
    assert [I] + r4 == [I, t, e, m] + rest;
  }

  /** The values a JavaScript `any` can hold, as far as these helpers look at them. */
  datatype JsValue = Undefined | Null | Bool(b: bool) | Number(n: int) | Str(s: string) | Object

  /**
   * `isSelector`: a string of more than one character. A true answer
   * guarantees a string, which is what the type guard `x is string` promises.
   */
  function IsSelector(x: JsValue): (r: bool)
    ensures r ==> x.Str?
    ensures x.Str? ==> (r <==> |x.s| >= 2)
  {
    x.Str? && |x.s| > 1
  }

  /** `isEmpty`: `null` and `undefined` are empty; a value of any other kind is not, falsy or not. */
  function IsEmpty(value: JsValue): (r: bool)
    ensures value.Null? || value.Undefined? ==> r
    ensures value.Bool? || value.Number? || value.Str? || value.Object? ==> !r
  {
    value == Null || value == Undefined
  }

  /** JavaScript's falsy values: `undefined`, `null`, `false`, `0` and `""`. */
  predicate Falsy(value: JsValue)
  {
    value.Undefined? || value.Null? || value == Bool(false) || value == Number(0) || value == Str("")
  }

  /**
   * Emptiness is strictly narrower than falsiness: every empty value is
   * falsy, and the falsy `false`, `0` and `""` are not empty.
   */
  lemma EmptyIsFalsy(value: JsValue)
    ensures IsEmpty(value) ==> Falsy(value)
    ensures Falsy(value) && !IsEmpty(value) <==> value in {Bool(false), Number(0), Str("")}
  {
  }

  /**
   * An optional string argument taken as a condition: not falsy, where a
   * missing argument is `undefined`. That is, present and non-empty.
   */
  predicate Truthy(o: Option<string>)
  {
    !Falsy(if o.None? then Undefined else Str(o.value))
  }

  /** A BEM name and its class selector (`class` in the source). */
  datatype BemClass = BemClass(name: string, selector: string)

  /** `bem(block, element, modifier)`: `block__element_modifier`, each part only when given. */
  function Bem(block: string, element: Option<string>, modifier: Option<string>): (r: BemClass)
    ensures r.selector == "." + r.name
    ensures |r.name| >= |block| && r.name[..|block|] == block
    ensures !Truthy(element) && !Truthy(modifier) ==> r.name == block
    ensures Truthy(element) && !Truthy(modifier) ==> r.name == block + "__" + element.value
    ensures !Truthy(element) && Truthy(modifier) ==> r.name == block + "_" + modifier.value
    ensures Truthy(element) && Truthy(modifier) ==>
              r.name == block + "__" + element.value + "_" + modifier.value
  {
    var name := block;
    var name := if Truthy(element) then name + "__" + element.value else name;
    var name := if Truthy(modifier) then name + "_" + modifier.value else name;
    BemClass(name, "." + name)
  }

  /** The documented example: `bem("button", "icon", "active")`. */
  lemma BemExample()
    ensures Bem("button", Some("icon"), Some("active")) == BemClass("button__icon_active", ".button__icon_active")
  {
  }

  /** The class selector `bem` builds for a non-empty block passes `isSelector`, as `ensureElement` needs. */
  lemma BemSelectorIsSelector(block: string, element: Option<string>, modifier: Option<string>)
    requires block != ""
    ensures IsSelector(Str(Bem(block, element, modifier).selector))
  {
    var r := Bem(block, element, modifier);
    assert |r.selector| == 1 + |r.name|;
  }
}
