/**
 * The Python string built-ins the scraper relies on, as pure functions:
 * `str.isspace`, `str.strip`, `str.split()[0]`, `int(str)`, `str.isdigit`,
 * `str(int)`, the substring test `sub in s`, and `re.findall` / `re.search`
 * with the pattern `\((\d+)\)`.
 *
 * Characters are Unicode scalar values. Digits are the ASCII digits only:
 * the non-ASCII decimal digits that Python's `int`, `isdigit` and the regex
 * class `\d` also accept are not part of this model.
 */
module PyText {

  datatype Option<T> = None | Some(value: T) {
    function GetOr(default: T): T {
      match this
      case Some(v) => v
      case None => default
    }
  }

  // ---------------------------------------------------------------------
  // Whitespace, strip and split
  // ---------------------------------------------------------------------

  /** Python's `str.isspace` for one character. */
  predicate IsSpace(c: char) {
    || ('\t' <= c <= '\r')
    || ('\U{1C}' <= c <= '\U{1F}')
    || c == ' '
    || c == '\U{85}'
    || c == '\U{A0}'
    || c == '\U{1680}'
    || ('\U{2000}' <= c <= '\U{200A}')
    || c == '\U{2028}'
    || c == '\U{2029}'
    || c == '\U{202F}'
    || c == '\U{205F}'
    || c == '\U{3000}'
  }

  /** `s.lstrip()`: the suffix of `s` left after dropping leading whitespace. */
  function StripLeft(s: string): (r: string)
    ensures |r| <= |s| && r == s[|s| - |r|..]
    ensures forall i :: 0 <= i < |s| - |r| ==> IsSpace(s[i])
    ensures r != [] ==> !IsSpace(r[0])
  {
    if s != [] && IsSpace(s[0]) then
      var r := StripLeft(s[1..]);
      assert forall i :: 1 <= i < |s| ==> s[1..][i - 1] == s[i];
      r
    else s
  }

  /** `s.rstrip()`: the prefix of `s` left after dropping trailing whitespace. */
  function StripRight(s: string): (r: string)
    ensures |r| <= |s| && r == s[..|r|]
    ensures forall i :: |r| <= i < |s| ==> IsSpace(s[i])
    ensures r != [] ==> !IsSpace(r[|r| - 1])
  {
    if s != [] && IsSpace(s[|s| - 1]) then
      var r := StripRight(s[..|s| - 1]);
      assert forall i :: 0 <= i < |s| - 1 ==> s[..|s| - 1][i] == s[i];
      r
    else s
  }

  /** `s.strip()`: what is left of `s` between its leading and its trailing whitespace. */
  function Strip(s: string): (r: string)
    ensures r != [] ==> !IsSpace(r[0]) && !IsSpace(r[|r| - 1])
  {
    StripRight(StripLeft(s))
  }

  /** `s.strip()` is `s` without its leading and its trailing whitespace. */
  lemma StripTrims(s: string)
    ensures exists i :: Trims(s, Strip(s), i)
  {
    var t := StripLeft(s);
    var r := StripRight(t);
    TrimsOfParts(s, t, r);
    assert Trims(s, Strip(s), |s| - |t|);
  }

  /** Helper: dropping leading whitespace and then trailing whitespace trims `s`. */
  lemma TrimsOfParts(s: string, t: string, r: string)
    requires |t| <= |s| && t == s[|s| - |t|..]
    requires forall k :: 0 <= k < |s| - |t| ==> IsSpace(s[k])
    requires |r| <= |t| && r == t[..|r|]
    requires forall k :: |r| <= k < |t| ==> IsSpace(t[k])
    ensures Trims(s, r, |s| - |t|)
  {
    var i := |s| - |t|;
    assert r == s[i..i + |r|];
    forall k | i + |r| <= k < |s|
      ensures IsSpace(s[k])
    {
      assert s[k] == t[k - i];
    }
  }

  /** `r` is the part of `s` at `i`, with only whitespace before and after it. */
  predicate Trims(s: string, r: string, i: int) {
    && 0 <= i <= |s| - |r| && r == s[i..i + |r|]
    && (forall k :: 0 <= k < i ==> IsSpace(s[k]))
    && (forall k :: i + |r| <= k < |s| ==> IsSpace(s[k]))
  }

  /** The longest prefix of `s` holding no whitespace. */
  function Word(s: string): (r: string)
    ensures |r| <= |s| && r == s[..|r|]
    ensures forall i :: 0 <= i < |r| ==> !IsSpace(s[i])
    ensures |r| < |s| ==> IsSpace(s[|r|])
  {
    if s == [] || IsSpace(s[0]) then [] else [s[0]] + Word(s[1..])
  }

  /**
   * `s.strip().split()[0]`: the first whitespace-separated token of `s`, or
   * None where Python raises IndexError because `s` is blank.
   */
  function FirstToken(s: string): (r: Option<string>)
    ensures r.None? <==> forall i :: 0 <= i < |s| ==> IsSpace(s[i])
    ensures r.Some? ==> r.value != [] && forall i :: 0 <= i < |r.value| ==> !IsSpace(r.value[i])
  {
    var t := StripLeft(s);
    if t == [] then None else Some(Word(t))
  }

  /** `s.split()[0]` is the word that follows the leading whitespace of `s`. */
  lemma FirstTokenIsFirstWord(s: string)
    ensures FirstToken(s).Some? ==> exists i :: FirstWordAt(s, FirstToken(s).value, i)
  {
    var t := StripLeft(s);
    if t != [] {
      var w := Word(t);
      var i := |s| - |t|;
      assert w == s[i..i + |w|];
      assert i + |w| < |s| ==> s[i + |w|] == t[|w|];
      assert FirstWordAt(s, w, i);
    }
  }

  /**
   * `w` starts at `i` in `s`, after whitespace only, and ends where `s` ends
   * or whitespace begins.
   */
  predicate FirstWordAt(s: string, w: string, i: int) {
    && 0 <= i && i + |w| <= |s|
    && (forall k :: 0 <= k < i ==> IsSpace(s[k]))
    && w == s[i..i + |w|]
    && (i + |w| == |s| || IsSpace(s[i + |w|]))
  }

  // ---------------------------------------------------------------------
  // Digits and integers
  // ---------------------------------------------------------------------

  predicate IsDigit(c: char) {
    '0' <= c <= '9'
  }

  /** Python's `str.isdigit`: non-empty and made of digits only. */
  predicate IsDigitString(s: string) {
    |s| > 0 && forall i :: 0 <= i < |s| ==> IsDigit(s[i])
  }

  /**
   * The digits Python's `int` accepts after the sign: digits, with single
   * underscores allowed between two digits (`1_000`).
   */
  predicate IsIntLiteral(s: string) {
    |s| > 0 && IsDigit(s[0]) && LiteralTail(s[1..])
  }

  /** What may follow a digit inside a literal. */
  predicate LiteralTail(s: string) {
    if s == [] then true
    else if IsDigit(s[0]) then LiteralTail(s[1..])
    else s[0] == '_' && |s| > 1 && IsDigit(s[1]) && LiteralTail(s[2..])
  }

  function DigitValue(c: char): nat
    requires IsDigit(c)
  {
    c as int - '0' as int
  }

  /**
   * The value of a decimal literal. Characters other than digits (in a
   * literal, the underscores) carry no value.
   */
  function DigitsValue(s: string): nat {
    if s == [] then 0
    else if !IsDigit(s[|s| - 1]) then DigitsValue(s[..|s| - 1])
    else 10 * DigitsValue(s[..|s| - 1]) + DigitValue(s[|s| - 1])
  }

  /**
   * Python's `int(s)` on a string: surrounding `IntSpace` whitespace is
   * ignored, then an optional sign and a literal. None where Python raises
   * ValueError.
   */
  function ParseInt(s: string): Option<int> {
    ParseStripped(IntStrip(s))
  }

  /**
   * The whitespace `int(s)` skips around its literal: what `str.isspace`
   * accepts, except the separators 0x1C-0x1F, which `int` rejects.
   */
  predicate IntSpace(c: char) {
    IsSpace(c) && !('\U{1C}' <= c <= '\U{1F}')
  }

  /** The suffix of `s` left after dropping leading `IntSpace` whitespace. */
  function IntStripLeft(s: string): (r: string)
    ensures |r| <= |s| && r == s[|s| - |r|..]
    ensures forall i :: 0 <= i < |s| - |r| ==> IntSpace(s[i])
    ensures r != [] ==> !IntSpace(r[0])
  {
    if s != [] && IntSpace(s[0]) then
      var r := IntStripLeft(s[1..]);
      assert forall i :: 1 <= i < |s| ==> s[1..][i - 1] == s[i];
      r
    else s
  }

  /** The prefix of `s` left after dropping trailing `IntSpace` whitespace. */
  function IntStripRight(s: string): (r: string)
    ensures |r| <= |s| && r == s[..|r|]
    ensures forall i :: |r| <= i < |s| ==> IntSpace(s[i])
    ensures r != [] ==> !IntSpace(r[|r| - 1])
  {
    if s != [] && IntSpace(s[|s| - 1]) then
      var r := IntStripRight(s[..|s| - 1]);
      assert forall i :: 0 <= i < |s| - 1 ==> s[..|s| - 1][i] == s[i];
      r
    else s
  }

  /** `s` without its leading and trailing `IntSpace` whitespace. */
  function IntStrip(s: string): string {
    IntStripRight(IntStripLeft(s))
  }

  /** `int` on text that has already been stripped. */
  function ParseStripped(t: string): Option<int> {
    if |t| > 0 && (t[0] == '+' || t[0] == '-') then
      if IsIntLiteral(t[1..]) then
        Some(if t[0] == '-' then -(DigitsValue(t[1..]) as int) else DigitsValue(t[1..]))
      else None
    else if IsIntLiteral(t) then Some(DigitsValue(t))
    else None
  }

  function DigitChar(d: nat): (c: char)
    requires d < 10
    ensures IsDigit(c) && DigitValue(c) == d
  {
    ['0', '1', '2', '3', '4', '5', '6', '7', '8', '9'][d]
  }

  /** The decimal representation of a natural number, without leading zeros. */
  function DecimalString(n: nat): (r: string)
    ensures IsDigitString(r) && DigitsValue(r) == n
    ensures r[0] == '0' ==> n == 0
  {
    if n < 10 then [DigitChar(n)]
    else
      var r := DecimalString(n / 10) + [DigitChar(n % 10)];
      assert r[..|r| - 1] == DecimalString(n / 10);
      r
  }

  /** Python's `str(n)` for an integer. */
  function Str(n: int): string {
    if n < 0 then "-" + DecimalString(-n) else DecimalString(n)
  }

  /** `str(n).isdigit()` holds exactly for the non-negative integers. */
  lemma StrIsDigitIff(n: int)
    ensures IsDigitString(Str(n)) <==> n >= 0
  {
    if n < 0 {
      assert !IsDigit(Str(n)[0]);
    }
  }

  lemma {:induction false} DigitStringIsLiteral(s: string)
    requires IsDigitString(s)
    ensures IsIntLiteral(s)
  {
    DigitsAreLiteralTail(s[1..]);
  }

  lemma {:induction false} DigitsAreLiteralTail(s: string)
    requires forall i :: 0 <= i < |s| ==> IsDigit(s[i])
    ensures LiteralTail(s)
  {
    if s != [] {
      DigitsAreLiteralTail(s[1..]);
    }
  }

  lemma {:induction false} StripRightNoSpace(s: string)
    requires s != [] ==> !IsSpace(s[|s| - 1])
    ensures StripRight(s) == s
  {
  }

  /** `int(str(n)) == n`: ParseInt inverts Str. */
  lemma ParseIntStr(n: int)
    ensures ParseInt(Str(n)) == Some(n)
  {
    var s := Str(n);
    StrHasNoOuterSpace(n);
    IntStripNoSpace(s);
    if n < 0 {
      assert s[1..] == DecimalString(-n);
      DigitStringIsLiteral(DecimalString(-n));
    } else {
      DigitStringIsLiteral(s);
    }
  }

  /** Python's `int` ignores the `IntSpace` whitespace around a decimal. */
  lemma ParseIntIgnoresPadding(n: int, pre: string, post: string)
    requires forall i :: 0 <= i < |pre| ==> IntSpace(pre[i])
    requires forall i :: 0 <= i < |post| ==> IntSpace(post[i])
    ensures ParseInt(pre + Str(n) + post) == Some(n)
  {
    var s := Str(n);
    StrHasNoOuterSpace(n);
    var whole := pre + s + post;
    assert whole == pre + (s + post);
    assert (s + post)[0] == s[0];
    IntStripLeftSkips(pre, s + post);
    IntStripRightSkips(s, post);
    assert IntStrip(whole) == s;
    IntStripNoSpace(s);
    assert ParseInt(whole) == ParseInt(s);
    ParseIntStr(n);
  }

  /**
   * `int(s.strip())`: after `str.strip` nothing is left for `int` to skip,
   * so the stripped text itself must be a literal.
   */
  lemma ParseIntOfStripped(s: string)
    ensures ParseInt(Strip(s)) == ParseStripped(Strip(s))
  {
    IntStripNoSpace(Strip(s));
  }

  /** Text that neither starts nor ends with `IntSpace` whitespace is left as it is. */
  lemma IntStripNoSpace(s: string)
    requires s != [] ==> !IntSpace(s[0]) && !IntSpace(s[|s| - 1])
    ensures IntStrip(s) == s
  {
    assert IntStripLeft(s) == s;
  }

  lemma {:induction false} IntStripLeftSkips(pre: string, rest: string)
    requires forall i :: 0 <= i < |pre| ==> IntSpace(pre[i])
    requires rest != [] && !IntSpace(rest[0])
    ensures IntStripLeft(pre + rest) == rest
  {
    if pre == [] {
      assert pre + rest == rest;
    } else {
      assert (pre + rest)[1..] == pre[1..] + rest;
      IntStripLeftSkips(pre[1..], rest);
    }
  }

  lemma {:induction false} IntStripRightSkips(s: string, post: string)
    requires forall i :: 0 <= i < |post| ==> IntSpace(post[i])
    requires s != [] && !IntSpace(s[|s| - 1])
    ensures IntStripRight(s + post) == s
  {
    if post == [] {
      assert s + post == s;
    } else {
      assert (s + post)[..|s + post| - 1] == s + post[..|post| - 1];
      IntStripRightSkips(s, post[..|post| - 1]);
    }
  }

  lemma StrHasNoOuterSpace(n: int)
    ensures Str(n) != [] && !IsSpace(Str(n)[0]) && !IsSpace(Str(n)[|Str(n)| - 1])
  {
    var d := DecimalString(if n < 0 then -n else n);
    assert IsDigit(d[0]) && IsDigit(d[|d| - 1]);
    if n < 0 {
      assert Str(n) == "-" + d;
      assert Str(n)[|Str(n)| - 1] == d[|d| - 1];
    }
  }

  lemma {:induction false} StripLeftSkips(pre: string, rest: string)
    requires forall i :: 0 <= i < |pre| ==> IsSpace(pre[i])
    requires rest != [] && !IsSpace(rest[0])
    ensures StripLeft(pre + rest) == rest
  {
    if pre == [] {
      assert pre + rest == rest;
    } else {
      assert (pre + rest)[1..] == pre[1..] + rest;
      StripLeftSkips(pre[1..], rest);
    }
  }

  lemma {:induction false} StripRightSkips(s: string, post: string)
    requires forall i :: 0 <= i < |post| ==> IsSpace(post[i])
    requires s != [] && !IsSpace(s[|s| - 1])
    ensures StripRight(s + post) == s
  {
    if post == [] {
      assert s + post == s;
      StripRightNoSpace(s);
    } else {
      assert (s + post)[..|s + post| - 1] == s + post[..|post| - 1];
      StripRightSkips(s, post[..|post| - 1]);
    }
  }

  /**
   * `(pre + w + rest).strip().split()[0] == w` when `pre` is whitespace, `w`
   * a whitespace-free word and `rest` starts with whitespace or is empty.
   */
  lemma FirstTokenOfWord(pre: string, w: string, rest: string)
    requires forall i :: 0 <= i < |pre| ==> IsSpace(pre[i])
    requires w != [] && forall i :: 0 <= i < |w| ==> !IsSpace(w[i])
    requires rest != [] ==> IsSpace(rest[0])
    ensures FirstToken(pre + w + rest) == Some(w)
  {
    assert pre + w + rest == pre + (w + rest);
    assert (w + rest)[0] == w[0];
    StripLeftSkips(pre, w + rest);
    WordOf(w, rest);
  }

  lemma {:induction false} WordOf(w: string, rest: string)
    requires forall i :: 0 <= i < |w| ==> !IsSpace(w[i])
    requires rest != [] ==> IsSpace(rest[0])
    ensures Word(w + rest) == w
  {
    if w == [] {
      assert w + rest == rest;
    } else {
      assert (w + rest)[1..] == w[1..] + rest;
      WordOf(w[1..], rest);
    }
  }

  // ---------------------------------------------------------------------
  // Substring test
  // ---------------------------------------------------------------------

  predicate OccursAt(s: string, sub: string, i: int) {
    0 <= i && i + |sub| <= |s| && s[i..i + |sub|] == sub
  }

  /** Python's `sub in s`. */
  function Contains(s: string, sub: string): (r: bool)
    ensures r <==> exists i :: OccursAt(s, sub, i)
    decreases |s|
  {
    if |sub| > |s| then false
    else if s[..|sub|] == sub then
      assert OccursAt(s, sub, 0);
      true
    else
      var r := Contains(s[1..], sub);
      assert r ==> exists i :: OccursAt(s, sub, i) by {
        if r {
          var j :| OccursAt(s[1..], sub, j);
          assert s[1..][j..j + |sub|] == s[j + 1..j + 1 + |sub|];
          assert OccursAt(s, sub, j + 1);
        }
      }
      assert (exists i :: OccursAt(s, sub, i)) ==> r by {
        if exists i :: OccursAt(s, sub, i) {
          var i :| OccursAt(s, sub, i);
          assert i != 0;
          assert s[1..][i - 1..i - 1 + |sub|] == s[i..i + |sub|];
          assert OccursAt(s[1..], sub, i - 1);
        }
      }
      r
  }

  /** Only a string at least as long as `sub` can contain it. */
  lemma ContainsIsLonger(s: string, sub: string)
    requires Contains(s, sub)
    ensures |sub| <= |s|
  {
    var i :| OccursAt(s, sub, i);
  }

  // ---------------------------------------------------------------------
  // re.findall(r'\((\d+)\)', s)
  // ---------------------------------------------------------------------

  /** The longest prefix of `s` made of digits. */
  function DigitRun(s: string): (r: string)
    ensures |r| <= |s| && r == s[..|r|]
    ensures forall i :: 0 <= i < |r| ==> IsDigit(r[i])
    ensures |r| < |s| ==> !IsDigit(s[|r|])
  {
    if s == [] || !IsDigit(s[0]) then [] else [s[0]] + DigitRun(s[1..])
  }

  /**
   * `re.findall(r'\((\d+)\)', s)`: a left-to-right scan for an opening
   * parenthesis, one or more digits and a closing parenthesis. A match
   * resumes the scan after its closing parenthesis; anything else moves it on
   * by one character. Every group found is a digit string.
   */
  function FindParenNumbers(s: string): (r: seq<string>)
    ensures forall i :: 0 <= i < |r| ==> IsDigitString(r[i])
    decreases |s|
  {
    if s == [] then []
    else if s[0] == '(' then
      var d := DigitRun(s[1..]);
      if |d| > 0 && |d| + 1 < |s| && s[|d| + 1] == ')' then
        [d] + FindParenNumbers(s[|d| + 2..])
      else FindParenNumbers(s[1..])
    else FindParenNumbers(s[1..])
  }

  /** `re.search(r'\((\d+)\)', s).group(1)`: the leftmost match, if any. */
  function FirstParenNumber(s: string): (r: Option<string>)
    ensures r.Some? ==> IsDigitString(r.value)
  {
    var all := FindParenNumbers(s);
    if all == [] then None else Some(all[0])
  }

  /** Text without an opening parenthesis. */
  predicate NoOpenParen(s: string) {
    forall i :: 0 <= i < |s| ==> s[i] != '('
  }

  /** Text without an opening parenthesis holds no match. */
  lemma {:induction false} FindParenNumbersNoParen(s: string)
    requires NoOpenParen(s)
    ensures FindParenNumbers(s) == []
  {
    if s != [] {
      FindParenNumbersNoParen(s[1..]);
    }
  }

  /**
   * A parenthesised digit string preceded by text without an opening
   * parenthesis is the first match; scanning resumes after it.
   */
  lemma {:induction false} FindParenNumbersAfter(pre: string, d: string, rest: string)
    requires NoOpenParen(pre)
    requires IsDigitString(d)
    ensures FindParenNumbers(pre + "(" + d + ")" + rest) == [d] + FindParenNumbers(rest)
  {
    var s := pre + "(" + d + ")" + rest;
    if pre == [] {
      assert s == "(" + d + ")" + rest;
      assert s[1..] == d + (")" + rest);
      DigitRunOf(d, ")" + rest);
      assert s[|d| + 2..] == rest;
    } else {
      assert s[1..] == pre[1..] + "(" + d + ")" + rest;
      FindParenNumbersAfter(pre[1..], d, rest);
    }
  }

  lemma {:induction false} DigitRunOf(d: string, rest: string)
    requires forall i :: 0 <= i < |d| ==> IsDigit(d[i])
    requires rest != [] && !IsDigit(rest[0])
    ensures DigitRun(d + rest) == d
  {
    if d == [] {
      assert d + rest == rest;
    } else {
      assert (d + rest)[1..] == d[1..] + rest;
      DigitRunOf(d[1..], rest);
    }
  }
}
