/**
 * String helpers the views rely on: JavaScript's `toLowerCase` and
 * `includes` (over ASCII), `trim`, and the two ways the views turn an
 * input box's text into a page number, `Number(...)` and `parseInt(..., 10)`.
 */
module Text {
  import opened Maybe

  // ---------------------------------------------------------------------
  // Lower-casing
  // ---------------------------------------------------------------------

  predicate IsUpper(c: char) { 'A' <= c <= 'Z' }

  function LowerChar(c: char): char
  {
    if IsUpper(c) then (c as int - 'A' as int + 'a' as int) as char else c
  }

  /** ASCII model of `String.prototype.toLowerCase`. */
  function Lower(s: string): (r: string)
    ensures |r| == |s|
    ensures forall i :: 0 <= i < |s| ==> !IsUpper(r[i])
    ensures forall i :: 0 <= i < |s| ==>
      if IsUpper(s[i]) then r[i] as int == s[i] as int + 32 else r[i] == s[i]
  {
    seq(|s|, i requires 0 <= i < |s| => LowerChar(s[i]))
  }

  /** Lower-casing keeps the length, leaves no upper-case letter, only
      changes upper-case letters, and doing it twice changes nothing more. */
  lemma LowerFacts(s: string)
    ensures |Lower(s)| == |s|
    ensures forall i :: 0 <= i < |s| ==> !IsUpper(Lower(s)[i])
    ensures forall i :: 0 <= i < |s| && !IsUpper(s[i]) ==> Lower(s)[i] == s[i]
    ensures Lower(Lower(s)) == Lower(s)
  {
  }

  // ---------------------------------------------------------------------
  // Substring search
  // ---------------------------------------------------------------------

  /** Some window of `s` of length |t| starting at `i` spells `t`. */
  ghost predicate OccursAt(s: string, t: string, i: int)
  {
    0 <= i && i + |t| <= |s| && s[i..i + |t|] == t
  }

  /** Model of `String.prototype.includes`: try `t` as a prefix of every
      suffix of `s`. */
  predicate Includes(s: string, t: string)
    decreases |s|
    ensures Includes(s, t) ==> |t| <= |s|
    ensures t == [] ==> Includes(s, t)
    ensures |t| <= |s| && s[|s| - |t|..] == t ==> Includes(s, t)
  {
    |t| <= |s| && (s[..|t|] == t || (|s| > 0 && Includes(s[1..], t)))
  }

  /** `Includes` is exactly "t occurs somewhere in s". */
  lemma {:induction false} IncludesIff(s: string, t: string)
    ensures Includes(s, t) <==> exists i :: OccursAt(s, t, i)
    decreases |s|
  {
    if Includes(s, t) {
      if s[..|t|] == t {
        assert OccursAt(s, t, 0);
      } else {
        IncludesIff(s[1..], t);
        var i :| OccursAt(s[1..], t, i);
        assert s[1..][i..i + |t|] == s[i + 1..i + 1 + |t|];
        assert OccursAt(s, t, i + 1);
      }
    } else {
      forall i | OccursAt(s, t, i)
        ensures false
      {
        if i > 0 {
          assert s[1..][i - 1..i - 1 + |t|] == s[i..i + |t|];
          assert OccursAt(s[1..], t, i - 1);
          IncludesIff(s[1..], t);
        }
      }
    }
  }

  /** The empty string occurs in every string, so an empty search keeps
      every record. */
  lemma IncludesEmpty(s: string)
    ensures Includes(s, "")
  {
  }

  // ---------------------------------------------------------------------
  // Trimming
  // ---------------------------------------------------------------------

  /** The ASCII white space that `trim` and `Number` skip. */
  predicate IsSpace(c: char) { c == ' ' || '\t' <= c <= '\r' }

  ghost predicate AllSpace(s: string)
  {
    forall i :: 0 <= i < |s| ==> IsSpace(s[i])
  }

  function TrimStart(s: string): string
  {
    if s != [] && IsSpace(s[0]) then TrimStart(s[1..]) else s
  }

  function TrimEnd(s: string): string
  {
    if s != [] && IsSpace(s[|s| - 1]) then TrimEnd(s[..|s| - 1]) else s
  }

  /** `TrimStart` drops white space from the front and stops at the first
      other character. */
  lemma {:induction false} TrimStartFacts(s: string)
    ensures |TrimStart(s)| <= |s| && TrimStart(s) == s[|s| - |TrimStart(s)|..]
    ensures AllSpace(s[..|s| - |TrimStart(s)|])
    ensures TrimStart(s) == [] || !IsSpace(TrimStart(s)[0])
  {
    if s != [] && IsSpace(s[0]) {
      var rest := s[1..];
      TrimStartFacts(rest);
      var r := TrimStart(s);
      var k := |s| - |r|;
      assert rest[|rest| - |r|..] == s[k..];
      forall i | 0 <= i < k
        ensures IsSpace(s[..k][i])
      {
        if i > 0 {
          assert s[..k][i] == rest[..k - 1][i - 1];
        }
      }
    }
  }

  /** `TrimEnd` drops white space from the end and stops at the last other
      character. */
  lemma {:induction false} TrimEndFacts(s: string)
    ensures |TrimEnd(s)| <= |s| && TrimEnd(s) == s[..|TrimEnd(s)|]
    ensures AllSpace(s[|TrimEnd(s)|..])
    ensures TrimEnd(s) == [] || !IsSpace(TrimEnd(s)[|TrimEnd(s)| - 1])
  {
    if s != [] && IsSpace(s[|s| - 1]) {
      var front := s[..|s| - 1];
      TrimEndFacts(front);
      var r := TrimEnd(s);
      assert front[..|r|] == s[..|r|];
      forall i | 0 <= i < |s| - |r|
        ensures IsSpace(s[|r|..][i])
      {
        if i < |s| - 1 - |r| {
          assert s[|r|..][i] == front[|r|..][i];
        }
      }
    }
  }

  /** `r` is `s` without some white space at its front and its end. */
  ghost predicate Stripped(r: string, s: string)
  {
    exists a :: 0 <= a <= |s| - |r| && s[a..a + |r|] == r && AllSpace(s[..a]) && AllSpace(s[a + |r|..])
  }

  /** Model of `String.prototype.trim`. */
  function Trim(s: string): (r: string)
    ensures r == [] || (!IsSpace(r[0]) && !IsSpace(r[|r| - 1]))
    ensures Stripped(r, s)
  {
    var t := TrimStart(s);
    var r := TrimEnd(t);
    TrimStartFacts(s);
    TrimEndFacts(t);
    var a := |s| - |t|;
    assert s[a..a + |r|] == t[..|r|];
    assert s[a + |r|..] == t[|r|..];
    r
  }

  lemma {:induction false} TrimStartEmptyIff(s: string)
    ensures TrimStart(s) == [] <==> AllSpace(s)
  {
    if s != [] && IsSpace(s[0]) {
      TrimStartEmptyIff(s[1..]);
      assert forall i :: 1 <= i < |s| ==> s[i] == s[1..][i - 1];
    }
  }

  lemma {:induction false} TrimEndEmptyIff(s: string)
    ensures TrimEnd(s) == [] <==> AllSpace(s)
  {
    if s != [] && IsSpace(s[|s| - 1]) {
      TrimEndEmptyIff(s[..|s| - 1]);
      assert forall i :: 0 <= i < |s| - 1 ==> s[i] == s[..|s| - 1][i];
    }
  }

  lemma {:induction false} TrimStartAllSpace(s: string)
    ensures AllSpace(TrimStart(s)) <==> AllSpace(s)
  {
    if s != [] && IsSpace(s[0]) {
      TrimStartAllSpace(s[1..]);
      assert forall i :: 1 <= i < |s| ==> s[i] == s[1..][i - 1];
    }
  }

  /** A trimmed string is empty exactly when the input was nothing but
      white space: the test `search.trim() !== ""` asks for one visible
      character. */
  lemma TrimEmptyIff(s: string)
    ensures Trim(s) == [] <==> AllSpace(s)
  {
    TrimEndEmptyIff(TrimStart(s));
    TrimStartAllSpace(s);
  }

  // ---------------------------------------------------------------------
  // Decimal numbers
  // ---------------------------------------------------------------------

  predicate IsDigit(c: char) { '0' <= c <= '9' }

  predicate AllDigits(s: string)
  {
    forall i :: 0 <= i < |s| ==> IsDigit(s[i])
  }

  /** The value of a run of decimal digits, read left to right. */
  function DigitsValue(ds: string): nat
    requires AllDigits(ds)
  {
    if ds == [] then 0
    else 10 * DigitsValue(ds[..|ds| - 1]) + (ds[|ds| - 1] as int - '0' as int)
  }

  /** The decimal spelling of a natural number, without leading zeros. */
  function Decimal(n: nat): (ds: string)
    ensures ds != [] && AllDigits(ds)
    ensures |ds| > 1 ==> ds[0] != '0'
  {
    var last := ('0' as int + n % 10) as char;
    if n < 10 then [last] else Decimal(n / 10) + [last]
  }

  /** Reading the spelling of `n` gives back `n`. */
  lemma {:induction false} DecimalValue(n: nat)
    ensures DigitsValue(Decimal(n)) == n
  {
    var ds := Decimal(n);
    if n >= 10 {
      DecimalValue(n / 10);
      assert ds[..|ds| - 1] == Decimal(n / 10);
    }
  }

  /** The length of the longest run of digits at the front of `s`. */
  function DigitRun(s: string): (k: nat)
    ensures k <= |s| && AllDigits(s[..k])
    ensures k == |s| || !IsDigit(s[k])
  {
    if s != [] && IsDigit(s[0]) then
      var k := 1 + DigitRun(s[1..]);
      assert forall i :: 1 <= i < k ==> s[..k][i] == s[1..][..k - 1][i - 1];
      k
    else 0
  }

  function Sign(s: string): (r: (int, string))
    ensures r.0 == 1 || r.0 == -1
    ensures |r.1| <= |s|
  {
    if s != [] && s[0] == '-' then (-1, s[1..])
    else if s != [] && s[0] == '+' then (1, s[1..])
    else (1, s)
  }

  /** Model of `parseInt(s, 10)`: skip leading white space and a sign, then
      read as many digits as there are. `None` stands for NaN (no digit). */
  function ParseInt(s: string): (r: Option<int>)
    ensures var rest := Sign(TrimStart(s)).1; r.None? <==> rest == [] || !IsDigit(rest[0])
    ensures var t := TrimStart(s); t != [] && IsDigit(t[0]) ==> r.Some? && r.value >= 0
    ensures var t := TrimStart(s); t != [] && t[0] == '-' && r.Some? ==> r.value <= 0
  {
    var (sign, rest) := Sign(TrimStart(s));
    var k := DigitRun(rest);
    if k == 0 then None else Some(sign * DigitsValue(rest[..k]))
  }

  /** Optionally signed decimal digits: the integer texts `Number` reads. */
  predicate SignedDigits(t: string)
  {
    t != [] &&
    if t[0] == '-' || t[0] == '+' then |t| > 1 && AllDigits(t[1..]) else AllDigits(t)
  }

  /** The value of optionally signed decimal digits. */
  function SignedValue(t: string): int
    requires SignedDigits(t)
  {
    if t[0] == '-' then -(DigitsValue(t[1..]) as int)
    else if t[0] == '+' then DigitsValue(t[1..])
    else DigitsValue(t)
  }

  /** Model of `Number(s)` on the strings an integer input box holds: white
      space around the text is ignored, the empty text is 0, and otherwise
      the text must be an optionally signed run of digits. `None` is NaN. */
  function NumberValue(s: string): (r: Option<int>)
    ensures Trim(s) == [] ==> r == Some(0)
    ensures AllDigits(Trim(s)) ==> r == Some(DigitsValue(Trim(s)))
    ensures var t := Trim(s); r.Some? && t != [] ==>
      IsDigit(t[|t| - 1]) && forall i :: 0 < i < |t| ==> IsDigit(t[i])
    ensures var t := Trim(s); r.Some? <==> t == [] || SignedDigits(t)
    ensures var t := Trim(s); SignedDigits(t) ==> r == Some(SignedValue(t))
  {
    var t := Trim(s);
    if t == [] then Some(0)
    else
      var (sign, rest) := Sign(t);
      assert rest == t || rest == t[1..];
      assert AllDigits(t) ==> sign == 1 && rest == t;
      if rest != [] && AllDigits(rest) then
        assert forall i :: 0 < i < |t| ==> IsDigit(t[i]) by {
          forall i | 0 < i < |t| ensures IsDigit(t[i]) {
            if rest != t { assert t[i] == rest[i - 1]; }
          }
        }
        Some(sign * DigitsValue(rest))
      else None
  }

  /** `parseInt` reads the decimal spelling of `n` back as `n`, and stops at
      the first character that is not a digit. */
  lemma ParseIntDecimal(n: nat, tail: string)
    requires tail == [] || !IsDigit(tail[0])
    ensures ParseInt(Decimal(n) + tail) == Some(n)
  {
    ParseIntDigits(Decimal(n), tail);
    DecimalValue(n);
  }

  /** `parseInt` of a digit run followed by a non-digit reads the run. */
  lemma ParseIntDigits(ds: string, tail: string)
    requires ds != [] && AllDigits(ds)
    requires tail == [] || !IsDigit(tail[0])
    ensures ParseInt(ds + tail) == Some(DigitsValue(ds))
  {
    var s := ds + tail;
    assert s[0] == ds[0];
    assert TrimStart(s) == s;
    assert Sign(s) == (1, s);
    DigitRunOf(ds, tail);
    assert s[..|ds|] == ds;
  }

  /** `parseInt` skips white space and one sign, then reads a digit run up
      to the first non-digit: `parseInt(" -12x")` is -12. */
  lemma ParseIntSigned(ws: string, sign: string, ds: string, tail: string)
    requires AllSpace(ws)
    requires sign == "" || sign == "-" || sign == "+"
    requires ds != [] && AllDigits(ds)
    requires tail == [] || !IsDigit(tail[0])
    ensures ParseInt(ws + sign + ds + tail) ==
      Some(if sign == "-" then -(DigitsValue(ds) as int) else DigitsValue(ds))
  {
    var x := sign + ds + tail;
    assert ws + sign + ds + tail == ws + x;
    assert x[0] == if sign == "" then ds[0] else sign[0];
    TrimStartSkips(ws, x);
    assert Sign(x).1 == ds + tail;
    DigitRunOf(ds, tail);
    assert (ds + tail)[..|ds|] == ds;
  }

  /** Leading white space is all that `TrimStart` removes. */
  lemma {:induction false} TrimStartSkips(ws: string, x: string)
    requires AllSpace(ws)
    requires x == [] || !IsSpace(x[0])
    ensures TrimStart(ws + x) == x
  {
    if ws != [] {
      assert (ws + x)[0] == ws[0];
      assert (ws + x)[1..] == ws[1..] + x;
      assert forall i :: 0 <= i < |ws| - 1 ==> ws[1..][i] == ws[i + 1];
      TrimStartSkips(ws[1..], x);
    } else {
      assert ws + x == x;
    }
  }

  lemma {:induction false} DigitRunOf(ds: string, tail: string)
    requires AllDigits(ds)
    requires tail == [] || !IsDigit(tail[0])
    ensures DigitRun(ds + tail) == |ds|
  {
    if ds != [] {
      assert (ds + tail)[1..] == ds[1..] + tail;
      DigitRunOf(ds[1..], tail);
    }
  }

  /** `Number` reads the decimal spelling of `n` back as `n`. */
  lemma NumberDecimal(n: nat)
    ensures NumberValue(Decimal(n)) == Some(n)
  {
    var ds := Decimal(n);
    assert TrimStart(ds) == ds;
    assert TrimEnd(ds) == ds;
    assert Sign(ds) == (1, ds);
    DecimalValue(n);
  }

  /** The two texts a fresh number box can hold. */
  lemma NumberOne()
    ensures NumberValue("1") == Some(1)
    ensures NumberValue("") == Some(0)
  {
    NumberDecimal(1);
    assert Decimal(1) == "1";
  }

  /** Unlike `parseInt`, `Number` gives NaN as soon as anything but white
      space follows the digits. */
  lemma NumberRejectsTrailing(n: nat)
    ensures NumberValue(Decimal(n) + "x") == None
  {
    var ds := Decimal(n);
    var s := ds + "x";
    assert s[0] == ds[0];
    assert TrimStart(s) == s;
    assert s[|s| - 1] == 'x';
    assert TrimEnd(s) == s;
    assert Sign(s) == (1, s);
    assert !IsDigit(s[|s| - 1]);
  }
}
