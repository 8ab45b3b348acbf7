/** Shared vocabulary of the migration: optional values, JavaScript truthiness,
    the decimal rendering of numbers in template strings, String.prototype.trim,
    ASCII lower-casing and String.prototype.includes. */
module Common {

  datatype Option<T> = None | Some(value: T)

  /** Outcome of one HTTP call: a response (with `res.ok` and its decoded JSON
      body) or a thrown error (network failure or a body that is not JSON). */
  datatype HttpOutcome<T> = Response(ok: bool, body: T) | Failure

  /** `if (s)` on an optional string: present and not the empty string. */
  predicate TruthyStr(o: Option<string>)
  {
    o.Some? && o.value != ""
  }

  /** `if (n)` on an optional number: present and not zero. */
  predicate TruthyNat(o: Option<nat>)
  {
    o.Some? && o.value != 0
  }

  // ---------------------------------------------------------------------------
  // Decimal rendering of a number inside a template string (`post-${id}`)

  predicate IsDigit(c: char)
  {
    '0' <= c <= '9'
  }

  function DigitChar(d: nat): (c: char)
    requires d < 10
    ensures IsDigit(c)
  {
    (48 + d) as char
  }

  /** The value of a decimal digit (zero for any other character). */
  function DigitValue(c: char): nat
  {
    if IsDigit(c) then c as int - 48 else 0
  }

  /** The number a decimal text denotes, its most significant digit first. */
  function DecimalValue(s: string): nat
    decreases |s|
  {
    if s == [] then 0 else 10 * DecimalValue(s[..|s| - 1]) + DigitValue(s[|s| - 1])
  }

  /** The decimal text of `n`, as JavaScript renders a non-negative integer
      below 2^53 (`${n}`, `n.toString()`). `NatToStringValue` shows it denotes `n`. */
  function NatToString(n: nat): (s: string)
    ensures |s| >= 1
    ensures n >= 10 ==> |s| >= 2
    ensures forall i :: 0 <= i < |s| ==> IsDigit(s[i])
    decreases n
  {
    if n < 10 then [DigitChar(n)] else NatToString(n / 10) + [DigitChar(n % 10)]
  }

  /** The decimal text of `n` reads back as `n`, and it starts with `0` only
      when `n` is zero: no leading zeros. */
  lemma {:induction false} NatToStringValue(n: nat)
    ensures DecimalValue(NatToString(n)) == n
    ensures NatToString(n)[0] == '0' <==> n == 0
    decreases n
  {
    if n >= 10 {
      var s := NatToString(n);
      NatToStringValue(n / 10);
      assert s[..|s| - 1] == NatToString(n / 10);
    }
  }

  lemma DigitCharInjective(a: nat, b: nat)
    requires a < 10 && b < 10 && DigitChar(a) == DigitChar(b)
    ensures a == b
  {
    assert (DigitChar(a) as int) == 48 + a;
    assert (DigitChar(b) as int) == 48 + b;
  }

  /** Distinct numbers render to distinct decimal strings. */
  lemma {:induction false} NatToStringInjective(a: nat, b: nat)
    requires NatToString(a) == NatToString(b)
    ensures a == b
    decreases a
  {
    var s := NatToString(a);
    if a < 10 && b < 10 {
      DigitCharInjective(a, b);
    } else if a >= 10 && b >= 10 {
      assert s[|s| - 1] == DigitChar(a % 10) == DigitChar(b % 10);
      DigitCharInjective(a % 10, b % 10);
      assert NatToString(a / 10) == s[..|s| - 1] == NatToString(b / 10);
      NatToStringInjective(a / 10, b / 10);
    }
  }

  // ---------------------------------------------------------------------------
  // String.prototype.trim

  /** ECMAScript WhiteSpace and LineTerminator code points: what `trim` removes. */
  predicate IsJsSpace(c: char)
  {
    c == '\t' || c == '\n' || c == '\U{000B}' || c == '\U{000C}' || c == '\r' || c == ' '
    || c == '\U{00A0}' || c == '\U{1680}' || ('\U{2000}' <= c <= '\U{200A}')
    || c == '\U{2028}' || c == '\U{2029}' || c == '\U{202F}' || c == '\U{205F}'
    || c == '\U{3000}' || c == '\U{FEFF}'
  }

  predicate AllSpace(s: string)
  {
    forall i :: 0 <= i < |s| ==> IsJsSpace(s[i])
  }

  /** Removes leading white space: the result is the suffix of `s` after its
      longest all-space prefix. */
  function TrimStart(s: string): (r: string)
    ensures |r| <= |s| && r == s[|s| - |r|..]
    ensures forall j :: 0 <= j < |s| - |r| ==> IsJsSpace(s[j])
    ensures r == [] || !IsJsSpace(r[0])
    decreases |s|
  {
    if s != [] && IsJsSpace(s[0]) then TrimStart(s[1..]) else s
  }

  /** Removes trailing white space. */
  function TrimEnd(s: string): (r: string)
    ensures |r| <= |s| && r == s[..|r|]
    ensures forall j :: |r| <= j < |s| ==> IsJsSpace(s[j])
    ensures r == [] || !IsJsSpace(r[|r| - 1])
    decreases |s|
  {
    if s != [] && IsJsSpace(s[|s| - 1]) then TrimEnd(s[..|s| - 1]) else s
  }

  function Trim(s: string): (r: string)
    ensures r == [] || (!IsJsSpace(r[0]) && !IsJsSpace(r[|r| - 1]))
  {
    TrimEnd(TrimStart(s))
  }

  /** The trimmed text is empty exactly when the text is nothing but white space. */
  lemma TrimEmptyIff(s: string)
    ensures Trim(s) == [] <==> AllSpace(s)
  {
    var t := TrimStart(s);
    var k := |s| - |t|;
    if !AllSpace(s) {
      var i :| 0 <= i < |s| && !IsJsSpace(s[i]);
      assert t[i - k] == s[i];
    }
  }

  /** Trimming removes nothing that is not white space: the result is an infix of
      the input and everything cut off on either side is white space. */
  lemma TrimIsInfix(s: string)
    ensures exists a, b :: 0 <= a <= b <= |s| && Trim(s) == s[a..b] && AllSpace(s[..a]) && AllSpace(s[b..])
  {
    var t := TrimStart(s);
    var u := TrimEnd(t);
    var a := |s| - |t|;
    var b := a + |u|;
    assert Trim(s) == s[a..b] by {
      assert t == s[a..];
      assert u == t[..|u|];
    }
    assert AllSpace(s[..a]) by {
      forall j | 0 <= j < a ensures IsJsSpace(s[..a][j]) {
        assert s[..a][j] == s[j];
      }
    }
    assert AllSpace(s[b..]) by {
      forall j | 0 <= j < |s| - b ensures IsJsSpace(s[b..][j]) {
        assert s[b..][j] == t[|u| + j];
      }
    }
    assert 0 <= a <= b <= |s| && Trim(s) == s[a..b] && AllSpace(s[..a]) && AllSpace(s[b..]);
  }

  // ---------------------------------------------------------------------------
  // Lower-casing (ASCII only)

  function LowerChar(c: char): (l: char)
    ensures 'A' <= c <= 'Z' ==> l as int == c as int + 32
    ensures !('A' <= c <= 'Z') ==> l == c
  {
    if 'A' <= c <= 'Z' then (c as int + 32) as char else c
  }

  /** `toLowerCase`, modelled on ASCII letters only. */
  function AsciiLower(s: string): (r: string)
    ensures |r| == |s|
    ensures forall i :: 0 <= i < |s| ==> r[i] == LowerChar(s[i])
  {
    seq(|s|, i requires 0 <= i < |s| => LowerChar(s[i]))
  }

  // ---------------------------------------------------------------------------
  // String.prototype.includes

  /** The window of `s` starting at `i` spells `t`. */
  predicate OccursAt(s: string, t: string, i: int)
  {
    0 <= i <= |s| - |t| && s[i..i + |t|] == t
  }

  /** `s.includes(t)`: some window of `s` spells `t` (the empty string is in every string). */
  function Contains(s: string, t: string): (b: bool)
    ensures b <==> exists i :: OccursAt(s, t, i)
    decreases |s|
  {
    if |t| > |s| then false
    else if s[..|t|] == t then assert OccursAt(s, t, 0); true
    else
      var r := Contains(s[1..], t);
      assert r ==> exists i :: OccursAt(s, t, i) by {
        if r {
          var j :| OccursAt(s[1..], t, j);
          assert s[j + 1..j + 1 + |t|] == s[1..][j..j + |t|];
          assert OccursAt(s, t, j + 1);
        }
      }
      assert (exists i :: OccursAt(s, t, i)) ==> r by {
        if exists i :: OccursAt(s, t, i) {
          var i :| OccursAt(s, t, i);
          assert i != 0;
          assert s[1..][i - 1..i - 1 + |t|] == s[i..i + |t|];
          assert OccursAt(s[1..], t, i - 1);
        }
      }
      r
  }
}
