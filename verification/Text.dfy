/** Strings as the program uses them: compared byte by byte, and joined into keys by the
    NUL character. */
module Text {

  const NUL: char := '\0'

  type Word = x: int | 0 <= x < 0x1_0000_0000_0000_0000

  predicate NulFree(s: string) {
    NUL !in s
  }

  /** The lexicographic order of the `<` operator on strings. */
  predicate Less(a: string, b: string) {
    if |b| == 0 then false
    else if |a| == 0 then true
    else a[0] < b[0] || (a[0] == b[0] && Less(a[1..], b[1..]))
  }

  lemma LessTotal(a: string, b: string)
    ensures Less(a, b) || a == b || Less(b, a)
  {
    if |a| > 0 && |b| > 0 && a[0] == b[0] {
      LessTotal(a[1..], b[1..]);
      assert a == [a[0]] + a[1..] && b == [b[0]] + b[1..];
    }
  }

  lemma LessAsymmetric(a: string, b: string)
    ensures !(Less(a, b) && Less(b, a))
  {
  }

  lemma LessTransitive(a: string, b: string, c: string)
    requires Less(a, b) && Less(b, c)
    ensures Less(a, c)
  {
  }

  predicate LessEq(a: string, b: string) {
    !Less(b, a)
  }

  lemma LessEqAntisymmetric(a: string, b: string)
    requires LessEq(a, b) && LessEq(b, a)
    ensures a == b
  {
    LessTotal(a, b);
  }

  lemma LessEqTransitive(a: string, b: string, c: string)
    requires LessEq(a, b) && LessEq(b, c)
    ensures LessEq(a, c)
  {
    LessTotal(a, b);
    LessTotal(b, c);
    if Less(c, a) {
      if a != b && b != c {
        LessTransitive(a, b, c);
      }
      LessAsymmetric(a, c);
    }
  }

  /** A NUL-free field can be read back from the front of a key. */
  lemma {:induction false} FieldUnique(a: string, x: string, b: string, y: string)
    requires NulFree(a) && NulFree(b)
    requires a + [NUL] + x == b + [NUL] + y
    ensures a == b && x == y
  {
    var s, t := a + [NUL] + x, b + [NUL] + y;
    assert s[|a|] == NUL && t[|b|] == NUL;
    assert forall i :: 0 <= i < |a| ==> s[i] == a[i] && s[i] != NUL;
    assert forall i :: 0 <= i < |b| ==> t[i] == b[i] && t[i] != NUL;
    assert |a| == |b|;
    assert a == s[..|a|] && b == t[..|a|];
    assert x == s[|a| + 1..] && y == t[|a| + 1..];
  }

  function Digits(n: nat): (s: string)
    ensures NulFree(s)
  {
    if n < 10 then ["0123456789"[n]] else Digits(n / 10) + ["0123456789"[n % 10]]
  }

  function Zeros(n: int): (s: string)
    ensures NulFree(s)
    decreases if n < 0 then 0 else n
  {
    if n <= 0 then "" else "0" + Zeros(n - 1)
  }

  /** The verb `%09d`: at least nine characters, the sign counted among them. */
  function Pad9(n: int): (s: string)
    ensures NulFree(s)
  {
    if n < 0 then var d := Digits(-n); "-" + Zeros(8 - |d|) + d
    else var d := Digits(n); Zeros(9 - |d|) + d
  }

  // ---- padded numbers order as numbers ----

  predicate AllDigits(s: string) {
    forall i :: 0 <= i < |s| ==> '0' <= s[i] <= '9'
  }

  function Value(s: string): nat
    requires AllDigits(s)
  {
    if s == "" then 0 else 10 * Value(s[..|s| - 1]) + (s[|s| - 1] as int - '0' as int)
  }

  lemma ValueSnoc(s: string, c: char)
    requires AllDigits(s) && '0' <= c <= '9'
    ensures AllDigits(s + [c]) && Value(s + [c]) == 10 * Value(s) + (c as int - '0' as int)
  {
    assert (s + [c])[..|s|] == s;
  }

  lemma DigitChar(d: nat)
    requires d < 10
    ensures '0' <= "0123456789"[d] <= '9' && "0123456789"[d] as int - '0' as int == d
  {
  }

  lemma {:induction false} DigitsValue(n: nat)
    ensures AllDigits(Digits(n)) && Value(Digits(n)) == n
    ensures |Digits(n)| >= 1
  {
    DigitChar(n % 10);
    if n < 10 {
      ValueSnoc("", "0123456789"[n]);
      assert "" + ["0123456789"[n]] == Digits(n);
    } else {
      DigitsValue(n / 10);
      ValueSnoc(Digits(n / 10), "0123456789"[n % 10]);
    }
  }

  function Pow10(k: nat): nat {
    if k == 0 then 1 else 10 * Pow10(k - 1)
  }

  lemma {:induction false} DigitsShort(n: nat, k: nat)
    requires k >= 1 && n < Pow10(k)
    ensures |Digits(n)| <= k
    decreases k
  {
    assert k == 1 ==> Pow10(k) == 10;
    if n >= 10 {
      DigitsShort(n / 10, k - 1);
    }
  }

  lemma {:induction false} ZerosAdd(k: int, s: string)
    requires AllDigits(s)
    ensures AllDigits(Zeros(k) + s) && Value(Zeros(k) + s) == Value(s)
    ensures |Zeros(k)| == if k < 0 then 0 else k
    decreases if k < 0 then 0 else k
  {
    hide Value, AllDigits;
    if k <= 0 {
      assert Zeros(k) + s == s;
    } else {
      ZerosAdd(k - 1, s);
      var t := Zeros(k - 1) + s;
      assert Zeros(k) + s == "0" + t;
      ZeroFront(t);
    }
  }

  lemma {:induction false} ZeroFront(t: string)
    requires AllDigits(t)
    ensures AllDigits("0" + t) && Value("0" + t) == Value(t)
    decreases |t|
  {
    if t == "" {
      assert "0" + t == "0" && "0"[..0] == "";
    } else {
      var init, last := t[..|t| - 1], t[|t| - 1];
      ZeroFront(init);
      assert "0" + t == ("0" + init) + [last];
      ValueSnoc("0" + init, last);
    }
  }

  /** Below a thousand million a padded number has nine digits. */
  lemma Pad9Is(n: int)
    requires 0 <= n < 1_000_000_000
    ensures |Pad9(n)| == 9 && AllDigits(Pad9(n)) && Value(Pad9(n)) == n
  {
    DigitsValue(n);
    assert Pow10(9) == 1_000_000_000;
    DigitsShort(n, 9);
    ZerosAdd(9 - |Digits(n)|, Digits(n));
  }

  lemma {:induction false} ValueUnique(a: string, b: string)
    requires AllDigits(a) && AllDigits(b) && |a| == |b| && Value(a) == Value(b)
    ensures a == b
    decreases |a|
  {
    if a != "" {
      var n := |a| - 1;
      ValueUnique(a[..n], b[..n]);
      assert a == a[..n] + [a[n]] && b == b[..n] + [b[n]];
    }
  }

  lemma {:induction false} LessAppend(a: string, b: string, u: string, v: string)
    requires |a| == |b| && Less(a, b)
    ensures Less(a + u, b + v)
    decreases |a|
  {
    assert (a + u)[0] == a[0] && (b + v)[0] == b[0];
    assert (a + u)[1..] == a[1..] + u && (b + v)[1..] == b[1..] + v;
    if a[0] == b[0] {
      LessAppend(a[1..], b[1..], u, v);
    }
  }

  lemma {:induction false} LessAfter(a: string, u: string, v: string)
    ensures Less(a + u, a + v) <==> Less(u, v)
    decreases |a|
  {
    if a == "" {
      assert a + u == u && a + v == v;
    } else {
      assert (a + u)[1..] == a[1..] + u && (a + v)[1..] == a[1..] + v;
      LessAfter(a[1..], u, v);
    }
  }

  /** Numbers of equally many digits compare as their texts do. */
  lemma {:induction false} ValueOrder(a: string, b: string)
    requires AllDigits(a) && AllDigits(b) && |a| == |b| && Value(a) < Value(b)
    ensures Less(a, b)
    decreases |a|
  {
    var n := |a| - 1;
    assert a == a[..n] + [a[n]] && b == b[..n] + [b[n]];
    if Value(a[..n]) < Value(b[..n]) {
      ValueOrder(a[..n], b[..n]);
      LessAppend(a[..n], b[..n], [a[n]], [b[n]]);
    } else {
      ValueUnique(a[..n], b[..n]);
      LessAfter(a[..n], [a[n]], [b[n]]);
    }
  }

  /** The verb orders numbers below a thousand million. */
  lemma Pad9Order(m: int, n: int, u: string, v: string)
    requires 0 <= m < n < 1_000_000_000
    ensures Less(Pad9(m) + u, Pad9(n) + v)
  {
    Pad9Is(m);
    Pad9Is(n);
    ValueOrder(Pad9(m), Pad9(n));
    LessAppend(Pad9(m), Pad9(n), u, v);
  }

  /** The texts of two numbers differ, whatever the numbers. */
  lemma Pad9Unique(m: int, n: int)
    requires Pad9(m) == Pad9(n)
    ensures m == n
  {
    Pad9Shape(m);
    Pad9Shape(n);
  }

  lemma Pad9Shape(n: int)
    ensures n >= 0 ==> AllDigits(Pad9(n)) && Value(Pad9(n)) == n && |Pad9(n)| >= 1
    ensures n < 0 ==> |Pad9(n)| >= 1 && Pad9(n)[0] == '-' && AllDigits(Pad9(n)[1..]) && Value(Pad9(n)[1..]) == -n
  {
    hide Digits, Zeros, Value, AllDigits;
    if n >= 0 {
      DigitsValue(n);
      ZerosAdd(9 - |Digits(n)|, Digits(n));
    } else {
      DigitsValue(-n);
      ZerosAdd(8 - |Digits(-n)|, Digits(-n));
      hide NulFree;
      assert Pad9(n) == "-" + (Zeros(8 - |Digits(-n)|) + Digits(-n));
      assert Pad9(n)[1..] == Zeros(8 - |Digits(-n)|) + Digits(-n);
    }
  }
}
