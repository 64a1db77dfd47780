/** The string keys of the response cache: cacheKey in pkg/cache/cache.go. */
module CacheKey {

  /** What a cached answer is filed under: name, query type, and the DO and CD bits of
      sections 3.2.1 and 3.2.2 of RFC 4035. */
  datatype Question = Question(name: string, qtype: nat, dnssecOk: bool, checkingDisabled: bool)

  const QTYPE_RANGE := 0x1_0000

  function DigitChar(d: nat): char
    requires d < 10
  {
    '0' + d as char
  }

  /** Decimal notation. */
  function Digits(n: nat): (r: string)
    ensures r != "" && forall c :: c in r ==> '0' <= c <= '9'
  {
    (if n < 10 then "" else Digits(n / 10)) + [DigitChar(n % 10)]
  }

  /** Format: name:qtype[:D][:C]. */
  function Key(q: Question): string
  {
    Typed(q.name, q.qtype) + (if q.dnssecOk then ":D" else "") + (if q.checkingDisabled then ":C" else "")
  }

  function Typed(name: string, qtype: nat): string
  {
    name + ":" + Digits(qtype)
  }

  function Pow10(k: nat): nat
  {
    if k == 0 then 1 else 10 * Pow10(k - 1)
  }

  lemma DigitsStep(n: nat, tail: string)
    ensures Digits(n) + tail == (if n < 10 then "" else Digits(n / 10)) + ([DigitChar(n % 10)] + tail)
  {
  }

  lemma FitsInOneLess(n: nat, i: nat)
    requires n < Pow10(i) && n >= 10
    ensures i >= 2 && n / 10 < Pow10(i - 1)
  {
    assert Pow10(0) == 1 && Pow10(1) == 10;
  }

  lemma TypesFit()
    ensures QTYPE_RANGE <= Pow10(5)
  {
    assert Pow10(3) == 10 * Pow10(2) == 1000;
    assert Pow10(5) == 10 * Pow10(4) == 100 * Pow10(3);
  }

  /** The digit loop writes backwards into a five-byte buffer and never leaves it. */
  method FormatType(qtype: nat) returns (s: string)
    requires qtype < QTYPE_RANGE
    ensures s == Digits(qtype)
  {
    var buf := new char[5];
    var i := 5;
    var n: nat := qtype;
    TypesFit();
    ghost var tail := "";
    assert Digits(qtype) + tail == Digits(qtype);
    while true
      invariant 1 <= i <= 5 && n < Pow10(i)
      invariant buf[i..] == tail && Digits(qtype) == Digits(n) + tail
      decreases i
    {
      DigitsStep(n, tail);
      i := i - 1;
      buf[i] := DigitChar(n % 10);
      tail := [DigitChar(n % 10)] + tail;
      assert buf[i..] == tail;
      if n / 10 == 0 {
        break;
      }
      FitsInOneLess(n, i + 1);
      n := n / 10;
    }
    return buf[i..];
  }

  method CacheKey(q: Question) returns (key: string)
    requires q.qtype < QTYPE_RANGE
    ensures key == Key(q)
  {
    var digits := FormatType(q.qtype);
    key := q.name + ":" + digits;
    if q.dnssecOk {
      key := key + ":D";
    }
    if q.checkingDisabled {
      key := key + ":C";
    }
  }

  // ---------------------------------------------------------------- decimal notation

  /** The number a string of digits stands for. */
  function Value(s: string): int
  {
    if s == "" then 0 else 10 * Value(s[..|s| - 1]) + (s[|s| - 1] as int - 48)
  }

  /** Digits only, at least one, and no leading zero but in "0". */
  predicate IsDecimal(s: string)
  {
    s != "" && (forall i :: 0 <= i < |s| ==> 48 <= s[i] as int <= 57) && (|s| > 1 ==> s[0] != '0')
  }

  lemma DigitsLast(n: nat)
    ensures var d := Digits(n);
            d[|d| - 1] as int == 48 + n % 10 && d[..|d| - 1] == if n < 10 then "" else Digits(n / 10)
  {
    var d := Digits(n);
    assert d[|d| - 1] == DigitChar(n % 10);
  }

  lemma {:induction false} DigitsHaveValue(n: nat)
    ensures Value(Digits(n)) == n
  {
    DigitsLast(n);
    if n >= 10 {
      DigitsHaveValue(n / 10);
    } else {
      assert Value("") == 0;
    }
  }

  lemma {:induction false} NoLeadingZero(n: nat)
    requires n > 0
    ensures Digits(n)[0] != '0'
  {
    DigitsLast(n);
    if n >= 10 {
      NoLeadingZero(n / 10);
      assert Digits(n)[0] == Digits(n)[..|Digits(n)| - 1][0];
    }
  }

  lemma DigitsAreDecimal(n: nat)
    ensures Value(Digits(n)) == n && IsDecimal(Digits(n))
  {
    DigitsHaveValue(n);
    DigitsLast(n);
    if n > 0 { NoLeadingZero(n); }
    assert forall i :: 0 <= i < |Digits(n)| ==> Digits(n)[i] in Digits(n);
  }

  /** The documented format: the name, the type in decimal, and a mark for each flag. */
  lemma KeyFormat(q: Question) returns (digits: string)
    ensures Value(digits) == q.qtype && IsDecimal(digits)
    ensures Key(q) == q.name + ":" + digits +
                      (if q.dnssecOk then ":D" else "") + (if q.checkingDisabled then ":C" else "")
  {
    digits := Digits(q.qtype);
    DigitsAreDecimal(q.qtype);
  }

  // ---------------------------------------------------------------- injectivity

  lemma {:induction false} DigitsInjective(a: nat, b: nat)
    requires Digits(a) == Digits(b)
    ensures a == b
  {
    var da, db := Digits(a), Digits(b);
    assert da[|da| - 1] == DigitChar(a % 10) && db[|db| - 1] == DigitChar(b % 10);
    assert a % 10 == b % 10;
    assert da[..|da| - 1] == if a < 10 then "" else Digits(a / 10);
    assert db[..|db| - 1] == if b < 10 then "" else Digits(b / 10);
    if a >= 10 && b >= 10 {
      DigitsInjective(a / 10, b / 10);
    }
  }

  /** No colon follows the one in front of the type. */
  lemma LastColon(name: string, qtype: nat, i: nat)
    requires |name| < i < |Typed(name, qtype)|
    ensures Typed(name, qtype)[i] != ':'
  {
    var d := Digits(qtype);
    assert Typed(name, qtype)[i] == d[i - |name| - 1] && d[i - |name| - 1] in d;
  }

  /** The text after the last colon is the type, whatever colons the name holds. */
  lemma TypedInjective(n1: string, t1: nat, n2: string, t2: nat)
    requires Typed(n1, t1) == Typed(n2, t2)
    ensures n1 == n2 && t1 == t2
  {
    var s := Typed(n1, t1);
    assert s[|n1|] == ':' && s[|n2|] == ':';
    if |n1| < |n2| { LastColon(n1, t1, |n2|); }
    if |n2| < |n1| { LastColon(n2, t2, |n1|); }
    assert n1 == s[..|n1|] == n2;
    assert Digits(t1) == s[|n1| + 1..] == Digits(t2);
    DigitsInjective(t1, t2);
  }

  /** Peeling off a two-character suffix. */
  lemma SuffixCancels(a: string, b: string, x: string)
    requires a + x == b + x
    ensures a == b
  {
    assert |a| == |b|;
    assert a == (a + x)[..|a|] == b;
  }

  lemma EndsInDigit(name: string, qtype: nat)
    ensures var s := Typed(name, qtype); s != "" && '0' <= s[|s| - 1] <= '9'
  {
    var s, d := Typed(name, qtype), Digits(qtype);
    assert s[|s| - 1] == d[|d| - 1] && d[|d| - 1] in d;
  }

  /** Different questions never share a key, even for names that contain colons. */
  lemma KeyInjective(a: Question, b: Question)
    requires Key(a) == Key(b)
    ensures a == b
  {
    var ta, tb := Typed(a.name, a.qtype), Typed(b.name, b.qtype);
    EndsInDigit(a.name, a.qtype);
    EndsInDigit(b.name, b.qtype);
    var da := ta + if a.dnssecOk then ":D" else "";
    var db := tb + if b.dnssecOk then ":D" else "";
    var k := Key(a);
    assert k == da + (if a.checkingDisabled then ":C" else "") == db + (if b.checkingDisabled then ":C" else "");
    assert da[|da| - 1] != 'C' && db[|db| - 1] != 'C';
    assert a.checkingDisabled <==> k[|k| - 1] == 'C';
    assert b.checkingDisabled <==> k[|k| - 1] == 'C';
    SuffixCancels(da, db, if a.checkingDisabled then ":C" else "");
    assert a.dnssecOk <==> da[|da| - 1] == 'D';
    assert b.dnssecOk <==> da[|da| - 1] == 'D';
    SuffixCancels(ta, tb, if a.dnssecOk then ":D" else "");
    TypedInjective(a.name, a.qtype, b.name, b.qtype);
  }
}
