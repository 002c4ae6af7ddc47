/**
 * String helpers the source takes from JavaScript's standard library:
 * `String.prototype.includes`, `Number.prototype.toString` on non-negative
 * integers and `padStart(2, '0')`.
 */
module Text {

  /** `sub` occurs in `s` at index `i`. */
  predicate OccursAt(s: string, sub: string, i: nat) {
    i + |sub| <= |s| && s[i..i + |sub|] == sub
  }

  /** The specification of `s.includes(sub)`: some index where `sub` occurs. */
  ghost predicate Occurs(s: string, sub: string) {
    exists i: nat :: OccursAt(s, sub, i)
  }

  lemma OccursShift(s: string, sub: string, i: nat)
    requires |s| > 0
    ensures OccursAt(s[1..], sub, i) <==> OccursAt(s, sub, i + 1)
  {
    if i + |sub| <= |s[1..]| {
      assert s[1..][i..i + |sub|] == s[i + 1..i + 1 + |sub|];
    }
  }

  /** Text put in front of `m` keeps every occurrence `m` has. */
  lemma OccursInSuffix(p: string, m: string, sub: string)
    requires Occurs(m, sub)
    ensures Occurs(p + m, sub)
  {
    var j: nat :| OccursAt(m, sub, j);
    assert (p + m)[j + |p|..j + |p| + |sub|] == m[j..j + |sub|];
    assert OccursAt(p + m, sub, j + |p|);
  }

  /** A prefix without the first character of `sub` adds no occurrence of it. */
  lemma {:induction false} OccursAfterPrefix(p: string, m: string, sub: string)
    requires |sub| > 0 && sub[0] !in p
    requires Occurs(p + m, sub)
    ensures Occurs(m, sub)
    decreases |p|
  {
    if |p| > 0 {
      var s := p + m;
      var i: nat :| OccursAt(s, sub, i);
      assert s[i] == sub[0];
      assert i > 0 by {
        assert s[0] == p[0];
      }
      OccursShift(s, sub, i - 1);
      assert s[1..] == p[1..] + m;
      assert OccursAt(p[1..] + m, sub, i - 1);
      OccursAfterPrefix(p[1..], m, sub);
    } else {
      assert p + m == m;
    }
  }

  /** `s.includes(sub)`, computed by scanning left to right. */
  function Includes(s: string, sub: string): (b: bool)
    ensures b <==> Occurs(s, sub)
    decreases |s|
  {
    if |sub| > |s| then
      false
    else if s[..|sub|] == sub then
      assert OccursAt(s, sub, 0);
      true
    else
      assert !OccursAt(s, sub, 0);
      assert forall i: nat :: OccursAt(s[1..], sub, i) <==> OccursAt(s, sub, i + 1) by {
        forall i: nat ensures OccursAt(s[1..], sub, i) <==> OccursAt(s, sub, i + 1) {
          OccursShift(s, sub, i);
        }
      }
      assert Occurs(s, sub) ==> Occurs(s[1..], sub) by {
        if Occurs(s, sub) {
          var i: nat :| OccursAt(s, sub, i);
          assert i > 0;
          assert OccursAt(s[1..], sub, i - 1);
        }
      }
      Includes(s[1..], sub)
  }

  predicate IsDigit(c: char) {
    '0' <= c <= '9'
  }

  predicate AllDigits(s: string) {
    forall k :: 0 <= k < |s| ==> IsDigit(s[k])
  }

  function DigitChar(d: nat): (c: char)
    requires d < 10
    ensures IsDigit(c) && c as int - '0' as int == d
  {
    ['0', '1', '2', '3', '4', '5', '6', '7', '8', '9'][d]
  }

  function DigitValue(c: char): (d: nat)
    requires IsDigit(c)
    ensures d < 10
  {
    c as int - '0' as int
  }

  /** `n.toString()` for a non-negative integer: the shortest decimal numeral. */
  function Decimal(n: nat): (r: string)
    ensures 1 <= |r|
    ensures AllDigits(r)
    ensures |r| > 1 ==> r[0] != '0'
  {
    if n < 10 then [DigitChar(n)] else Decimal(n / 10) + [DigitChar(n % 10)]
  }

  /** The value of a decimal numeral; leading zeros are allowed. */
  function ParseDecimal(s: string): nat
    requires AllDigits(s)
  {
    if |s| == 0 then 0 else ParseDecimal(s[..|s| - 1]) * 10 + DigitValue(s[|s| - 1])
  }

  lemma {:induction false} ParseDecimalOfDecimal(n: nat)
    ensures ParseDecimal(Decimal(n)) == n
  {
    if n >= 10 {
      var r := Decimal(n);
      assert r[..|r| - 1] == Decimal(n / 10);
      ParseDecimalOfDecimal(n / 10);
    }
  }

  lemma {:induction false} ParseDecimalLeadingZero(s: string)
    requires AllDigits(s)
    ensures ParseDecimal("0" + s) == ParseDecimal(s)
  {
    if |s| > 0 {
      assert ("0" + s)[..|"0" + s| - 1] == "0" + s[..|s| - 1];
      ParseDecimalLeadingZero(s[..|s| - 1]);
    }
  }

  /** `s.padStart(2, '0')`. */
  function PadStart2(s: string): (r: string)
    ensures |s| >= 2 ==> r == s
    ensures |s| < 2 ==> |r| == 2 && r[2 - |s|..] == s && forall k :: 0 <= k < 2 - |s| ==> r[k] == '0'
  {
    if |s| == 0 then "00" else if |s| == 1 then "0" + s else s
  }

  /** A number rendered by `n.toString().padStart(2, '0')`: at least two digits, same value. */
  lemma PaddedDecimalValue(n: nat)
    ensures AllDigits(PadStart2(Decimal(n)))
    ensures |PadStart2(Decimal(n))| >= 2
    ensures ParseDecimal(PadStart2(Decimal(n))) == n
  {
    ParseDecimalOfDecimal(n);
    if |Decimal(n)| == 1 {
      ParseDecimalLeadingZero(Decimal(n));
    }
  }
}
