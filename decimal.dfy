/** Decimal text of integers: `Number.prototype.toString()` and `parseInt`,
    which the complaint form uses to carry the selected guru and siswa ids in
    `<select>` values. */
module Decimal {
  import opened Domain

  predicate IsDigit(c: char)
  {
    '0' <= c <= '9'
  }

  function DigitValue(c: char): nat
    requires IsDigit(c)
  {
    c as int - '0' as int
  }

  function DigitChar(d: nat): (c: char)
    requires d < 10
    ensures IsDigit(c) && DigitValue(c) == d
  {
    ('0' as int + d) as char
  }

  /** The value of a run of digits, most significant first. */
  function DigitsValue(ds: Text): nat
    requires forall i :: 0 <= i < |ds| ==> IsDigit(ds[i])
  {
    if |ds| == 0 then 0 else DigitsValue(ds[..|ds| - 1]) * 10 + DigitValue(ds[|ds| - 1])
  }

  /** The length of the run of digits `t` starts with. */
  function DigitRun(t: Text): (k: nat)
    ensures k <= |t|
    ensures forall i :: 0 <= i < k ==> IsDigit(t[i])
    ensures k < |t| ==> !IsDigit(t[k])
  {
    if |t| == 0 || !IsDigit(t[0]) then 0 else 1 + DigitRun(t[1..])
  }

  /** `parseInt` without a sign: the value of the leading digits, or `None`
      (NaN) when there are none. */
  function ParseNat(t: Text): (r: Option<nat>)
    ensures r.None? <==> |t| == 0 || !IsDigit(t[0])
  {
    var k := DigitRun(t);
    if k == 0 then None else Some(DigitsValue(t[..k]))
  }

  /** `parseInt(t)` on text without leading white space: an optional sign, then
      the leading digits; `None` is NaN. */
  function ParseInt(t: Text): (r: Option<int>)
    ensures r.None? <==> (if |t| > 0 && (t[0] == '-' || t[0] == '+') then ParseNat(t[1..]).None? else ParseNat(t).None?)
    ensures r.Some? ==>
      var signed := |t| > 0 && (t[0] == '-' || t[0] == '+');
      var u := if signed then t[1..] else t;
      var magnitude := DigitsValue(u[..DigitRun(u)]);
      r.value == if |t| > 0 && t[0] == '-' then 0 - magnitude else magnitude
  {
    if |t| > 0 && t[0] == '-' then
      var n := ParseNat(t[1..]);
      if n.None? then None else Some(0 - n.value as int)
    else if |t| > 0 && t[0] == '+' then
      var n := ParseNat(t[1..]);
      if n.None? then None else Some(n.value)
    else
      var n := ParseNat(t);
      if n.None? then None else Some(n.value)
  }

  /** `parseInt` reads the leading digits and ignores whatever follows them. */
  lemma ParseNatIgnoresTail(ds: Text, rest: Text)
    requires |ds| > 0 && forall i :: 0 <= i < |ds| ==> IsDigit(ds[i])
    requires |rest| == 0 || !IsDigit(rest[0])
    ensures ParseNat(ds + rest) == Some(DigitsValue(ds))
  {
    DigitRunOfPrefix(ds, rest);
    assert (ds + rest)[..|ds|] == ds;
  }

  lemma {:induction false} DigitRunOfPrefix(ds: Text, rest: Text)
    requires forall i :: 0 <= i < |ds| ==> IsDigit(ds[i])
    requires |rest| == 0 || !IsDigit(rest[0])
    ensures DigitRun(ds + rest) == |ds|
    decreases |ds|
  {
    if |ds| > 0 {
      assert (ds + rest)[1..] == ds[1..] + rest;
      DigitRunOfPrefix(ds[1..], rest);
    } else {
      assert ds + rest == rest;
    }
  }

  /** `n.toString()` for a natural number. */
  function NatText(n: nat): (t: Text)
    ensures |t| > 0
    ensures forall i :: 0 <= i < |t| ==> IsDigit(t[i])
  {
    if n < 10 then [DigitChar(n)] else NatText(n / 10) + [DigitChar(n % 10)]
  }

  /** `i.toString()` for an integer. */
  function IntText(i: int): (t: Text)
    ensures |t| > 0
  {
    if i < 0 then "-" + NatText(-i) else NatText(i)
  }

  lemma {:induction false} NatTextValue(n: nat)
    ensures DigitsValue(NatText(n)) == n
    decreases n
  {
    if n >= 10 {
      NatTextValue(n / 10);
      var t := NatText(n);
      assert t[..|t| - 1] == NatText(n / 10);
    }
  }

  lemma NatTextRoundTrip(n: nat)
    ensures ParseNat(NatText(n)) == Some(n)
  {
    var t := NatText(n);
    ParseNatIgnoresTail(t, "");
    assert t + "" == t;
    NatTextValue(n);
  }

  /** `parseInt(i.toString()) === i`: the id written into a `<select>` value
      is read back unchanged. */
  lemma IntTextRoundTrip(i: int)
    ensures ParseInt(IntText(i)) == Some(i)
  {
    if i < 0 {
      NatTextRoundTrip(-i);
      assert IntText(i)[1..] == NatText(-i);
    } else {
      NatTextRoundTrip(i);
    }
  }

  /** The empty text is NaN, which the request body sends as `null`. */
  lemma EmptyIsNaN()
    ensures ParseInt("").None?
  {
  }
}
