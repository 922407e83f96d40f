/**
 The textual key of a battle chunk, `dimension|x|z`, and its parser. A dimension is any text; coordinates are 32-bit.
 */
module BattleKeys {
  import opened Prelude
  import opened BattleLog

  // ---------------------------------------------------------------- integers as text

  function DigitChar(d: nat): (c: char)
    requires d < 10
  {
    "0123456789"[d]
  }

  function DigitValue(c: char): (r: nat)
    requires '0' <= c <= '9'
    ensures r < 10 && DigitChar(r) == c
  {
    (c - '0') as nat
  }

  function FormatNat(n: nat): (s: string)
    ensures s != [] && forall i :: 0 <= i < |s| ==> '0' <= s[i] <= '9'
  {
    if n < 10 then [DigitChar(n)] else FormatNat(n / 10) + [DigitChar(n % 10)]
  }

  function FormatInt(n: int): (s: string)
    ensures s != [] && '|' !in s
  {
    if n < 0 then "-" + FormatNat(-n) else FormatNat(n)
  }

  /** The number a text of digits stands for; anything else stands for none. */
  function ParseNat(s: string): (r: Option<nat>) {
    if s == [] then None
    else
      var last := s[|s| - 1];
      if !('0' <= last <= '9') then None
      else if |s| == 1 then Some(DigitValue(last))
      else
        var front := ParseNat(s[..|s| - 1]);
        if front.None? then None else Some(10 * front.value + DigitValue(last))
  }

  /** An optional sign and digits, within 32 bits. */
  function ParseI32(s: string): (r: Option<Int32>) {
    if s == [] then None
    else
      var signed := s[0] == '-' || s[0] == '+';
      var digits := ParseNat(if signed then s[1..] else s);
      if digits.None? then None
      else
        var n := if s[0] == '-' then 0 - digits.value else digits.value + 0;
        if IsI32(n) then Some(n) else None
  }

  lemma {:induction false} NatRoundTrip(n: nat)
    ensures ParseNat(FormatNat(n)) == Some(n)
  {
    if n >= 10 {
      NatRoundTrip(n / 10);
      LastDigit(FormatNat(n / 10), n % 10);
    } else {
      OneDigit(n);
    }
  }

  lemma OneDigit(d: nat)
    requires d < 10
    ensures ParseNat([DigitChar(d)]) == Some(d)
  {
  }

  lemma LastDigit(front: string, d: nat)
    requires front != [] && d < 10
    ensures ParseNat(front + [DigitChar(d)])
            == if ParseNat(front).Some? then Some(10 * ParseNat(front).value + d) else None
  {
    var s := front + [DigitChar(d)];
    assert s[..|s| - 1] == front && s[|s| - 1] == DigitChar(d);
    assert '0' <= DigitChar(d) <= '9' && DigitValue(DigitChar(d)) == d;
  }

  lemma IntRoundTrip(n: int)
    ensures ParseI32(FormatInt(n)) == if -0x8000_0000 <= n <= 0x7FFF_FFFF then Some(n) else None
  {
    hide ParseNat, FormatNat;
    var s := FormatInt(n);
    if n < 0 {
      NatRoundTrip(-n);
      assert s[0] == '-' && s[1..] == FormatNat(-n);
    } else {
      NatRoundTrip(n);
      assert '0' <= s[0] <= '9';
    }
  }

  /** The text is the usual one: a sign exactly for negative numbers, then digits without leading zeros. */
  lemma IntSpelled(n: int)
    ensures FormatInt(n)[0] == '-' <==> n < 0
    ensures var digits := if n < 0 then FormatInt(n)[1..] else FormatInt(n);
            digits != [] && (forall c :: c in digits ==> '0' <= c <= '9') && (|digits| > 1 ==> digits[0] != '0')
  {
    NoLeadingZero(if n < 0 then -n else n);
    if n < 0 {
      assert FormatInt(n)[1..] == FormatNat(-n);
    }
  }

  lemma {:induction false} NoLeadingZero(n: nat)
    ensures FormatNat(n)[0] == '0' <==> n == 0
  {
    if n >= 10 {
      NoLeadingZero(n / 10);
      assert FormatNat(n)[0] == FormatNat(n / 10)[0];
    }
  }

  // ---------------------------------------------------------------- keys

  function BattleKey(k: ChunkKey): (s: string) {
    k.dimension + "|" + FormatInt(k.chunkX) + "|" + FormatInt(k.chunkZ)
  }

  /** A key spelled out: the dimension as it is, then x, then z. */
  lemma KeySpelled(k: ChunkKey) returns (x: string, z: string)
    ensures BattleKey(k) == k.dimension + "|" + x + "|" + z && '|' !in x && '|' !in z
    ensures ParseI32(x) == Some(k.chunkX) && ParseI32(z) == Some(k.chunkZ)
  {
    IntRoundTrip(k.chunkX);
    IntRoundTrip(k.chunkZ);
    x, z := FormatInt(k.chunkX), FormatInt(k.chunkZ);
  }

  /** The position of the last bar. */
  function LastBar(s: string): (r: Option<nat>)
    ensures r.Some? ==> r.value < |s| && s[r.value] == '|' && forall i :: r.value < i < |s| ==> s[i] != '|'
    ensures r.None? ==> forall i :: 0 <= i < |s| ==> s[i] != '|'
  {
    if s == [] then None
    else if s[|s| - 1] == '|' then Some(|s| - 1)
    else LastBar(s[..|s| - 1])
  }

  /** Splits at the last two bars; whatever comes before them is the dimension. */
  function ParseBattleKey(s: string): (r: Option<ChunkKey>) {
    var second := LastBar(s);
    if second.None? then None
    else
      var first := LastBar(s[..second.value]);
      if first.None? then None
      else
        var x, z := ParseI32(s[first.value + 1..second.value]), ParseI32(s[second.value + 1..]);
        if x.None? || z.None? then None else Some(ChunkKey(s[..first.value], x.value, z.value))
  }

  lemma LastBarAt(s: string, p: nat)
    requires p < |s| && s[p] == '|' && '|' !in s[p + 1..]
    ensures LastBar(s) == Some(p)
  {
  }

  lemma LastBarOf(front: string, tail: string)
    requires '|' !in tail
    ensures LastBar(front + "|" + tail) == Some(|front|)
  {
    var s := front + "|" + tail;
    assert s[|front| + 1..] == tail;
    LastBarAt(s, |front|);
  }

  /** Every dimension, with or without bars of its own, and every pair of 32-bit coordinates come back. */
  lemma KeyRoundTrip(k: ChunkKey)
    ensures ParseBattleKey(BattleKey(k)) == Some(k)
  {
    var x, z, s := FormatInt(k.chunkX), FormatInt(k.chunkZ), BattleKey(k);
    var front := k.dimension + "|" + x;
    assert s == front + "|" + z;
    LastBarOf(front, z);
    assert s[..|front|] == front;
    LastBarOf(k.dimension, x);
    assert s[|k.dimension| + 1..|front|] == x;
    assert s[|front| + 1..] == z;
    assert s[..|k.dimension|] == k.dimension;
    IntRoundTrip(k.chunkX);
    IntRoundTrip(k.chunkZ);
  }

  /** Different chunks have different keys. */
  lemma KeysAreInjective(j: ChunkKey, k: ChunkKey)
    requires BattleKey(j) == BattleKey(k)
    ensures j == k
  {
    KeyRoundTrip(j);
    KeyRoundTrip(k);
  }
}
