/** `toHumanSize` of src/initializer.cc:46-57: a byte count scaled down by
    1024 until it is at most 1024 or the largest suffix is reached, printed
    as the number, one space and the suffix.

    The size is an unsigned 64-bit `size_t`; the shift `size >>= 10` on an
    unsigned value is division by 1024 rounding down, which is how the model
    writes it. */
module HumanSize {

  const Suffixes: seq<string> := ["B", "KB", "MB", "GB", "TB", "PB"]

  const SizeLimit: nat := 0x1_0000_0000_0000_0000

  /** The size after k shifts right by 10 bits, each a division by 1024
      rounding down. */
  function Scaled(size: nat, k: nat): (n: nat)
    ensures n <= size
  {
    if k == 0 then size else Scaled(size, k - 1) / 1024
  }

  /** Decimal digits of a natural number, most significant first, as an
      output stream writes it. */
  function Decimal(n: nat): (s: string)
    ensures |s| >= 1
    ensures forall i :: 0 <= i < |s| ==> '0' <= s[i] <= '9'
    ensures |s| > 1 ==> s[0] != '0'
  {
    if n < 10 then [DigitChar(n)]
    else Decimal(n / 10) + [DigitChar(n % 10)]
  }

  function DigitChar(d: nat): (c: char)
    requires d < 10
    ensures '0' <= c <= '9' && (c as int) - ('0' as int) == d
  {
    ('0' as int + d) as char
  }

  /** Reads a string of decimal digits back as a number. */
  function Parse(s: string): nat
    requires forall i :: 0 <= i < |s| ==> '0' <= s[i] <= '9'
  {
    if s == [] then 0
    else 10 * Parse(s[..|s| - 1]) + ((s[|s| - 1] as int) - ('0' as int))
  }

  lemma {:induction false} ParseDecimal(n: nat)
    ensures Parse(Decimal(n)) == n
  {
    if n >= 10 {
      var s := Decimal(n);
      assert s[..|s| - 1] == Decimal(n / 10);
      ParseDecimal(n / 10);
    }
  }

  /** The suffix index k the loop settles on, stated without the loop: at
      most 5; the scaled size is at most 1024 unless k is 5; and every
      earlier scaling was still above 1024. */
  predicate Settles(size: nat, k: nat)
  {
    && k < |Suffixes|
    && (Scaled(size, k) <= 1024 || k == |Suffixes| - 1)
    && forall j :: 0 <= j < k ==> Scaled(size, j) > 1024
  }

  /** The scaling loop and the formatting. */
  method ToHumanSize(size: nat) returns (text: string)
    ensures exists k: nat :: Settles(size, k) && text == Decimal(Scaled(size, k)) + " " + Suffixes[k]
  {
    var n := size;
    var k := 0;
    while k < |Suffixes| - 1 && n > 1024
      invariant 0 <= k < |Suffixes|
      invariant n == Scaled(size, k)
      invariant forall j :: 0 <= j < k ==> Scaled(size, j) > 1024
    {
      n := n / 1024;
      k := k + 1;
    }
    text := Decimal(n) + " " + Suffixes[k];
  }

  /** Only one suffix index fits the description. */
  lemma SettlesUnique(size: nat, k1: nat, k2: nat)
    requires Settles(size, k1) && Settles(size, k2)
    ensures k1 == k2
  {
  }

  /** Sizes up to 1024 bytes, 1024 included, are printed unchanged in B. */
  lemma SmallSizesInBytes(size: nat)
    requires size <= 1024
    ensures Settles(size, 0)
  {
  }

  /** A 64-bit size never needs more than five digits even in PB, since
      2^64 / 1024^5 = 2^14. */
  lemma {:induction false} PetabyteBound(size: nat)
    requires size < SizeLimit
    ensures Scaled(size, 5) < 16384
  {
    assert Scaled(size, 1) < 18014398509481984;
    assert Scaled(size, 2) < 17592186044416;
    assert Scaled(size, 3) < 17179869184;
    assert Scaled(size, 4) < 16777216;
  }

  /** The number in the output reads back as the scaled size, and the
      suffix follows the only space. */
  lemma OutputReadsBack(size: nat, k: nat)
    requires Settles(size, k)
    ensures var text := Decimal(Scaled(size, k)) + " " + Suffixes[k];
      var d := |Decimal(Scaled(size, k))|;
      && text[d] == ' '
      && (forall i :: 0 <= i < |text| && i != d ==> text[i] != ' ')
      && Parse(text[..d]) == Scaled(size, k)
      && text[d + 1..] == Suffixes[k]
  {
    var text := Decimal(Scaled(size, k)) + " " + Suffixes[k];
    var d := |Decimal(Scaled(size, k))|;
    assert text[..d] == Decimal(Scaled(size, k));
    ParseDecimal(Scaled(size, k));
    assert forall t :: t in Suffixes ==> ' ' !in t;
    forall i | d < i < |text|
      ensures text[i] != ' '
    {
      assert text[i] == Suffixes[k][i - d - 1];
    }
  }
}
