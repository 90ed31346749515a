/** MongoDB object identifiers as the route handlers see them: the `:id`
    path parameter is accepted only when it is the 24-digit hexadecimal text
    of a 12-byte identifier (`ObjectId.isValid`), and `new ObjectId(id)`
    reads that text as a number. */
module ObjectIds {
  import opened Wrappers

  /** 2^96: an identifier is twelve bytes. */
  const IdSpace: nat := 0x1_0000_0000_0000_0000_0000_0000

  const IdDigits: nat := 24

  type ObjectId = n: nat | n < IdSpace

  predicate IsHexDigit(c: char)
  {
    '0' <= c <= '9' || 'a' <= c <= 'f' || 'A' <= c <= 'F'
  }

  function HexDigitValue(c: char): (d: nat)
    requires IsHexDigit(c)
    ensures d < 16
  {
    if '0' <= c <= '9' then c as int - '0' as int
    else if 'a' <= c <= 'f' then c as int - 'a' as int + 10
    else c as int - 'A' as int + 10
  }

  /** The syntax `ObjectId.isValid` accepts for a string. */
  predicate ValidId(s: string)
  {
    |s| == IdDigits && forall i :: 0 <= i < |s| ==> IsHexDigit(s[i])
  }

  function Pow16(k: nat): (p: nat)
    ensures p >= 1
  {
    if k == 0 then 1 else 16 * Pow16(k - 1)
  }

  lemma IdSpaceIsPow16()
    ensures Pow16(IdDigits) == IdSpace
  {
    assert Pow16(6) == 0x100_0000;
    assert Pow16(12) == 0x1_0000_0000_0000 by { Pow16Add(6, 6); }
    Pow16Add(12, 12);
  }

  lemma {:induction false} Pow16Add(a: nat, b: nat)
    ensures Pow16(a + b) == Pow16(a) * Pow16(b)
    decreases b
  {
    if b > 0 {
      Pow16Add(a, b - 1);
      assert Pow16(a + b) == 16 * Pow16(a + b - 1);
    }
  }

  /** The number written by the hexadecimal digits `s`, most significant first. */
  function HexValue(s: string): (n: nat)
    requires forall i :: 0 <= i < |s| ==> IsHexDigit(s[i])
    ensures n < Pow16(|s|)
    decreases |s|
  {
    if s == [] then 0 else HexValue(s[..|s| - 1]) * 16 + HexDigitValue(s[|s| - 1])
  }

  /** `ObjectId.isValid(s) ? new ObjectId(s) : <invalid>`. */
  function ParseId(s: string): (r: Option<ObjectId>)
    ensures r.Some? <==> ValidId(s)
  {
    if ValidId(s) then
      IdSpaceIsPow16();
      Some(HexValue(s))
    else None
  }

  function HexChar(d: nat): (c: char)
    requires d < 16
    ensures IsHexDigit(c) && HexDigitValue(c) == d
  {
    if d < 10 then ('0' as int + d) as char else ('a' as int + d - 10) as char
  }

  /** The last `k` hexadecimal digits of `n`, lower case, most significant first. */
  function HexDigits(n: nat, k: nat): (s: string)
    ensures |s| == k
    ensures forall i :: 0 <= i < |s| ==> IsHexDigit(s[i])
    decreases k
  {
    if k == 0 then [] else HexDigits(n / 16, k - 1) + [HexChar(n % 16)]
  }

  /** `id.toHexString()`: the form in which an identifier leaves the service. */
  function ToHex(id: ObjectId): (s: string)
    ensures ValidId(s)
  {
    HexDigits(id, IdDigits)
  }

  lemma {:induction false} HexDigitsValue(n: nat, k: nat)
    requires n < Pow16(k)
    ensures HexValue(HexDigits(n, k)) == n
    decreases k
  {
    if k > 0 {
      var s := HexDigits(n, k);
      assert n / 16 < Pow16(k - 1);
      HexDigitsValue(n / 16, k - 1);
      assert s[..|s| - 1] == HexDigits(n / 16, k - 1);
      assert s[|s| - 1] == HexChar(n % 16);
    }
  }

  /** Parsing the text of an identifier gives the identifier back, so every
      stored record can be addressed through the `:id` routes. */
  lemma ParseToHex(id: ObjectId)
    ensures ParseId(ToHex(id)) == Some(id)
  {
    IdSpaceIsPow16();
    HexDigitsValue(id, IdDigits);
  }
}
