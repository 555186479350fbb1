/**
 * Block names of the block-staged write: block number `k` is named
 * `base64.StdEncoding.EncodeToString([]byte(fmt.Sprintf("%011d\n", k)))`.
 * The number can be read back from the name, so distinct numbers give distinct names.
 */
module BlockIds {

  import opened Common
  import Base64

  function Digit(d: nat): char
    requires d < 10
  {
    ('0' as int + d) as char
  }

  function DigitValue(c: char): nat
  {
    if '0' <= c <= '9' then c as int - '0' as int else 0
  }

  /** Decimal representation of `k` (`%d`). */
  function Itoa(k: nat): (r: string)
    ensures |r| >= 1 && forall i :: 0 <= i < |r| ==> '0' <= r[i] <= '9'
  {
    if k < 10 then [Digit(k)] else Itoa(k / 10) + [Digit(k % 10)]
  }

  /** `fmt.Sprintf("%011d", k)`: the decimal representation, left-padded with zeros to 11 digits. */
  function Pad11(k: nat): (r: string)
    ensures forall i :: 0 <= i < |r| ==> '0' <= r[i] <= '9'
  {
    var digits := Itoa(k);
    if |digits| >= 11 then digits else Zeros(11 - |digits|) + digits
  }

  function Zeros(n: nat): (z: string)
    ensures |z| == n && forall i :: 0 <= i < n ==> z[i] == '0'
  {
    seq(n, _ => '0')
  }

  /** The number a string of decimal digits stands for. */
  function Value(s: string): nat
  {
    if s == [] then 0 else Value(s[..|s| - 1]) * 10 + DigitValue(s[|s| - 1])
  }

  /** The bytes of an ASCII string (Go's `[]byte(s)`). */
  function AsciiBytes(s: string): (bs: seq<byte>)
    requires forall i :: 0 <= i < |s| ==> s[i] as int < 256
    ensures |bs| == |s|
  {
    seq(|s|, i requires 0 <= i < |s| => s[i] as int as byte)
  }

  function AsciiChars(bs: seq<byte>): (s: string)
    ensures |s| == |bs|
  {
    seq(|bs|, i requires 0 <= i < |bs| => bs[i] as char)
  }

  /** The name of block number `k`. */
  function BlockId(k: nat): string
  {
    var text := Pad11(k) + "\n";
    Base64.Encode(AsciiBytes(text))
  }

  /** The block number written in a block name: decode, drop the final newline, read the digits. */
  function BlockNumber(id: string): nat
  {
    var text := AsciiChars(Base64.Decode(id));
    if text == [] then 0 else Value(text[..|text| - 1])
  }

  lemma {:induction false} ValueItoa(k: nat)
    ensures Value(Itoa(k)) == k
  {
    if k >= 10 {
      var s := Itoa(k);
      assert s[..|s| - 1] == Itoa(k / 10);
      ValueItoa(k / 10);
    }
  }

  lemma {:induction false} ValueZeros(n: nat)
    ensures Value(Zeros(n)) == 0
  {
    if n > 0 {
      assert Zeros(n)[..n - 1] == Zeros(n - 1);
      ValueZeros(n - 1);
    }
  }

  /** Leading zeros do not change the value of a digit string. */
  lemma {:induction false} ValueLeadingZeros(n: nat, s: string)
    ensures Value(Zeros(n) + s) == Value(s)
    decreases |s|
  {
    if s == [] {
      assert Zeros(n) + s == Zeros(n);
      ValueZeros(n);
    } else {
      var t := Zeros(n) + s;
      assert t[..|t| - 1] == Zeros(n) + s[..|s| - 1];
      ValueLeadingZeros(n, s[..|s| - 1]);
    }
  }

  lemma ValuePad11(k: nat)
    ensures Value(Pad11(k)) == k
  {
    ValueItoa(k);
    var digits := Itoa(k);
    if |digits| < 11 {
      ValueLeadingZeros(11 - |digits|, digits);
    }
  }

  /** The number of a block can be read back from its name. */
  lemma BlockNumberOfId(k: nat)
    ensures BlockNumber(BlockId(k)) == k
  {
    var text := Pad11(k) + "\n";
    var bs := AsciiBytes(text);
    Base64.DecodeEncode(bs);
    assert AsciiChars(bs) == text;
    assert text[..|text| - 1] == Pad11(k);
    ValuePad11(k);
  }

  /** Distinct block numbers give distinct block names. */
  lemma BlockIdInjective(j: nat, k: nat)
    ensures BlockId(j) == BlockId(k) <==> j == k
  {
    BlockNumberOfId(j);
    BlockNumberOfId(k);
  }
}
