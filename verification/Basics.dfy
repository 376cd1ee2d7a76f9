/** Decimal and hexadecimal text, and the byte type, shared by the other modules. */
module Basics {

  type byte = b: int | 0 <= b < 256

  datatype Option<+T> = None | Some(value: T)

  predicate IsDigit(c: char) { '0' <= c <= '9' }

  predicate IsHexDigit(c: char) { IsDigit(c) || 'a' <= c <= 'f' }

  function Digit(n: nat): (c: char)
    requires n < 16
    ensures IsHexDigit(c) && (n < 10 ==> IsDigit(c))
  {
    if n < 10 then ('0' as int + n) as char else ('a' as int + n - 10) as char
  }

  function HexValue(c: char): (n: nat)
    requires IsHexDigit(c)
    ensures n < 16 && Digit(n) == c
    ensures IsDigit(c) ==> n < 10
  {
    if IsDigit(c) then c as int - '0' as int else c as int - 'a' as int + 10
  }

  /** Decimal digits of n, most significant first. */
  function Decimal(n: nat): (s: string)
    ensures s != "" && forall c <- s :: IsDigit(c)
  {
    if n < 10 then [Digit(n)] else Decimal(n / 10) + [Digit(n % 10)]
  }

  /** n zero-padded on the left to at least w characters, as "%0wd" does. */
  function Padded(n: nat, w: nat): (s: string)
    ensures s != "" && |s| >= w && forall c <- s :: IsDigit(c)
  {
    Zeros(w - |Decimal(n)|) + Decimal(n)
  }

  function Zeros(k: int): (s: string)
    ensures k >= 0 ==> |s| == k
    ensures forall c <- s :: c == '0'
  {
    if k <= 0 then "" else "0" + Zeros(k - 1)
  }

  lemma Padded2(n: nat)
    requires n < 100
    ensures Padded(n, 2) == [Digit(n / 10), Digit(n % 10)]
  {
    if n < 10 {
      assert Zeros(1) == "0" + Zeros(0);
      assert Decimal(n) == [Digit(n)];
    } else {
      assert Decimal(n / 10) == [Digit(n / 10)];
    }
  }

  function Hex(bytes: seq<byte>): (s: string)
    ensures |s| == 2 * |bytes| && forall c <- s :: IsHexDigit(c)
  {
    if bytes == [] then "" else [Digit(bytes[0] / 16), Digit(bytes[0] % 16)] + Hex(bytes[1..])
  }

  function Unhex(s: string): seq<byte>
    requires |s| % 2 == 0 && forall c <- s :: IsHexDigit(c)
  {
    if s == "" then [] else [16 * HexValue(s[0]) + HexValue(s[1])] + Unhex(s[2..])
  }

  lemma {:induction false} UnhexHex(bytes: seq<byte>)
    ensures Unhex(Hex(bytes)) == bytes
  {
    if bytes != [] {
      UnhexHex(bytes[1..]);
      assert Hex(bytes)[2..] == Hex(bytes[1..]);
    }
  }
}
