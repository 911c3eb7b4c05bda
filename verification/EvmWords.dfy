/** EVM words and encoded bytes (core/utils/ethabi.go, EVMBytesToUint64 in
    core/utils/utils.go): big-endian, as section "Formal Specification of the
    Encoding" of the Solidity Contract ABI Specification has it. */
module EvmWords {
  import opened Options

  type byte = x: int | 0 <= x < 256
  type uint64 = x: int | 0 <= x < 0x1_0000_0000_0000_0000

  const TWO_64: int := 0x1_0000_0000_0000_0000
  const EVM_WORD_BYTE_LEN: nat := 32

  // --------------------------------------------------------------- arithmetic

  function Pow2(k: nat): (r: nat)
    ensures r > 0
  {
    if k == 0 then 1 else 2 * Pow2(k - 1)
  }

  function Pow256(k: nat): (r: nat)
    ensures r > 0
  {
    if k == 0 then 1 else 256 * Pow256(k - 1)
  }

  const TWO_128: int := 0x1_0000_0000_0000_0000_0000_0000_0000_0000
  const TWO_255: int := 0x8000_0000_0000_0000_0000_0000_0000_0000_0000_0000_0000_0000_0000_0000_0000_0000
  const TWO_256: int := 0x1_0000_0000_0000_0000_0000_0000_0000_0000_0000_0000_0000_0000_0000_0000_0000_0000

  lemma PowersAreTheConstants()
    ensures Pow2(128) == TWO_128 && Pow2(255) == TWO_255 && Pow256(32) == TWO_256 && Pow256(8) == TWO_64
  {
    assert Pow256(8) == TWO_64;
    Powers(8, 8);
    assert Pow256(16) == TWO_64 * TWO_64;
    Powers(16, 16);
    assert Pow256(32) == TWO_128 * TWO_128;
    EightBitsPerByte(16);
    EightBitsPerByte(32);
    assert Pow2(256) == 2 * Pow2(255);
  }

  lemma {:induction false} Powers(j: nat, k: nat)
    ensures Pow256(j + k) == Pow256(j) * Pow256(k)
    decreases k
  {
    if k > 0 {
      Powers(j, k - 1);
      assert Pow256(j) * (256 * Pow256(k - 1)) == 256 * (Pow256(j) * Pow256(k - 1));
    }
  }

  lemma {:induction false} EightBitsPerByte(k: nat)
    ensures Pow256(k) == Pow2(8 * k)
  {
    if k > 0 {
      EightBitsPerByte(k - 1);
      var j := 8 * k - 8;
      assert Pow2(j + 8) == 2 * Pow2(j + 7) == 4 * Pow2(j + 6) == 8 * Pow2(j + 5) == 16 * Pow2(j + 4);
      assert Pow2(j + 4) == 2 * Pow2(j + 3) == 4 * Pow2(j + 2) == 8 * Pow2(j + 1) == 16 * Pow2(j);
    }
  }

  // The file's constants.
  const MAX_UINT256: int := TWO_256 - 1
  const MAX_INT256: int := MAX_UINT256 / 2
  const MIN_INT256: int := -MAX_INT256

  // --------------------------------------------------------- big-endian bytes

  /** The number a sequence of bytes stands for, most significant byte first. */
  function Value(bytes: seq<byte>): (r: nat)
    ensures r < Pow256(|bytes|)
  {
    if bytes == [] then 0 else Value(bytes[..|bytes| - 1]) * 256 + bytes[|bytes| - 1]
  }

  /** big.Int.Bytes: the absolute value without leading zeros. */
  function Bytes(n: nat): (r: seq<byte>)
    ensures Value(r) == n
  {
    if n == 0 then [] else Bytes(n / 256) + [n % 256]
  }

  lemma {:induction false} BytesLength(n: nat, k: nat)
    ensures |Bytes(n)| <= k <==> n < Pow256(k)
    decreases k
  {
    if k > 0 && n > 0 {
      BytesLength(n / 256, k - 1);
      assert n < 256 * Pow256(k - 1) <==> n / 256 < Pow256(k - 1);
    }
  }

  function BitLen(n: nat): nat { if n == 0 then 0 else 1 + BitLen(n / 2) }

  lemma {:induction false} BitLenBound(n: nat, k: nat)
    ensures BitLen(n) <= k <==> n < Pow2(k)
    decreases k
  {
    if k > 0 && n > 0 {
      BitLenBound(n / 2, k - 1);
    }
  }

  function Zeros(n: nat): (r: seq<byte>)
    ensures |r| == n && forall i :: 0 <= i < n ==> r[i] == 0
  {
    seq(n, _ => 0)
  }

  /** common.LeftPadBytes, for what fits. */
  function LeftPad(bytes: seq<byte>, length: nat): seq<byte> {
    if |bytes| < length then Zeros(length - |bytes|) + bytes else bytes
  }

  lemma {:induction false} PaddingKeepsValue(n: nat, bytes: seq<byte>)
    ensures Value(Zeros(n) + bytes) == Value(bytes)
    decreases n + |bytes|
  {
    var all := Zeros(n) + bytes;
    if bytes != [] {
      assert all[..|all| - 1] == Zeros(n) + bytes[..|bytes| - 1];
      PaddingKeepsValue(n, bytes[..|bytes| - 1]);
    } else if n > 0 {
      assert all[..|all| - 1] == Zeros(n - 1) + [];
      PaddingKeepsValue(n - 1, []);
    }
  }

  lemma {:induction false} ValueIsInjective(a: seq<byte>, b: seq<byte>)
    requires |a| == |b| && Value(a) == Value(b)
    ensures a == b
    decreases |a|
  {
    if a != [] {
      var n := |a| - 1;
      assert Value(a) / 256 == Value(a[..n]) && Value(b) / 256 == Value(b[..n]);
      ValueIsInjective(a[..n], b[..n]);
      assert a == a[..n] + [a[n]] && b == b[..n] + [b[n]];
    }
  }

  /** A word holds exactly the numbers below 2^256. */
  lemma WordOf(n: nat)
    ensures |Bytes(n)| <= 32 <==> n < TWO_256
    ensures n < TWO_256 ==> |LeftPad(Bytes(n), 32)| == 32 && Value(LeftPad(Bytes(n), 32)) == n
  {
    PowersAreTheConstants();
    BytesLength(n, 32);
    if n < TWO_256 {
      PaddingKeepsValue(32 - |Bytes(n)|, Bytes(n));
    }
  }

  lemma BitLenOf(n: nat)
    ensures BitLen(n) <= 128 <==> n < TWO_128
    ensures BitLen(n) <= 255 <==> n < TWO_255
  {
    PowersAreTheConstants();
    BitLenBound(n, 128);
    BitLenBound(n, 255);
  }

  // ------------------------------------------------------------------- words

  datatype Result = Ok(word: seq<byte>) | Overflow | Negative

  function Abs(x: int): nat { if x < 0 then -x else x }

  /** A word exactly for the values below 2^128, and the value can be read back. A negative
      value of more than 128 bits is an overflow. */
  function EVMWordUint128(val: int): (r: Result)
    ensures r.Ok? <==> 0 <= val < TWO_128
    ensures r.Overflow? <==> val <= -TWO_128 || TWO_128 <= val
    ensures r.Ok? ==> |r.word| == 32 && Value(r.word) == val
  {
    BitLenOf(Abs(val));
    WordOf(Abs(val));
    var bytes := Bytes(Abs(val));
    if BitLen(Abs(val)) > 128 then Overflow
    else if val < 0 then Negative
    else Ok(LeftPad(bytes, EVM_WORD_BYTE_LEN))
  }

  /** A word exactly for the values a uint256 can hold. */
  function EVMWordBigInt(val: int): (r: Result)
    ensures r.Ok? <==> 0 <= val <= MAX_UINT256
    ensures r.Ok? ==> |r.word| == 32 && Value(r.word) == val
    ensures r.Negative? <==> val < 0
  {
    if val < 0 then Negative
    else
      WordOf(val);
      var bytes := Bytes(val);
      if |bytes| > EVM_WORD_BYTE_LEN then Overflow else Ok(LeftPad(bytes, EVM_WORD_BYTE_LEN))
  }

  /** Two's complement of 256 bits. */
  function Signed(word: seq<byte>): int {
    if Value(word) < TWO_255 then Value(word) else Value(word) - TWO_256
  }

  /** A word exactly for the values in [MinInt256, MaxInt256], and two's complement
      decoding gives the value back. The file's MinInt256 is -MaxInt256, so the
      smallest value the format could hold is refused. */
  function EVMWordSignedBigInt(val: int): (r: Result)
    ensures r.Ok? <==> MIN_INT256 <= val <= MAX_INT256
    ensures r.Overflow? <==> !r.Ok?
    ensures r.Ok? ==> |r.word| == 32 && Signed(r.word) == val
  {
    BitLenOf(Abs(val));
    if BitLen(Abs(val)) > 8 * EVM_WORD_BYTE_LEN - 1 then Overflow
    else
      var unsigned: nat := if val < 0 then val + MAX_UINT256 + 1 else val;
      WordOf(unsigned);
      Ok(LeftPad(Bytes(unsigned), EVM_WORD_BYTE_LEN))
  }

  /** The bounds of the check are those of two's complement but for one value. */
  lemma SignedDecodesOneMore(word: seq<byte>)
    requires |word| == 32
    ensures -TWO_255 <= Signed(word) < TWO_255
    ensures EVMWordSignedBigInt(Signed(word)).Ok? <==> Signed(word) != -TWO_255
    ensures Signed(word) != -TWO_255 ==> EVMWordSignedBigInt(Signed(word)) == Ok(word)
  {
    PowersAreTheConstants();
    assert Value(word) < Pow256(|word|);
    if Signed(word) != -TWO_255 {
      ValueIsInjective(word, EVMWordSignedBigInt(Signed(word)).word);
    }
  }

  // ------------------------------------------------------------------ uint64

  /** The last eight bytes of an otherwise empty word, written from the end. */
  method EVMWordUint64(val: uint64) returns (word: seq<byte>)
    ensures |word| == 32 && Value(word) == val
    ensures forall i :: 0 <= i < 24 ==> word[i] == 0
  {
    EightBytes();
    var buffer := new byte[EVM_WORD_BYTE_LEN](_ => 0);
    var rest: int := val;
    for i := 32 downto 24
      invariant forall k :: 0 <= k < i ==> buffer[k] == 0
      invariant 0 <= rest < Pow256(i - 24)
      invariant Combined(rest, buffer[i..]) == val
    {
      OneMoreByte(rest, buffer[i + 1..], i - 24);
      buffer[i] := rest % 256;
      assert buffer[i..] == [rest % 256] + buffer[i + 1..];
      rest := rest / 256;
    }
    word := buffer[..];
    LowBytesAreTheValue(word);
  }

  lemma LowBytesAreTheValue(word: seq<byte>)
    requires |word| == 32 && forall i :: 0 <= i < 24 ==> word[i] == 0
    ensures Value(word) == Value(word[24..])
  {
    PaddingKeepsValue(24, word[24..]);
    assert word == Zeros(24) + word[24..];
  }

  lemma EightBytes()
    ensures Pow256(8) == TWO_64 && Pow256(0) == 1
  {
  }

  /** The bytes that are written, below the bits that are not. */
  ghost function Combined(rest: int, low: seq<byte>): int { rest * Pow256(|low|) + Value(low) }

  lemma OneMoreByte(rest: int, low: seq<byte>, room: nat)
    requires 0 <= rest < Pow256(room + 1)
    ensures Combined(rest / 256, [rest % 256] + low) == Combined(rest, low)
    ensures rest / 256 < Pow256(room)
  {
    ValueCons(rest % 256, low);
    Shift(rest, Pow256(|low|));
    assert Pow256(room + 1) == 256 * Pow256(room);
    Digit(rest, Pow256(room));
  }

  lemma {:induction false} ValueCons(b: byte, bytes: seq<byte>)
    ensures Value([b] + bytes) == b * Pow256(|bytes|) + Value(bytes)
    decreases |bytes|
  {
    var all := [b] + bytes;
    if bytes != [] {
      var n := |bytes| - 1;
      assert all[..|all| - 1] == [b] + bytes[..n];
      ValueCons(b, bytes[..n]);
      Reassociate(b, Pow256(n));
    }
  }

  lemma Reassociate(b: int, scale: int)
    ensures (b * scale) * 256 == b * (256 * scale)
  {
  }

  lemma Digit(rest: int, bound: int)
    requires 0 <= rest < 256 * bound
    ensures rest / 256 < bound
  {
  }

  lemma Shift(rest: int, scale: int)
    ensures rest * scale == (rest / 256) * (256 * scale) + (rest % 256) * scale
  {
  }

  /** Shifts and adds in uint64, so only the value modulo 2^64 is left. */
  method EVMBytesToUint64(buf: seq<byte>) returns (result: uint64)
    ensures result == Value(buf) % TWO_64
  {
    result := 0;
    for i := 0 to |buf|
      invariant result == Value(buf[..i]) % TWO_64
    {
      assert buf[..i + 1][..i] == buf[..i];
      ShiftInUint64(Value(buf[..i]), buf[i]);
      result := ((result * 256) % TWO_64 + buf[i]) % TWO_64;
    }
    assert buf[..|buf|] == buf;
  }

  lemma ShiftInUint64(v: nat, b: byte)
    ensures ((v % TWO_64 * 256) % TWO_64 + b) % TWO_64 == (v * 256 + b) % TWO_64
  {
    var low := v % TWO_64;
    var over, kept := low * 256 / TWO_64, low * 256 % TWO_64;
    assert v * 256 + b == kept + b + TWO_64 * (v / TWO_64 * 256 + over);
    MultiplesVanish(kept + b, v / TWO_64 * 256 + over);
  }

  lemma MultiplesVanish(x: int, k: int)
    ensures (x + TWO_64 * k) % TWO_64 == x % TWO_64
  {
  }

  method Uint64RoundTrip(val: uint64) returns (back: uint64)
    ensures back == val
  {
    var word := EVMWordUint64(val);
    back := EVMBytesToUint64(word);
  }

  // ------------------------------------------------------------------- bytes

  function RoundToEVMWordBorder(length: nat): (r: nat)
    ensures r < 32 && (length + r) % 32 == 0
  {
    var mod := length % EVM_WORD_BYTE_LEN;
    if mod == 0 then 0 else EVM_WORD_BYTE_LEN - mod
  }

  /** The dynamic type `bytes`: its length in one word, then the bytes, then as few zero
      bytes as fill the last word. */
  function DecodeBytes(data: seq<byte>): Option<seq<byte>> {
    if |data| < 32 then None
    else
      var n := Value(data[..32]);
      if |data| != 32 + 32 * ((n + 31) / 32) then None
      else if data[32 + n..] == Zeros(|data| - 32 - n) then Some(data[32..32 + n])
      else None
  }

  /** Decoding gives the input back, and no other sequence of bytes decodes to it. */
  method EVMEncodeBytes(input: seq<byte>) returns (out: seq<byte>)
    requires |input| < TWO_64
    ensures |out| == 32 + 32 * ((|input| + 31) / 32)
    ensures DecodeBytes(out) == Some(input)
    ensures forall data :: DecodeBytes(data) == Some(input) ==> data == out
  {
    var length := |input|;
    var word := EVMWordUint64(length);
    var padding := Zeros(RoundToEVMWordBorder(length));
    out := word + input + padding;
    EncodedIsDecoded(word, input);
    DecodedOnce(out, input);
  }

  lemma EncodedIsDecoded(word: seq<byte>, input: seq<byte>)
    requires |word| == 32 && Value(word) == |input|
    ensures var out := word + input + Zeros(RoundToEVMWordBorder(|input|));
            |out| == 32 + 32 * ((|input| + 31) / 32) && DecodeBytes(out) == Some(input)
  {
    var n := |input|;
    var out := word + input + Zeros(RoundToEVMWordBorder(n));
    assert out[..32] == word && out[32..32 + n] == input && out[32 + n..] == Zeros(RoundToEVMWordBorder(n));
    RoundsUp(n);
  }

  lemma RoundsUp(n: nat)
    ensures n + RoundToEVMWordBorder(n) == 32 * ((n + 31) / 32)
  {
  }

  lemma DecodedOnce(out: seq<byte>, input: seq<byte>)
    requires DecodeBytes(out) == Some(input)
    ensures forall data :: DecodeBytes(data) == Some(input) ==> data == out
  {
    forall data | DecodeBytes(data) == Some(input)
      ensures data == out
    {
      DecodedParts(data, input);
      DecodedParts(out, input);
      ValueIsInjective(data[..32], out[..32]);
    }
  }

  lemma DecodedParts(data: seq<byte>, input: seq<byte>)
    requires DecodeBytes(data) == Some(input)
    ensures |data| == 32 + 32 * ((|input| + 31) / 32) && Value(data[..32]) == |input|
    ensures data == data[..32] + input + Zeros(|data| - 32 - |input|)
  {
  }
}
