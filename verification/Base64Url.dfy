/**
 The hand-written base64url codec (section 5 of RFC 4648, without padding as in
 section 3.2). Bytes and sextets are bounded integers. A left shift of the
 32-bit buffer wraps modulo 2^32, a right shift divides, a mask is a remainder,
 and `|` of two values whose set bits do not overlap is their sum.
 */
module Base64Url {
  import opened Options
  import opened Positional

  type u8 = x: nat | x < 256

  const UPPER := "ABCDEFGHIJKLMNOPQRSTUVWXYZ"
  const LOWER := "abcdefghijklmnopqrstuvwxyz"
  const DECIMAL := "0123456789"
  const TABLE := UPPER + LOWER + DECIMAL + "-_"

  predicate InAlphabet(c: char) {
    'A' <= c <= 'Z' || 'a' <= c <= 'z' || '0' <= c <= '9' || c == '-' || c == '_'
  }

  /** The decoder's own arithmetic on one symbol. */
  function Sextet(c: char): (v: nat)
    requires InAlphabet(c)
    ensures v < 64
  {
    if 'A' <= c <= 'Z' then c as nat - 'A' as nat
    else if 'a' <= c <= 'z' then c as nat - 'a' as nat + 26
    else if '0' <= c <= '9' then c as nat - '0' as nat + 52
    else if c == '-' then 62 else 63
  }

  /** The encoder's table, as the arithmetic inverse of `Sextet`. */
  function Symbol(v: nat): (c: char)
    requires v < 64
    ensures InAlphabet(c) && Sextet(c) == v
  {
    if v < 26 then ('A' as nat + v) as char
    else if v < 52 then ('a' as nat + (v - 26)) as char
    else if v < 62 then ('0' as nat + (v - 52)) as char
    else if v == 62 then '-' else '_'
  }

  lemma TableIsSymbol(v: nat)
    requires v < 64
    ensures |TABLE| == 64 && TABLE[v] == Symbol(v)
  {
    if v < 26 {
      assert TABLE[v] == UPPER[v] == Symbol(v);
    } else if v < 52 {
      assert TABLE[v] == LOWER[v - 26] == Symbol(v);
    } else if v < 62 {
      assert TABLE[v] == DECIMAL[v - 52] == Symbol(v);
    }
  }

  method Lookup(v: nat) returns (c: char)
    requires v < 64
    ensures c == Symbol(v)
  {
    TableIsSymbol(v);
    c := TABLE[v];
  }

  function Symbols(d: seq<nat>): (s: string)
    requires AreDigits(d, SixtyFour)
    ensures |s| == |d| && forall i :: 0 <= i < |s| ==> s[i] == Symbol(d[i])
  {
    seq(|d|, i requires 0 <= i < |d| => Symbol(d[i]))
  }

  predicate Decodable(s: string) {
    forall i :: 0 <= i < |s| ==> InAlphabet(s[i]) || s[i] == '='
  }

  /** The sextets of the alphabet symbols of `s`; `=` is skipped wherever it stands. */
  function Sextets(s: string): (d: seq<nat>)
    requires Decodable(s)
    ensures AreDigits(d, SixtyFour) && |d| <= |s|
  {
    if s == [] then []
    else
      var init, c := s[..|s| - 1], s[|s| - 1];
      if c == '=' then Sextets(init) else Sextets(init) + [Sextet(c)]
  }

  lemma SymbolsOfConcat(d: seq<nat>, e: seq<nat>)
    requires AreDigits(d, SixtyFour) && AreDigits(e, SixtyFour)
    ensures AreDigits(d + e, SixtyFour) && Symbols(d + e) == Symbols(d) + Symbols(e)
  {
  }

  // ----- what the codec means -----

  /** `v << bits`, `v >> bits` and `v & ((1 << bits) - 1)` for the bit counts that occur. */
  function Shl(v: nat, bits: nat): nat {
    match bits case 2 => v * 4 case 4 => v * 16 case 6 => v * 64 case _ => v
  }

  function Shr(v: nat, bits: nat): nat {
    match bits case 2 => v / 4 case 4 => v / 16 case 6 => v / 64 case _ => v
  }

  function Low(v: nat, bits: nat): nat {
    match bits case 2 => v % 4 case 4 => v % 16 case 6 => v % 64 case _ => 0
  }

  /** Zero bits that fill up the last sextet when `n` bytes are encoded. */
  function PadBits(n: nat): nat {
    if n % 3 == 0 then 0 else if n % 3 == 1 then 4 else 2
  }

  function EncodedLength(n: nat): nat {
    n / 3 * 4 + (if n % 3 == 0 then 0 else n % 3 + 1)
  }

  /** The bytes as one number, padded with zero bits at the end, written in base 64. */
  function Encode(bytes: seq<u8>): (s: string) {
    Symbols(Digits(Shl(Value(bytes, TwoFiftySix), PadBits(|bytes|)), EncodedLength(|bytes|), SixtyFour))
  }

  /** Bits left over when `k` sextets are regrouped into bytes. */
  function SpareBits(k: nat): nat {
    6 * k % 8
  }

  /** `None` on a foreign character; otherwise the sextet stream regrouped in eights. */
  function Decode(s: string): (r: Option<seq<u8>>) {
    if !Decodable(s) then None
    else
      var d := Sextets(s);
      Some(Digits(Shr(Value(d, SixtyFour), SpareBits(|d|)), 6 * |d| / 8, TwoFiftySix))
  }

  // ----- the two loops -----

  /** Up to three bytes `b0 b1 b2` appended to a stream, read as bytes and as sextets. */
  lemma GroupValue(bytes: seq<nat>, d: seq<nat>, b0: u8, b1: u8, b2: u8)
    requires Value(d, SixtyFour) == Value(bytes, TwoFiftySix)
    ensures Value(d + [b0 / 4, b0 % 4 * 16 + b1 / 16, b1 % 16 * 4 + b2 / 64, b2 % 64], SixtyFour)
            == Value(bytes + [b0, b1, b2], TwoFiftySix)
    ensures Value(d + [b0 / 4, b0 % 4 * 16 + b1 / 16, b1 % 16 * 4], SixtyFour)
            == Value(bytes + [b0, b1], TwoFiftySix) * 4
    ensures Value(d + [b0 / 4, b0 % 4 * 16], SixtyFour) == Value(bytes + [b0], TwoFiftySix) * 16
  {
    SextetValue(d, b0 / 4, b0 % 4 * 16 + b1 / 16, b1 % 16 * 4 + b2 / 64, b2 % 64);
    SextetValue(d, b0 / 4, b0 % 4 * 16 + b1 / 16, b1 % 16 * 4, 0);
    SextetValue(d, b0 / 4, b0 % 4 * 16, 0, 0);
    ByteValue(bytes, b0, b1, b2);
  }

  lemma SextetValue(d: seq<nat>, s0: nat, s1: nat, s2: nat, s3: nat)
    ensures Value(d + [s0, s1], SixtyFour) == Value(d, SixtyFour) * 4096 + s0 * 64 + s1
    ensures Value(d + [s0, s1, s2], SixtyFour) == Value(d, SixtyFour) * 262144 + s0 * 4096 + s1 * 64 + s2
    ensures Value(d + [s0, s1, s2, s3], SixtyFour)
            == Value(d, SixtyFour) * 16777216 + s0 * 262144 + s1 * 4096 + s2 * 64 + s3
  {
    ValueOfSnoc(d, s0, SixtyFour);
    ValueOfSnoc(d + [s0], s1, SixtyFour);
    ValueOfSnoc(d + [s0, s1], s2, SixtyFour);
    ValueOfSnoc(d + [s0, s1, s2], s3, SixtyFour);
    assert d + [s0] + [s1] == d + [s0, s1] && d + [s0, s1] + [s2] == d + [s0, s1, s2];
    assert d + [s0, s1, s2] + [s3] == d + [s0, s1, s2, s3];
  }

  lemma ByteValue(bytes: seq<nat>, b0: nat, b1: nat, b2: nat)
    ensures Value(bytes + [b0], TwoFiftySix) == Value(bytes, TwoFiftySix) * 256 + b0
    ensures Value(bytes + [b0, b1], TwoFiftySix) == Value(bytes, TwoFiftySix) * 65536 + b0 * 256 + b1
    ensures Value(bytes + [b0, b1, b2], TwoFiftySix)
            == Value(bytes, TwoFiftySix) * 16777216 + b0 * 65536 + b1 * 256 + b2
  {
    ValueOfSnoc(bytes, b0, TwoFiftySix);
    ValueOfSnoc(bytes + [b0], b1, TwoFiftySix);
    ValueOfSnoc(bytes + [b0, b1], b2, TwoFiftySix);
    assert bytes + [b0] + [b1] == bytes + [b0, b1] && bytes + [b0, b1] + [b2] == bytes + [b0, b1, b2];
  }

  /** What the loop knows: `d`, the sextets written so far, spell the first `index` bytes. */
  ghost predicate Encoded(bytes: seq<u8>, index: nat, d: seq<nat>) {
    && AreDigits(d, SixtyFour)
    && (index <= |bytes| ==> 3 * |d| == 4 * index && Value(d, SixtyFour) == Value(bytes[..index], TwoFiftySix))
    && (index >= |bytes| ==> |d| == EncodedLength(|bytes|)
                             && Value(d, SixtyFour) == Shl(Value(bytes, TwoFiftySix), PadBits(|bytes|)))
  }

  lemma FullGroup(bytes: seq<u8>, index: nat, d: seq<nat>)
    requires index + 2 < |bytes| && index % 3 == 0 && Encoded(bytes, index, d)
    ensures Encoded(bytes, index + 3, d + Group(bytes, index))
  {
    hide Value;
    GroupValue(bytes[..index], d, bytes[index], bytes[index + 1], bytes[index + 2]);
    assert bytes[..index + 3] == bytes[..index] + [bytes[index], bytes[index + 1], bytes[index + 2]];
    assert bytes[..|bytes|] == bytes;
    LengthAtEnd(index / 3, |bytes|);
  }

  lemma PairLeft(bytes: seq<u8>, index: nat, d: seq<nat>)
    requires index + 2 == |bytes| && index % 3 == 0 && Encoded(bytes, index, d)
    ensures Encoded(bytes, index + 3, d + Group(bytes, index))
  {
    hide Value;
    GroupValue(bytes[..index], d, bytes[index], bytes[index + 1], 0);
    assert bytes == bytes[..index] + [bytes[index], bytes[index + 1]];
    LengthAtEnd(index / 3, |bytes|);
  }

  lemma ByteLeft(bytes: seq<u8>, index: nat, d: seq<nat>)
    requires index + 1 == |bytes| && index % 3 == 0 && Encoded(bytes, index, d)
    ensures Encoded(bytes, index + 3, d + Group(bytes, index))
  {
    hide Value;
    GroupValue(bytes[..index], d, bytes[index], 0, 0);
    assert bytes == bytes[..index] + [bytes[index]];
    LengthAtEnd(index / 3, |bytes|);
  }

  lemma EncodedStep(bytes: seq<u8>, index: nat, d: seq<nat>)
    requires index < |bytes| && index % 3 == 0 && Encoded(bytes, index, d)
    ensures Encoded(bytes, index + 3, d + Group(bytes, index))
  {
    hide Encoded, Group;
    if index + 2 < |bytes| {
      FullGroup(bytes, index, d);
    } else if index + 1 < |bytes| {
      PairLeft(bytes, index, d);
    } else {
      ByteLeft(bytes, index, d);
    }
  }

  lemma LengthAtEnd(g: nat, n: nat)
    ensures n == 3 * g + 1 ==> EncodedLength(n) == 4 * g + 2 && PadBits(n) == 4
    ensures n == 3 * g + 2 ==> EncodedLength(n) == 4 * g + 3 && PadBits(n) == 2
    ensures n == 3 * g + 3 ==> EncodedLength(n) == 4 * g + 4 && PadBits(n) == 0
  {
    if n == 3 * g + 1 {
      assert n / 3 == g;
    } else if n == 3 * g + 2 {
      assert n / 3 == g;
    }
  }

  /** The sextets of the group of one to three bytes that starts at `index`. */
  ghost function Group(bytes: seq<u8>, index: nat): (d: seq<nat>)
    requires index < |bytes|
    ensures AreDigits(d, SixtyFour)
  {
    var b0 := bytes[index];
    if index + 1 >= |bytes| then [b0 / 4, b0 % 4 * 16]
    else
      var b1 := bytes[index + 1];
      if index + 2 >= |bytes| then [b0 / 4, b0 % 4 * 16 + b1 / 16, b1 % 16 * 4]
      else
        var b2 := bytes[index + 2];
        [b0 / 4, b0 % 4 * 16 + b1 / 16, b1 % 16 * 4 + b2 / 64, b2 % 64]
  }

  method EncodeLoop(bytes: seq<u8>) returns (out: string)
    ensures out == Encode(bytes)
  {
    hide Encoded, EncodedLength, PadBits, Shl, Symbol, InAlphabet, Sextet, Encode;
    out := "";
    ghost var d: seq<nat> := [];
    assert Encoded(bytes, 0, d) by { NothingWritten(bytes); }
    var index := 0;
    while index < |bytes|
      invariant index % 3 == 0
      invariant AreDigits(d, SixtyFour) && Encoded(bytes, index, d)
      invariant out == Symbols(d)
      decreases |bytes| - index
    {
      ghost var before, group := out, Group(bytes, index);
      EncodedStep(bytes, index, d);
      SymbolsOfConcat(d, group);
      var b0 := bytes[index];
      var b1 := if index + 1 < |bytes| then Some(bytes[index + 1]) else None;
      var b2 := if index + 2 < |bytes| then Some(bytes[index + 2]) else None;
      var c := Lookup(b0 / 4);
      out := out + [c];
      c := Lookup(b0 % 4 * 16 + (if b1.Some? then b1.value else 0) / 16);
      out := out + [c];
      if b1.Some? {
        c := Lookup(b1.value % 16 * 4 + (if b2.Some? then b2.value else 0) / 64);
        out := out + [c];
      }
      if b2.Some? {
        c := Lookup(b2.value % 64);
        out := out + [c];
      }
      assert out[|before|..] == Symbols(group);
      d := d + group;
      index := index + 3;
    }
    EncodedIsEncode(bytes, index, d);
  }

  lemma NothingWritten(bytes: seq<u8>)
    ensures Encoded(bytes, 0, [])
  {
    assert bytes[..0] == [];
    if bytes == [] {
      assert Value(bytes, TwoFiftySix) == 0;
    }
  }

  lemma EncodedIsEncode(bytes: seq<u8>, index: nat, d: seq<nat>)
    requires index >= |bytes| && Encoded(bytes, index, d)
    ensures AreDigits(d, SixtyFour) && Symbols(d) == Encode(bytes)
  {
    DigitsOfValue(d, SixtyFour);
  }

  /** Sextets read so far against bytes written and bits pending in the buffer. */
  ghost predicate Regrouped(d: seq<nat>, bytes: seq<u8>, buffer: nat, bits: nat) {
    && (bits == 0 || bits == 2 || bits == 4 || bits == 6)
    && 6 * |d| == 8 * |bytes| + bits
    && buffer < 0x1_0000_0000
    && Value(d, SixtyFour) == Shl(Value(bytes, TwoFiftySix), bits) + Low(buffer, bits)
  }

  /** The buffer after a symbol is shifted in; the top bits of the old buffer are lost. */
  function Shifted(buffer: nat, chunk: nat): (r: nat)
    ensures chunk < 64 ==> r < 0x1_0000_0000
  {
    buffer * 64 % 0x1_0000_0000 + chunk
  }

  /** The wrap drops a multiple of 2^32 and so leaves the twelve low bits alone. */
  lemma ShiftedLow(buffer: nat, chunk: nat) returns (k0: int, k2: int, k4: int, k6: int)
    requires chunk < 64
    ensures Shifted(buffer, chunk) == 64 * k0 + chunk
    ensures Shifted(buffer, chunk) == 256 * k2 + buffer % 4 * 64 + chunk
    ensures Shifted(buffer, chunk) == 1024 * k4 + buffer % 16 * 64 + chunk
    ensures Shifted(buffer, chunk) == 4096 * k6 + buffer % 64 * 64 + chunk
  {
    var q := buffer * 64 / 0x1_0000_0000;
    k0 := buffer - 0x400_0000 * q;
    k2 := buffer / 4 - 0x100_0000 * q;
    k4 := buffer / 16 - 0x40_0000 * q;
    k6 := buffer / 64 - 0x10_0000 * q;
  }

  lemma LowByte(x: nat, k: int, r: nat)
    requires r < 256 && x == 256 * k + r
    ensures x % 256 == r
  {
  }

  lemma EmitFour(x: nat, k: int, low: nat, chunk: nat)
    requires low < 16 && chunk < 64 && x == 1024 * k + low * 64 + chunk
    ensures x / 4 % 256 == low * 16 + chunk / 4 && x % 4 == chunk % 4
  {
    assert x == 4 * (256 * k + low * 16 + chunk / 4) + chunk % 4;
    LowByte(x / 4, k, low * 16 + chunk / 4);
  }

  lemma EmitSix(x: nat, k: int, low: nat, chunk: nat)
    requires low < 64 && chunk < 64 && x == 4096 * k + low * 64 + chunk
    ensures x / 16 % 256 == low * 4 + chunk / 16 && x % 16 == chunk % 16
  {
    assert x == 16 * (256 * k + low * 4 + chunk / 16) + chunk % 16;
    LowByte(x / 16, k, low * 4 + chunk / 16);
  }

  // Shifting a sextet into a buffer with 0, 2, 4 or 6 pending bits.

  lemma ShiftOntoNone(v: nat, buffer: nat, chunk: nat)
    requires chunk < 64
    ensures (Shl(v, 0) + Low(buffer, 0)) * 64 + chunk == Shl(v, 6) + Low(Shifted(buffer, chunk), 6)
  {
    var k0, k2, k4, k6 := ShiftedLow(buffer, chunk);
    hide Shifted;
    var x := Shifted(buffer, chunk);
    assert x == 64 * k0 + chunk;
    assert x % 64 == chunk;
  }

  lemma ShiftOntoTwo(v: nat, buffer: nat, chunk: nat)
    requires chunk < 64
    ensures var x := Shifted(buffer, chunk);
            (Shl(v, 2) + Low(buffer, 2)) * 64 + chunk == Shl(v * 256 + Shr(x, 0) % 256, 0) + Low(x, 0)
  {
    var k0, k2, k4, k6 := ShiftedLow(buffer, chunk);
    hide Shifted;
    LowByte(Shifted(buffer, chunk), k2, buffer % 4 * 64 + chunk);
  }

  lemma ShiftOntoFour(v: nat, buffer: nat, chunk: nat)
    requires chunk < 64
    ensures var x := Shifted(buffer, chunk);
            (Shl(v, 4) + Low(buffer, 4)) * 64 + chunk == Shl(v * 256 + Shr(x, 2) % 256, 2) + Low(x, 2)
  {
    var k0, k2, k4, k6 := ShiftedLow(buffer, chunk);
    hide Shifted;
    EmitFour(Shifted(buffer, chunk), k4, buffer % 16, chunk);
  }

  lemma ShiftOntoSix(v: nat, buffer: nat, chunk: nat)
    requires chunk < 64
    ensures var x := Shifted(buffer, chunk);
            (Shl(v, 6) + Low(buffer, 6)) * 64 + chunk == Shl(v * 256 + Shr(x, 4) % 256, 4) + Low(x, 4)
  {
    var k0, k2, k4, k6 := ShiftedLow(buffer, chunk);
    hide Shifted;
    EmitSix(Shifted(buffer, chunk), k6, buffer % 64, chunk);
  }

  /** Shifting a sextet in and moving a full byte out loses no bit of the stream. */
  lemma ShiftIn(v: nat, buffer: nat, bits: nat, chunk: nat)
    requires chunk < 64 && (bits == 0 || bits == 2 || bits == 4 || bits == 6)
    ensures var buffer' := Shifted(buffer, chunk);
            if bits == 0 then (Shl(v, 0) + Low(buffer, 0)) * 64 + chunk == Shl(v, 6) + Low(buffer', 6)
            else (Shl(v, bits) + Low(buffer, bits)) * 64 + chunk
                 == Shl(v * 256 + Shr(buffer', bits - 2) % 256, bits - 2) + Low(buffer', bits - 2)
  {
    hide Shl, Low, Shr, Shifted;
    match bits
    case 0 => ShiftOntoNone(v, buffer, chunk);
    case 2 => ShiftOntoTwo(v, buffer, chunk);
    case 4 => ShiftOntoFour(v, buffer, chunk);
    case 6 => ShiftOntoSix(v, buffer, chunk);
  }

  lemma RegroupStep(d: seq<nat>, bytes: seq<u8>, buffer: nat, bits: nat, chunk: nat)
    requires Regrouped(d, bytes, buffer, bits) && chunk < 64
    ensures var buffer' := Shifted(buffer, chunk);
            if bits == 0 then Regrouped(d + [chunk], bytes, buffer', 6)
            else bits >= 2 && Regrouped(d + [chunk], bytes + [Shr(buffer', bits - 2) % 256], buffer', bits - 2)
  {
    hide Shl, Low, Shifted, Shr;
    ShiftIn(Value(bytes, TwoFiftySix), buffer, bits, chunk);
    ValueOfSnoc(d, chunk, SixtyFour);
    if bits != 0 {
      ValueOfSnoc(bytes, Shr(Shifted(buffer, chunk), bits - 2) % 256, TwoFiftySix);
    }
  }

  lemma SextetsStep(s: string, i: nat)
    requires i < |s| && Decodable(s[..i])
    ensures Decodable(s[..i + 1]) <==> InAlphabet(s[i]) || s[i] == '='
    ensures s[i] == '=' ==> Sextets(s[..i + 1]) == Sextets(s[..i])
    ensures InAlphabet(s[i]) ==> Sextets(s[..i + 1]) == Sextets(s[..i]) + [Sextet(s[i])]
  {
    assert s[..i + 1] == s[..i] + [s[i]];
    assert s[..i + 1][..i] == s[..i];
  }

  lemma NothingRead(value: string)
    ensures Decodable(value[..0]) && Regrouped(Sextets(value[..0]), [], 0, 0)
  {
  }

  method DecodeLoop(value: string) returns (r: Option<seq<u8>>)
    ensures r == Decode(value)
  {
    NothingRead(value);
    hide Regrouped, Sextets, Shl, Low, Shifted;
    var bytes: seq<u8> := [];
    var buffer: nat := 0;
    var bits: nat := 0;
    for i := 0 to |value|
      invariant Decodable(value[..i])
      invariant Regrouped(Sextets(value[..i]), bytes, buffer, bits)
    {
      var byte := value[i];
      SextetsStep(value, i);
      if byte == '=' {
        continue;
      }
      if !InAlphabet(byte) {
        return None;
      }
      var chunk := Sextet(byte);
      RegroupStep(Sextets(value[..i]), bytes, buffer, bits, chunk);
      buffer := Shifted(buffer, chunk);
      bits := bits + 6;
      if bits >= 8 {
        bits := bits - 8;
        bytes := bytes + [Shr(buffer, bits) % 256];
      }
    }
    assert value[..|value|] == value;
    RegroupedIsDecoded(Sextets(value), bytes, buffer, bits);
    return Some(bytes);
  }

  lemma RegroupedIsDecoded(d: seq<nat>, bytes: seq<u8>, buffer: nat, bits: nat)
    requires Regrouped(d, bytes, buffer, bits)
    ensures bytes == Digits(Shr(Value(d, SixtyFour), SpareBits(|d|)), 6 * |d| / 8, TwoFiftySix)
  {
    hide Shr, Shl, Low, SpareBits;
    SpareOf(|d|, |bytes|, bits);
    ShrOfShl(Value(bytes, TwoFiftySix), buffer, bits);
    DigitsOfValue(bytes, TwoFiftySix);
  }

  lemma ShrOfShl(v: nat, low: nat, bits: nat)
    requires bits == 0 || bits == 2 || bits == 4 || bits == 6
    ensures Shr(Shl(v, bits) + Low(low, bits), bits) == v
    ensures Low(Shl(v, bits) + Low(low, bits), bits) == Low(low, bits)
  {
  }

  // ----- round trips -----

  /** `k` sextets hold `6 * k / 8` bytes and `SpareBits(k)` further bits. */
  lemma {:induction false} SextetPow(k: nat)
    ensures Pow(SixtyFour, k) == Shl(Pow(TwoFiftySix, 6 * k / 8), SpareBits(k))
  {
    hide Pow;
    if k >= 4 {
      SextetPow(k - 4);
      PowStep(SixtyFour, k - 4, 4);
      PowStep(TwoFiftySix, 6 * (k - 4) / 8, 3);
      assert 6 * k / 8 == 6 * (k - 4) / 8 + 3 && SpareBits(k) == SpareBits(k - 4);
    } else {
      PowStep(SixtyFour, 0, k);
      PowStep(TwoFiftySix, 0, 6 * k / 8);
      PowOfNone(SixtyFour);
      PowOfNone(TwoFiftySix);
    }
  }

  lemma PowOfNone(base: Base)
    ensures Pow(base, 0) == 1
  {
  }

  lemma PowStep(base: Base, n: nat, k: nat)
    requires k <= 4
    ensures base == SixtyFour ==>
        Pow(base, n + k)
        == Pow(base, n) * (match k case 0 => 1 case 1 => 64 case 2 => 4096 case 3 => 262144 case _ => 16777216)
    ensures base == TwoFiftySix && k <= 3 ==>
        Pow(base, n + k) == Pow(base, n) * (match k case 0 => 1 case 1 => 256 case 2 => 65536 case _ => 16777216)
  {
    if k > 0 {
      PowStep(base, n, k - 1);
      assert Pow(base, n + k) == base.Times(Pow(base, n + (k - 1)));
    }
  }

  lemma {:induction false} SextetsOfSymbols(d: seq<nat>)
    requires AreDigits(d, SixtyFour)
    ensures Decodable(Symbols(d)) && Sextets(Symbols(d)) == d
  {
    if d != [] {
      var init := d[..|d| - 1];
      SextetsOfSymbols(init);
      assert Symbols(d)[..|d| - 1] == Symbols(init);
      assert d == init + [d[|d| - 1]];
    }
  }

  /** What a decoder sees of an encoding: the padded bytes, as sextets. */
  lemma SextetsOfEncode(bytes: seq<u8>)
    ensures Decodable(Encode(bytes)) && |Sextets(Encode(bytes))| == EncodedLength(|bytes|)
    ensures Value(Sextets(Encode(bytes)), SixtyFour) == Shl(Value(bytes, TwoFiftySix), PadBits(|bytes|))
  {
    var v := Shl(Value(bytes, TwoFiftySix), PadBits(|bytes|));
    ValueBound(bytes, TwoFiftySix);
    SextetPow(EncodedLength(|bytes|));
    SpareIsPad(|bytes|);
    ValueOfDigits(v, EncodedLength(|bytes|), SixtyFour);
    SextetsOfSymbols(Digits(v, EncodedLength(|bytes|), SixtyFour));
  }

  lemma SpareIsPad(n: nat)
    ensures SpareBits(EncodedLength(n)) == PadBits(n) && 6 * EncodedLength(n) / 8 == n
  {
    assert 6 * EncodedLength(n) == 8 * n + PadBits(n) by {
      assert n == 3 * (n / 3) + n % 3;
    }
    SpareOf(EncodedLength(n), n, PadBits(n));
  }

  lemma SpareOf(k: nat, n: nat, bits: nat)
    requires 6 * k == 8 * n + bits && bits < 8
    ensures SpareBits(k) == bits && 6 * k / 8 == n
  {
  }

  /** Decoding an encoding returns the bytes, for every byte string. */
  lemma RoundTrip(bytes: seq<u8>)
    ensures Decode(Encode(bytes)) == Some(bytes)
  {
    SextetsOfEncode(bytes);
    SpareIsPad(|bytes|);
    ShrOfShl(Value(bytes, TwoFiftySix), 0, PadBits(|bytes|));
    DigitsOfValue(bytes, TwoFiftySix);
  }

  /** On any text: which inputs are refused, how long the result is, and which bits are dropped. */
  lemma DecodeMeaning(s: string)
    ensures Decode(s).None? <==> exists i :: 0 <= i < |s| && !InAlphabet(s[i]) && s[i] != '='
    ensures Decode(s).Some? ==>
        var d := Sextets(s);
        && |Decode(s).value| == 3 * |d| / 4
        && Value(d, SixtyFour)
           == Shl(Value(Decode(s).value, TwoFiftySix), SpareBits(|d|)) + Low(Value(d, SixtyFour), SpareBits(|d|))
  {
    if Decodable(s) {
      var d := Sextets(s);
      DecodedValue(d);
    }
  }

  lemma DecodedValue(d: seq<nat>)
    requires AreDigits(d, SixtyFour)
    ensures Value(Digits(Shr(Value(d, SixtyFour), SpareBits(|d|)), 6 * |d| / 8, TwoFiftySix), TwoFiftySix)
            == Shr(Value(d, SixtyFour), SpareBits(|d|))
    ensures Shl(Shr(Value(d, SixtyFour), SpareBits(|d|)), SpareBits(|d|)) + Low(Value(d, SixtyFour), SpareBits(|d|))
            == Value(d, SixtyFour)
  {
    ValueBound(d, SixtyFour);
    SextetPow(|d|);
    ShrLow(Value(d, SixtyFour), SpareBits(|d|));
    ShrBound(Value(d, SixtyFour), Pow(TwoFiftySix, 6 * |d| / 8), SpareBits(|d|));
    ValueOfDigits(Shr(Value(d, SixtyFour), SpareBits(|d|)), 6 * |d| / 8, TwoFiftySix);
  }

  lemma ShrBound(v: nat, p: nat, bits: nat)
    requires v < Shl(p, bits)
    ensures Shr(v, bits) < p
  {
  }

  lemma ShrLow(v: nat, bits: nat)
    ensures Shl(Shr(v, bits), bits) + Low(v, bits) == v
  {
  }

  /** Only alphabet symbols, a length an encoder produces, and no stray bits in the last symbol. */
  predicate Canonical(s: string) {
    && (forall i :: 0 <= i < |s| ==> InAlphabet(s[i]))
    && |s| % 4 != 1
    && (s != [] ==> Low(Sextet(s[|s| - 1]), SpareBits(|s|)) == 0)
  }

  lemma {:induction false} SextetsOfAlphabet(s: string)
    requires forall i :: 0 <= i < |s| ==> InAlphabet(s[i])
    ensures |Sextets(s)| == |s| && forall i :: 0 <= i < |s| ==> Sextets(s)[i] == Sextet(s[i])
    ensures Symbols(Sextets(s)) == s
  {
    if s != [] {
      SextetsOfAlphabet(s[..|s| - 1]);
    }
    forall i | 0 <= i < |s| ensures Symbol(Sextet(s[i])) == s[i] {
      SymbolOfSextet(s[i]);
    }
  }

  lemma SymbolOfSextet(c: char)
    requires InAlphabet(c)
    ensures Symbol(Sextet(c)) == c
  {
  }

  lemma LowOfValue(d: seq<nat>, bits: nat)
    requires d != []
    ensures Low(Value(d, SixtyFour), bits) == Low(d[|d| - 1], bits)
  {
    var a, x := Value(d[..|d| - 1], SixtyFour), d[|d| - 1];
    match bits
    case 2 => RemainderOfSum4(16 * a, x);
    case 4 => RemainderOfSum16(4 * a, x);
    case 6 => RemainderOfSum64(a, x);
    case _ =>
  }

  lemma RemainderOfSum4(a: nat, x: nat)
    ensures (4 * a + x) % 4 == x % 4
  {
    assert 4 * a + x == 4 * (a + x / 4) + x % 4;
  }

  lemma RemainderOfSum16(a: nat, x: nat)
    ensures (16 * a + x) % 16 == x % 16
  {
    assert 16 * a + x == 16 * (a + x / 16) + x % 16;
  }

  lemma RemainderOfSum64(a: nat, x: nat)
    ensures (64 * a + x) % 64 == x % 64
  {
    assert 64 * a + x == 64 * (a + x / 64) + x % 64;
  }

  lemma CanonicalDigits(d: seq<nat>, bytes: seq<u8>)
    requires AreDigits(d, SixtyFour)
    requires EncodedLength(|bytes|) == |d| && PadBits(|bytes|) == SpareBits(|d|)
    requires Value(bytes, TwoFiftySix) == Shr(Value(d, SixtyFour), SpareBits(|d|))
    ensures Encode(bytes) == Symbols(d) <==> Low(Value(d, SixtyFour), SpareBits(|d|)) == 0
  {
    hide SpareBits, PadBits, EncodedLength, Shl, Shr, Low;
    var v := Value(d, SixtyFour);
    DigitsOfValue(d, SixtyFour);
    ShrLow(v, SpareBits(|d|));
    if Encode(bytes) == Symbols(d) {
      SextetsOfEncode(bytes);
      SextetsOfSymbols(d);
    } else {
      assert Shl(Value(bytes, TwoFiftySix), PadBits(|bytes|)) != v;
    }
  }

  lemma LengthsAgree(k: nat)
    ensures k % 4 == 1 ==> EncodedLength(6 * k / 8) != k
    ensures k % 4 != 1 ==> EncodedLength(6 * k / 8) == k
  {
    var q := k / 4;
    match k % 4
    case 0 => assert 6 * k / 8 == 3 * q;
    case 1 => assert 6 * k / 8 == 3 * q;
    case 2 => assert 6 * k / 8 == 3 * q + 1;
    case 3 => assert 6 * k / 8 == 3 * q + 2;
  }

  lemma AlphabetCanonical(s: string)
    requires forall i :: 0 <= i < |s| ==> InAlphabet(s[i])
    ensures Canonical(s) <==> Encode(Decode(s).value) == s
  {
    hide Shl, Shr, Low, Digits, Value, Sextets, EncodedLength, PadBits;
    SextetsOfAlphabet(s);
    var d, bytes := Sextets(s), Decode(s).value;
    DecodedValue(d);
    LengthsAgree(|s|);
    if |s| % 4 == 1 {
      assert |Encode(bytes)| != |s|;
    } else {
      SpareIsPad(|bytes|);
      CanonicalDigits(d, bytes);
      if d != [] {
        LowOfValue(d, SpareBits(|d|));
      }
    }
  }

  /** Encoding inverts decoding on the canonical strings and on no others. */
  lemma EncodeInvertsDecode(s: string)
    ensures Canonical(s) <==> Decode(s).Some? && Encode(Decode(s).value) == s
  {
    if forall i :: 0 <= i < |s| ==> InAlphabet(s[i]) {
      AlphabetCanonical(s);
    }
  }
}
