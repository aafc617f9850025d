/**
 * The firmware's base64 decoder: a table-driven accumulator over the
 * RFC 4648 section 4 alphabet that writes into a caller-supplied,
 * fixed-size output buffer.
 *
 * The decoding is specified by `Run`, a fold of `Step` over the input that
 * mirrors one iteration of the decoder's loop; `Decode` is the in-place
 * method, proved to leave the buffer as `Decoded` says.
 *
 * Only the low `bitsLeft` bits of the accumulator are kept: those are the
 * only bits that ever reach an output byte or the final trailing-bits test.
 */
module Base64 {
  import opened Common

  /**
   * The decode table: sextet value of each byte, -1 outside the table.
   * As in the firmware, '=' (61) has the value 0, not -1.
   */
  function DecodeTable(b: u8): (v: int)
    ensures -1 <= v < 64
    ensures v == -1 <==> !(IsAlphabet(b) || b == '=' as int)
  {
    if 'A' as int <= b <= 'Z' as int then b - 'A' as int
    else if 'a' as int <= b <= 'z' as int then b - 'a' as int + 26
    else if '0' as int <= b <= '9' as int then b - '0' as int + 52
    else if b == '+' as int then 62
    else if b == '/' as int then 63
    else if b == '=' as int then 0
    else -1
  }

  /** The 64 characters of the RFC 4648 section 4 alphabet. */
  predicate IsAlphabet(b: u8) {
    'A' as int <= b <= 'Z' as int || 'a' as int <= b <= 'z' as int ||
    '0' as int <= b <= '9' as int || b == '+' as int || b == '/' as int
  }

  /** The bytes the loop skips when the table rejects them. */
  predicate IsSkipped(b: u8) {
    b == '=' as int || b == '\n' as int || b == '\r' as int || b == ' ' as int
  }

  predicate IsWhitespace(b: u8) {
    b == '\n' as int || b == '\r' as int || b == ' ' as int
  }

  function Pow2(n: nat): (p: nat)
    ensures p >= 1
  {
    if n == 0 then 1 else 2 * Pow2(n - 1)
  }

  datatype Status = Running | BadByte | OutputFull

  /** `buffer`, `bitsLeft` and the bytes written so far, plus why the loop stopped, if it did. */
  datatype DecodeState = DecodeState(buffer: nat, bitsLeft: nat, out: seq<u8>, status: Status)

  const Start := DecodeState(0, 0, [], Running)

  /** What holds between two iterations of the loop. */
  ghost predicate Inv(st: DecodeState, capacity: nat) {
    st.bitsLeft in {0, 2, 4, 6} && st.buffer < Pow2(st.bitsLeft) && |st.out| <= capacity
  }

  /** One iteration of the loop on input byte `b`, with `capacity` bytes of output space. */
  function Step(st: DecodeState, b: u8, capacity: nat): DecodeState
  {
    if st.status != Running then st
    else if DecodeTable(b) == -1 then
      if IsSkipped(b) then st else st.(status := BadByte)
    else
      var buffer := st.buffer * 64 + DecodeTable(b);
      var bits := st.bitsLeft + 6;
      if bits < 8 then DecodeState(buffer, bits, st.out, Running)
      else if |st.out| >= capacity then st.(status := OutputFull)
      else
        var rest := bits - 8;
        DecodeState(buffer % Pow2(rest), rest, st.out + [(buffer / Pow2(rest)) % 256], Running)
  }

  lemma StepInv(st: DecodeState, b: u8, capacity: nat)
    ensures Inv(st, capacity) ==> Inv(Step(st, b, capacity), capacity)
  {
  }

  /** The loop run over `input` from state `st`. */
  function RunFrom(st: DecodeState, input: seq<u8>, capacity: nat): (r: DecodeState)
    ensures Inv(st, capacity) ==> Inv(r, capacity)
    ensures |st.out| <= |r.out| && r.out[..|st.out|] == st.out
  {
    if input == [] then st
    else
      var mid := RunFrom(st, input[..|input| - 1], capacity);
      StepInv(mid, input[|input| - 1], capacity);
      Step(mid, input[|input| - 1], capacity)
  }

  function Run(input: seq<u8>, capacity: nat): (r: DecodeState)
    ensures Inv(r, capacity)
  {
    RunFrom(Start, input, capacity)
  }

  /** What the decoder returns, and the bytes it has written to the front of the output buffer. */
  datatype Decoding = Decoding(ok: bool, written: seq<u8>)

  /**
   * The result of the decoder, including the final test that the leftover
   * bits are zero: it succeeds exactly when the loop ran to the end and no
   * set bit is left in the accumulator.
   */
  function Decoded(input: seq<u8>, capacity: nat): (r: Decoding)
    ensures |r.written| <= capacity
    ensures r.ok <==> Run(input, capacity).status == Running && Run(input, capacity).buffer == 0
  {
    var st := Run(input, capacity);
    LeftoverTest(st, capacity);
    Decoding(st.status == Running && !(st.bitsLeft > 0 && st.buffer % Pow2(st.bitsLeft) != 0), st.out)
  }

  /** Between iterations the final test fails exactly when a set bit is left. */
  lemma LeftoverTest(st: DecodeState, capacity: nat)
    requires Inv(st, capacity)
    ensures (st.bitsLeft > 0 && st.buffer % Pow2(st.bitsLeft) != 0) <==> st.buffer != 0
  {
    if st.bitsLeft == 0 {
      assert Pow2(0) == 1;
    } else {
      ModSmall(st.buffer, Pow2(st.bitsLeft));
    }
  }

  lemma ModSmall(x: nat, m: nat)
    requires x < m
    ensures x % m == x
  {
  }

  /**
   * The decoder. Writes decoded bytes to the front of `out` and leaves the
   * rest of `out` as it was; on failure the bytes written before the
   * failure stay in `out`.
   */
  method Decode(base64: seq<u8>, out: array<u8>) returns (ok: bool)
    modifies out
    ensures var r := Decoded(base64, out.Length);
      ok == r.ok && out[..|r.written|] == r.written && out[|r.written|..] == old(out[|r.written|..])
  {
    var outIndex: nat := 0;
    var buffer: nat := 0;
    var bitsLeft: nat := 0;
    var i := 0;
    while i < |base64|
      invariant 0 <= i <= |base64| && outIndex <= out.Length
      invariant Run(base64[..i], out.Length) == DecodeState(buffer, bitsLeft, out[..outIndex], Running)
      invariant out[outIndex..] == old(out[outIndex..])
    {
      var byte := base64[i];
      RunNext(base64, i, out.Length);
      ghost var written := out[..outIndex];
      if DecodeTable(byte) == -1 {
        if IsSkipped(byte) {
          i := i + 1;
          continue;
        }
        FailureIsFinal(base64, i + 1, out.Length);
        return false;
      }
      buffer := buffer * 64 + DecodeTable(byte);
      bitsLeft := bitsLeft + 6;
      if bitsLeft >= 8 {
        bitsLeft := bitsLeft - 8;
        var decodedByte := (buffer / Pow2(bitsLeft)) % 256;
        if outIndex >= out.Length {
          FailureIsFinal(base64, i + 1, out.Length);
          return false;
        }
        out[outIndex] := decodedByte;
        assert out[..outIndex + 1] == written + [decodedByte];
        outIndex := outIndex + 1;
        buffer := buffer % Pow2(bitsLeft);
      }
      i := i + 1;
    }
    assert base64[..i] == base64;
    ok := !(bitsLeft > 0 && buffer % Pow2(bitsLeft) != 0);
  }

  // ---------------------------------------------------------------------
  // Properties of the fold

  /** The loop's state after byte `i` is one `Step` on from its state before it. */
  lemma RunNext(input: seq<u8>, i: nat, capacity: nat)
    requires i < |input|
    ensures Run(input[..i + 1], capacity) == Step(Run(input[..i], capacity), input[i], capacity)
  {
    assert input[..i + 1][..i] == input[..i];
  }

  lemma {:induction false} RunFromAppend(st: DecodeState, s: seq<u8>, b: u8, capacity: nat)
    ensures RunFrom(st, s + [b], capacity) == Step(RunFrom(st, s, capacity), b, capacity)
  {
    assert (s + [b])[..|s|] == s;
  }

  lemma {:induction false} RunFromConcat(st: DecodeState, p: seq<u8>, q: seq<u8>, capacity: nat)
    ensures RunFrom(st, p + q, capacity) == RunFrom(RunFrom(st, p, capacity), q, capacity)
    decreases |q|
  {
    if q == [] {
      assert p + q == p;
    } else {
      var q' := q[..|q| - 1];
      assert p + q == (p + q') + [q[|q| - 1]];
      assert q == q' + [q[|q| - 1]];
      RunFromConcat(st, p, q', capacity);
      RunFromAppend(st, p + q', q[|q| - 1], capacity);
      RunFromAppend(RunFrom(st, p, capacity), q', q[|q| - 1], capacity);
    }
  }

  /** Once the loop has returned false, no later byte changes the outcome. */
  lemma {:induction false} FailedStays(st: DecodeState, s: seq<u8>, capacity: nat)
    requires st.status != Running
    ensures RunFrom(st, s, capacity) == st
    decreases |s|
  {
    if s != [] {
      FailedStays(st, s[..|s| - 1], capacity);
    }
  }

  lemma FailureIsFinal(input: seq<u8>, k: nat, capacity: nat)
    requires k <= |input|
    requires Run(input[..k], capacity).status != Running
    ensures Run(input, capacity) == Run(input[..k], capacity)
  {
    assert input == input[..k] + input[k..];
    RunFromConcat(Start, input[..k], input[k..], capacity);
    FailedStays(Run(input[..k], capacity), input[k..], capacity);
  }

  /** Any byte outside the table that is not '\n', '\r' or ' ' makes the decode fail. */
  lemma InvalidByteRejected(input: seq<u8>, i: nat, capacity: nat)
    requires i < |input| && DecodeTable(input[i]) == -1 && !IsSkipped(input[i])
    ensures !Decoded(input, capacity).ok
  {
    assert input[..i + 1] == input[..i] + [input[i]];
    RunFromAppend(Start, input[..i], input[i], capacity);
    FailureIsFinal(input, i + 1, capacity);
  }

  /** The input with every '\n', '\r' and ' ' removed. */
  function RemoveWhitespace(s: seq<u8>): (r: seq<u8>)
    ensures |r| <= |s|
  {
    if s == [] then []
    else RemoveWhitespace(s[..|s| - 1]) + (if IsWhitespace(s[|s| - 1]) then [] else [s[|s| - 1]])
  }

  /** White space leaves the accumulator, the bit count and the output untouched. */
  lemma {:induction false} WhitespaceIgnoredFrom(st: DecodeState, s: seq<u8>, capacity: nat)
    ensures RunFrom(st, s, capacity) == RunFrom(st, RemoveWhitespace(s), capacity)
    decreases |s|
  {
    if s != [] {
      var init, last := s[..|s| - 1], s[|s| - 1];
      WhitespaceIgnoredFrom(st, init, capacity);
      if !IsWhitespace(last) {
        RunFromAppend(st, RemoveWhitespace(init), last, capacity);
      } else {
        assert RemoveWhitespace(s) == RemoveWhitespace(init) + [];
        assert RemoveWhitespace(init) + [] == RemoveWhitespace(init);
      }
    }
  }

  lemma WhitespaceIgnored(input: seq<u8>, capacity: nat)
    ensures Decoded(input, capacity) == Decoded(RemoveWhitespace(input), capacity)
  {
    WhitespaceIgnoredFrom(Start, input, capacity);
  }

  /** Number of bytes the table gives a sextet value (alphabet characters and '='). */
  function DataCount(s: seq<u8>): nat
  {
    if s == [] then 0
    else DataCount(s[..|s| - 1]) + (if DecodeTable(s[|s| - 1]) == -1 then 0 else 1)
  }

  /**
   * Every consumed sextet contributes six bits: the written bytes hold eight
   * each and `bitsLeft` holds the rest, so the output has floor(6k/8) bytes.
   */
  lemma {:induction false} OutputLength(input: seq<u8>, capacity: nat)
    requires Run(input, capacity).status == Running
    ensures 8 * |Run(input, capacity).out| + Run(input, capacity).bitsLeft == 6 * DataCount(input)
    ensures |Run(input, capacity).out| == 6 * DataCount(input) / 8
  {
    if input != [] {
      var init := input[..|input| - 1];
      assert Run(input, capacity) == Step(Run(init, capacity), input[|input| - 1], capacity);
      OutputLength(init, capacity);
    }
  }

  /**
   * The capacity only truncates: decoding into a smaller buffer writes a
   * prefix of what a larger one receives, and fails exactly when the larger
   * buffer's output would not fit.
   */
  lemma {:induction false} CapacityOnlyTruncates(input: seq<u8>, small: nat, large: nat)
    requires small <= large
    requires Run(input, large).status == Running
    ensures var big := Run(input, large).out;
      var r := Run(input, small);
      (r.status == Running <==> |big| <= small) &&
      (r.status == Running ==> r == Run(input, large)) &&
      (r.status != Running ==> r.status == OutputFull && r.out == big[..small])
  {
    if input != [] {
      var init, last := input[..|input| - 1], input[|input| - 1];
      assert Run(input, large) == Step(Run(init, large), last, large);
      assert Run(input, small) == Step(Run(init, small), last, small);
      CapacityOnlyTruncates(init, small, large);
    }
  }

  // ---------------------------------------------------------------------
  // Round trip with an RFC 4648 section 4 encoder

  /** The alphabet character for a sextet value (RFC 4648, Table 1). */
  function EncodeSextet(v: nat): (b: u8)
    requires v < 64
    ensures IsAlphabet(b) && DecodeTable(b) == v
  {
    if v < 26 then 'A' as int + v
    else if v < 52 then 'a' as int + (v - 26)
    else if v < 62 then '0' as int + (v - 52)
    else if v == 62 then '+' as int
    else '/' as int
  }

  function EncodeGroup(a: u8, b: u8, c: u8): seq<u8> {
    [EncodeSextet(a / 4), EncodeSextet((a % 4) * 16 + b / 16), EncodeSextet((b % 16) * 4 + c / 64), EncodeSextet(c % 64)]
  }

  /** Base64 encoding without padding. */
  function Encode(data: seq<u8>): (s: seq<u8>)
    ensures forall i :: 0 <= i < |s| ==> IsAlphabet(s[i])
  {
    if |data| >= 3 then EncodeGroup(data[0], data[1], data[2]) + Encode(data[3..])
    else if |data| == 2 then
      [EncodeSextet(data[0] / 4), EncodeSextet((data[0] % 4) * 16 + data[1] / 16), EncodeSextet((data[1] % 16) * 4)]
    else if |data| == 1 then
      [EncodeSextet(data[0] / 4), EncodeSextet((data[0] % 4) * 16)]
    else []
  }

  /** Number of '=' an RFC 4648 encoder appends. */
  function PadCount(n: nat): nat {
    if n % 3 == 1 then 2 else if n % 3 == 2 then 1 else 0
  }

  /** Base64 encoding with '=' padding to a multiple of four characters. */
  function EncodePadded(data: seq<u8>): seq<u8> {
    Encode(data) + seq(PadCount(|data|), _ => '=' as int)
  }

  function Zeros(n: nat): (z: seq<u8>)
    ensures |z| == n && forall i :: 0 <= i < n ==> z[i] == 0
  {
    seq(n, _ => 0)
  }

  lemma DivMod16(x: int, q: int, r: int)
    requires 0 <= r < 16 && x == q * 16 + r
    ensures x / 16 == q && x % 16 == r
  {
  }

  lemma DivMod4(x: int, q: int, r: int)
    requires 0 <= r < 4 && x == q * 4 + r
    ensures x / 4 == q && x % 4 == r
  {
  }

  lemma RunFrom4(st: DecodeState, w: u8, x: u8, y: u8, z: u8, capacity: nat)
    ensures RunFrom(st, [w, x, y, z], capacity)
         == Step(Step(Step(Step(st, w, capacity), x, capacity), y, capacity), z, capacity)
  {
    RunFrom3(st, w, x, y, capacity);
    RunFromAppend(st, [w, x, y], z, capacity);
    assert [w, x, y] + [z] == [w, x, y, z];
  }

  /** The first two characters of a group: one byte out, four zero-prefixed bits kept. */
  lemma TwoSextets(o: seq<u8>, a: u8, bHigh: nat, capacity: nat)
    requires |o| < capacity && bHigh < 16
    ensures Step(Step(DecodeState(0, 0, o, Running), EncodeSextet(a / 4), capacity), EncodeSextet((a % 4) * 16 + bHigh), capacity)
         == DecodeState(bHigh, 4, o + [a], Running)
  {
    var st1 := Step(DecodeState(0, 0, o, Running), EncodeSextet(a / 4), capacity);
    assert st1 == DecodeState(a / 4, 6, o, Running);
    var buffer := (a / 4) * 64 + (a % 4) * 16 + bHigh;
    assert Pow2(4) == 16;
    assert buffer == a * 16 + bHigh;
    DivMod16(buffer, a, bHigh);
  }

  /** A third character after four kept bits: one byte out, two bits kept. */
  lemma ThirdSextet(o: seq<u8>, b: u8, cHigh: nat, capacity: nat)
    requires |o| < capacity && cHigh < 4
    ensures Step(DecodeState(b / 16, 4, o, Running), EncodeSextet((b % 16) * 4 + cHigh), capacity)
         == DecodeState(cHigh, 2, o + [b], Running)
  {
    var buffer := (b / 16) * 64 + (b % 16) * 4 + cHigh;
    assert Pow2(2) == 4;
    assert buffer == b * 4 + cHigh;
    DivMod4(buffer, b, cHigh);
  }

  lemma FourthSextet(o: seq<u8>, c: u8, capacity: nat)
    requires |o| < capacity
    ensures Step(DecodeState(c / 64, 2, o, Running), EncodeSextet(c % 64), capacity)
         == DecodeState(0, 0, o + [c], Running)
  {
    assert Pow2(0) == 1;
    assert (c / 64) * 64 + c % 64 == c;
  }

  /** A full group of four characters decodes to its three bytes and empties the accumulator. */
  lemma GroupDecodes(o: seq<u8>, a: u8, b: u8, c: u8, capacity: nat)
    requires |o| + 3 <= capacity
    ensures RunFrom(DecodeState(0, 0, o, Running), EncodeGroup(a, b, c), capacity)
         == DecodeState(0, 0, o + [a, b, c], Running)
  {
    RunFrom4(DecodeState(0, 0, o, Running), EncodeSextet(a / 4), EncodeSextet((a % 4) * 16 + b / 16),
             EncodeSextet((b % 16) * 4 + c / 64), EncodeSextet(c % 64), capacity);
    TwoSextets(o, a, b / 16, capacity);
    ThirdSextet(o + [a], b, c / 64, capacity);
    FourthSextet(o + [a] + [b], c, capacity);
    assert o + [a] + [b] + [c] == o + [a, b, c];
  }

  /** A final group of two or three characters decodes to its bytes and leaves zero bits behind. */
  lemma TailDecodes(o: seq<u8>, data: seq<u8>, capacity: nat)
    requires 0 < |data| < 3 && |o| + |data| <= capacity
    ensures var r := RunFrom(DecodeState(0, 0, o, Running), Encode(data), capacity);
      r.status == Running && r.out == o + data && r.buffer == 0
  {
    if |data| == 2 {
      assert data == [data[0], data[1]];
      TailPair(o, data[0], data[1], capacity);
    } else {
      assert data == [data[0]];
      TailSingle(o, data[0], capacity);
    }
  }

  /** Two final bytes are three characters: both bytes out, two zero bits kept. */
  lemma TailPair(o: seq<u8>, a: u8, b: u8, capacity: nat)
    requires |o| + 2 <= capacity
    ensures RunFrom(DecodeState(0, 0, o, Running), Encode([a, b]), capacity) == DecodeState(0, 2, o + [a, b], Running)
  {
    var x, y, z := EncodeSextet(a / 4), EncodeSextet((a % 4) * 16 + b / 16), EncodeSextet((b % 16) * 4);
    assert Encode([a, b]) == [x, y, z];
    RunFrom3(DecodeState(0, 0, o, Running), x, y, z, capacity);
    TwoSextets(o, a, b / 16, capacity);
    ThirdSextet(o + [a], b, 0, capacity);
    assert o + [a] + [b] == o + [a, b];
  }

  /** One final byte is two characters: the byte out, four zero bits kept. */
  lemma TailSingle(o: seq<u8>, a: u8, capacity: nat)
    requires |o| + 1 <= capacity
    ensures RunFrom(DecodeState(0, 0, o, Running), Encode([a]), capacity) == DecodeState(0, 4, o + [a], Running)
  {
    var x, y := EncodeSextet(a / 4), EncodeSextet((a % 4) * 16);
    assert Encode([a]) == [x, y];
    RunFrom2(DecodeState(0, 0, o, Running), x, y, capacity);
    TwoSextets(o, a, 0, capacity);
  }

  /** Decoding an unpadded encoding from an empty accumulator appends exactly the encoded bytes. */
  lemma {:induction false} RoundTripFrom(o: seq<u8>, data: seq<u8>, capacity: nat)
    requires |o| + |data| <= capacity
    ensures RoundTripsFrom(o, data, capacity)
    decreases |data|
  {
    if |data| >= 3 {
      RoundTripFrom(o + data[..3], data[3..], capacity);
      GroupThenRest(o, data, capacity);
    } else if |data| > 0 {
      TailDecodes(o, data, capacity);
    } else {
      assert o + data == o;
    }
  }

  ghost predicate RoundTripsFrom(o: seq<u8>, data: seq<u8>, capacity: nat) {
    var r := RunFrom(DecodeState(0, 0, o, Running), Encode(data), capacity);
    r.status == Running && r.out == o + data && r.buffer == 0
  }

  lemma GroupThenRest(o: seq<u8>, data: seq<u8>, capacity: nat)
    requires |data| >= 3 && |o| + |data| <= capacity
    requires RoundTripsFrom(o + data[..3], data[3..], capacity)
    ensures RoundTripsFrom(o, data, capacity)
  {
    var st := DecodeState(0, 0, o, Running);
    var g, rest := EncodeGroup(data[0], data[1], data[2]), Encode(data[3..]);
    GroupDecodes(o, data[0], data[1], data[2], capacity);
    FirstGroup(o, data);
    EncodeUnfold(data);
    RunFromConcat(st, g, rest, capacity);
  }

  /** The bytes of the first group, and the rest after them, put `data` back together. */
  lemma FirstGroup(o: seq<u8>, data: seq<u8>)
    requires |data| >= 3
    ensures o + [data[0], data[1], data[2]] == o + data[..3]
    ensures o + data[..3] + data[3..] == o + data
  {
    assert data[..3] + data[3..] == data;
  }

  lemma EncodeUnfold(data: seq<u8>)
    requires |data| >= 3
    ensures Encode(data) == EncodeGroup(data[0], data[1], data[2]) + Encode(data[3..])
  {
  }

  /** Unpadded base64 of `data` decodes to exactly `data` whenever it fits the output buffer. */
  lemma RoundTrip(data: seq<u8>, capacity: nat)
    requires |data| <= capacity
    ensures Decoded(Encode(data), capacity) == Decoding(true, data)
  {
    RoundTripFrom([], data, capacity);
    assert [] + data == data;
  }

  /** When it does not fit, the decode fails after filling the buffer with the first bytes. */
  lemma OverflowRejected(data: seq<u8>, capacity: nat)
    requires capacity < |data|
    ensures Decoded(Encode(data), capacity) == Decoding(false, data[..capacity])
  {
    RoundTripFrom([], data, |data|);
    assert [] + data == data;
    CapacityOnlyTruncates(Encode(data), capacity, |data|);
  }

  /**
   * Because '=' decodes as a zero sextet, a padded encoding decodes to the
   * data followed by one 0x00 byte per '=' (RFC 4648 decoding gives `data`).
   */
  lemma PaddingDecodesAsZeros(data: seq<u8>, capacity: nat)
    requires |data| + PadCount(|data|) <= capacity
    ensures Decoded(EncodePadded(data), capacity) == Decoding(true, data + Zeros(PadCount(|data|)))
  {
    var pads := seq(PadCount(|data|), _ => '=' as int);
    var mid := RunFrom(Start, Encode(data), capacity);
    assert mid == DecodeState(0, mid.bitsLeft, data, Running) by {
      RoundTripFrom([], data, capacity);
      assert [] + data == data;
    }
    assert mid.bitsLeft == (2 * PadCount(|data|)) % 6 by {
      OutputLength(Encode(data), capacity);
      EncodeLength(data);
      LeftoverArithmetic(|data|, |Encode(data)|, mid.bitsLeft);
    }
    RunFromConcat(Start, Encode(data), pads, capacity);
    PadsDecode(data, PadCount(|data|), capacity);
  }

  lemma LeftoverArithmetic(n: nat, chars: nat, bits: nat)
    requires chars == 4 * (n / 3) + (if n % 3 == 0 then 0 else n % 3 + 1)
    requires 8 * n + bits == 6 * chars
    ensures bits == (2 * PadCount(n)) % 6
  {
    var q, r := n / 3, n % 3;
    assert n == 3 * q + r;
  }

  /** After `n` final characters' leftover bits, each of the `n` '=' emits a zero byte. */
  lemma PadsDecode(o: seq<u8>, n: nat, capacity: nat)
    requires n <= 2 && |o| + n <= capacity
    ensures RunFrom(DecodeState(0, (2 * n) % 6, o, Running), seq(n, _ => '=' as int), capacity)
         == DecodeState(0, 0, o + Zeros(n), Running)
  {
    var eq: u8 := '=' as int;
    if n == 2 {
      assert seq(n, _ => '=' as int) == [eq, eq];
      RunFrom2(DecodeState(0, 4, o, Running), eq, eq, capacity);
      PadDecodes(o, 4, capacity);
      PadDecodes(o + [0], 2, capacity);
      assert o + [0] + [0] == o + Zeros(2);
    } else if n == 1 {
      assert seq(n, _ => '=' as int) == [eq];
      RunFrom1(DecodeState(0, 2, o, Running), eq, capacity);
      PadDecodes(o, 2, capacity);
      assert o + [0] == o + Zeros(1);
    } else {
      assert seq(n, _ => '=' as int) == [];
      assert o + Zeros(0) == o;
    }
  }

  /** One '=' after two or four zero leftover bits: a zero byte out, two bits fewer kept. */
  lemma PadDecodes(o: seq<u8>, bits: nat, capacity: nat)
    requires (bits == 2 || bits == 4) && |o| < capacity
    ensures Step(DecodeState(0, bits, o, Running), '=' as int, capacity) == DecodeState(0, bits - 2, o + [0], Running)
  {
    assert DecodeTable('=' as int) == 0;
    assert Pow2(bits - 2) >= 1;
  }

  lemma RunFrom1(st: DecodeState, x: u8, capacity: nat)
    ensures RunFrom(st, [x], capacity) == Step(st, x, capacity)
  {
    RunFromAppend(st, [], x, capacity);
    assert [] + [x] == [x];
  }

  lemma RunFrom2(st: DecodeState, x: u8, y: u8, capacity: nat)
    ensures RunFrom(st, [x, y], capacity) == Step(Step(st, x, capacity), y, capacity)
  {
    RunFrom1(st, x, capacity);
    RunFromAppend(st, [x], y, capacity);
    assert [x] + [y] == [x, y];
  }

  lemma RunFrom3(st: DecodeState, x: u8, y: u8, z: u8, capacity: nat)
    ensures RunFrom(st, [x, y, z], capacity) == Step(Step(Step(st, x, capacity), y, capacity), z, capacity)
  {
    RunFrom2(st, x, y, capacity);
    RunFromAppend(st, [x, y], z, capacity);
    assert [x, y] + [z] == [x, y, z];
  }

  lemma {:induction false} EncodeLength(data: seq<u8>)
    ensures DataCount(Encode(data)) == |Encode(data)|
    ensures |Encode(data)| == 4 * (|data| / 3) + (if |data| % 3 == 0 then 0 else |data| % 3 + 1)
    decreases |data|
  {
    AllDataCounted(Encode(data));
    if |data| >= 3 {
      EncodeLength(data[3..]);
    }
  }

  lemma {:induction false} AllDataCounted(s: seq<u8>)
    requires forall i :: 0 <= i < |s| ==> IsAlphabet(s[i])
    ensures DataCount(s) == |s|
  {
    if s != [] {
      AllDataCounted(s[..|s| - 1]);
    }
  }

  // ---------------------------------------------------------------------
  // The trailing-bits test: only the standard encoding is accepted

  /** A decode that runs to the end but leaves set bits behind fails, with the bytes it wrote. */
  lemma TrailingBitsRejected(input: seq<u8>, capacity: nat)
    requires Run(input, capacity).status == Running && Run(input, capacity).buffer != 0
    ensures Decoded(input, capacity) == Decoding(false, Run(input, capacity).out)
  {
  }

  /** "QR" carries four set leftover bits after its byte 0x41: it is refused after writing 0x41. */
  lemma TrailingBitsExample(capacity: nat)
    requires capacity >= 1
    ensures Decoded(['Q' as int, 'R' as int], capacity) == Decoding(false, [0x41])
  {
    var q: u8, r: u8 := 'Q' as int, 'R' as int;
    RunFrom2(Start, q, r, capacity);
    assert Pow2(4) == 16;
    assert Step(Start, q, capacity) == DecodeState(16, 6, [], Running);
  }

  /**
   * A stray character of value zero after a complete encoding is accepted
   * and adds nothing: its six bits stay in the accumulator and are all zero.
   */
  lemma StrayZeroSextetAccepted(data: seq<u8>, capacity: nat)
    requires |data| % 3 == 0 && |data| <= capacity
    ensures Decoded(Encode(data) + ['A' as int], capacity) == Decoding(true, data)
  {
    RoundTripFrom([], data, capacity);
    assert [] + data == data;
    OutputLength(Encode(data), capacity);
    EncodeLength(data);
    RunFromAppend(Start, Encode(data), 'A' as int, capacity);
  }

  /** Every alphabet character is the encoding of its own table value. */
  lemma SextetInverse(ch: u8)
    requires IsAlphabet(ch)
    ensures 0 <= DecodeTable(ch) < 64 && EncodeSextet(DecodeTable(ch)) == ch
  {
  }

  lemma DivMod64(x: int, q: int, r: int)
    requires 0 <= r < 64 && x == q * 64 + r
    ensures x / 64 == q && x % 64 == r
  {
  }

  /** Four sextets, regrouped as three bytes, give the sextets back. */
  lemma Repack(v0: nat, v1: nat, v2: nat, v3: nat) returns (a: u8, b: u8, c: u8)
    requires v0 < 64 && v1 < 64 && v2 < 64 && v3 < 64
    ensures a / 4 == v0 && (a % 4) * 16 + b / 16 == v1 && (b % 16) * 4 + c / 64 == v2 && c % 64 == v3
  {
    a := v0 * 4 + v1 / 16;
    b := (v1 % 16) * 16 + v2 / 4;
    c := (v2 % 4) * 64 + v3;
    DivMod4(a, v0, v1 / 16);
    DivMod16(b, v1 % 16, v2 / 4);
    DivMod64(c, v2 % 4, v3);
  }

  /** Four alphabet characters are the encoding of some three bytes. */
  lemma GroupOf(w: u8, x: u8, y: u8, z: u8) returns (a: u8, b: u8, c: u8)
    requires IsAlphabet(w) && IsAlphabet(x) && IsAlphabet(y) && IsAlphabet(z)
    ensures EncodeGroup(a, b, c) == [w, x, y, z]
  {
    SextetInverse(w);
    SextetInverse(x);
    SextetInverse(y);
    SextetInverse(z);
    a, b, c := Repack(DecodeTable(w), DecodeTable(x), DecodeTable(y), DecodeTable(z));
  }

  /** A group that would write past the buffer stops the loop. */
  lemma GroupOverflows(o: seq<u8>, a: u8, b: u8, c: u8, capacity: nat)
    requires capacity < |o| + 3
    ensures RunFrom(DecodeState(0, 0, o, Running), EncodeGroup(a, b, c), capacity).status != Running
  {
    var st := DecodeState(0, 0, o, Running);
    var w, x, y, z := EncodeSextet(a / 4), EncodeSextet((a % 4) * 16 + b / 16),
                      EncodeSextet((b % 16) * 4 + c / 64), EncodeSextet(c % 64);
    RunFrom4(st, w, x, y, z, capacity);
    if |o| >= capacity {
      assert Step(st, w, capacity) == DecodeState(a / 4, 6, o, Running);
      assert Step(Step(st, w, capacity), x, capacity).status == OutputFull;
    } else if |o| + 1 == capacity {
      TwoSextets(o, a, b / 16, capacity);
      assert Step(DecodeState(b / 16, 4, o + [a], Running), y, capacity).status == OutputFull;
    } else {
      TwoSextets(o, a, b / 16, capacity);
      ThirdSextet(o + [a], b, c / 64, capacity);
      assert Step(DecodeState(c / 64, 2, o + [a] + [b], Running), z, capacity).status == OutputFull;
    }
  }

  /** Two characters from an empty accumulator: one byte out, or the buffer is already full. */
  lemma PairState(o: seq<u8>, a: u8, bHigh: nat, capacity: nat)
    requires bHigh < 16
    ensures var r := RunFrom(DecodeState(0, 0, o, Running),
                             [EncodeSextet(a / 4), EncodeSextet((a % 4) * 16 + bHigh)], capacity);
      (r.status == Running <==> |o| < capacity) &&
      (r.status == Running ==> r == DecodeState(bHigh, 4, o + [a], Running))
  {
    var st := DecodeState(0, 0, o, Running);
    var w, x := EncodeSextet(a / 4), EncodeSextet((a % 4) * 16 + bHigh);
    RunFrom2(st, w, x, capacity);
    assert Step(st, w, capacity) == DecodeState(a / 4, 6, o, Running);
    if |o| < capacity {
      TwoSextets(o, a, bHigh, capacity);
    }
  }

  /** Three characters from an empty accumulator: two bytes out, or the buffer fills first. */
  lemma TripleState(o: seq<u8>, a: u8, b: u8, cHigh: nat, capacity: nat)
    requires cHigh < 4
    ensures var r := RunFrom(DecodeState(0, 0, o, Running),
                             [EncodeSextet(a / 4), EncodeSextet((a % 4) * 16 + b / 16), EncodeSextet((b % 16) * 4 + cHigh)], capacity);
      (r.status == Running <==> |o| + 2 <= capacity) &&
      (r.status == Running ==> r == DecodeState(cHigh, 2, o + [a, b], Running))
  {
    var st := DecodeState(0, 0, o, Running);
    var w, x, y := EncodeSextet(a / 4), EncodeSextet((a % 4) * 16 + b / 16), EncodeSextet((b % 16) * 4 + cHigh);
    RunFromAppend(st, [w, x], y, capacity);
    assert [w, x] + [y] == [w, x, y];
    PairState(o, a, b / 16, capacity);
    if |o| < capacity && |o| + 2 <= capacity {
      ThirdSextet(o + [a], b, cHigh, capacity);
      assert o + [a] + [b] == o + [a, b];
    }
  }

  /** An accepted two-character tail is the encoding of the one byte it wrote. */
  lemma CanonicalPair(o: seq<u8>, w: u8, x: u8, capacity: nat)
    requires IsAlphabet(w) && IsAlphabet(x)
    requires var r := RunFrom(DecodeState(0, 0, o, Running), [w, x], capacity);
      r.status == Running && r.buffer == 0
    ensures var r := RunFrom(DecodeState(0, 0, o, Running), [w, x], capacity);
      |o| <= |r.out| && Encode(r.out[|o|..]) == [w, x]
  {
    SextetInverse(w);
    SextetInverse(x);
    var a, b, _ := Repack(DecodeTable(w), DecodeTable(x), 0, 0);
    PairState(o, a, b / 16, capacity);
    assert (o + [a])[|o|..] == [a];
  }

  /** An accepted three-character tail is the encoding of the two bytes it wrote. */
  lemma CanonicalTriple(o: seq<u8>, w: u8, x: u8, y: u8, capacity: nat)
    requires IsAlphabet(w) && IsAlphabet(x) && IsAlphabet(y)
    requires var r := RunFrom(DecodeState(0, 0, o, Running), [w, x, y], capacity);
      r.status == Running && r.buffer == 0
    ensures var r := RunFrom(DecodeState(0, 0, o, Running), [w, x, y], capacity);
      |o| <= |r.out| && Encode(r.out[|o|..]) == [w, x, y]
  {
    SextetInverse(w);
    SextetInverse(x);
    SextetInverse(y);
    var a, b, c := Repack(DecodeTable(w), DecodeTable(x), DecodeTable(y), 0);
    TripleState(o, a, b, c / 64, capacity);
    var r := RunFrom(DecodeState(0, 0, o, Running), [w, x, y], capacity);
    assert r.out == o + [a, b] && c / 64 == 0;
    assert r.out[|o|..] == [a, b];
    EncodeTwo(a, b);
  }

  lemma EncodeTwo(a: u8, b: u8)
    ensures Encode([a, b]) == [EncodeSextet(a / 4), EncodeSextet((a % 4) * 16 + b / 16), EncodeSextet((b % 16) * 4)]
  {
  }

  /** When the whole input is accepted, its first four characters decode as a full group. */
  lemma FirstGroupDecodes(o: seq<u8>, s: seq<u8>, capacity: nat) returns (a: u8, b: u8, c: u8)
    requires |s| >= 4 && IsAlphabet(s[0]) && IsAlphabet(s[1]) && IsAlphabet(s[2]) && IsAlphabet(s[3])
    requires RunFrom(DecodeState(0, 0, o, Running), s, capacity).status == Running
    ensures EncodeGroup(a, b, c) + s[4..] == s
    ensures RunFrom(DecodeState(0, 0, o, Running), s, capacity)
         == RunFrom(DecodeState(0, 0, o + [a, b, c], Running), s[4..], capacity)
  {
    var st := DecodeState(0, 0, o, Running);
    a, b, c := GroupOf(s[0], s[1], s[2], s[3]);
    var g := EncodeGroup(a, b, c);
    assert g + s[4..] == s;
    RunFromConcat(st, g, s[4..], capacity);
    if capacity < |o| + 3 {
      GroupOverflows(o, a, b, c, capacity);
      FailedStays(RunFrom(st, g, capacity), s[4..], capacity);
    } else {
      GroupDecodes(o, a, b, c, capacity);
    }
  }

  /** The loop, started with an empty accumulator after output `o`, accepts `s` with no set bit left. */
  ghost predicate Accepts(o: seq<u8>, s: seq<u8>, capacity: nat) {
    var r := RunFrom(DecodeState(0, 0, o, Running), s, capacity);
    r.status == Running && r.buffer == 0
  }

  /** What that run writes after `o` encodes back to `s`. */
  ghost predicate Reencodes(o: seq<u8>, s: seq<u8>, capacity: nat) {
    var r := RunFrom(DecodeState(0, 0, o, Running), s, capacity);
    |o| <= |r.out| && Encode(r.out[|o|..]) == s
  }

  /** An accepted input of four or more characters: its first group, then an accepted rest. */
  lemma GroupStep(o: seq<u8>, s: seq<u8>, capacity: nat) returns (o': seq<u8>, rest: seq<u8>)
    requires |s| >= 4 && |s| % 4 != 1 && forall i :: 0 <= i < |s| ==> IsAlphabet(s[i])
    requires Accepts(o, s, capacity)
    ensures |rest| < |s| && |rest| % 4 != 1 && forall i :: 0 <= i < |rest| ==> IsAlphabet(rest[i])
    ensures Accepts(o', rest, capacity)
    ensures Reencodes(o', rest, capacity) ==> Reencodes(o, s, capacity)
  {
    var a, b, c := FirstGroupDecodes(o, s, capacity);
    o', rest := o + [a, b, c], s[4..];
    forall i | 0 <= i < |rest|
      ensures IsAlphabet(rest[i])
    {
      assert rest[i] == s[i + 4];
    }
    DivMod4(|s|, |rest| / 4 + 1, |rest| % 4);
    var r := RunFrom(DecodeState(0, 0, o', Running), rest, capacity);
    assert r == RunFrom(DecodeState(0, 0, o, Running), s, capacity);
    if Reencodes(o', rest, capacity) {
      GroupThenTail(o, [a, b, c], r.out);
    }
  }

  /**
   * From an empty accumulator, alphabet characters (not one more than a
   * multiple of four of them) that the loop accepts with no set bit left
   * are exactly the encoding of the bytes written.
   */
  lemma {:induction false} CanonicalFrom(o: seq<u8>, s: seq<u8>, capacity: nat)
    requires forall i :: 0 <= i < |s| ==> IsAlphabet(s[i])
    requires |s| % 4 != 1
    requires Accepts(o, s, capacity)
    ensures Reencodes(o, s, capacity)
    decreases |s|
  {
    if |s| == 0 {
      assert RunFrom(DecodeState(0, 0, o, Running), s, capacity).out[|o|..] == [];
    } else if |s| == 2 {
      assert s == [s[0], s[1]];
      CanonicalPair(o, s[0], s[1], capacity);
    } else if |s| == 3 {
      assert s == [s[0], s[1], s[2]];
      CanonicalTriple(o, s[0], s[1], s[2], capacity);
    } else {
      var o', rest := GroupStep(o, s, capacity);
      CanonicalFrom(o', rest, capacity);
    }
  }

  /** Output that starts with `o + group` re-encodes as the group's characters, then the rest. */
  lemma GroupThenTail(o: seq<u8>, group: seq<u8>, out: seq<u8>)
    requires |group| == 3 && |o| + 3 <= |out| && out[..|o| + 3] == o + group
    ensures Encode(out[|o|..]) == EncodeGroup(group[0], group[1], group[2]) + Encode(out[|o| + 3..])
  {
    var t := out[|o|..];
    assert t[0] == group[0] && t[1] == group[1] && t[2] == group[2];
    assert t[3..] == out[|o| + 3..];
    EncodeUnfold(t);
  }

  /**
   * The converse of `RoundTrip`: an input of alphabet characters, not one
   * more than a multiple of four of them, is accepted only when it is the
   * standard encoding of the bytes decoded from it.
   */
  lemma OnlyStandardEncodingAccepted(s: seq<u8>, capacity: nat)
    requires forall i :: 0 <= i < |s| ==> IsAlphabet(s[i])
    requires |s| % 4 != 1
    ensures Decoded(s, capacity).ok ==> Encode(Decoded(s, capacity).written) == s
  {
    if Decoded(s, capacity).ok {
      CanonicalFrom([], s, capacity);
      assert Run(s, capacity).out[0..] == Run(s, capacity).out;
    }
  }
}
