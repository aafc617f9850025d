/** Fixed-width integer types, 8-bit C characters and Option, shared by all modules. */
module Common {

  /** `uint8_t`, `uint16_t`, `uint32_t` as ranges of the unbounded integers. */
  type u8 = x: int | 0 <= x < 0x100
  type u16 = x: int | 0 <= x < 0x1_0000
  type u32 = x: int | 0 <= x < 0x1_0000_0000

  /** A C `char` on the firmware: one byte of serial text. */
  type char8 = c: char | c as int < 0x100 witness 'a'

  datatype Option<+T> = None | Some(value: T)

  /** The separator of the colon-delimited command arguments. */
  const Colon: char8 := ':'

  /** The bytes behind a character view (`(const uint8_t*)args.data()`). */
  function ToBytes(s: seq<char8>): (b: seq<u8>)
    ensures |b| == |s|
    ensures forall i :: 0 <= i < |s| ==> b[i] == s[i] as int
  {
    seq(|s|, i requires 0 <= i < |s| => s[i] as int)
  }

  /** Index of the first occurrence of `c` in `s` at or after `from` (`find(c, from)`). */
  function Find(s: seq<char8>, c: char8, from: nat): (r: Option<nat>)
    decreases |s| - from
    ensures r.Some? ==> from <= r.value < |s| && s[r.value] == c
  {
    if from >= |s| then None
    else if s[from] == c then Some(from)
    else Find(s, c, from + 1)
  }

  /** Nothing between `from` and what `Find` returns holds `c`. */
  lemma {:induction false} FindFirst(s: seq<char8>, c: char8, from: nat)
    ensures Find(s, c, from).Some? ==> forall k :: from <= k < Find(s, c, from).value ==> s[k] != c
    ensures Find(s, c, from).None? ==> forall k :: from <= k < |s| ==> s[k] != c
    decreases |s| - from
  {
    if from < |s| && s[from] != c {
      FindFirst(s, c, from + 1);
    }
  }

  /** A scan of `p + s` past `p` finds what the same scan of `s` finds, shifted by `|p|`. */
  lemma {:induction false} FindAfter(p: seq<char8>, s: seq<char8>, c: char8, i: nat)
    requires i <= |s|
    ensures Find(p + s, c, |p| + i) == match Find(s, c, i)
      case None => None
      case Some(k) => Some(|p| + k)
    decreases |s| - i
  {
    if i < |s| {
      assert (p + s)[|p| + i] == s[i];
      if s[i] != c {
        FindAfter(p, s, c, i + 1);
      }
    }
  }

  /** In `p + [c] + rest` with no `c` in `p`, the first `c` is the one after `p`. */
  lemma FindPast(p: seq<char8>, c: char8, rest: seq<char8>)
    requires c !in p
    ensures Find(p + [c] + rest, c, 0) == Some(|p|)
  {
    var s := p + [c] + rest;
    assert forall k :: 0 <= k < |p| ==> s[k] == p[k];
    FindAt(s, c, 0, |p|);
  }

  /** `c1` and `c2` are the positions of the first two colons of `s`. */
  predicate FirstTwoColons(s: seq<char8>, c1: nat, c2: nat) {
    c1 < c2 < |s| && s[c1] == Colon && s[c2] == Colon &&
    forall k :: 0 <= k < c2 && k != c1 ==> s[k] != Colon
  }

  /** `Find` returns the first index from `from` on that holds `c`. */
  lemma {:induction false} FindAt(s: seq<char8>, c: char8, from: nat, i: nat)
    requires from <= i < |s| && s[i] == c
    requires forall k :: from <= k < i ==> s[k] != c
    ensures Find(s, c, from) == Some(i)
    decreases i - from
  {
    if from < i {
      FindAt(s, c, from + 1, i);
    }
  }

  /** A 16-bit value as two bytes, low byte first. */
  function Le16(x: u16): (b: seq<u8>)
    ensures |b| == 2
  {
    [x % 0x100, x / 0x100]
  }

  /** The value of two bytes stored low byte first. */
  function FromLe16(lo: u8, hi: u8): u16 {
    lo + 0x100 * hi
  }

  lemma Le16RoundTrip(x: u16)
    ensures FromLe16(Le16(x)[0], Le16(x)[1]) == x
  {
  }

  /** A 32-bit value as four bytes, least significant first. */
  function Le32(x: u32): (b: seq<u8>)
    ensures |b| == 4
  {
    [x % 0x100, (x / 0x100) % 0x100, (x / 0x1_0000) % 0x100, (x / 0x100_0000) % 0x100]
  }

  function FromLe32(b0: u8, b1: u8, b2: u8, b3: u8): u32 {
    b0 + 0x100 * (b1 + 0x100 * (b2 + 0x100 * b3))
  }

  lemma Le32RoundTrip(x: u32)
    ensures FromLe32(Le32(x)[0], Le32(x)[1], Le32(x)[2], Le32(x)[3]) == x
  {
    var q1 := x / 0x100;
    var q2 := q1 / 0x100;
    var q3 := q2 / 0x100;
    assert x == q1 * 0x100 + x % 0x100;
    assert q1 == q2 * 0x100 + q1 % 0x100;
    assert q2 == q3 * 0x100 + q2 % 0x100;
    assert x / 0x1_0000 == q2 by {
      assert x == q2 * 0x1_0000 + (q1 % 0x100) * 0x100 + x % 0x100;
    }
    assert x / 0x100_0000 == q3 by {
      assert x == q3 * 0x100_0000 + (q2 % 0x100) * 0x1_0000 + (q1 % 0x100) * 0x100 + x % 0x100;
    }
    assert q3 < 0x100;
  }
}
