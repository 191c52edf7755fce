/**
 * The 16-bit additive checksum of the wire buffer (src/shared/checksum.c).
 *
 * The C routine ignores its length argument: it always adds the first
 * NW_BUF_LEN / 2 = 128 host-order 16-bit words found at the data pointer,
 * so it reads exactly 256 bytes. The model therefore takes that 256-byte
 * window of memory as its input. Words are little-endian, as on the RP2040
 * and x86 hosts that run the code.
 */
module Checksum {
  import opened CInt
  import opened SeqSum

  const NW_BUF_LEN: nat := 256
  const WORD_COUNT: nat := NW_BUF_LEN / 2
  const MOD16: nat := 0x1_0000

  /** Host-order 16-bit word k of a byte window. */
  function WordAt(window: seq<u8>, k: nat): (w: u16)
    requires 2 * k + 1 < |window|
  {
    window[2 * k] + 0x100 * (window[2 * k + 1] as int)
  }

  /** The 128 words the checksum loop reads. */
  function Words(window: seq<u8>): (ws: seq<u16>)
    requires |window| == NW_BUF_LEN
    ensures |ws| == WORD_COUNT
    ensures forall k :: 0 <= k < WORD_COUNT ==> ws[k] == WordAt(window, k)
  {
    seq(WORD_COUNT, k requires 0 <= k < WORD_COUNT => WordAt(window, k))
  }

  /** What checksum(initial, window, len) returns, for any len. */
  function ChecksumOf(initial: u16, window: seq<u8>): (r: u16)
    requires |window| == NW_BUF_LEN
    ensures (forall i :: 0 <= i < |window| ==> window[i] == 0) ==> r == initial
  {
    ZeroWindowSum(window);
    (initial + Sum(Words(window))) % MOD16
  }

  /** An all-zero window adds nothing. */
  lemma ZeroWindowSum(window: seq<u8>)
    requires |window| == NW_BUF_LEN
    ensures (forall i :: 0 <= i < |window| ==> window[i] == 0) ==> Sum(Words(window)) == 0
  {
    if forall i :: 0 <= i < |window| ==> window[i] == 0 {
      var ws := Words(window);
      forall k | 0 <= k < WORD_COUNT ensures ws[k] == 0 {
        assert window[2 * k] == 0 && window[2 * k + 1] == 0;
      }
      SumZeroTail(ws, 0);
      assert ws[..0] == [];
    }
  }

  /** The loop of checksum(): 128 wrapping 16-bit additions. */
  method ComputeChecksum(checksum: u16, newData: seq<u8>, newDataLen: u16) returns (r: u16)
    requires |newData| == NW_BUF_LEN
    ensures r == ChecksumOf(checksum, newData)
  {
    var ws := Words(newData);
    r := checksum;
    var index := 0;
    while index < WORD_COUNT
      invariant 0 <= index <= WORD_COUNT
      invariant r == (checksum + Sum(ws[..index])) % MOD16
    {
      assert ws[..index + 1][..index] == ws[..index];
      ModAddBoth(checksum + Sum(ws[..index]), WordAt(newData, index), MOD16);
      r := (r + WordAt(newData, index)) % MOD16;
      index := index + 1;
    }
    assert ws[..WORD_COUNT] == ws;
  }

  /** The initial value only shifts the result: checksum(c, d) = c + checksum(0, d) mod 2^16. */
  lemma ChecksumInitialShift(initial: u16, window: seq<u8>)
    requires |window| == NW_BUF_LEN
    ensures ChecksumOf(initial, window) == (initial + ChecksumOf(0, window)) % MOD16
  {
    var s := Sum(Words(window));
    ModAddBoth(s, initial, MOD16);
  }

  /** Reordering the 128 words does not change the checksum. */
  lemma ChecksumPermutation(initial: u16, w1: seq<u8>, w2: seq<u8>)
    requires |w1| == NW_BUF_LEN && |w2| == NW_BUF_LEN
    requires multiset(Words(w1)) == multiset(Words(w2))
    ensures ChecksumOf(initial, w1) == ChecksumOf(initial, w2)
  {
    SumOfPermutation(Words(w1), Words(w2));
  }

  /** Adding 1 (mod 2^16) to one word adds 1 (mod 2^16) to the checksum. */
  lemma ChecksumIncrement(initial: u16, w1: seq<u8>, w2: seq<u8>, k: nat)
    requires |w1| == NW_BUF_LEN && |w2| == NW_BUF_LEN && k < WORD_COUNT
    requires Words(w2) == Words(w1)[k := (Words(w1)[k] + 1) % MOD16]
    ensures ChecksumOf(initial, w2) == (ChecksumOf(initial, w1) + 1) % MOD16
  {
    var s1 := Words(w1);
    var old_k := s1[k];
    SumUpdate(s1, k, (old_k + 1) % MOD16);
    var t := initial + Sum(s1);
    if old_k + 1 < MOD16 {
      assert initial + Sum(Words(w2)) == t + 1;
    } else {
      assert initial + Sum(Words(w2)) == (t + 1) + (-1) * MOD16;
      ModShift(t + 1, -1, MOD16);
    }
    ModAddBoth(t, 1, MOD16);
  }
}
