/**
 * The network wire buffer of src/shared/buffer.c: a 256-byte payload that
 * messages are appended to, with a running 16-bit checksum, and from which
 * fixed-size records are copied out by offset.
 */
module NetBuffer {
  import opened CInt
  import opened Checksum
  import opened SeqSum

  /** The payload after copying d into p at offset at (memcpy). */
  function Splice(p: seq<u8>, at: nat, d: seq<u8>): (r: seq<u8>)
    requires at + |d| <= |p|
    ensures |r| == |p|
    ensures r[..at] == p[..at] && r[at..at + |d|] == d && r[at + |d|..] == p[at + |d|..]
  {
    p[..at] + d + p[at + |d|..]
  }

  function Zeros(n: nat): (z: seq<u8>)
    ensures |z| == n && forall i :: 0 <= i < n ==> z[i] == 0
  {
    seq(n, _ => 0)
  }

  predicate ZeroFrom(s: seq<u8>, from: nat)
  {
    forall i :: from <= i < |s| ==> s[i] == 0
  }

  class NWBuffer {
    var length: u16
    var checksum: u16
    const payload: array<u8>

    predicate Valid()
      reads this
    {
      payload.Length == NW_BUF_LEN
    }

    /** A zero-initialised buffer, as the callers declare it. */
    constructor ()
      ensures Valid() && fresh(payload)
      ensures length == 0 && checksum == 0 && payload[..] == Zeros(NW_BUF_LEN)
    {
      length := 0;
      checksum := 0;
      payload := new u8[NW_BUF_LEN](_ => 0);
    }

    /**
     * packNWBuff(buffer, new_data, new_data_len). `memory` is the 256 bytes
     * starting at new_data: memcpy copies its first newDataLen bytes, and
     * checksum() reads all of them.
     */
    method Pack(memory: seq<u8>, newDataLen: u16) returns (r: u16)
      requires Valid() && |memory| == NW_BUF_LEN
      modifies this, payload
      ensures Valid()
      ensures old(length) + newDataLen > NW_BUF_LEN ==>
        r == 0 && length == old(length) && checksum == old(checksum) && payload[..] == old(payload[..])
      ensures old(length) + newDataLen <= NW_BUF_LEN ==>
        r == newDataLen && length == old(length) + newDataLen
        && payload[..] == Splice(old(payload[..]), old(length), memory[..newDataLen])
        && checksum == ChecksumOf(old(checksum), memory)
    {
      if length + newDataLen > NW_BUF_LEN {
        return 0;
      }
      ghost var before := payload[..];
      var at := length;
      forall i | 0 <= i < newDataLen {
        payload[at + i] := memory[i];
      }
      assert payload[..] == Splice(before, at, memory[..newDataLen]);
      length := length + newDataLen;
      checksum := ComputeChecksum(checksum, memory, newDataLen);
      r := newDataLen;
    }

    /**
     * unPackNWBuff(buffer, payload_offset, dest, dest_len): returns 1 and the
     * copied bytes, or 0 with `dest` left as it was.
     */
    method Unpack(payloadOffset: u16, dest: seq<u8>, destLen: u16) returns (r: u16, copied: seq<u8>)
      requires Valid()
      ensures r == 0 || r == 1
      ensures r == 1 <==> payloadOffset + destLen <= length && length <= NW_BUF_LEN
      ensures r == 1 ==> copied == payload[payloadOffset..payloadOffset + destLen]
      ensures r == 0 ==> copied == dest
    {
      if payloadOffset + destLen > length {
        return 0, dest;
      }
      if length > NW_BUF_LEN {
        return 0, dest;
      }
      r, copied := 1, payload[payloadOffset..payloadOffset + destLen];
    }

    /** checkNWBuff: 1 when the stored checksum matches a fresh one over the payload. */
    function Check(): (ok: u8)
      requires Valid()
      reads this, payload
      ensures ok == 0 || ok == 1
      ensures ok == 1 <==> checksum == ChecksumOf(0, payload[..])
    {
      if checksum == ChecksumOf(0, payload[..]) then 1 else 0
    }
  }

  /**
   * Round trip: packing n bytes at the old length L and then unpacking n
   * bytes at offset L returns exactly the packed bytes, and the payload
   * before L is untouched.
   */
  method PackThenUnpack(b: NWBuffer, memory: seq<u8>, n: u16) returns (packed: u16, r: u16, copied: seq<u8>)
    requires b.Valid() && |memory| == NW_BUF_LEN && b.length + n <= NW_BUF_LEN
    modifies b, b.payload
    ensures b.Valid() && b.length == old(b.length) + n
    ensures packed == n && r == 1 && copied == memory[..n]
    ensures b.payload[..old(b.length)] == old(b.payload[..b.length])
  {
    var at := b.length;
    packed := b.Pack(memory, n);
    r, copied := b.Unpack(at, [], n);
  }

  /**
   * When the buffer is consistent, its unused tail is zero, the append offset
   * is even and the 256 bytes at new_data are zero past new_data_len, the
   * checksum packNWBuff stores still passes checkNWBuff.
   */
  lemma {:induction false} PackKeepsCheck(p: seq<u8>, length: nat, memory: seq<u8>, len: nat)
    requires |p| == NW_BUF_LEN && |memory| == NW_BUF_LEN && length + len <= NW_BUF_LEN
    requires length % 2 == 0 && ZeroFrom(p, length) && ZeroFrom(memory, len)
    ensures ChecksumOf(ChecksumOf(0, p), memory) == ChecksumOf(0, Splice(p, length, memory[..len]))
  {
    var s := Splice(p, length, memory[..len]);
    var q := Zeros(length) + memory[..NW_BUF_LEN - length];
    SpliceIsSum(p, length, memory, len);
    WordsAdd(p, q, s);
    var wp, wq, ws := Words(p), Words(q), Words(s);
    SumPointwise(wp, wq, ws);
    ShiftedWords(memory, length, len);
    var sp, sm := Sum(wp), Sum(Words(memory));
    assert Sum(ws) == sp + sm;
    ChecksumCombine(p, memory, s);
  }

  lemma ChecksumCombine(p: seq<u8>, memory: seq<u8>, s: seq<u8>)
    requires |p| == |memory| == |s| == NW_BUF_LEN
    requires Sum(Words(s)) == Sum(Words(p)) + Sum(Words(memory))
    ensures ChecksumOf(ChecksumOf(0, p), memory) == ChecksumOf(0, s)
  {
    ModAddBoth(Sum(Words(p)), Sum(Words(memory)), MOD16);
  }

  /** Splicing into a zero tail adds the shifted data bytewise. */
  lemma SpliceIsSum(p: seq<u8>, length: nat, memory: seq<u8>, len: nat)
    requires |p| == NW_BUF_LEN && |memory| == NW_BUF_LEN && length + len <= NW_BUF_LEN
    requires ZeroFrom(p, length) && ZeroFrom(memory, len)
    ensures forall i :: 0 <= i < NW_BUF_LEN ==>
      Splice(p, length, memory[..len])[i] == (p[i] as int) + (Zeros(length) + memory[..NW_BUF_LEN - length])[i]
  {
    var s := Splice(p, length, memory[..len]);
    var q := Zeros(length) + memory[..NW_BUF_LEN - length];
    forall i | 0 <= i < NW_BUF_LEN ensures s[i] == (p[i] as int) + q[i] {
      if i < length {
        assert s[i] == s[..length][i] == p[i];
        assert q[i] == 0;
      } else if i < length + len {
        assert s[i] == s[length..length + len][i - length] == memory[i - length];
        assert p[i] == 0;
        assert q[i] == memory[i - length];
      } else {
        assert s[i] == s[length + len..][i - length - len] == p[i];
        assert q[i] == memory[i - length];
      }
    }
  }

  /** Bytewise addition without carries adds the words. */
  lemma WordsAdd(p: seq<u8>, q: seq<u8>, s: seq<u8>)
    requires |p| == |q| == |s| == NW_BUF_LEN
    requires forall i :: 0 <= i < NW_BUF_LEN ==> s[i] == (p[i] as int) + q[i]
    ensures forall k :: 0 <= k < WORD_COUNT ==> Words(s)[k] == Words(p)[k] + Words(q)[k]
  {
    forall k | 0 <= k < WORD_COUNT ensures Words(s)[k] == Words(p)[k] + Words(q)[k] {
      assert s[2 * k] == p[2 * k] + q[2 * k] && s[2 * k + 1] == p[2 * k + 1] + q[2 * k + 1];
    }
  }

  /** The words of memory shifted by an even offset sum to the words of memory. */
  lemma ShiftedWords(memory: seq<u8>, length: nat, len: nat)
    requires |memory| == NW_BUF_LEN && length + len <= NW_BUF_LEN
    requires length % 2 == 0 && ZeroFrom(memory, len)
    ensures Sum(Words(Zeros(length) + memory[..NW_BUF_LEN - length])) == Sum(Words(memory))
  {
    var q := Zeros(length) + memory[..NW_BUF_LEN - length];
    var h := length / 2;
    var wm := Words(memory);
    ShiftedWordsAre(memory, length);
    SumZeroPrefix(h, wm[..WORD_COUNT - h]);
    TailWordsZero(memory, len, WORD_COUNT - h);
    SumZeroTail(wm, WORD_COUNT - h);
  }

  lemma ShiftedWordsAre(memory: seq<u8>, length: nat)
    requires |memory| == NW_BUF_LEN && length <= NW_BUF_LEN && length % 2 == 0
    ensures Words(Zeros(length) + memory[..NW_BUF_LEN - length])
      == seq(length / 2, _ => 0) + Words(memory)[..WORD_COUNT - length / 2]
  {
    var q := Zeros(length) + memory[..NW_BUF_LEN - length];
    var h := length / 2;
    var wq := Words(q);
    var r := seq(h, _ => 0) + Words(memory)[..WORD_COUNT - h];
    forall k | 0 <= k < WORD_COUNT ensures wq[k] == r[k] {
      if k >= h {
        assert q[2 * k] == memory[2 * (k - h)];
        assert q[2 * k + 1] == memory[2 * (k - h) + 1];
        assert wq[k] == WordAt(q, k) == WordAt(memory, k - h);
      } else {
        assert q[2 * k] == 0 && q[2 * k + 1] == 0;
      }
    }
  }

  lemma TailWordsZero(memory: seq<u8>, len: nat, from: nat)
    requires |memory| == NW_BUF_LEN && ZeroFrom(memory, len) && len <= 2 * from
    ensures forall k :: from <= k < WORD_COUNT ==> Words(memory)[k] == 0
  {
    forall k | from <= k < WORD_COUNT ensures Words(memory)[k] == 0 {
      assert memory[2 * k] == 0 && memory[2 * k + 1] == 0;
    }
  }
}

/** The checksum as evidently intended: over the new_data_len bytes only. */
module NetBufferIntended {
  import opened CInt
  import opened Checksum
  import opened SeqSum
  import opened NetBuffer

  /**
   * checksum(initial, data, |data|) reading only the |data| bytes it is
   * given; a missing high byte of the last word counts as zero.
   */
  function ChecksumOfData(initial: u16, data: seq<u8>): (r: u16)
    requires |data| <= NW_BUF_LEN
  {
    ChecksumOf(initial, data + Zeros(NW_BUF_LEN - |data|))
  }

  /**
   * With the intended checksum, every pack at an even offset into a
   * consistent buffer with a zero tail keeps checkNWBuff passing,
   * whatever lies in memory after the data.
   */
  lemma IntendedPackKeepsCheck(p: seq<u8>, length: nat, data: seq<u8>)
    requires |p| == NW_BUF_LEN && length + |data| <= NW_BUF_LEN
    requires length % 2 == 0 && ZeroFrom(p, length)
    ensures ChecksumOfData(ChecksumOf(0, p), data) == ChecksumOf(0, Splice(p, length, data))
  {
    var memory := data + Zeros(NW_BUF_LEN - |data|);
    assert memory[..|data|] == data;
    PackKeepsCheck(p, length, memory, |data|);
  }

  /**
   * As written, packing the single byte 1 into an empty zeroed buffer, with
   * the byte 7 next to it in memory, stores a checksum that checkNWBuff
   * rejects: the stored sum is 1 + 7 * 256 while the payload sums to 1.
   */
  lemma PackChecksumMismatch()
    ensures ChecksumOf(ChecksumOf(0, Zeros(NW_BUF_LEN)), [1, 7] + Zeros(NW_BUF_LEN - 2))
         != ChecksumOf(0, Splice(Zeros(NW_BUF_LEN), 0, [1]))
  {
    var z := Zeros(NW_BUF_LEN);
    var memory: seq<u8> := [1, 7] + Zeros(NW_BUF_LEN - 2);
    var s := Splice(z, 0, [1]);
    assert s == [1] + Zeros(NW_BUF_LEN - 1);
    LeadingWordSum(z, 0);
    LeadingWordSum(memory, 1 + 7 * 256);
    LeadingWordSum(s, 1);
  }

  /** A window whose only non-zero bytes are its first two sums to its first word. */
  lemma LeadingWordSum(w: seq<u8>, first: nat)
    requires |w| == NW_BUF_LEN && ZeroFrom(w, 2) && WordAt(w, 0) == first
    ensures Sum(Words(w)) == first
  {
    var ws := Words(w);
    forall k | 1 <= k < WORD_COUNT ensures ws[k] == 0 {
      assert w[2 * k] == 0 && w[2 * k + 1] == 0;
    }
    SumZeroTail(ws, 1);
    assert ws[..1] == [first];
    assert Sum(ws[..1]) == Sum(ws[..1][..0]) + first;
  }
}