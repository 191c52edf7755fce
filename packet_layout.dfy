/**
 * How the C test clients lay messages out in a packet buffer: the buffer
 * is a sequence of 32-bit words, messages are copied into it with memcpy
 * one after the other, and the rest of the buffer is cleared with memset.
 */
module PacketLayout {
  import opened CInt

  /** memcpy of the words `ws` to word `at` of `b`. */
  function Copied(b: seq<u32>, at: nat, ws: seq<u32>): (r: seq<u32>)
    requires at + |ws| <= |b|
    ensures |r| == |b|
  {
    b[..at] + ws + b[at + |ws|..]
  }

  /** `k` words cleared by memset. */
  function Zeros(k: nat): (z: seq<u32>)
    ensures |z| == k
  {
    seq(k, _ => 0)
  }

  /** The buffer after memset of `n` words from word `at` and the copies:
   *  the words written from `at`, zeros over the rest of the cleared
   *  words, and everything else untouched. */
  function Laid(old_: seq<u32>, at: nat, n: nat, ws: seq<u32>): (b: seq<u32>)
    requires at + n <= |old_| && |ws| <= n
    ensures |b| == |old_|
  {
    old_[..at] + ws + Zeros(n - |ws|) + old_[at + n..]
  }

  /** Copying words over the front of the zeros after `ws`. */
  lemma Splice(front: seq<u32>, ws: seq<u32>, wm: seq<u32>, k: nat, back: seq<u32>)
    requires |wm| <= k
    ensures Copied(front + ws + Zeros(k) + back, |front| + |ws|, wm)
        == front + (ws + wm) + Zeros(k - |wm|) + back
  {
    var z := Zeros(k);
    var b := front + ws + z + back;
    assert b[..|front| + |ws|] == front + ws;
    assert b[|front| + |ws| + |wm|..] == z[|wm|..] + back;
    assert z[|wm|..] == Zeros(k - |wm|);
  }

  /** Copying `wm` right after the words `ws` laid in a cleared stretch
   *  lays `ws + wm` there. */
  lemma LaidNext(mem: seq<u32>, at: nat, n: nat, ws: seq<u32>, wm: seq<u32>)
    requires at + n <= |mem| && |ws| + |wm| <= n
    ensures Copied(Laid(mem, at, n, ws), at + |ws|, wm) == Laid(mem, at, n, ws + wm)
  {
    Splice(mem[..at], ws, wm, n - |ws|, mem[at + n..]);
    assert Zeros(n - |ws| - |wm|) == Zeros(n - |ws + wm|);
  }

  lemma Assoc<T>(a: seq<T>, b: seq<T>, c: seq<T>)
    ensures a + (b + c) == (a + b) + c
  {
  }

  /** The words `ws` lie in `packet` from word `q` on. */
  predicate At(packet: seq<u32>, q: nat, ws: seq<u32>)
  {
    q + |ws| <= |packet| && forall i :: 0 <= i < |ws| ==> packet[q + i] == ws[i]
  }

  lemma AtSplit(packet: seq<u32>, q: nat, ws: seq<u32>, fr: seq<u32>)
    requires At(packet, q, ws + fr)
    ensures At(packet, q, ws) && At(packet, q + |ws|, fr)
  {
    forall i | 0 <= i < |fr|
      ensures packet[q + |ws| + i] == fr[i]
    {
      assert packet[q + (|ws| + i)] == (ws + fr)[|ws| + i];
    }
    forall i | 0 <= i < |ws|
      ensures packet[q + i] == ws[i]
    {
      assert packet[q + i] == (ws + fr)[i];
    }
  }
}
