/**
 * Memmove and Memcpy on one memory, an array of bytes; a pointer is null or an offset
 * into it, so the two regions may overlap in any way.
 */
module Memory {
  import Words

  datatype Pointer = Null | At(offset: nat)

  /** The memory in which dst holds what src held, all read before anything is written. */
  function Blit<T>(m: seq<T>, dst: nat, src: nat, n: nat): (r: seq<T>)
    requires dst + n <= |m| && src + n <= |m|
    ensures |r| == |m|
    ensures r[dst..dst + n] == m[src..src + n]
    ensures r[..dst] == m[..dst] && r[dst + n..] == m[dst + n..]
  {
    m[..dst] + m[src..src + n] + m[dst + n..]
  }

  lemma BlitAt<T>(m: seq<T>, dst: nat, src: nat, n: nat, i: nat)
    requires dst + n <= |m| && src + n <= |m| && i < |m|
    ensures Blit(m, dst, src, n)[i] == if dst <= i < dst + n then m[src + (i - dst)] else m[i]
  {
  }

  /** Copying n bytes one at a time, first byte first. */
  function ForwardCopy<T>(m: seq<T>, dst: nat, src: nat, n: nat): (r: seq<T>)
    requires dst + n <= |m| && src + n <= |m|
    ensures |r| == |m|
    decreases n
  {
    if n == 0 then m else ForwardCopy(m[dst := m[src]], dst + 1, src + 1, n - 1)
  }

  /** Bytes lo..hi already hold what the source held; every other byte is as before. */
  ghost predicate Copied<T>(now: seq<T>, m: seq<T>, dst: nat, src: nat, lo: nat, hi: nat) {
    && |now| == |m|
    && dst <= lo <= hi <= |m| && src + (hi - dst) <= |m|
    && (forall i :: lo <= i < hi ==> now[i] == m[src + (i - dst)])
    && (forall i :: 0 <= i < |m| && !(lo <= i < hi) ==> now[i] == m[i])
  }

  lemma CopiedAll<T>(now: seq<T>, m: seq<T>, dst: nat, src: nat, n: nat)
    requires Copied(now, m, dst, src, dst, dst + n)
    ensures now == Blit(m, dst, src, n)
  {
  }

  method Memmove<T>(memory: array<T>, dst: Pointer, src: Pointer, n: nat) returns (r: Pointer)
    requires dst.At? && src.At? ==> dst.offset + n <= memory.Length && src.offset + n <= memory.Length
    modifies memory
    ensures r == dst
    ensures dst.Null? || src.Null? ==> memory[..] == old(memory[..])
    ensures dst.At? && src.At? ==> memory[..] == Blit(old(memory[..]), dst.offset, src.offset, n)
  {
    r := dst;
    if src.Null? || dst.Null? || n == 0 {
      return;
    }
    if dst.offset < src.offset {
      MoveUp(memory, dst.offset, src.offset, n);
    } else if src.offset < dst.offset {
      MoveDown(memory, dst.offset, src.offset, n);
    }
  }

  /** The loop for a destination below the source: first byte first. */
  method MoveUp<T>(memory: array<T>, dst: nat, src: nat, n: nat)
    requires dst < src && src + n <= memory.Length
    modifies memory
    ensures memory[..] == Blit(old(memory[..]), dst, src, n)
  {
    var to: nat, from: nat, left: nat := dst, src, n;
    ghost var m := memory[..];
    while left > 0
      invariant left <= n && to == dst + (n - left) && from == src + (n - left)
      invariant Copied(memory[..], m, dst, src, dst, to)
    {
      left := left - 1;
      memory[to] := memory[from];
      to, from := to + 1, from + 1;
    }
    CopiedAll(memory[..], m, dst, src, n);
  }

  /** The loop for a destination above the source: last byte first. */
  method MoveDown<T>(memory: array<T>, dst: nat, src: nat, n: nat)
    requires src < dst && dst + n <= memory.Length
    modifies memory
    ensures memory[..] == Blit(old(memory[..]), dst, src, n)
  {
    var to: nat, from: nat, left: nat := dst + n, src + n, n;
    ghost var m := memory[..];
    while left > 0
      invariant left <= n && to == dst + left && from == src + left
      invariant Copied(memory[..], m, dst, src, to, dst + n)
    {
      left := left - 1;
      to, from := to - 1, from - 1;
      memory[to] := memory[from];
    }
    CopiedAll(memory[..], m, dst, src, n);
  }

  function Address(p: Pointer): nat {
    if p.At? then p.offset else 0
  }

  predicate InRange(p: Pointer, n: nat, size: nat) {
    if p.At? then p.offset + n <= size else n == 0
  }

  /** Memcpy does not test for null: a pointer may be null only if no byte is copied. */
  method Memcpy<T>(memory: array<T>, dst: Pointer, src: Pointer, n: nat) returns (r: Pointer)
    requires InRange(dst, n, memory.Length) && InRange(src, n, memory.Length)
    modifies memory
    ensures r == dst
    ensures memory[..] == ForwardCopy(old(memory[..]), Address(dst), Address(src), n)
    ensures n == 0 ==> memory[..] == old(memory[..])
  {
    r := dst;
    var to: nat, from: nat, left: nat := Address(dst), Address(src), n;
    ghost var result := ForwardCopy(memory[..], to, from, n);
    while left >= 8
      invariant left <= n && to == Address(dst) + (n - left) && from == Address(src) + (n - left)
      invariant ForwardCopy(memory[..], to, from, left) == result
    {
      CopyEight(memory, to, from, left);
      to, from, left := to + 8, from + 8, left - 8;
    }
    while left > 0
      invariant left <= n && to == Address(dst) + (n - left) && from == Address(src) + (n - left)
      invariant ForwardCopy(memory[..], to, from, left) == result
    {
      CopyOne(memory, to, from, left);
      to, from, left := to + 1, from + 1, left - 1;
    }
  }

  /** The unrolled body: eight bytes in order, with `left` bytes still to copy from here. */
  method CopyEight<T>(memory: array<T>, to: nat, from: nat, ghost left: nat)
    requires 8 <= left && to + left <= memory.Length && from + left <= memory.Length
    modifies memory
    ensures ForwardCopy(memory[..], to + 8, from + 8, left - 8) == ForwardCopy(old(memory[..]), to, from, left)
  {
    hide ForwardCopy;
    CopyOne(memory, to + 0, from + 0, left);
    CopyOne(memory, to + 1, from + 1, left - 1);
    CopyOne(memory, to + 2, from + 2, left - 2);
    CopyOne(memory, to + 3, from + 3, left - 3);
    CopyOne(memory, to + 4, from + 4, left - 4);
    CopyOne(memory, to + 5, from + 5, left - 5);
    CopyOne(memory, to + 6, from + 6, left - 6);
    CopyOne(memory, to + 7, from + 7, left - 7);
  }

  /** *to = *from, with `left` bytes still to copy from here. */
  method CopyOne<T>(memory: array<T>, to: nat, from: nat, ghost left: nat)
    requires 0 < left && to + left <= memory.Length && from + left <= memory.Length
    modifies memory
    ensures ForwardCopy(memory[..], to + 1, from + 1, left - 1) == ForwardCopy(old(memory[..]), to, from, left)
  {
    memory[to] := memory[from];
    assert memory[..] == old(memory[..])[to := old(memory[from])];
  }

  // ----------------------------------------------------------- when the two agree

  /** Byte i of a forward copy: unless it was overwritten first, the source repeats with period dst - src. */
  ghost predicate CopiedByte<T>(r: seq<T>, m: seq<T>, dst: nat, src: nat, n: nat, i: nat)
    requires dst + n <= |m| && src + n <= |m| && i < |m| == |r|
  {
    r[i] == if !(dst <= i < dst + n) then m[i]
            else if src < dst then m[SourceOf(dst, src, i)]
            else m[src + (i - dst)]
  }

  function SourceOf(dst: nat, src: nat, i: nat): (s: nat)
    requires src < dst <= i
    ensures src <= s < dst
  {
    src + (i - dst) % (dst - src)
  }

  lemma {:induction false} ForwardCopyAt<T>(m: seq<T>, dst: nat, src: nat, n: nat, i: nat)
    requires dst + n <= |m| && src + n <= |m| && i < |m|
    ensures CopiedByte(ForwardCopy(m, dst, src, n), m, dst, src, n, i)
    decreases n
  {
    if n > 0 {
      hide SourceOf;
      ForwardCopyAt(m[dst := m[src]], dst + 1, src + 1, n - 1, i);
      if src < dst <= i {
        NextSource(dst, src, i);
      }
    }
  }

  /** Past the first byte, the source of byte i only moves when it is the byte just copied. */
  lemma NextSource(dst: nat, src: nat, i: nat)
    requires src < dst <= i
    ensures i == dst ==> SourceOf(dst, src, i) == src
    ensures i > dst ==> SourceOf(dst, src, i) ==
                        (var s := SourceOf(dst + 1, src + 1, i); if s == dst then src else s)
  {
    var k, d := i - dst, dst - src;
    if k > 0 {
      var q, r := k / d, k % d;
      assert k == d * q + r;
      if r == 0 {
        Words.Distribute(d, q, 1);
        Words.DivModUnique(k - 1, d, q - 1, d - 1);
      } else {
        Words.DivModUnique(k - 1, d, q, r - 1);
      }
    }
  }

  /** A layout on which copying forward never reads a byte it has already overwritten. */
  predicate SafeLayout(dst: nat, src: nat, n: nat) {
    dst <= src || src + n <= dst
  }

  lemma SafeCopyAt<T>(m: seq<T>, dst: nat, src: nat, n: nat, i: nat)
    requires dst + n <= |m| && src + n <= |m| && SafeLayout(dst, src, n) && i < |m|
    ensures ForwardCopy(m, dst, src, n)[i] == Blit(m, dst, src, n)[i]
  {
    hide ForwardCopy, Blit;
    ForwardCopyAt(m, dst, src, n, i);
    BlitAt(m, dst, src, n, i);
    if dst <= i < dst + n && src < dst {
      Words.DivModUnique(i - dst, dst - src, 0, i - dst);
    }
  }

  lemma SafeCopyIsBlit<T>(m: seq<T>, dst: nat, src: nat, n: nat)
    requires dst + n <= |m| && src + n <= |m| && SafeLayout(dst, src, n)
    ensures ForwardCopy(m, dst, src, n) == Blit(m, dst, src, n)
  {
    forall i | 0 <= i < |m| ensures ForwardCopy(m, dst, src, n)[i] == Blit(m, dst, src, n)[i] {
      SafeCopyAt(m, dst, src, n, i);
    }
  }

  /** On an unsafe layout the byte at dst is read again after it was overwritten. */
  lemma UnsafeCopyDiffers<T>(m: seq<T>, dst: nat, src: nat, n: nat)
    requires dst + n <= |m| && src + n <= |m| && !SafeLayout(dst, src, n)
    requires m[src] != m[dst]
    ensures ForwardCopy(m, dst, src, n) != Blit(m, dst, src, n)
  {
    hide ForwardCopy, Blit;
    var i := dst + (dst - src);
    ForwardCopyAt(m, dst, src, n, i);
    BlitAt(m, dst, src, n, i);
    Words.DivModUnique(dst - src, dst - src, 1, 0);
    assert ForwardCopy(m, dst, src, n)[i] == m[src];
  }

  /**
   * Memcpy agrees with Memmove on every memory of a given size exactly when the
   * regions are disjoint or the destination does not start after the source.
   */
  lemma CopiesAgreeIff<T>(size: nat, dst: nat, src: nat, n: nat, a: T, b: T)
    requires dst + n <= size && src + n <= size && a != b
    ensures SafeLayout(dst, src, n) <==>
              forall m: seq<T> :: |m| == size ==> ForwardCopy(m, dst, src, n) == Blit(m, dst, src, n)
  {
    hide ForwardCopy, Blit;
    if SafeLayout(dst, src, n) {
      forall m: seq<T> | |m| == size ensures ForwardCopy(m, dst, src, n) == Blit(m, dst, src, n) {
        SafeCopyIsBlit(m, dst, src, n);
      }
    } else {
      var m := seq(size, i => if i == src then a else b);
      UnsafeCopyDiffers(m, dst, src, n);
    }
  }
}
