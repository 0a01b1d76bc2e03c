/**
 * The hand-managed string buffer of cbuilder/cbuilder_string.h: a heap block of `bufLen`
 * characters holding `len` characters of content, grown in chunks of 256 bytes.
 *
 * The C code writes past the end of the block in several corner cases. Each such case is
 * a `requires` below that states exactly the bound the write needs, and a lemma next to
 * it says for which lengths that bound fails.
 */
module CBuilderString {
  import opened Wrappers

  /** The characters of a C string before its terminator: a C string holds no NUL. */
  type CString = s: seq<char> | '\0' !in s

  /** CBUILDER_BUF_CHUNK: the allocation granularity of every buffer. */
  const BufChunk: nat := 256

  predicate IsChunkMultiple(k: nat)
  {
    k % BufChunk == 0
  }

  /**
   * The chunk arithmetic shared by the growth paths: `count = m / CHUNK`, plus one
   * chunk for the spill when `m` is not a whole number of chunks.
   */
  function RoundUpToChunk(m: nat): (r: nat)
    ensures IsChunkMultiple(r)
    ensures m <= r < m + BufChunk
    ensures forall k: nat {:trigger IsChunkMultiple(k)} :: IsChunkMultiple(k) && m <= k ==> r <= k
  {
    var count := m / BufChunk + (if m % BufChunk != 0 then 1 else 0);
    BufChunk * count
  }

  /**
   * The capacity `init` and `initN` allocate for a content of `n` characters: one chunk
   * for the empty string, otherwise `n` rounded up to whole chunks.
   */
  function InitCapacity(n: nat): (cap: nat)
    ensures IsChunkMultiple(cap) && 0 < cap && n <= cap
    ensures forall k: nat {:trigger IsChunkMultiple(k)} :: IsChunkMultiple(k) && 0 < k && n <= k ==> cap <= k
  {
    if n == 0 then BufChunk else RoundUpToChunk(n)
  }

  /**
   * The capacity after an append that needs `needed` bytes: unchanged when the block is
   * large enough, otherwise `needed` rounded up to whole chunks.
   */
  function Grow(bufLen: nat, needed: nat): (cap: nat)
    ensures bufLen <= cap && needed <= cap
    ensures IsChunkMultiple(bufLen) ==> IsChunkMultiple(cap)
    ensures bufLen < needed ==> cap < needed + BufChunk
  {
    if bufLen < needed then RoundUpToChunk(needed) else bufLen
  }

  /** `init` copies `n + 1` bytes (content and terminator) into a block of InitCapacity(n). */
  predicate InitFits(n: nat)
  {
    n < InitCapacity(n)
  }

  /** `concatCStr` writes `n + 1` bytes at offset `len` of the possibly grown block. */
  predicate CStrFits(len: nat, bufLen: nat, n: nat)
  {
    len + n < Grow(bufLen, len + n)
  }

  /**
   * `concatCStrN` grows like `concatCStr` but writes its terminator at offset
   * `len + min(count, n) + 1`.
   */
  predicate CStrNFits(len: nat, bufLen: nat, n: nat, count: nat)
  {
    len + Min(count, n) + 1 < Grow(bufLen, len + n)
  }

  /** The `len + 1`-byte copy of `init` overruns the block exactly for positive multiples of 256. */
  lemma InitFitsIff(n: nat)
    ensures InitFits(n) <==> n == 0 || !IsChunkMultiple(n)
  {
    if n != 0 && !IsChunkMultiple(n) {
      assert InitCapacity(n) != n;
    }
  }

  /**
   * The terminator written by `concatCStr` lands past the block exactly when the new length
   * is a whole number of chunks no smaller than the current capacity.
   */
  lemma CStrFitsIff(len: nat, bufLen: nat, n: nat)
    requires IsChunkMultiple(bufLen)
    ensures CStrFits(len, bufLen, n) <==> !(bufLen <= len + n && IsChunkMultiple(len + n))
  {
    if bufLen < len + n && !IsChunkMultiple(len + n) {
      assert RoundUpToChunk(len + n) != len + n;
    }
  }

  /** The two overflowing calls of `concatCStr`: without growth, and after growth. */
  lemma CStrOverflowExamples()
    // init("") followed by appending a 256-character string
    ensures !CStrFits(0, InitCapacity(0), 256)
    // a 200-character content in one chunk, appending 312 characters: grown to exactly 512
    ensures Grow(256, 200 + 312) == 512 && !CStrFits(200, 256, 312)
  {
  }

  /**
   * When `concatCStrN` appends the whole string, its terminator at `len + n + 1` lands past
   * the block exactly when the new length is 0 or 255 modulo 256 and close enough to the
   * current capacity.
   */
  lemma CStrNFitsFullIff(len: nat, bufLen: nat, n: nat, count: nat)
    requires IsChunkMultiple(bufLen)
    requires n <= count
    ensures CStrNFits(len, bufLen, n, count) <==>
            !(bufLen <= len + n + 1 && ((len + n) % BufChunk == 0 || (len + n) % BufChunk == BufChunk - 1))
  {
    assert Min(count, n) == n;
    if bufLen < len + n {
      var r := RoundUpToChunk(len + n);
      if (len + n) % BufChunk != 0 && (len + n) % BufChunk != BufChunk - 1 {
        assert r != len + n && r != len + n + 1;
      }
    }
  }

  /** memcpy(dst + at, bytes, |bytes|) for a source that does not overlap `dst`. */
  method CopyInto(dst: array<char>, at: nat, bytes: seq<char>)
    requires at + |bytes| <= dst.Length
    modifies dst
    ensures dst[..at] == old(dst[..at])
    ensures dst[at..at + |bytes|] == bytes
    ensures dst[at + |bytes|..] == old(dst[at + |bytes|..])
  {
    var i := 0;
    while i < |bytes|
      invariant 0 <= i <= |bytes|
      invariant forall k :: 0 <= k < dst.Length ==>
                  dst[k] == if at <= k < at + i then bytes[k - at] else old(dst[k])
    {
      dst[at + i] := bytes[i];
      i := i + 1;
    }
  }

  /** CBuild_String: the block `str`, its logical length `len` and its capacity `bufLen`. */
  class CBuildString {
    var str: array<char>
    var len: nat
    var bufLen: nat

    /** A live buffer: the block has `bufLen` bytes, a positive number of chunks, with room past `len`. */
    ghost predicate Valid()
      reads this
    {
      str.Length == bufLen && 0 < bufLen && IsChunkMultiple(bufLen) && len < bufLen
    }

    /** The logical content: the first `len` bytes of the block. */
    ghost function Content(): seq<char>
      reads this, str
      requires Valid()
    {
      str[..len]
    }

    /** A live buffer whose byte at offset `len` is the terminator. */
    ghost predicate Terminated()
      reads this, str
    {
      Valid() && str[len] == '\0'
    }

    /** The allocation and copy of `init`: a fresh block holding `src` and its terminator. */
    static method InitBlock(src: CString) returns (block: array<char>)
      requires InitFits(|src|)
      ensures fresh(block) && block.Length == InitCapacity(|src|)
      ensures block[..|src| + 1] == src + ['\0']
    {
      block := new char[InitCapacity(|src|)];
      CopyInto(block, 0, src + ['\0']);
    }

    /** CBuild_String_init: a buffer holding a copy of `src`, in the fewest chunks that hold it. */
    constructor Init(src: CString)
      requires InitFits(|src|)
      ensures Terminated() && fresh(str)
      ensures len == |src| && Content() == src
      ensures bufLen == InitCapacity(|src|)
    {
      var block := InitBlock(src);
      str, len, bufLen := block, |src|, block.Length;
      new;
      assert str[..len] == str[..len + 1][..len];
    }

    /**
     * CBuild_String_initN: a buffer of logical length exactly `n`. The first min(|src|, n)
     * characters of `src` are copied, followed by the byte after them (the terminator of
     * `src` when it is shorter than `n`), and byte `n` is forced to NUL. Bytes between
     * |src| + 1 and `n` are left uninitialised.
     */
    constructor InitN(src: CString, n: nat)
      requires InitFits(n)
      ensures Terminated() && fresh(str)
      ensures len == n && bufLen == InitCapacity(n)
      ensures str[..Min(|src|, n)] == src[..Min(|src|, n)]
      ensures |src| < n ==> str[|src|] == '\0'
    {
      var cap := InitCapacity(n);
      var block := new char[cap];
      var copied := Min(|src|, n);
      CopyInto(block, 0, (src + ['\0'])[..copied + 1]);
      assert block[..copied] == src[..copied] by {
        assert block[..copied] == block[..copied + 1][..copied];
      }
      assert |src| < n ==> block[|src|] == '\0' by {
        if |src| < n {
          assert block[|src|] == block[..copied + 1][|src|];
        }
      }
      block[n] := '\0';
      str, len, bufLen := block, n, cap;
    }

    /** CBuild_String_copy: an independent buffer, byte-identical over the whole block. */
    constructor Copy(other: CBuildString)
      requires other.Valid()
      ensures Valid() && fresh(str)
      ensures len == other.len && bufLen == other.bufLen
      ensures str[..] == other.str[..]
    {
      var block := new char[other.bufLen];
      CopyInto(block, 0, other.str[..]);
      str, len, bufLen := block, other.len, other.bufLen;
    }

    /**
     * CBuild_String_deinit: releases the block and zeroes both lengths. The pointer is left
     * as it was, so the buffer is no longer live.
     */
    method Deinit()
      requires Valid()
      modifies this
      ensures len == 0 && bufLen == 0 && str == old(str)
      ensures !Valid()
    {
      len, bufLen := 0, 0;
    }

    /** CBuild_String_reset: release, then start again as `init("")`. */
    method Reset()
      requires Valid()
      modifies this
      ensures Terminated() && fresh(str)
      ensures len == 0 && bufLen == BufChunk
    {
      Deinit();
      var block := InitBlock("");
      str, len, bufLen := block, 0, block.Length;
    }

    /**
     * The growth step shared by the four appends: a fresh block of `cap` bytes receives the
     * first `keep` bytes of the old block, which is released.
     */
    method Reallocate(cap: nat, keep: nat)
      requires Valid() && len < cap && IsChunkMultiple(cap) && keep <= len + 1
      modifies this
      ensures Valid() && fresh(str) && bufLen == cap && len == old(len)
      ensures str[..keep] == old(str[..keep])
    {
      var newMem := new char[cap];
      CopyInto(newMem, 0, str[..keep]);
      str, bufLen := newMem, cap;
    }

    /**
     * The copy shared by the four appends: `bytes` are written at offset `len` and `len`
     * moves past them. Nothing past the new length is written.
     */
    method Put(bytes: seq<char>)
      requires Valid() && len + |bytes| < bufLen
      modifies this, str
      ensures Valid() && str == old(str) && bufLen == old(bufLen)
      ensures len == old(len) + |bytes|
      ensures Content() == old(Content()) + bytes
      ensures str[len..] == old(str[..])[len..]
    {
      CopyInto(str, len, bytes);
      assert str[..len + |bytes|] == str[..len] + str[len..len + |bytes|];
      len := len + |bytes|;
    }

    /**
     * CBuild_String_concat: appends `other`'s content and copies the byte at `other.len`
     * (its terminator) to the new end. Reallocates to whole chunks when fewer than
     * `len + other.len + 2` bytes are available. Returns this buffer.
     */
    method Concat(other: CBuildString) returns (self: CBuildString)
      requires Valid() && other.str != str
      requires other.len < other.str.Length
      modifies this, str
      ensures self == this && Valid()
      ensures len == old(len) + old(other.len)
      ensures Content() == old(Content()) + old(other.str[..other.len])
      ensures str[len] == old(other.str[other.len])
      ensures bufLen == Grow(old(bufLen), old(len) + old(other.len) + 2)
      ensures if old(bufLen) < old(len) + old(other.len) + 2 then fresh(str) else str == old(str)
    {
      var maxLen := len + other.len + 2;
      if bufLen < maxLen {
        Reallocate(RoundUpToChunk(maxLen), len + 1);
        assert str[..len] == str[..len + 1][..len];
      }
      Put(other.str[..other.len]);
      str[len] := other.str[other.len];
      self := this;
    }

    /**
     * CBuild_String_concatCStr: appends the C string `s` with its terminator. Reallocates only
     * when the capacity is below `len + |s|`, so the terminator needs CStrFits.
     */
    method ConcatCStr(s: CString) returns (self: CBuildString)
      requires Valid()
      requires CStrFits(len, bufLen, |s|)
      modifies this, str
      ensures self == this && Terminated()
      ensures len == old(len) + |s|
      ensures Content() == old(Content()) + s
      ensures bufLen == Grow(old(bufLen), old(len) + |s|)
      ensures if old(bufLen) < old(len) + |s| then fresh(str) else str == old(str)
    {
      var maxLen := len + |s|;
      if bufLen < maxLen {
        Reallocate(RoundUpToChunk(maxLen), len);
      }
      Put(s);
      str[len] := '\0';
      self := this;
    }

    /**
     * CBuild_String_concatN with its operand given as the span `str2` points at: `srcLen`
     * characters starting at offset `start` of block `src`. This is how the tokenizer's
     * container string is passed, whose pointer is interior to another buffer's block and
     * whose `buf_len` is 0; only the pointer and `len` are read. Appends the first
     * min(count, srcLen) characters. Grows like `concat`. The NUL goes one byte past the new
     * length; the byte at the new length is not written. It keeps its previous value when
     * the block is not reallocated, and when nothing is appended, since growth copies
     * `len + 1` bytes.
     */
    method ConcatNFrom(src: array<char>, start: nat, srcLen: nat, count: nat) returns (self: CBuildString)
      requires Valid() && src != str
      requires start + Min(count, srcLen) <= src.Length
      modifies this, str
      ensures self == this && Valid() && len + 1 < bufLen
      ensures len == old(len) + Min(count, srcLen)
      ensures Content() == old(Content()) + old(src[start..start + Min(count, srcLen)])
      ensures str[len + 1] == '\0'
      ensures bufLen == Grow(old(bufLen), old(len) + srcLen + 2)
      ensures if old(bufLen) < old(len) + srcLen + 2 then fresh(str)
              else str == old(str) && str[len] == old(str[..])[len]
      ensures Min(count, srcLen) == 0 ==> str[len] == old(str[..])[len]
    {
      var maxLen := len + srcLen + 2;
      if bufLen < maxLen {
        Reallocate(RoundUpToChunk(maxLen), len + 1);
        assert str[..len] == str[..len + 1][..len];
      }
      var n := if count < srcLen then count else srcLen;
      Put(src[start..start + n]);
      str[len + 1] := '\0';
      self := this;
    }

    /** CBuild_String_concatN for an operand that is a buffer of its own (offset 0 of its block). */
    method ConcatN(other: CBuildString, count: nat) returns (self: CBuildString)
      requires Valid() && other.str != str
      requires Min(count, other.len) <= other.str.Length
      modifies this, str
      ensures self == this && Valid() && len + 1 < bufLen
      ensures len == old(len) + Min(count, old(other.len))
      ensures Content() == old(Content()) + old(other.str[..Min(count, other.len)])
      ensures str[len + 1] == '\0'
      ensures bufLen == Grow(old(bufLen), old(len) + old(other.len) + 2)
      ensures if old(bufLen) < old(len) + old(other.len) + 2 then fresh(str)
              else str == old(str) && str[len] == old(str[..])[len]
      ensures Min(count, old(other.len)) == 0 ==> str[len] == old(str[..])[len]
    {
      self := ConcatNFrom(other.str, 0, other.len, count);
    }

    /**
     * CBuild_String_concatCStrN: appends the first min(count, |s|) characters of `s`. Grows
     * like `concatCStr` (to `len + |s|`), but the NUL goes one byte past the new length,
     * which needs CStrNFits; the byte at the new length is not written.
     */
    method ConcatCStrN(s: CString, count: nat) returns (self: CBuildString)
      requires Valid()
      requires CStrNFits(len, bufLen, |s|, count)
      modifies this, str
      ensures self == this && Valid() && len + 1 < bufLen
      ensures len == old(len) + Min(count, |s|)
      ensures Content() == old(Content()) + s[..Min(count, |s|)]
      ensures str[len + 1] == '\0'
      ensures bufLen == Grow(old(bufLen), old(len) + |s|)
      ensures if old(bufLen) < old(len) + |s| then fresh(str)
              else str == old(str) && str[len] == old(str[..])[len]
    {
      var maxLen := len + |s|;
      if bufLen < maxLen {
        Reallocate(RoundUpToChunk(maxLen), len);
      }
      var n := if count < |s| then count else |s|;
      Put(s[..n]);
      str[len + 1] := '\0';
      self := this;
    }
  }
}
