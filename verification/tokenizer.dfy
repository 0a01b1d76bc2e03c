/**
 * The reentrant tokenizer of cbuilder/cbuilder_string.h. A token borrows the original
 * buffer: it is an offset into the original block and a length, and nothing is copied.
 * The caller hands the previous token back in; on the first call there is none (the
 * token's pointer is NULL).
 */
module Tokenizer {
  import opened Wrappers
  import opened CBuilderString

  /** A borrowed span: `len` characters starting at offset `start` of the original block. */
  datatype Token = Token(start: nat, len: nat)

  /** strchr(delim, c) != NULL: besides the delimiters, strchr also finds the terminator. */
  predicate StrChrFinds(delim: CString, c: char)
  {
    c in delim || c == '\0'
  }

  /**
   * isDelim: walks `delim` up to its terminator looking for `ch`. Unlike strchr it does not
   * match the terminator, so it answers false for NUL.
   */
  method IsDelim(ch: char, delim: CString) returns (r: bool)
    ensures r <==> ch in delim
    ensures r ==> StrChrFinds(delim, ch)
    ensures StrChrFinds(delim, ch) && !r <==> ch == '\0'
  {
    var i := 0;
    while i < |delim|
      invariant 0 <= i <= |delim|
      invariant ch !in delim[..i]
    {
      if ch == delim[i] {
        return true;
      }
      i := i + 1;
    }
    assert delim[..i] == delim;
    return false;
  }

  /**
   * Where a call starts scanning: offset 0 on the first call, otherwise one byte past the
   * end of the previous token (the byte that ended it).
   */
  function NextStart(prev: Option<Token>): (from: nat)
    ensures prev.Some? ==> prev.value.start + prev.value.len < from
  {
    match prev
    case None => 0
    case Some(t) => t.start + t.len + 1
  }

  /** The first loop: skips bytes that strchr finds in `delim`, stopping at a NUL. */
  function SkipDelims(s: seq<char>, i: nat, delim: CString): (j: nat)
    requires i <= |s|
    ensures i <= j <= |s|
    ensures j < |s| ==> s[j] !in delim
    decreases |s| - i
  {
    if i < |s| && StrChrFinds(delim, s[i]) && s[i] != '\0' then SkipDelims(s, i + 1, delim) else i
  }

  /** Every byte SkipDelims passes over is a delimiter, so it never passes a NUL. */
  lemma {:induction false} SkipDelimsSkipsDelimiters(s: seq<char>, i: nat, delim: CString)
    requires i <= |s|
    ensures forall k :: i <= k < SkipDelims(s, i, delim) ==> s[k] in delim
    decreases |s| - i
  {
    if i < |s| && StrChrFinds(delim, s[i]) && s[i] != '\0' {
      SkipDelimsSkipsDelimiters(s, i + 1, delim);
    }
  }

  /** The second loop: extends the token over bytes strchr does not find, up to offset `n`. */
  function TokenEnd(s: seq<char>, n: nat, j: nat, delim: CString): (e: nat)
    requires j <= n <= |s|
    ensures j <= e <= n
    ensures e < n ==> s[e] in delim || s[e] == '\0'
    decreases n - j
  {
    if j < n && !StrChrFinds(delim, s[j]) then TokenEnd(s, n, j + 1, delim) else j
  }

  /** Every byte of a token is neither a delimiter nor NUL. */
  lemma {:induction false} TokenEndSpansTokenBytes(s: seq<char>, n: nat, j: nat, delim: CString)
    requires j <= n <= |s|
    ensures forall k :: j <= k < TokenEnd(s, n, j, delim) ==> s[k] !in delim && s[k] != '\0'
    decreases n - j
  {
    if j < n && !StrChrFinds(delim, s[j]) {
      TokenEndSpansTokenBytes(s, n, j + 1, delim);
    }
  }

  /**
   * The token one call produces when scanning of block `s`, whose logical length is `n`,
   * starts at `from`: leading delimiters are skipped, and the token is the run of bytes that
   * are neither delimiters nor NUL, ending at or before `n`.
   */
  function NextToken(s: seq<char>, n: nat, from: nat, delim: CString): (t: Token)
    requires n < |s| && s[n] == '\0' && from <= n
    ensures from <= t.start && t.start + t.len <= n
    ensures t.start < n ==> s[t.start] !in delim
    ensures t.start + t.len < n ==> s[t.start + t.len] in delim || s[t.start + t.len] == '\0'
  {
    var start := SkipDelims(s, from, delim);
    SkipDelimsSkipsDelimiters(s, from, delim);
    assert start <= n;
    Token(start, TokenEnd(s, n, start, delim) - start)
  }

  /**
   * The token is the longest such run: everything skipped before it is delimiters and
   * every byte in it is neither a delimiter nor NUL.
   */
  lemma NextTokenBytes(s: seq<char>, n: nat, from: nat, delim: CString)
    requires n < |s| && s[n] == '\0' && from <= n
    ensures forall k :: from <= k < NextToken(s, n, from, delim).start ==> s[k] in delim
    ensures forall k :: NextToken(s, n, from, delim).start <= k < NextToken(s, n, from, delim).start + NextToken(s, n, from, delim).len ==>
                          s[k] !in delim && s[k] != '\0'
  {
    SkipDelimsSkipsDelimiters(s, from, delim);
    TokenEndSpansTokenBytes(s, n, SkipDelims(s, from, delim), delim);
  }

  /**
   * CBuild_String_tokenizer: the token after `prev` (after nothing on the first call). The
   * original must be terminated and the scan must not start past its terminator.
   */
  method Tokenize(original: CBuildString, prev: Option<Token>, delim: CString) returns (tok: Token)
    requires original.Terminated()
    requires NextStart(prev) <= original.len
    ensures tok == NextToken(original.str[..], original.len, NextStart(prev), delim)
  {
    var ptr := if prev.None? then 0 else prev.value.start + prev.value.len + 1;
    ghost var s := original.str[..];
    while StrChrFinds(delim, original.str[ptr]) && original.str[ptr] != '\0'
      invariant NextStart(prev) <= ptr <= original.len
      invariant SkipDelims(s, ptr, delim) == SkipDelims(s, NextStart(prev), delim)
      decreases original.len - ptr
    {
      ptr := ptr + 1;
    }
    var start := ptr;
    var len := 0;
    while !StrChrFinds(delim, original.str[ptr]) && ptr < original.len
      invariant start <= ptr <= original.len && len == ptr - start
      invariant TokenEnd(s, original.len, ptr, delim) == TokenEnd(s, original.len, start, delim)
      decreases original.len - ptr
    {
      len := len + 1;
      ptr := ptr + 1;
    }
    tok := Token(start, len);
  }

  /**
   * Appending a token to another buffer with CBuild_String_concatN, as the build driver does
   * with each token of the directory listing: the container string's pointer is interior to
   * the tokenized buffer's block, so the operand is the span the token covers, and the bytes
   * appended are the first `count` bytes of the token (all of it when `count` is its length).
   */
  method ConcatToken(dst: CBuildString, original: CBuildString, tok: Token, count: nat)
    requires dst.Valid() && original.Terminated() && dst.str != original.str
    requires tok.start + tok.len <= original.len
    modifies dst, dst.str
    ensures dst.Valid() && dst.len + 1 < dst.bufLen && dst.len == old(dst.len) + Min(count, tok.len)
    ensures dst.Content() == old(dst.Content()) + old(original.str[tok.start..tok.start + Min(count, tok.len)])
    ensures dst.str[dst.len + 1] == '\0'
    ensures dst.bufLen == Grow(old(dst.bufLen), old(dst.len) + tok.len + 2)
    ensures if old(dst.bufLen) < old(dst.len) + tok.len + 2 then fresh(dst.str)
            else dst.str == old(dst.str) && dst.str[dst.len] == old(dst.str[..])[dst.len]
    ensures Min(count, tok.len) == 0 ==> dst.str[dst.len] == old(dst.str[..])[dst.len]
  {
    var _ := dst.ConcatNFrom(original.str, tok.start, tok.len, count);
  }

  /**
   * A call yields the zero-length token at the terminator exactly when everything from
   * where it starts up to the logical length is delimiters (in particular on an empty buffer).
   */
  lemma TerminalTokenIff(s: seq<char>, n: nat, from: nat, delim: CString)
    requires n < |s| && s[n] == '\0' && from <= n
    ensures NextToken(s, n, from, delim) == Token(n, 0) <==> forall k :: from <= k < n ==> s[k] in delim
  {
    NextTokenBytes(s, n, from, delim);
  }

  /**
   * The tokens a caller collects by calling the tokenizer from `from` until a token starts
   * at a NUL byte (the loop of the build driver). None when a call would have to start past
   * the terminator, which happens after a token that ends exactly at the logical length.
   */
  function Split(s: seq<char>, n: nat, from: nat, delim: CString): (r: Option<seq<seq<char>>>)
    requires n < |s| && s[n] == '\0' && from <= n
    decreases n - from
  {
    var t := NextToken(s, n, from, delim);
    if s[t.start] == '\0' then Some([])
    else if n < t.start + t.len + 1 then None
    else match Split(s, n, t.start + t.len + 1, delim)
      case None => None
      case Some(rest) => Some([s[t.start..t.start + t.len]] + rest)
  }

  /** A delimiter at the scan position changes nothing: the tokenizer skips it anyway. */
  lemma SplitSkipsDelimiter(s: seq<char>, n: nat, p: nat, delim: CString)
    requires n < |s| && s[n] == '\0' && p < n && s[p] in delim
    ensures Split(s, n, p, delim) == Split(s, n, p + 1, delim)
  {
    assert SkipDelims(s, p, delim) == SkipDelims(s, p + 1, delim);
  }

  /** A run of token bytes from `j` that is ended by a delimiter before `n` ends the token there. */
  lemma {:induction false} TokenEndAtDelimiter(s: seq<char>, n: nat, j: nat, e: nat, delim: CString)
    requires j <= e < n <= |s|
    requires forall k :: j <= k < e ==> s[k] !in delim && s[k] != '\0'
    requires s[e] in delim
    ensures TokenEnd(s, n, j, delim) == e
    decreases e - j
  {
    if j < e {
      TokenEndAtDelimiter(s, n, j + 1, e, delim);
    }
  }

  /**
   * A non-empty run of token bytes at the scan position that is ended by a delimiter before
   * the logical length is the next token, and the caller goes on right after that delimiter.
   */
  lemma SplitTakesToken(s: seq<char>, n: nat, p: nat, k: nat, delim: CString)
    requires n < |s| && s[n] == '\0'
    requires 0 < k && p + k < n
    requires forall i :: p <= i < p + k ==> s[i] !in delim && s[i] != '\0'
    requires s[p + k] in delim
    ensures Split(s, n, p, delim) ==
            if Split(s, n, p + k + 1, delim).None? then None
            else Some([s[p..p + k]] + Split(s, n, p + k + 1, delim).value)
  {
    TokenEndAtDelimiter(s, n, p, p + k, delim);
    assert NextToken(s, n, p, delim) == Token(p, k);
  }

  /** SplitTakesToken when the calls after the delimiter collect `names`. */
  lemma SplitTakesTokenThen(s: seq<char>, n: nat, p: nat, k: nat, delim: CString, names: seq<seq<char>>)
    requires n < |s| && s[n] == '\0'
    requires 0 < k && p + k < n
    requires forall i :: p <= i < p + k ==> s[i] !in delim && s[i] != '\0'
    requires s[p + k] in delim
    requires Split(s, n, p + k + 1, delim) == Some(names)
    ensures Split(s, n, p, delim) == Some([s[p..p + k]] + names)
  {
    SplitTakesToken(s, n, p, k, delim);
  }

  /** Splitting "a:b:c:" on ":" gives the three names and then the terminal token. */
  lemma SplitWithTrailingDelimiter(s: seq<char>, d: CString)
    requires s == "a:b:c:\0" && d == ":"
    ensures Split(s, 6, 0, d) == Some(["a", "b", "c"])
  {
    SplitLastTwo(s, d);
    assert s[0..1] == "a";
    SplitTakesToken(s, 6, 0, 1, d);
    assert [s[0..1]] + Split(s, 6, 2, d).value == ["a"] + ["b", "c"];
    assert ["a"] + ["b", "c"] == ["a", "b", "c"];
  }

  lemma SplitLastTwo(s: seq<char>, d: CString)
    requires s == "a:b:c:\0" && d == ":"
    ensures Split(s, 6, 2, d) == Some(["b", "c"])
  {
    assert Split(s, 6, 6, d) == Some([]);
    assert s[4..5] == "c" && s[2..3] == "b";
    SplitTakesToken(s, 6, 4, 1, d);
    assert [s[4..5]] + Split(s, 6, 6, d).value == ["c"];
    SplitTakesToken(s, 6, 2, 1, d);
    assert [s[2..3]] + Split(s, 6, 4, d).value == ["b", "c"];
  }

  /**
   * Without the trailing delimiter, the token "c" ends at the logical length and the next
   * call would start past the terminator.
   */
  lemma SplitWithoutTrailingDelimiter()
    ensures Split("a:b:c\0", 5, 0, ":") == None
  {
    var s, d := "a:b:c\0", ":";
    assert NextToken(s, 5, 4, d) == Token(4, 1);
    assert Split(s, 5, 4, d) == None;
    SplitTakesToken(s, 5, 2, 1, d);
    SplitTakesToken(s, 5, 0, 1, d);
  }

  /** A call that starts on the terminator yields the terminal token: nothing more is collected. */
  lemma SplitAtTerminator(s: seq<char>, n: nat, delim: CString)
    requires n < |s| && s[n] == '\0'
    ensures Split(s, n, n, delim) == Some([])
  {
    assert SkipDelims(s, n, delim) == n;
  }

  /** An empty buffer yields the terminal token on the first call. */
  lemma SplitEmpty(d: CString)
    ensures Split("\0", 0, 0, d) == Some([])
  {
    SplitAtTerminator("\0", 0, d);
  }
}
