# CBuilder core in Dafny

This project models the core of CBuilder, a header-only C library for writing build scripts in C. It covers three headers.

- **`cbuilder/cbuilder_string.h`: the growable string buffer `CBuild_String`.** The buffer is a heap block of `buf_len` bytes. It holds `len` characters and grows in chunks of 256 bytes (`CBUILDER_BUF_CHUNK`).
  - The model has its constructors `init`, `initN` and `copy`, plus `deinit` and `reset`.
  - It has the four appends: `concat`, `concatCStr`, `concatN` and `concatCStrN`.
  - It has the character test `isDelim` and the reentrant `tokenizer`.
  - The buffer is the class `CBuilderString.CBuildString`. Its block is an `array<char>`, and its two lengths are fields the methods update.
- **`cbuilder/cbuilder_fs.h`: the Windows branch of `CBuild_Fs_dir`.**
  - It builds the search pattern `path/*.*`.
  - It enumerates the directory and appends every kept name followed by `|` to a fresh buffer.
  - The pseudo-entries `.` and `..` are skipped. The `mode` flags select folders and/or files.
- **`cbuilder/cbuilder_list.h`: the singly linked list `CBuilder_List`.**
  - `init` creates a one-node list.
  - `pushBack` walks to the tail, following at most 1,000,000 links, and appends a node.
  - `deinit` frees every node.
  - Nodes are the class `CBuilderList.ListNode`. A ghost sequence, the "spine", names the nodes of a list in link order.

The C code writes past the end of its blocks in several corner cases. Each such write is modelled as a `requires` that states exactly the bound the write needs, or, for the `cpyPath` array, only by a lemma. A lemma says for which lengths each bound fails:

- `InitFitsIff`: `init` with a length that is a positive multiple of 256.
- `CStrFitsIff`: `concatCStr` when the new length is a multiple of 256 no smaller than the capacity.
- `CStrNFitsFullIff`: the NUL that `concatCStrN` writes one byte past the new length.
- `PatternBufferOneShort`: the `cpyPath` array of `CBuild_Fs_dir` is always one byte short.
- `DirListOverflowExamples`: the listing `CBuild_Fs_dir` builds overruns its buffer when a "|" brings its length to exactly 256, for instance after one 255-character name.

The tokenizer is specified by pure functions.

- `SkipDelims`, `TokenEnd` and `NextToken` describe one call.
- `Split` describes the caller's loop, which calls until a token starts at a NUL.
- The method `Tokenize` is proved equal to `NextToken`.
- The directory listing is specified by `Listing`. `ListingTokensAreKeptNames` shows that tokenizing a listing on `|` gives back exactly the kept names, in enumeration order.

Modules: `Wrappers` (Option, Min), `CBuilderString`, `Tokenizer`, `CBuilderFs` and `CBuilderList`, one file each.

## Model

| member | source | states |
|---|---|---|
| CBuilderString.RoundUpToChunk | cbuilder/cbuilder_string.h:165-171 | the chunk count arithmetic gives the least multiple of 256 that is at least the requested size, and less than 256 above it |
| CBuilderString.InitCapacity | cbuilder/cbuilder_string.h:51-64 | `init`/`initN` allocate the least positive multiple of 256 holding `n` characters (one chunk for the empty string) |
| CBuilderString.Grow | cbuilder/cbuilder_string.h:196-204 | an append never shrinks the block, keeps it a whole number of chunks, and grows it to less than one chunk past what it needs |
| CBuilderString.InitFitsIff | cbuilder/cbuilder_string.h:64-66 | the `len + 1` byte copy of `init` fits its block iff the length is 0 or not a multiple of 256 |
| CBuilderString.CStrFitsIff | cbuilder/cbuilder_string.h:195-211 | the terminator `concatCStr` writes lands inside the block iff the new length is not a multiple of 256 at or above the old capacity |
| CBuilderString.CStrOverflowExamples | cbuilder/cbuilder_string.h:195-211 | two concrete overflows of `concatCStr`: 256 characters after `init("")`, and 200 + 312 characters grown to exactly 512 |
| CBuilderString.CStrNFitsFullIff | cbuilder/cbuilder_string.h:273-298 | when `concatCStrN` copies the whole string, its NUL at `len + n + 1` fits iff the new length is not 0 or 255 modulo 256 near the capacity |
| CBuilderString.CBuildString.Init | cbuilder/cbuilder_string.h:47-72 | a fresh terminated block of `InitCapacity` of the source length bytes, whose content is `src` |
| CBuilderString.CBuildString.InitN | cbuilder/cbuilder_string.h:81-109 | length is exactly `n`, the first `min(srcLen, n)` bytes are `src`'s, `src`'s terminator is copied when shorter, and byte `n` is NUL |
| CBuilderString.CBuildString.Copy | cbuilder/cbuilder_string.h:142-151 | a fresh block of the same capacity, byte-identical over the whole block, with the same lengths |
| CBuilderString.CBuildString.Deinit | cbuilder/cbuilder_string.h:116-121 | both lengths become 0 and the buffer is no longer live |
| CBuilderString.CBuildString.Reset | cbuilder/cbuilder_string.h:128-132 | the buffer becomes a fresh empty one-chunk terminated buffer |
| CBuilderString.CBuildString.Concat | cbuilder/cbuilder_string.h:160-183 | the content becomes old content followed by the other buffer's first `len` characters, the other buffer's byte at its length is copied after it, and the capacity grows to `Grow(bufLen, len + other.len + 2)` |
| CBuilderString.CBuildString.ConcatCStr | cbuilder/cbuilder_string.h:192-216 | the content becomes old content followed by `s`, terminated, with capacity `Grow(bufLen, len + strlen(s))`; reallocated iff the old capacity was too small |
| CBuilderString.CBuildString.ConcatNFrom | cbuilder/cbuilder_string.h:227-259 | for an operand given as a pointer into any block plus a length (such as a tokenizer container string), appends the first `min(count, len)` characters of that span, grows to `Grow(bufLen, len + srcLen + 2)`, writes NUL one byte past the new length, and leaves the byte at the new length as it was when not reallocated |
| CBuilderString.CBuildString.ConcatN | cbuilder/cbuilder_string.h:227-259 | the same for an operand that is a buffer of its own: the first `min(count, other.len)` characters of its block are appended |
| CBuilderString.CBuildString.ConcatCStrN | cbuilder/cbuilder_string.h:270-303 | appends the first `min(count, strlen(s))` characters of `s`, grows only to `len + strlen(s)`, and puts the NUL one byte past the new length |
| Tokenizer.IsDelim | cbuilder/cbuilder_string.h:305-318 | answers true iff the character occurs in `delim`; unlike `strchr` it is false for NUL |
| Tokenizer.NextStart | cbuilder/cbuilder_string.h:331-340 | scanning starts at offset 0 on the first call, otherwise strictly after the previous token |
| Tokenizer.SkipDelims | cbuilder/cbuilder_string.h:342-346 | the first loop stops inside the block, at a byte that is not a delimiter |
| Tokenizer.SkipDelimsSkipsDelimiters | cbuilder/cbuilder_string.h:342-346 | every byte the first loop passes over is a delimiter |
| Tokenizer.TokenEnd | cbuilder/cbuilder_string.h:349-354 | the second loop stops at the logical length or at a delimiter or NUL |
| Tokenizer.TokenEndSpansTokenBytes | cbuilder/cbuilder_string.h:349-354 | every byte the second loop passes over is neither a delimiter nor NUL |
| Tokenizer.NextToken | cbuilder/cbuilder_string.h:342-356 | the token lies between the scan start and the logical length, starts on a non-delimiter and is ended by a delimiter or NUL when it ends before the length |
| Tokenizer.NextTokenBytes | cbuilder/cbuilder_string.h:342-356 | everything skipped before the token is delimiters and every byte of it is neither a delimiter nor NUL |
| Tokenizer.Tokenize | cbuilder/cbuilder_string.h:329-357 | the token a call computes from the previous token is exactly `NextToken` of the original block from `NextStart(prev)` |
| Tokenizer.ConcatToken | main.c:15-21 | appending a token of the tokenized buffer with `concatN` and the token's length appends exactly the token's bytes, and the destination stays valid |
| Tokenizer.TerminalTokenIff | cbuilder/cbuilder_string.h:342-356 | a call yields the empty token at the terminator iff everything from its start to the logical length is delimiters |
| Tokenizer.SplitSkipsDelimiter | cbuilder/cbuilder_string.h:343-346 | a delimiter at the scan position does not change the tokens the caller collects |
| Tokenizer.TokenEndAtDelimiter | cbuilder/cbuilder_string.h:350-354 | a run of token bytes ended by a delimiter before the length ends the token exactly there |
| Tokenizer.SplitTakesToken | cbuilder/cbuilder_string.h:339-356 | a run of token bytes ended by a delimiter is the next token, and the caller resumes one byte after the delimiter |
| Tokenizer.SplitTakesTokenThen | cbuilder/cbuilder_string.h:339-356 | the same step when the remaining calls collect a known list of names |
| Tokenizer.SplitAtTerminator | main.c:12-13 | a call that starts on the terminator ends the caller's loop with nothing collected |
| Tokenizer.SplitWithTrailingDelimiter | main.c:11-43 | "a:b:c:" tokenized on ":" yields "a", "b", "c" and then the terminal token |
| Tokenizer.SplitWithoutTrailingDelimiter | cbuilder/cbuilder_string.h:339 | in "a:b:c" the last token ends at the length, so the next call would start past the terminator |
| Tokenizer.SplitEmpty | main.c:12-13 | an empty buffer yields the terminal token on the first call |
| CBuilderFs.SearchPattern | cbuilder/cbuilder_fs.h:23-34 | the pattern is the path, then a '/' unless the path already ends with '\\' or '/', then "*.*" |
| CBuilderFs.PatternBufferOneShort | cbuilder/cbuilder_fs.h:24-34 | the pattern's characters fill `cpyPath` exactly, so its terminator is one byte past the array |
| CBuilderFs.SearchPatternNormalisesSeparator | cbuilder/cbuilder_fs.h:27-34 | a path with or without a trailing '/' gives the same pattern |
| CBuilderFs.DirListOverflowExamples | cbuilder/cbuilder_fs.h:52-61 | a single 255-character file name, or file names of 200 and 54 characters, listed as files: the last bar separator brings the length to exactly 256, so that append does not fit the output block |
| CBuilderFs.ListEntry | cbuilder/cbuilder_fs.h:47-61 | one loop step appends nothing for "." and "..", else the name when kept and then the bar separator, and keeps the buffer terminated |
| CBuilderFs.ListEntries | cbuilder/cbuilder_fs.h:45-62 | the loop appends exactly `Listing(entries, mode)` to the buffer |
| CBuilderFs.DirList | cbuilder/cbuilder_fs.h:18-67 | provided every append of the listing fits its buffer, the result is null iff the enumeration cannot be opened; otherwise it is a fresh terminated buffer holding exactly the listing |
| CBuilderFs.ListingAppend | cbuilder/cbuilder_fs.h:45-62 | the listing of two enumerations one after the other is the concatenation of their listings |
| CBuilderFs.ListingWithoutFlags | cbuilder/cbuilder_fs.h:52-61 | with neither mode flag, the listing is one bar separator per entry other than "." and ".." |
| CBuilderFs.KeptNamesWithBothFlags | cbuilder/cbuilder_fs.h:52-59 | with both flags, every entry other than "." and ".." is named |
| CBuilderFs.ListingBarCount | cbuilder/cbuilder_fs.h:47-61 | when no name contains a bar, the listing holds exactly one bar separator per entry other than "." and ".." |
| CBuilderFs.SplitListingFrom | cbuilder/cbuilder_fs.h:45-62 | tokenizing the rest of a listing from any entry boundary yields the kept names of the remaining entries |
| CBuilderFs.ListingTokensAreKeptNames | cbuilder/cbuilder_fs.h:45-62 | tokenizing a whole listing on the bar separator yields exactly the kept names in enumeration order and ends on the terminator |
| CBuilderList.ListNode.Init | cbuilder/cbuilder_list.h:16-22 | a fresh node holding `data` with a NULL link, which is a one-node list |
| CBuilderList.SpineDistinct | cbuilder/cbuilder_list.h:26-31 | a NULL-terminated chain never visits a node twice, so the walk from the first node is finite |
| CBuilderList.OnlyLastEndsSpine | cbuilder/cbuilder_list.h:39-42 | the walk stops at a node whose link is NULL exactly at the last node |
| CBuilderList.PushBack | cbuilder/cbuilder_list.h:34-54 | given the walk from `root`, either a whole list or more than 1,000,000 nodes along links that do not reach NULL first (a longer list or a cycle): it returns NULL and touches nothing iff the walk has more than 1,000,000 nodes; otherwise the walk was a whole list, a fresh node holding `data` follows the old tail, and the values become old values plus `data` |
| CBuilderList.SelfLoopIsLongChain | cbuilder/cbuilder_list.h:36-50 | a node linking to itself gives a walk of more than 1,000,000 nodes, the cyclic case on which `pushBack` gives up with NULL |
| CBuilderList.Deinit | cbuilder/cbuilder_list.h:24-32 | the nodes freed are exactly the nodes of the list, in link order, each once |

## Left out

- The operating system is a parameter. `findFiles` maps a search pattern to `OpenFailed` or to the entries that `FindFirstFileA`/`FindNextFileA` would return, in order. `FindClose`, the `fprintf` diagnostics and the POSIX `#elif` branch of `CBuild_Fs_dir` are not part of this model.
- The `cpyPath` stack array is not modelled as memory. The pattern is built as a value, and `PatternBufferOneShort` records that the source's array is one byte too small for it.
- `malloc` never fails in the model, and `free` is not modelled as invalidating memory. `CBuildString.Deinit` only zeroes the lengths, which makes the buffer not live. `CBuilderList.Deinit` returns the sequence of nodes handed to `free`.
- C `int` lengths are unbounded naturals. Signed overflow of lengths near 2^31 is not modelled.
- CBuilderString.CBuildString.Init: requires `InitFits`, where the source overruns its block (see `InitFitsIff`).
- CBuilderString.CBuildString.InitN: requires `InitFits`, where the source writes its NUL past the block.
- CBuilderString.CBuildString.ConcatCStr: requires `CStrFits`, where the source writes the terminator past the block (see `CStrFitsIff`).
- CBuilderString.CBuildString.ConcatCStrN: requires `CStrNFits`, where the source writes its NUL past the block (see `CStrNFitsFullIff`).
- CBuilderString.CBuildString.InitN: the bytes between `|src| + 1` and `n` are uninitialised in the source. The model states nothing about them.
- CBuilderString.CBuildString.ConcatNFrom: when the block is reallocated and at least one character is appended, the byte at the new length is uninitialised. The model states nothing about it in that case. When nothing is appended, growth has copied `len + 1` bytes, and the contract states that the byte is kept.
- CBuilderString.CBuildString.ConcatCStrN: growth copies only `len` bytes, so after a reallocation the byte at the new length is uninitialised even when nothing is appended. The model states nothing about it in that case.
- CBuilderString.CBuildString.Concat: appending a buffer to itself, or between buffers sharing a block, is excluded by `requires`.
- CBuilderString.CBuildString.ConcatNFrom: an operand span inside the destination's own block (an overlapping `memcpy`) is excluded by `requires`. `ConcatN` and `ConcatToken` inherit this.
- Tokenizer.Tokenize: the token keeps only its offset and length. The container's `buf_len = 0` marker is not modelled. The source must not be called again after a token that ends exactly at the logical length, because the next call would start past the terminator. The model requires the scan start to be at most the logical length.
- Tokenizer.Split: a caller that loops until the token starting on the terminator (as the build driver does) reaches it after the last token only when a delimiter follows that token. When the last token ends exactly at the logical length, the next call starts one byte past the terminator, where the code reads outside the content; `SplitWithoutTrailingDelimiter` shows this for "a:b:c", and `Split` returns `None` there instead of modelling that read. The directory listing always ends with a bar separator, so `ListingTokensAreKeptNames` is unaffected.
- CBuilderFs.DirList: requires `ListingFits(0, BufChunk, …)` of the entries the enumeration returns, that is, every `concatCStr` of a kept name or of the bar separator meets `CStrFits`. When one does not, the source writes its terminator past the output block, for instance when a bar separator brings the length to exactly 256 (see `DirListOverflowExamples`). The model says nothing about such directories.
- CBuilderList.PushBack: a NULL root is excluded by `requires`, because the source dereferences it. A chain that never reaches NULL is given by its first 1,000,001 nodes, the walk the source follows before giving up; the model does not describe the links beyond them. The opaque `void *` payload is a type parameter. The `typedef` that names the struct before declaring it is read as the intended self-referential node.
- `main.c` and `cbuilder/cbuilder_exec.h` (the build driver and process execution) are context only. The driver's call of `CBuild_Fs_dir` with four arguments does not match the two-argument header, and it is not modelled.
- An opened enumeration in the source always yields at least one entry, since `FindFirstFileA` has returned one. The model also admits an empty sequence, which gives an empty listing.
