/** Document chunking before embedding: the greedy paragraph packer used as a
    fallback, and the sentence-grouping semantic chunker whose similarity
    measure is an oracle. */
module Chunking {
  import opened Wrappers
  import opened Text

  // ------------------------------------------------------------ shared

  /** Python `s.strip()`. */
  function Strip(s: string): string {
    Trim(s, PythonSpace)
  }

  /** `not s.strip()`: every character is whitespace (see `BlankIffStripsToNothing`). */
  predicate Blank(s: string) {
    forall i :: 0 <= i < |s| ==> IsSpace(PythonSpace, s[i])
  }

  /** `Blank` is exactly the test `not s.strip()`. */
  lemma BlankIffStripsToNothing(s: string)
    ensures Blank(s) <==> Strip(s) == ""
  {
    var e := TrimEnd(s, PythonSpace);
  }

  /** The groups' members, concatenated in order. */
  function Flatten(groups: seq<seq<string>>): seq<string>
    decreases |groups|
  {
    if groups == [] then [] else Flatten(groups[..|groups| - 1]) + groups[|groups| - 1]
  }

  lemma FlattenAppend(groups: seq<seq<string>>, g: seq<string>)
    ensures Flatten(groups + [g]) == Flatten(groups) + g
  {
    assert (groups + [g])[..|groups|] == groups;
  }

  /** Sum of the lengths of the parts, separators excluded. */
  function SumLen(parts: seq<string>): int
    decreases |parts|
  {
    if parts == [] then 0 else SumLen(parts[..|parts| - 1]) + |parts[|parts| - 1]|
  }

  lemma SumLenAppend(parts: seq<string>, p: string)
    ensures SumLen(parts + [p]) == SumLen(parts) + |p|
  {
    assert (parts + [p])[..|parts|] == parts;
  }

  /** A join of a non-empty list starts with its first part. */
  lemma JoinStartsWithFirst(parts: seq<string>, sep: string)
    requires parts != []
    ensures |Join(parts, sep)| >= |parts[0]| && Join(parts, sep)[..|parts[0]|] == parts[0]
  {
  }

  // ------------------------------------------------------------ simple_chunk_fallback

  /** Default `chunk_size` of the fallback packer. */
  const DefaultChunkSize: int := 1000

  /** Value of the `chunking_method` metadata field of every fallback chunk. */
  const FallbackMethod: string := "fallback"

  /** A fallback chunk: its content and metadata. */
  datatype FallbackChunk = FallbackChunk(content: string, index: nat, size: nat, chunkingMethod: string)

  /** The non-blank paragraphs, in order. */
  function NonBlank(paras: seq<string>): (r: seq<string>)
    ensures forall i :: 0 <= i < |r| ==> !Blank(r[i])
    decreases |paras|
  {
    if paras == [] then []
    else
      var last := paras[|paras| - 1];
      NonBlank(paras[..|paras| - 1]) + (if Blank(last) then [] else [last])
  }

  /** The packer's variables after some paragraphs: the closed groups, the open
      group and its summed length. */
  datatype PackState = PackState(done: seq<seq<string>>, current: seq<string>, size: int)

  /** One iteration of the packing loop. */
  function PackStep(st: PackState, p: string, chunkSize: int): PackState {
    if Blank(p) then st
    else if st.size + |p| > chunkSize && st.current != [] then PackState(st.done + [st.current], [p], |p|)
    else PackState(st.done, st.current + [p], st.size + |p|)
  }

  /** The packer's variables after the given paragraphs. */
  function PackFold(paras: seq<string>, chunkSize: int): PackState
    decreases |paras|
  {
    if paras == [] then PackState([], [], 0)
    else PackStep(PackFold(paras[..|paras| - 1], chunkSize), paras[|paras| - 1], chunkSize)
  }

  /** The closed groups followed by the open one, when it is not empty. */
  function Pending(st: PackState): seq<seq<string>> {
    if st.current == [] then st.done else st.done + [st.current]
  }

  /** The paragraph groups `simple_chunk_fallback` emits, one per chunk. */
  function FallbackGroups(paras: seq<string>, chunkSize: int): seq<seq<string>> {
    Pending(PackFold(paras, chunkSize))
  }

  /** One chunk per group: content is the group joined by newlines, the index is
      the position, the size the content's length. */
  function FallbackChunks(groups: seq<seq<string>>): (r: seq<FallbackChunk>)
    ensures |r| == |groups|
    ensures forall i :: 0 <= i < |r| ==>
      r[i] == FallbackChunk(Join(groups[i], "\n"), i, |Join(groups[i], "\n")|, FallbackMethod)
  {
    seq(|groups|, i requires 0 <= i < |groups| =>
      FallbackChunk(Join(groups[i], "\n"), i, |Join(groups[i], "\n")|, FallbackMethod))
  }

  lemma FallbackChunksAppend(groups: seq<seq<string>>, g: seq<string>)
    ensures FallbackChunks(groups + [g])
         == FallbackChunks(groups) + [FallbackChunk(Join(g, "\n"), |groups|, |Join(g, "\n")|, FallbackMethod)]
  {
  }

  /** What greedy packing guarantees of its groups: none is empty, a group of two
      or more paragraphs fits in `chunkSize`, and each group was closed only
      because the next paragraph would not fit. */
  predicate Packed(groups: seq<seq<string>>, chunkSize: int) {
    && (forall i :: 0 <= i < |groups| ==> groups[i] != [])
    && (forall i :: 0 <= i < |groups| && |groups[i]| >= 2 ==> SumLen(groups[i]) <= chunkSize)
    && (forall i :: 0 <= i < |groups| - 1 ==> NextDoesNotFit(groups, i, chunkSize))
  }

  /** The first paragraph of group `i + 1` would have overflowed group `i`. */
  predicate NextDoesNotFit(groups: seq<seq<string>>, i: nat, chunkSize: int)
    requires i + 1 < |groups|
  {
    groups[i + 1] != [] && SumLen(groups[i]) + |groups[i + 1][0]| > chunkSize
  }

  lemma PackedNewGroup(groups: seq<seq<string>>, p: string, chunkSize: int)
    requires Packed(groups, chunkSize) && groups != []
    requires SumLen(groups[|groups| - 1]) + |p| > chunkSize
    ensures Packed(groups + [[p]], chunkSize)
  {
    var g := groups + [[p]];
    assert forall i :: 0 <= i < |groups| ==> g[i] == groups[i];
    forall i | 0 <= i < |g| - 1 ensures NextDoesNotFit(g, i, chunkSize) {
      if i < |groups| - 1 {
        assert NextDoesNotFit(groups, i, chunkSize);
      }
    }
  }

  lemma PackedExtendLast(groups: seq<seq<string>>, p: string, chunkSize: int)
    requires Packed(groups, chunkSize) && groups != []
    requires SumLen(groups[|groups| - 1]) + |p| <= chunkSize
    ensures Packed(groups[..|groups| - 1] + [groups[|groups| - 1] + [p]], chunkSize)
  {
    var last := groups[|groups| - 1];
    var g := groups[..|groups| - 1] + [last + [p]];
    SumLenAppend(last, p);
    assert forall i :: 0 <= i < |groups| - 1 ==> g[i] == groups[i];
    forall i | 0 <= i < |g| - 1 ensures NextDoesNotFit(g, i, chunkSize) {
      assert NextDoesNotFit(groups, i, chunkSize);
      assert g[i + 1][0] == groups[i + 1][0];
    }
  }

  /** The packer's loop invariant after the paragraphs whose non-blank ones are
      `seen`. */
  predicate PackInvariant(st: PackState, seen: seq<string>, chunkSize: int) {
    && Flatten(Pending(st)) == seen
    && Packed(Pending(st), chunkSize)
    && st.size == SumLen(st.current)
    && (st.current == [] ==> st.done == [])
  }

  lemma PackStepKeepsInvariant(st: PackState, seen: seq<string>, p: string, chunkSize: int)
    requires PackInvariant(st, seen, chunkSize)
    ensures PackInvariant(PackStep(st, p, chunkSize), seen + (if Blank(p) then [] else [p]), chunkSize)
  {
    if Blank(p) {
      assert seen + [] == seen;
    } else if st.size + |p| > chunkSize && st.current != [] {
      CloseKeepsInvariant(st, seen, p, chunkSize);
    } else if st.current == [] {
      StartKeepsInvariant(st, seen, p, chunkSize);
    } else {
      ExtendKeepsInvariant(st, seen, p, chunkSize);
    }
  }

  /** The paragraph does not fit: the open group is closed and a new one opened. */
  lemma CloseKeepsInvariant(st: PackState, seen: seq<string>, p: string, chunkSize: int)
    requires PackInvariant(st, seen, chunkSize)
    requires st.current != [] && st.size + |p| > chunkSize
    ensures PackInvariant(PackState(st.done + [st.current], [p], |p|), seen + [p], chunkSize)
  {
    var st' := PackState(st.done + [st.current], [p], |p|);
    assert Pending(st') == Pending(st) + [[p]];
    FlattenAppend(Pending(st), [p]);
    PackedNewGroup(Pending(st), p, chunkSize);
    SumLenAppend([], p);
  }

  /** The first non-blank paragraph opens the first group. */
  lemma StartKeepsInvariant(st: PackState, seen: seq<string>, p: string, chunkSize: int)
    requires PackInvariant(st, seen, chunkSize)
    requires st.current == []
    ensures PackInvariant(PackState(st.done, st.current + [p], st.size + |p|), seen + [p], chunkSize)
  {
    var st' := PackState(st.done, st.current + [p], st.size + |p|);
    assert st.done == [] && st.size == 0 && seen == [];
    assert Pending(st') == [[p]] by {
      assert st'.current == [p] && st'.done == [];
    }
    assert Flatten([[p]]) == [p] by {
      FlattenAppend([], [p]);
      assert [] + [[p]] == [[p]];
    }
    assert SumLen([p]) == |p| by {
      SumLenAppend([], p);
      assert [] + [p] == [p];
    }
    assert Packed([[p]], chunkSize);
  }

  /** The paragraph fits: it joins the open group. */
  lemma ExtendKeepsInvariant(st: PackState, seen: seq<string>, p: string, chunkSize: int)
    requires PackInvariant(st, seen, chunkSize)
    requires st.current != [] && st.size + |p| <= chunkSize
    ensures PackInvariant(PackState(st.done, st.current + [p], st.size + |p|), seen + [p], chunkSize)
  {
    var st' := PackState(st.done, st.current + [p], st.size + |p|);
    var g := Pending(st);
    assert g[..|g| - 1] == st.done;
    assert Pending(st') == g[..|g| - 1] + [st.current + [p]];
    FlattenAppend(st.done, st.current);
    FlattenAppend(st.done, st.current + [p]);
    SumLenAppend(st.current, p);
    PackedExtendLast(g, p, chunkSize);
  }

  lemma PackFoldSnoc(init: seq<string>, p: string, chunkSize: int)
    ensures PackFold(init + [p], chunkSize) == PackStep(PackFold(init, chunkSize), p, chunkSize)
    ensures NonBlank(init + [p]) == NonBlank(init) + (if Blank(p) then [] else [p])
  {
    assert (init + [p])[..|init|] == init;
  }

  /** The loop invariant of the packer holds after any paragraphs: the groups so
      far hold exactly the non-blank paragraphs seen, in order, and are packed. */
  lemma {:induction false} PackFoldInvariant(paras: seq<string>, chunkSize: int)
    ensures PackInvariant(PackFold(paras, chunkSize), NonBlank(paras), chunkSize)
    decreases |paras|
  {
    if paras == [] {
      assert Packed([], chunkSize);
    } else {
      var init, p := paras[..|paras| - 1], paras[|paras| - 1];
      assert init + [p] == paras;
      PackFoldInvariant(init, chunkSize);
      PackFoldSnoc(init, p, chunkSize);
      PackStepKeepsInvariant(PackFold(init, chunkSize), NonBlank(init), p, chunkSize);
    }
  }

  /** `simple_chunk_fallback`: its groups hold exactly the non-blank paragraphs
      of the text, in order; they are packed; no chunk is empty; and there are
      no chunks exactly when every paragraph is blank. */
  lemma FallbackGroupsProperties(text: string, chunkSize: int)
    ensures var groups := FallbackGroups(SplitOn(text, '\n'), chunkSize);
            && Flatten(groups) == NonBlank(SplitOn(text, '\n'))
            && Packed(groups, chunkSize)
            && (forall i :: 0 <= i < |groups| ==> Join(groups[i], "\n") != "")
            && (groups == [] <==> NonBlank(SplitOn(text, '\n')) == [])
  {
    var paras := SplitOn(text, '\n');
    PackFoldInvariant(paras, chunkSize);
    var groups := FallbackGroups(paras, chunkSize);
    forall i | 0 <= i < |groups| ensures Join(groups[i], "\n") != "" {
      FlattenMember(groups, i);
      JoinStartsWithFirst(groups[i], "\n");
      var k :| 0 <= k < |Flatten(groups)| && Flatten(groups)[k] == groups[i][0];
      assert !Blank(groups[i][0]);
    }
    if groups != [] {
      FlattenMember(groups, 0);
    }
  }

  /** The first member of any non-empty group occurs in the flattening. */
  lemma {:induction false} FlattenMember(groups: seq<seq<string>>, i: nat)
    requires i < |groups| && groups[i] != []
    ensures exists k :: 0 <= k < |Flatten(groups)| && Flatten(groups)[k] == groups[i][0]
    decreases |groups|
  {
    var init := groups[..|groups| - 1];
    FlattenAppend(init, groups[|groups| - 1]);
    assert groups == init + [groups[|groups| - 1]];
    if i == |groups| - 1 {
      assert Flatten(groups)[|Flatten(init)|] == groups[i][0];
    } else {
      FlattenMember(init, i);
      var k :| 0 <= k < |Flatten(init)| && Flatten(init)[k] == init[i][0];
      assert Flatten(groups)[k] == groups[i][0];
    }
  }

  /** Text made only of whitespace (newlines included) gives no chunks. */
  lemma WhitespaceTextHasNoChunks(text: string, chunkSize: int)
    requires Blank(text)
    ensures FallbackGroups(SplitOn(text, '\n'), chunkSize) == []
  {
    WhitespacePieces(text);
    NoNonBlank(SplitOn(text, '\n'));
    FallbackGroupsProperties(text, chunkSize);
  }

  lemma {:induction false} WhitespacePieces(text: string)
    requires Blank(text)
    ensures forall k :: 0 <= k < |SplitOn(text, '\n')| ==> Blank(SplitOn(text, '\n')[k])
    decreases |text|
  {
    if |text| > 0 {
      var r := SplitOn(text, '\n');
      assert Blank(text[1..]);
      WhitespacePieces(text[1..]);
      var rest := SplitOn(text[1..], '\n');
      if text[0] == '\n' {
        assert forall k :: 1 <= k < |r| ==> r[k] == rest[k - 1];
      } else {
        assert forall k :: 1 <= k < |r| ==> r[k] == rest[k];
        assert r[0] == [text[0]] + rest[0];
        assert forall i :: 1 <= i < |r[0]| ==> r[0][i] == rest[0][i - 1];
      }
    }
  }

  lemma {:induction false} NoNonBlank(paras: seq<string>)
    requires forall k :: 0 <= k < |paras| ==> Blank(paras[k])
    ensures NonBlank(paras) == []
    decreases |paras|
  {
    if paras != [] {
      NoNonBlank(paras[..|paras| - 1]);
    }
  }

  /** `simple_chunk_fallback(text, chunk_size)`. */
  method SimpleChunkFallback(text: string, chunkSize: int) returns (chunks: seq<FallbackChunk>)
    ensures chunks == FallbackChunks(FallbackGroups(SplitOn(text, '\n'), chunkSize))
  {
    var paragraphs := SplitOn(text, '\n');
    chunks := [];
    var currentChunk: seq<string> := [];
    var currentSize := 0;
    for k := 0 to |paragraphs|
      invariant chunks == FallbackChunks(PackFold(paragraphs[..k], chunkSize).done)
      invariant currentChunk == PackFold(paragraphs[..k], chunkSize).current
      invariant currentSize == PackFold(paragraphs[..k], chunkSize).size
    {
      var paragraph := paragraphs[k];
      assert paragraphs[..k + 1] == paragraphs[..k] + [paragraph];
      PackFoldSnoc(paragraphs[..k], paragraph, chunkSize);
      ghost var st := PackFold(paragraphs[..k], chunkSize);
      if Blank(paragraph) {
        continue;
      }
      if currentSize + |paragraph| > chunkSize && currentChunk != [] {
        var chunkText := Join(currentChunk, "\n");
        FallbackChunksAppend(st.done, currentChunk);
        chunks := chunks + [FallbackChunk(chunkText, |chunks|, |chunkText|, FallbackMethod)];
        currentChunk := [];
        currentSize := 0;
        assert PackFold(paragraphs[..k + 1], chunkSize) == PackState(st.done + [st.current], [paragraph], |paragraph|);
      } else {
        assert PackFold(paragraphs[..k + 1], chunkSize) == PackState(st.done, st.current + [paragraph], st.size + |paragraph|);
      }
      currentChunk := currentChunk + [paragraph];
      currentSize := currentSize + |paragraph|;
    }
    assert paragraphs[..|paragraphs|] == paragraphs;
    if currentChunk != [] {
      var chunkText := Join(currentChunk, "\n");
      FallbackChunksAppend(PackFold(paragraphs, chunkSize).done, currentChunk);
      chunks := chunks + [FallbackChunk(chunkText, |chunks|, |chunkText|, FallbackMethod)];
    }
  }

  // ------------------------------------------------------------ sentences

  /** The sentence terminators of the splitting pattern `[.!?]+`. */
  predicate Terminator(c: char) {
    c == '.' || c == '!' || c == '?'
  }

  /** The piece holds no terminator. */
  predicate NoTerminator(s: string) {
    forall i :: 0 <= i < |s| ==> !Terminator(s[i])
  }

  /** Drops a leading run of terminators. */
  function DropTerminators(s: string): (r: string)
    ensures |r| <= |s| && r == s[|s| - |r|..]
    ensures r == [] || !Terminator(r[0])
    ensures forall i :: 0 <= i < |s| - |r| ==> Terminator(s[i])
    decreases |s|
  {
    if |s| > 0 && Terminator(s[0]) then DropTerminators(s[1..]) else s
  }

  /** `re.split(r'[.!?]+', s)`: the pieces between maximal runs of terminators,
      with an empty piece before a leading run and after a trailing one. */
  function SplitOnRuns(s: string): (r: seq<string>)
    ensures |r| >= 1
    decreases |s|
  {
    if |s| == 0 then [""]
    else if Terminator(s[0]) then [""] + SplitOnRuns(DropTerminators(s[1..]))
    else
      var rest := SplitOnRuns(s[1..]);
      [[s[0]] + rest[0]] + rest[1..]
  }

  /** The characters of `s` that are not terminators, in order. */
  function WithoutTerminators(s: string): string
    decreases |s|
  {
    if s == [] then [] else (if Terminator(s[0]) then [] else [s[0]]) + WithoutTerminators(s[1..])
  }

  lemma {:induction false} DropTerminatorsKeepsText(s: string)
    ensures WithoutTerminators(DropTerminators(s)) == WithoutTerminators(s)
    decreases |s|
  {
    if |s| > 0 && Terminator(s[0]) {
      DropTerminatorsKeepsText(s[1..]);
    }
  }

  /** No piece contains a terminator. */
  lemma {:induction false} SplitOnRunsNoTerminator(s: string)
    ensures forall k :: 0 <= k < |SplitOnRuns(s)| ==> NoTerminator(SplitOnRuns(s)[k])
    decreases |s|
  {
    if |s| > 0 {
      if Terminator(s[0]) {
        var t := DropTerminators(s[1..]);
        SplitOnRunsNoTerminator(t);
        PiecesFreeAfterEmpty(SplitOnRuns(t));
      } else {
        SplitOnRunsNoTerminator(s[1..]);
        PiecesFreeAfterChar(s[0], SplitOnRuns(s[1..]));
      }
    }
  }

  /** An empty piece in front keeps every piece free of terminators. */
  lemma PiecesFreeAfterEmpty(p: seq<string>)
    requires forall k :: 0 <= k < |p| ==> NoTerminator(p[k])
    ensures forall k :: 0 <= k < |p| + 1 ==> NoTerminator(([""] + p)[k])
  {
    forall k | 0 <= k < |p| + 1 ensures NoTerminator(([""] + p)[k]) {
      if k > 0 { assert ([""] + p)[k] == p[k - 1]; }
    }
  }

  /** A non-terminator joined to the first piece keeps every piece free of terminators. */
  lemma PiecesFreeAfterChar(c: char, p: seq<string>)
    requires !Terminator(c) && |p| >= 1
    requires forall k :: 0 <= k < |p| ==> NoTerminator(p[k])
    ensures forall k :: 0 <= k < |p| ==> NoTerminator(([[c] + p[0]] + p[1..])[k])
  {
    var r := [[c] + p[0]] + p[1..];
    forall k | 0 <= k < |p| ensures NoTerminator(r[k]) {
      if k > 0 {
        assert r[k] == p[k];
      } else {
        assert NoTerminator(p[0]);
        assert forall i :: 1 <= i < |r[0]| ==> r[0][i] == p[0][i - 1];
      }
    }
  }

  /** The pieces concatenated are the input with its terminators removed:
      splitting loses nothing else. */
  lemma {:induction false} SplitOnRunsKeepsText(s: string)
    ensures Concat(SplitOnRuns(s)) == WithoutTerminators(s)
    decreases |s|
  {
    var r := SplitOnRuns(s);
    if |s| > 0 {
      if Terminator(s[0]) {
        var t := DropTerminators(s[1..]);
        SplitOnRunsKeepsText(t);
        DropTerminatorsKeepsText(s[1..]);
        ConcatCons("", SplitOnRuns(t));
      } else {
        SplitOnRunsKeepsText(s[1..]);
        var rest := SplitOnRuns(s[1..]);
        assert rest == [rest[0]] + rest[1..];
        ConcatCons(rest[0], rest[1..]);
        ConcatCons([s[0]] + rest[0], rest[1..]);
      }
    }
  }

  /** The pieces with `seps[j]` written between piece `j` and piece `j + 1`. */
  function Interleave(pieces: seq<string>, seps: seq<string>): string
    requires |pieces| == |seps| + 1
    decreases |seps|
  {
    if seps == [] then pieces[0]
    else pieces[0] + seps[0] + Interleave(pieces[1..], seps[1..])
  }

  /** A non-empty run made only of terminators. */
  predicate TerminatorRun(run: string) {
    |run| > 0 && forall i :: 0 <= i < |run| ==> Terminator(run[i])
  }

  /** Prefixing a character to the first piece prefixes it to the whole. */
  lemma InterleaveCons(c: char, pieces: seq<string>, seps: seq<string>)
    requires |pieces| == |seps| + 1
    ensures Interleave([[c] + pieces[0]] + pieces[1..], seps) == [c] + Interleave(pieces, seps)
  {
    var p := [[c] + pieces[0]] + pieces[1..];
    assert p[1..] == pieces[1..];
    if seps != [] {
      assert ([c] + pieces[0]) + seps[0] + Interleave(pieces[1..], seps[1..])
          == [c] + (pieces[0] + seps[0] + Interleave(pieces[1..], seps[1..]));
    }
  }

  /** Where `re.split(r'[.!?]+', s)` cuts: there is one fewer separator than
      pieces, every separator is a non-empty run of terminators, every piece
      but the first and the last is non-empty (so the runs are maximal), and
      the pieces with the runs between them rebuild `s`. A text that does not
      start with a terminator has a non-empty first piece. */
  lemma {:induction false} SplitOnRunsShape(s: string) returns (runs: seq<string>)
    ensures |SplitOnRuns(s)| == |runs| + 1
    ensures forall j :: 0 <= j < |runs| ==> TerminatorRun(runs[j])
    ensures forall k :: 0 < k < |runs| ==> SplitOnRuns(s)[k] != ""
    ensures s != [] && !Terminator(s[0]) ==> SplitOnRuns(s)[0] != ""
    ensures Interleave(SplitOnRuns(s), runs) == s
    decreases |s|
  {
    if |s| == 0 {
      runs := [];
    } else if Terminator(s[0]) {
      var t := DropTerminators(s[1..]);
      var rest := SplitOnRunsShape(t);
      runs := ShapeAfterRun(s, t, rest);
    } else {
      var rest := SplitOnRunsShape(s[1..]);
      runs := rest;
      ShapeAfterChar(s, rest);
    }
  }

  /** A leading run: `s` is the run of terminators that `DropTerminators`
      skips, followed by what it leaves. */
  lemma LeadingRun(s: string, t: string)
    requires s != [] && Terminator(s[0]) && t == DropTerminators(s[1..])
    ensures |t| < |s| && s == s[..|s| - |t|] + t && TerminatorRun(s[..|s| - |t|])
  {
    var m := |s| - |t|;
    RunThenRest(s, m, t);
    RunIsTerminators(s, m);
  }

  /** The first `m` characters followed by what comes after them. */
  lemma RunThenRest(s: string, m: nat, t: string)
    requires 1 <= m <= |s| && t == s[1..][m - 1..]
    ensures s == s[..m] + t
  {
    assert s[m..] == t;
    assert s == s[..m] + s[m..];
  }

  /** A prefix made of terminators is a terminator run. */
  lemma RunIsTerminators(s: string, m: nat)
    requires 1 <= m <= |s| && Terminator(s[0])
    requires forall i :: 0 <= i < m - 1 ==> Terminator(s[1..][i])
    ensures TerminatorRun(s[..m])
  {
    forall i | 0 <= i < m ensures Terminator(s[..m][i]) {
      if i > 0 { assert s[..m][i] == s[1..][i - 1]; }
    }
  }

  /** Putting an empty piece and a run in front of a split keeps its shape. */
  lemma PrependRun(run: string, pieces: seq<string>, seps: seq<string>)
    requires |pieces| == |seps| + 1 && TerminatorRun(run)
    requires forall j :: 0 <= j < |seps| ==> TerminatorRun(seps[j])
    requires forall k :: 0 <= k < |seps| ==> pieces[k] != ""
    ensures forall j :: 0 <= j < |seps| + 1 ==> TerminatorRun(([run] + seps)[j])
    ensures forall k :: 0 < k < |seps| + 1 ==> ([""] + pieces)[k] != ""
    ensures Interleave([""] + pieces, [run] + seps) == run + Interleave(pieces, seps)
  {
    assert ([""] + pieces)[1..] == pieces;
    assert ([run] + seps)[1..] == seps;
    forall k | 0 < k < |seps| + 1 ensures ([""] + pieces)[k] != "" {
      assert ([""] + pieces)[k] == pieces[k - 1];
    }
    forall j | 0 <= j < |seps| + 1 ensures TerminatorRun(([run] + seps)[j]) {
      if j > 0 { assert ([run] + seps)[j] == seps[j - 1]; }
    }
  }

  /** The case of `SplitOnRunsShape` for a text that starts with a run: the
      run becomes the first separator, after an empty first piece. */
  lemma ShapeAfterRun(s: string, t: string, rest: seq<string>) returns (runs: seq<string>)
    requires s != [] && Terminator(s[0]) && t == DropTerminators(s[1..])
    requires |SplitOnRuns(t)| == |rest| + 1
    requires forall j :: 0 <= j < |rest| ==> TerminatorRun(rest[j])
    requires forall k :: 0 < k < |rest| ==> SplitOnRuns(t)[k] != ""
    requires t != [] && !Terminator(t[0]) ==> SplitOnRuns(t)[0] != ""
    requires Interleave(SplitOnRuns(t), rest) == t
    ensures |SplitOnRuns(s)| == |runs| + 1
    ensures forall j :: 0 <= j < |runs| ==> TerminatorRun(runs[j])
    ensures forall k :: 0 < k < |runs| ==> SplitOnRuns(s)[k] != ""
    ensures Interleave(SplitOnRuns(s), runs) == s
  {
    LeadingRun(s, t);
    var run := s[..|s| - |t|];
    runs := [run] + rest;
    var p := SplitOnRuns(t);
    assert SplitOnRuns(s) == [""] + p;
    assert forall k :: 0 <= k < |rest| ==> p[k] != "" by {
      assert |SplitOnRuns([])| == 1;
    }
    PrependRun(run, p, rest);
  }

  /** The case of `SplitOnRunsShape` for a text that starts with another
      character: it joins the first piece. */
  lemma ShapeAfterChar(s: string, rest: seq<string>)
    requires s != [] && !Terminator(s[0])
    requires |SplitOnRuns(s[1..])| == |rest| + 1
    requires forall k :: 0 < k < |rest| ==> SplitOnRuns(s[1..])[k] != ""
    requires Interleave(SplitOnRuns(s[1..]), rest) == s[1..]
    ensures |SplitOnRuns(s)| == |rest| + 1
    ensures forall k :: 0 < k < |rest| ==> SplitOnRuns(s)[k] != ""
    ensures SplitOnRuns(s)[0] != ""
    ensures Interleave(SplitOnRuns(s), rest) == s
  {
    var pieces := SplitOnRuns(s[1..]);
    var r := SplitOnRuns(s);
    assert r == [[s[0]] + pieces[0]] + pieces[1..];
    assert forall k :: 0 < k < |r| ==> r[k] == pieces[k];
    InterleaveCons(s[0], pieces, rest);
    assert s == [s[0]] + s[1..];
  }

  /** The strings concatenated in order. */
  function Concat(parts: seq<string>): string
    decreases |parts|
  {
    if parts == [] then "" else parts[0] + Concat(parts[1..])
  }

  lemma ConcatCons(p: string, parts: seq<string>)
    ensures Concat([p] + parts) == p + Concat(parts)
  {
    assert ([p] + parts)[1..] == parts;
  }

  /** The stripped pieces, with the empty ones dropped. */
  function StrippedNonEmpty(pieces: seq<string>): (r: seq<string>)
    decreases |pieces|
  {
    if pieces == [] then []
    else
      var last := Strip(pieces[|pieces| - 1]);
      StrippedNonEmpty(pieces[..|pieces| - 1]) + (if last == "" then [] else [last])
  }

  /** The sentence list of `split_into_semantic_chunks`. */
  function SplitSentences(text: string): seq<string> {
    StrippedNonEmpty(SplitOnRuns(text))
  }

  /** A sentence as the chunker sees it: not empty, no terminator in it, no
      whitespace at either end. */
  predicate WellFormedSentence(s: string) {
    && s != ""
    && NoTerminator(s)
    && !IsSpace(PythonSpace, s[0]) && !IsSpace(PythonSpace, s[|s| - 1])
  }

  lemma StripWellFormed(p: string)
    requires NoTerminator(p)
    requires Strip(p) != ""
    ensures WellFormedSentence(Strip(p))
  {
    var a, b := TrimIsSlice(p, PythonSpace);
    assert forall i :: 0 <= i < |Strip(p)| ==> Strip(p)[i] == p[a + i];
  }

  lemma {:induction false} StrippedNonEmptyWellFormed(pieces: seq<string>)
    requires forall k :: 0 <= k < |pieces| ==> NoTerminator(pieces[k])
    ensures forall k :: 0 <= k < |StrippedNonEmpty(pieces)| ==> WellFormedSentence(StrippedNonEmpty(pieces)[k])
    decreases |pieces|
  {
    if pieces != [] {
      var p := pieces[|pieces| - 1];
      StrippedNonEmptyWellFormed(pieces[..|pieces| - 1]);
      if Strip(p) != "" {
        StripWellFormed(p);
      }
    }
  }

  /** Every sentence is well formed. */
  lemma SentencesWellFormed(text: string)
    ensures forall k :: 0 <= k < |SplitSentences(text)| ==> WellFormedSentence(SplitSentences(text)[k])
  {
    SplitOnRunsNoTerminator(text);
    StrippedNonEmptyWellFormed(SplitOnRuns(text));
  }

  // ------------------------------------------------------------ split_into_semantic_chunks

  /** Default `similarity_threshold` and `min_chunk_size`. */
  const DefaultSimilarityThreshold: real := 0.7
  const DefaultMinChunkSize: int := 200

  /** A chunk only grows on similarity while its text is shorter than this. */
  const MaxGrowLength: int := 2000

  /** A semantic chunk: its content and metadata. `avgSimilarity` is the
      similarity that closed the chunk; the last chunk has none. */
  datatype SemanticChunk = SemanticChunk(
    content: string, index: nat, size: nat, sentenceCount: nat, avgSimilarity: Option<real>)

  /** The text a new sentence is compared with: the last three sentences of the
      current chunk (all of them when it has fewer), joined by spaces. */
  function ComparisonText(current: seq<string>): string {
    if |current| >= 3 then Join(current[|current| - 3..], " ") else Join(current, " ")
  }

  /** The sentence stays in the current chunk: it is similar enough and the
      chunk is under the growth limit, or the chunk is still under the minimum
      size. */
  predicate Joins(current: seq<string>, similarity: real, threshold: real, minChunkSize: int) {
    || (similarity >= threshold && |Join(current, " ")| < MaxGrowLength)
    || |Join(current, " ")| < minChunkSize
  }

  /** The chunker's variables: the sentence lists of the closed chunks, the
      similarity that closed each, and the open chunk. */
  datatype GroupState = GroupState(closed: seq<seq<string>>, sims: seq<real>, current: seq<string>)

  /** One iteration of the grouping loop. */
  function GroupStep(st: GroupState, sentence: string, similarity: (string, string) -> real,
    threshold: real, minChunkSize: int): GroupState
  {
    var sim := similarity(ComparisonText(st.current), sentence);
    if Joins(st.current, sim, threshold, minChunkSize) then GroupState(st.closed, st.sims, st.current + [sentence])
    else GroupState(st.closed + [st.current], st.sims + [sim], [sentence])
  }

  /** The chunker's variables after the given sentences; the first opens the
      first chunk. */
  function GroupFold(sentences: seq<string>, similarity: (string, string) -> real,
    threshold: real, minChunkSize: int): (st: GroupState)
    requires sentences != []
    ensures |st.closed| == |st.sims| && st.current != []
    decreases |sentences|
  {
    if |sentences| == 1 then GroupState([], [], [sentences[0]])
    else GroupStep(GroupFold(sentences[..|sentences| - 1], similarity, threshold, minChunkSize),
      sentences[|sentences| - 1], similarity, threshold, minChunkSize)
  }

  /** The chunks emitted inside the loop, one per closed sentence list. */
  function ClosedChunks(closed: seq<seq<string>>, sims: seq<real>): (r: seq<SemanticChunk>)
    requires |closed| == |sims|
    ensures |r| == |closed|
  {
    seq(|closed|, i requires 0 <= i < |closed| =>
      SemanticChunk(Join(closed[i], " "), i, |Join(closed[i], " ")|, |closed[i]|, Some(sims[i])))
  }

  lemma ClosedChunksAppend(closed: seq<seq<string>>, sims: seq<real>, g: seq<string>, sim: real)
    requires |closed| == |sims|
    ensures ClosedChunks(closed + [g], sims + [sim])
         == ClosedChunks(closed, sims) + [SemanticChunk(Join(g, " "), |closed|, |Join(g, " ")|, |g|, Some(sim))]
  {
  }

  /** The chunk emitted after the loop for the open sentence list. */
  function LastChunk(current: seq<string>, index: nat): SemanticChunk {
    SemanticChunk(Join(current, " "), index, |Join(current, " ")|, |current|, None)
  }

  /** What `split_into_semantic_chunks` returns. */
  function SemanticChunks(text: string, similarity: (string, string) -> real,
    threshold: real, minChunkSize: int): seq<SemanticChunk>
  {
    var sentences := SplitSentences(text);
    if sentences == [] then []
    else
      var st := GroupFold(sentences, similarity, threshold, minChunkSize);
      ClosedChunks(st.closed, st.sims) + [LastChunk(st.current, |st.closed|)]
  }

  /** Sentence `k` of group `g` was kept with the sentences before it. */
  predicate KeptWith(g: seq<string>, k: nat, similarity: (string, string) -> real,
    threshold: real, minChunkSize: int)
    requires 0 < k < |g|
  {
    Joins(g[..k], similarity(ComparisonText(g[..k]), g[k]), threshold, minChunkSize)
  }

  /** Group `i` was closed by the first sentence of group `i + 1`, and `sims[i]`
      is the similarity that closed it. */
  predicate ClosedBy(groups: seq<seq<string>>, sims: seq<real>, i: nat,
    similarity: (string, string) -> real, threshold: real, minChunkSize: int)
    requires i + 1 < |groups| && i < |sims|
  {
    && groups[i + 1] != []
    && sims[i] == similarity(ComparisonText(groups[i]), groups[i + 1][0])
    && !Joins(groups[i], sims[i], threshold, minChunkSize)
  }

  /** The grouping rule, stated over the finished groups: none is empty, every
      sentence after the first of its group passed the join test against the
      sentences before it, and every group but the last was closed because the
      next sentence failed it. */
  predicate Grouped(groups: seq<seq<string>>, sims: seq<real>,
    similarity: (string, string) -> real, threshold: real, minChunkSize: int)
  {
    && |groups| == |sims| + 1
    && (forall i :: 0 <= i < |groups| ==> groups[i] != [])
    && (forall i, k :: 0 <= i < |groups| && 0 < k < |groups[i]| ==>
          KeptWith(groups[i], k, similarity, threshold, minChunkSize))
    && (forall i :: 0 <= i < |sims| ==> ClosedBy(groups, sims, i, similarity, threshold, minChunkSize))
  }

  /** The loop invariant of the chunker, after the sentences `seen`. */
  predicate GroupInvariant(st: GroupState, seen: seq<string>,
    similarity: (string, string) -> real, threshold: real, minChunkSize: int)
  {
    && Flatten(st.closed + [st.current]) == seen
    && Grouped(st.closed + [st.current], st.sims, similarity, threshold, minChunkSize)
  }

  /** The sentence joins the open chunk. */
  lemma JoinKeepsInvariant(st: GroupState, seen: seq<string>, sentence: string,
    similarity: (string, string) -> real, threshold: real, minChunkSize: int)
    requires GroupInvariant(st, seen, similarity, threshold, minChunkSize)
    requires Joins(st.current, similarity(ComparisonText(st.current), sentence), threshold, minChunkSize)
    ensures GroupInvariant(GroupState(st.closed, st.sims, st.current + [sentence]), seen + [sentence],
      similarity, threshold, minChunkSize)
  {
    var groups := st.closed + [st.current];
    var cur := st.current + [sentence];
    var groups' := st.closed + [cur];
    FlattenAppend(st.closed, st.current);
    FlattenAppend(st.closed, cur);
    assert forall i :: 0 <= i < |st.closed| ==> groups'[i] == groups[i];
    assert groups'[|st.closed|] == cur;
    forall i, k | 0 <= i < |groups'| && 0 < k < |groups'[i]|
      ensures KeptWith(groups'[i], k, similarity, threshold, minChunkSize)
    {
      if i < |st.closed| {
        assert KeptWith(groups[i], k, similarity, threshold, minChunkSize);
      } else if k < |st.current| {
        assert cur[..k] == st.current[..k] && cur[k] == st.current[k];
        assert KeptWith(groups[i], k, similarity, threshold, minChunkSize);
      } else {
        assert cur[..k] == st.current && cur[k] == sentence;
      }
    }
    forall i | 0 <= i < |st.sims| ensures ClosedBy(groups', st.sims, i, similarity, threshold, minChunkSize) {
      assert ClosedBy(groups, st.sims, i, similarity, threshold, minChunkSize);
      assert groups'[i + 1][0] == groups[i + 1][0];
    }
  }

  /** The sentence fails the join test: the open chunk is closed with that
      similarity and the sentence opens the next one. */
  lemma BreakKeepsInvariant(st: GroupState, seen: seq<string>, sentence: string,
    similarity: (string, string) -> real, threshold: real, minChunkSize: int)
    requires GroupInvariant(st, seen, similarity, threshold, minChunkSize)
    requires !Joins(st.current, similarity(ComparisonText(st.current), sentence), threshold, minChunkSize)
    ensures GroupInvariant(
      GroupState(st.closed + [st.current], st.sims + [similarity(ComparisonText(st.current), sentence)], [sentence]),
      seen + [sentence], similarity, threshold, minChunkSize)
  {
    var sim := similarity(ComparisonText(st.current), sentence);
    var groups := st.closed + [st.current];
    var groups' := groups + [[sentence]];
    var sims' := st.sims + [sim];
    assert (st.closed + [st.current]) + [[sentence]] == groups';
    FlattenAppend(groups, [sentence]);
    assert forall i :: 0 <= i < |groups| ==> groups'[i] == groups[i];
    forall i, k | 0 <= i < |groups'| && 0 < k < |groups'[i]|
      ensures KeptWith(groups'[i], k, similarity, threshold, minChunkSize)
    {
      assert KeptWith(groups[i], k, similarity, threshold, minChunkSize);
    }
    forall i | 0 <= i < |sims'| ensures ClosedBy(groups', sims', i, similarity, threshold, minChunkSize) {
      if i < |st.sims| {
        assert ClosedBy(groups, st.sims, i, similarity, threshold, minChunkSize);
      }
    }
  }

  lemma GroupFoldSnoc(init: seq<string>, sentence: string, similarity: (string, string) -> real,
    threshold: real, minChunkSize: int)
    requires init != []
    ensures GroupFold(init + [sentence], similarity, threshold, minChunkSize)
         == GroupStep(GroupFold(init, similarity, threshold, minChunkSize), sentence, similarity, threshold, minChunkSize)
  {
    assert (init + [sentence])[..|init|] == init;
  }

  /** The chunker's variables after one more sentence of the same list. */
  lemma GroupFoldPrefix(sentences: seq<string>, i: nat, similarity: (string, string) -> real,
    threshold: real, minChunkSize: int)
    requires 0 < i < |sentences|
    ensures GroupFold(sentences[..i + 1], similarity, threshold, minChunkSize)
         == GroupStep(GroupFold(sentences[..i], similarity, threshold, minChunkSize), sentences[i],
              similarity, threshold, minChunkSize)
  {
    assert sentences[..i + 1] == sentences[..i] + [sentences[i]];
    GroupFoldSnoc(sentences[..i], sentences[i], similarity, threshold, minChunkSize);
  }

  /** The chunker's loop invariant holds after any non-empty list of sentences. */
  lemma {:induction false} GroupFoldInvariant(sentences: seq<string>, similarity: (string, string) -> real,
    threshold: real, minChunkSize: int)
    requires sentences != []
    ensures GroupInvariant(GroupFold(sentences, similarity, threshold, minChunkSize), sentences,
      similarity, threshold, minChunkSize)
    decreases |sentences|
  {
    if |sentences| == 1 {
      assert Flatten([] + [[sentences[0]]]) == Flatten([]) + [sentences[0]];
    } else {
      var init, s := sentences[..|sentences| - 1], sentences[|sentences| - 1];
      assert init + [s] == sentences;
      GroupFoldInvariant(init, similarity, threshold, minChunkSize);
      GroupFoldSnoc(init, s, similarity, threshold, minChunkSize);
      var st := GroupFold(init, similarity, threshold, minChunkSize);
      if Joins(st.current, similarity(ComparisonText(st.current), s), threshold, minChunkSize) {
        JoinKeepsInvariant(st, init, s, similarity, threshold, minChunkSize);
      } else {
        BreakKeepsInvariant(st, init, s, similarity, threshold, minChunkSize);
      }
    }
  }

  /** The sentence lists behind `SemanticChunks`, one per chunk. */
  function SemanticGroups(text: string, similarity: (string, string) -> real,
    threshold: real, minChunkSize: int): seq<seq<string>>
  {
    var sentences := SplitSentences(text);
    if sentences == [] then []
    else
      var st := GroupFold(sentences, similarity, threshold, minChunkSize);
      st.closed + [st.current]
  }

  /** The chunks made from the chunker's variables: one per sentence list, with
      its text, position, length and sentence count. */
  lemma StateChunksShape(st: GroupState)
    requires |st.closed| == |st.sims|
    ensures var groups := st.closed + [st.current];
            var chunks := ClosedChunks(st.closed, st.sims) + [LastChunk(st.current, |st.closed|)];
            && |chunks| == |groups|
            && (forall i :: 0 <= i < |chunks| ==>
                  && chunks[i].content == Join(groups[i], " ")
                  && chunks[i].index == i
                  && chunks[i].size == |chunks[i].content|
                  && chunks[i].sentenceCount == |groups[i]|)
            && (forall i :: 0 <= i < |chunks| - 1 ==> chunks[i].avgSimilarity == Some(st.sims[i]))
            && chunks[|chunks| - 1].avgSimilarity.None?
  {
  }

  /** Under the loop invariant every closed sentence list is at least
      `minChunkSize` long. */
  lemma ClosedChunksLongEnough(st: GroupState, seen: seq<string>,
    similarity: (string, string) -> real, threshold: real, minChunkSize: int)
    requires GroupInvariant(st, seen, similarity, threshold, minChunkSize)
    ensures forall i :: 0 <= i < |st.closed| ==> |Join(st.closed[i], " ")| >= minChunkSize
  {
    var groups := st.closed + [st.current];
    forall i | 0 <= i < |st.closed| ensures |Join(st.closed[i], " ")| >= minChunkSize {
      assert ClosedBy(groups, st.sims, i, similarity, threshold, minChunkSize);
      assert groups[i] == st.closed[i];
    }
  }

  /** `split_into_semantic_chunks`: every sentence is in exactly one chunk, in
      order; each chunk's content is its sentences joined by spaces, its index
      its position, its size the content's length, its sentence count the
      number of its sentences; every chunk but the last is at least
      `minChunkSize` long and records the similarity that closed it, the last
      records none; and there are no chunks exactly when there are no
      sentences. */
  lemma SemanticChunksProperties(text: string, similarity: (string, string) -> real,
    threshold: real, minChunkSize: int)
    ensures var groups := SemanticGroups(text, similarity, threshold, minChunkSize);
            var chunks := SemanticChunks(text, similarity, threshold, minChunkSize);
            && Flatten(groups) == SplitSentences(text)
            && |chunks| == |groups|
            && (forall i :: 0 <= i < |chunks| ==>
                  && chunks[i].content == Join(groups[i], " ")
                  && chunks[i].index == i
                  && chunks[i].size == |chunks[i].content|
                  && chunks[i].sentenceCount == |groups[i]|)
            && (forall i :: 0 <= i < |chunks| - 1 ==>
                  chunks[i].size >= minChunkSize && chunks[i].avgSimilarity.Some?)
            && (chunks != [] ==> chunks[|chunks| - 1].avgSimilarity.None?)
            && (chunks == [] <==> SplitSentences(text) == [])
  {
    var sentences := SplitSentences(text);
    if sentences != [] {
      GroupFoldInvariant(sentences, similarity, threshold, minChunkSize);
      var st := GroupFold(sentences, similarity, threshold, minChunkSize);
      StateChunksShape(st);
      ClosedChunksLongEnough(st, sentences, similarity, threshold, minChunkSize);
    }
  }

  /** The grouping rule holds of the chunks' sentence lists, and the
      similarities it refers to are the ones the chunks record. */
  lemma SemanticGroupingRule(text: string, similarity: (string, string) -> real,
    threshold: real, minChunkSize: int)
    requires SplitSentences(text) != []
    ensures var st := GroupFold(SplitSentences(text), similarity, threshold, minChunkSize);
            var chunks := SemanticChunks(text, similarity, threshold, minChunkSize);
            && Grouped(SemanticGroups(text, similarity, threshold, minChunkSize), st.sims,
                 similarity, threshold, minChunkSize)
            && (forall i :: 0 <= i < |st.sims| ==> chunks[i].avgSimilarity == Some(st.sims[i]))
  {
    var st := GroupFold(SplitSentences(text), similarity, threshold, minChunkSize);
    GroupFoldInvariant(SplitSentences(text), similarity, threshold, minChunkSize);
    StateChunksShape(st);
  }

  /** One iteration of the chunker's loop on its concrete variables: the
      chunks emitted so far and the open sentence list, which `st` describes. */
  method GroupSentence(chunks: seq<SemanticChunk>, currentChunk: seq<string>, ghost st: GroupState,
    currentSentence: string, similarity: (string, string) -> real, threshold: real, minChunkSize: int)
    returns (chunks': seq<SemanticChunk>, currentChunk': seq<string>)
    requires |st.closed| == |st.sims|
    requires chunks == ClosedChunks(st.closed, st.sims) && currentChunk == st.current
    ensures var next := GroupStep(st, currentSentence, similarity, threshold, minChunkSize);
            chunks' == ClosedChunks(next.closed, next.sims) && currentChunk' == next.current
  {
    var comparisonText := if |currentChunk| >= 3 then Join(currentChunk[|currentChunk| - 3..], " ")
                          else Join(currentChunk, " ");
    var sim := similarity(comparisonText, currentSentence);
    var currentChunkText := Join(currentChunk, " ");
    if sim >= threshold && |currentChunkText| < MaxGrowLength {
      chunks', currentChunk' := chunks, currentChunk + [currentSentence];
    } else if |Join(currentChunk, " ")| >= minChunkSize {
      var chunkText := Join(currentChunk, " ");
      ClosedChunksAppend(st.closed, st.sims, currentChunk, sim);
      chunks' := chunks + [SemanticChunk(chunkText, |chunks|, |chunkText|, |currentChunk|, Some(sim))];
      currentChunk' := [currentSentence];
    } else {
      chunks', currentChunk' := chunks, currentChunk + [currentSentence];
    }
  }

  /** `split_into_semantic_chunks(text, similarity_threshold, min_chunk_size)`,
      with the similarity measure as an oracle. */
  method SplitIntoSemanticChunks(text: string, similarity: (string, string) -> real,
    threshold: real, minChunkSize: int) returns (chunks: seq<SemanticChunk>)
    ensures chunks == SemanticChunks(text, similarity, threshold, minChunkSize)
  {
    var sentences := SplitSentences(text);
    if sentences == [] {
      return [];
    }
    chunks := [];
    var currentChunk := [sentences[0]];
    ghost var st := GroupFold(sentences[..1], similarity, threshold, minChunkSize);
    for i := 1 to |sentences|
      invariant st == GroupFold(sentences[..i], similarity, threshold, minChunkSize)
      invariant chunks == ClosedChunks(st.closed, st.sims) && currentChunk == st.current
    {
      GroupFoldPrefix(sentences, i, similarity, threshold, minChunkSize);
      chunks, currentChunk := GroupSentence(chunks, currentChunk, st, sentences[i],
        similarity, threshold, minChunkSize);
      st := GroupStep(st, sentences[i], similarity, threshold, minChunkSize);
    }
    assert sentences[..|sentences|] == sentences;
    // The open chunk is never empty here, so the source's `if current_chunk:` always holds.
    var chunkText := Join(currentChunk, " ");
    chunks := chunks + [SemanticChunk(chunkText, |chunks|, |chunkText|, |currentChunk|, None)];
  }
}
