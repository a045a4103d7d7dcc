/** Offsets of the corpus chunks in the joined document, and the search for the chunks that share
    text with a gold evidence span. */
module GoldEvidence {
  import opened Prelude

  /** " ".join(parts) */
  function Join(parts: seq<string>): string {
    if parts == [] then ""
    else if |parts| == 1 then parts[0]
    else Join(parts[..|parts| - 1]) + " " + parts[|parts| - 1]
  }

  // ---------------------------------------------------------------- splitting on white space

  /** A word: not empty, without white space. */
  predicate Word(w: string, space: char -> bool) {
    |w| > 0 && forall k | 0 <= k < |w| :: !space(w[k])
  }

  /** The words of a text: `text.split()` for the given notion of white space. */
  function Words(text: string, space: char -> bool): (words: seq<string>)
    ensures forall i | 0 <= i < |words| :: Word(words[i], space)
  {
    if text == "" then []
    else
      var front, last := Words(text[..|text| - 1], space), text[|text| - 1];
      if space(last) then front
      else if |text| > 1 && !space(text[|text| - 2]) && front != [] then
        front[..|front| - 1] + [front[|front| - 1] + [last]]
      else front + [[last]]
  }

  /** A text without white space is one word. */
  lemma {:induction false} OneWord(text: string, space: char -> bool)
    requires Word(text, space)
    ensures Words(text, space) == [text]
  {
    if |text| > 1 {
      OneWord(text[..|text| - 1], space);
      assert text == text[..|text| - 1] + [text[|text| - 1]];
    } else {
      assert text[..0] == "" && text == [text[0]];
    }
  }

  lemma {:induction false} LastWordEnds(text: string, space: char -> bool)
    requires text != "" && !space(text[|text| - 1])
    ensures Words(text, space) != []
  {
  }

  /** The words once one more character is read. */
  function Extend(words: seq<string>, inside: bool, x: char): seq<string> {
    if inside && words != [] then words[..|words| - 1] + [words[|words| - 1] + [x]] else words + [[x]]
  }

  predicate EndsInside(text: string, space: char -> bool) {
    text != "" && !space(text[|text| - 1])
  }

  lemma WordsPush(text: string, x: char, space: char -> bool)
    ensures Words(text + [x], space) ==
      if space(x) then Words(text, space) else Extend(Words(text, space), EndsInside(text, space), x)
  {
    assert (text + [x])[..|text|] == text;
  }

  lemma ExtendRight(a: seq<string>, b: seq<string>, inside: bool, x: char)
    requires inside ==> b != []
    ensures inside ==> Extend(a + b, inside, x) == a + Extend(b, inside, x)
    ensures !inside ==> Extend(a + b, inside, x) == a + b + [[x]] == a + Extend(b, inside, x)
  {
    if inside {
      assert (a + b)[..|a + b| - 1] == a + b[..|b| - 1];
    } else {
      assert a + b + [[x]] == a + (b + [[x]]);
    }
  }

  /** Words do not reach across white space: with `OneWord` this says what the words of any text are. */
  lemma {:induction false} WordsAcross(a: string, c: char, b: string, space: char -> bool)
    requires space(c)
    ensures Words(a + [c] + b, space) == Words(a, space) + Words(b, space)
    decreases |b|
  {
    hide Words, Extend;
    if b == "" {
      WordsPush(a, c, space);
      NoWords(space);
      assert a + [c] + b == a + [c];
    } else {
      var front, x := b[..|b| - 1], b[|b| - 1];
      assert b == front + [x] && a + [c] + b == a + [c] + front + [x];
      WordsAcross(a, c, front, space);
      WordsPush(a + [c] + front, x, space);
      WordsPush(front, x, space);
      assert EndsInside(a + [c] + front, space) == EndsInside(front, space);
      if EndsInside(front, space) {
        LastWordEnds(front, space);
      }
      ExtendRight(Words(a, space), Words(front, space), EndsInside(front, space), x);
    }
  }

  lemma NoWords(space: char -> bool)
    ensures Words("", space) == []
  {
  }

  /** `_normalized_flat` */
  function Flat(text: string, space: char -> bool): string {
    Join(Words(text, space))
  }

  lemma {:induction false} JoinStarts(parts: seq<string>)
    requires parts != [] && parts[0] != ""
    ensures Join(parts) != "" && Join(parts)[0] == parts[0][0]
  {
    if |parts| > 1 {
      JoinStarts(parts[..|parts| - 1]);
    }
  }

  /** Flattened text is empty or starts with a character that is not white space. */
  lemma FlatStarts(text: string, space: char -> bool)
    ensures Flat(text, space) == "" || !space(Flat(text, space)[0])
  {
    var words := Words(text, space);
    if words != [] {
      JoinStarts(words);
    }
  }

  lemma {:induction false} JoinAppend(a: seq<string>, b: seq<string>)
    requires a != [] && b != []
    ensures Join(a + b) == Join(a) + " " + Join(b)
  {
    var front := (a + b)[..|a + b| - 1];
    if |b| == 1 {
      assert front == a;
    } else {
      assert front == a + b[..|b| - 1];
      JoinAppend(a, b[..|b| - 1]);
    }
  }

  lemma JoinMore(parts: seq<string>, part: string)
    ensures Join([part]) == part
    ensures parts != [] ==> Join(parts + [part]) == Join(parts) + " " + part
  {
    assert (parts + [part])[..|parts|] == parts;
  }

  /** The groups one after the other. */
  function Flatten(groups: seq<seq<string>>): seq<string> {
    if groups == [] then [] else Flatten(groups[..|groups| - 1]) + groups[|groups| - 1]
  }

  /** A group of several words stays below the limit; one word may be of any length. */
  predicate Fits(group: seq<string>, maxChars: int) {
    group != [] && (|group| == 1 || |Join(group)| < maxChars)
  }

  /** The group could not have taken the first word of the next one. */
  predicate Full(group: seq<string>, next: seq<string>, maxChars: int) {
    next != [] ==> |Join(group + [next[0]])| >= maxChars
  }

  ghost predicate Packing(groups: seq<seq<string>>, words: seq<string>, maxChars: int) {
    && Flatten(groups) == words
    && (forall k | 0 <= k < |groups| :: Fits(groups[k], maxChars))
    && (forall k | 0 <= k < |groups| - 1 :: Full(groups[k], groups[k + 1], maxChars))
  }

  ghost predicate Joined(chunks: seq<string>, groups: seq<seq<string>>) {
    |chunks| == |groups| && forall k | 0 <= k < |groups| :: chunks[k] == Join(groups[k])
  }

  lemma PackFirst(word: string, maxChars: int)
    ensures Packing([] + [[word]], [word], maxChars)
  {
    assert ([] + [[word]])[..0] == [] && Flatten([]) == [];
  }

  lemma PackFlush(groups: seq<seq<string>>, current: seq<string>, read: seq<string>, word: string, maxChars: int)
    requires Packing(groups + [current], read, maxChars) && |Join(current + [word])| >= maxChars
    ensures Packing(groups + [current] + [[word]], read + [word], maxChars)
  {
    var before := groups + [current];
    var after := before + [[word]];
    assert after[..|after| - 1] == before;
    hide Flatten, Join;
    forall k | 0 <= k < |after| - 1 ensures Full(after[k], after[k + 1], maxChars) {
      assert k < |groups| ==> Full(before[k], before[k + 1], maxChars);
    }
  }

  lemma PackMore(groups: seq<seq<string>>, current: seq<string>, read: seq<string>, word: string, maxChars: int)
    requires Packing(groups + [current], read, maxChars) && |Join(current + [word])| < maxChars
    ensures Packing(groups + [current + [word]], read + [word], maxChars)
  {
    var before, after := groups + [current], groups + [current + [word]];
    assert before[..|groups|] == groups && after[..|groups|] == groups;
    assert Flatten(groups) + current + [word] == Flatten(groups) + (current + [word]);
    assert before[|groups|] == current && Fits(current, maxChars);
    hide Flatten, Join;
    forall k | 0 <= k < |after| ensures Fits(after[k], maxChars) {
      assert k < |groups| ==> Fits(before[k], maxChars);
    }
    forall k | 0 <= k < |after| - 1 ensures Full(after[k], after[k + 1], maxChars) {
      assert Full(before[k], before[k + 1], maxChars);
    }
  }

  /** The joined groups, joined, are the joined words. */
  lemma {:induction false} JoinJoins(chunks: seq<string>, groups: seq<seq<string>>)
    requires groups != [] && Joined(chunks, groups) && forall k | 0 <= k < |groups| :: groups[k] != []
    ensures Flatten(groups) != [] && Join(chunks) == Join(Flatten(groups))
    decreases |groups|
  {
    var last := |groups| - 1;
    assert chunks == chunks[..last] + [chunks[last]];
    if last == 0 {
      assert groups[..0] == [] && chunks[..0] == [] && Flatten([]) == [];
      assert [] + groups[0] == groups[0] && [] + [chunks[0]] == [chunks[0]];
      JoinMore([], chunks[0]);
    } else {
      JoinJoins(chunks[..last], groups[..last]);
      JoinAppend(Flatten(groups[..last]), groups[last]);
      JoinMore(chunks[..last], chunks[last]);
    }
  }

  /** A longer text of words is a longer text. */
  lemma {:induction false} JoinGrows(a: seq<string>, b: seq<string>)
    requires a != [] && a <= b
    ensures |Join(a)| <= |Join(b)|
    decreases |b|
  {
    if |a| < |b| {
      JoinGrows(a, b[..|b| - 1]);
    } else {
      assert a == b;
    }
  }

  lemma {:induction false} FlattenCons(groups: seq<seq<string>>)
    requires groups != []
    ensures Flatten(groups) == groups[0] + Flatten(groups[1..])
  {
    if |groups| == 1 {
      assert groups[..0] == [] && groups[1..] == [] && Flatten([]) == [];
    } else {
      var front, rest := groups[..|groups| - 1], groups[1..];
      FlattenCons(front);
      assert front[1..] == rest[..|rest| - 1] && front[0] == groups[0];
      assert Flatten(groups) == Flatten(front) + groups[|groups| - 1];
    }
  }

  /** A first group that is not the only one cannot have taken the next word. */
  lemma FirstIsFull(g: seq<seq<string>>, words: seq<string>, maxChars: int)
    requires Packing(g, words, maxChars) && g != []
    ensures 0 < |g[0]| <= |words| && words[..|g[0]|] == g[0] && Fits(g[0], maxChars)
    ensures |g[0]| < |words| ==> |Join(words[..|g[0]| + 1])| >= maxChars
  {
    hide Join;
    FlattenCons(g);
    assert Fits(g[0], maxChars);
    assert |g| == 1 ==> g[1..] == [] && Flatten([]) == [];
    if |g[0]| < |words| {
      FlattenCons(g[1..]);
      assert Full(g[0], g[1], maxChars) && Fits(g[1], maxChars);
      assert words[..|g[0]| + 1] == g[0] + [g[1][0]];
    }
  }

  /** A first group cannot be longer than another one: it would hold a word that does not fit. */
  lemma FirstGroupNotLonger(g: seq<seq<string>>, h: seq<seq<string>>, words: seq<string>, maxChars: int)
    requires Packing(g, words, maxChars) && Packing(h, words, maxChars) && g != [] && h != []
    ensures |h[0]| <= |g[0]|
  {
    hide Packing, Join;
    FirstIsFull(g, words, maxChars);
    FirstIsFull(h, words, maxChars);
    if |g[0]| < |h[0]| {
      assert words[..|g[0]| + 1] == h[0][..|g[0]| + 1];
      JoinGrows(words[..|g[0]| + 1], h[0]);
    }
  }

  lemma {:induction false} FlattenLength(groups: seq<seq<string>>, maxChars: int)
    requires forall k | 0 <= k < |groups| :: Fits(groups[k], maxChars)
    ensures |groups| <= |Flatten(groups)| && (groups == [] <==> Flatten(groups) == [])
  {
    if groups != [] {
      FlattenLength(groups[..|groups| - 1], maxChars);
    }
  }

  /** There is one packing of the words only, so the packing conditions say all there is to say. */
  lemma {:induction false} PackingIsOnly(g: seq<seq<string>>, h: seq<seq<string>>, words: seq<string>, maxChars: int)
    requires Packing(g, words, maxChars) && Packing(h, words, maxChars)
    ensures g == h
    decreases |g|
  {
    FlattenLength(g, maxChars);
    FlattenLength(h, maxChars);
    if g != [] {
      FlattenCons(g);
      FlattenCons(h);
      FirstGroupNotLonger(g, h, words, maxChars);
      FirstGroupNotLonger(h, g, words, maxChars);
      assert g[0] == words[..|g[0]|] == h[0];
      assert Flatten(g[1..]) == words[|g[0]|..] == Flatten(h[1..]);
      PackingTail(g, words, maxChars);
      PackingTail(h, words, maxChars);
      PackingIsOnly(g[1..], h[1..], words[|g[0]|..], maxChars);
      assert g == [g[0]] + g[1..] && h == [h[0]] + h[1..];
    }
  }

  lemma PackingTail(g: seq<seq<string>>, words: seq<string>, maxChars: int)
    requires Packing(g, words, maxChars) && g != []
    ensures |g[0]| <= |words| && Packing(g[1..], words[|g[0]|..], maxChars)
  {
    FlattenCons(g);
    hide Flatten, Fits;
    forall k | 0 <= k < |g[1..]| - 1 ensures Full(g[1..][k], g[1..][k + 1], maxChars) {
      assert Full(g[k + 1], g[k + 2], maxChars);
    }
  }

  /** `split_text`: words are packed greedily, a chunk of several words staying below the limit; a
      text without words is one chunk. `groups` are the words of each chunk. */
  method SplitText(content: string, space: char -> bool, maxChars: int)
    returns (chunks: seq<string>, ghost groups: seq<seq<string>>)
    ensures Words(content, space) == [] ==> chunks == [content]
    ensures Words(content, space) != [] ==>
      && Packing(groups, Words(content, space), maxChars) && Joined(chunks, groups)
      && Join(chunks) == Flat(content, space) && forall i | 0 <= i < |chunks| :: |chunks[i]| > 0
  {
    hide Join, Packing, Joined;
    var words := Words(content, space);
    var current: seq<string>, currentSize := [], 0;
    chunks, groups := [], [];
    NothingJoined();
    for i := 0 to |words|
      invariant Joined(chunks, groups) && (current == [] <==> i == 0)
        && (i == 0 ==> chunks == [] && groups == [] && currentSize == 0)
      invariant i > 0 ==> Packing(groups + [current], words[..i], maxChars) && currentSize == |Join(current)| + 1
    {
      var word := words[i];
      assert words[..i + 1] == words[..i] + [word];
      JoinMore(current, word);
      if current != [] && currentSize + |word| + 1 > maxChars {
        PackFlush(groups, current, words[..i], word, maxChars);
        JoinedMore(chunks, groups, current);
        chunks, groups := chunks + [Join(current)], groups + [current];
        current := [];
        currentSize := 0;
        assert current + [word] == [word];
      } else if current != [] {
        PackMore(groups, current, words[..i], word, maxChars);
      } else {
        PackFirst(word, maxChars);
        assert current + [word] == [word] && words[..i] == [];
      }
      current := current + [word];
      currentSize := currentSize + |word| + 1;
    }
    assert words[..|words|] == words;
    if current != [] {
      JoinedMore(chunks, groups, current);
      chunks, groups := chunks + [Join(current)], groups + [current];
      PackingJoined(chunks, groups, words, maxChars);
    }
    if chunks == [] {
      chunks := [content];
    }
  }

  lemma NothingJoined()
    ensures Joined([], [])
  {
  }

  lemma JoinedMore(chunks: seq<string>, groups: seq<seq<string>>, current: seq<string>)
    requires Joined(chunks, groups)
    ensures Joined(chunks + [Join(current)], groups + [current])
  {
    hide Join;
  }

  lemma PackingJoined(chunks: seq<string>, groups: seq<seq<string>>, words: seq<string>, maxChars: int)
    requires Packing(groups, words, maxChars) && Joined(chunks, groups) && groups != []
    requires forall i | 0 <= i < |words| :: words[i] != ""
    ensures chunks != [] && Join(chunks) == Join(words) && forall i | 0 <= i < |chunks| :: |chunks[i]| > 0
  {
    JoinJoins(chunks, groups);
    forall i | 0 <= i < |chunks| ensures |chunks[i]| > 0 {
      assert Fits(groups[i], maxChars);
      GroupWord(groups, i);
      JoinStarts(groups[i]);
    }
  }

  lemma {:induction false} GroupWord(groups: seq<seq<string>>, i: nat)
    requires i < |groups| && groups[i] != []
    ensures groups[i][0] in Flatten(groups)
  {
    if i < |groups| - 1 {
      GroupWord(groups[..|groups| - 1], i);
    }
  }

  // ---------------------------------------------------------------- offsets

  datatype Chunk = Chunk(id: string, content: string, start: nat, end: nat)

  /** Where part `i` starts in the joined text. */
  function Offset(parts: seq<string>, i: nat): nat
    requires i <= |parts|
  {
    if i == 0 then 0 else Offset(parts, i - 1) + |parts[i - 1]| + 1
  }

  /** Chunk `i` with its stored offsets. */
  ghost predicate IsChunk(parts: seq<string>, i: nat, chunk: Chunk)
    requires i < |parts|
  {
    chunk.content == parts[i] && chunk.start == Offset(parts, i) && chunk.end == Offset(parts, i) + |parts[i]|
  }

  ghost predicate ChunksOf(parts: seq<string>, chunks: seq<Chunk>) {
    |chunks| == |parts| && forall i | 0 <= i < |parts| :: IsChunk(parts, i, chunks[i])
  }

  lemma OffsetStep(parts: seq<string>, i: nat)
    requires i < |parts|
    ensures Offset(parts, i + 1) == Offset(parts, i) + |parts[i]| + 1 && Offset(parts, 0) == 0
  {
  }

  /** Chunk `k` has its offsets and the id derived from its number and content. */
  ghost predicate Built(parts: seq<string>, id: (nat, string) -> string, k: nat, chunk: Chunk)
    requires k < |parts|
  {
    IsChunk(parts, k, chunk) && chunk.id == id(k + 1, parts[k])
  }

  /** The loop of `build_corpus_chunks` over the contents of one document. */
  method BuildChunks(contents: seq<string>, id: (nat, string) -> string) returns (chunks: seq<Chunk>)
    ensures ChunksOf(contents, chunks)
    ensures forall i | 0 <= i < |chunks| :: Built(contents, id, i, chunks[i])
  {
    chunks := [];
    var offset := 0;
    for i := 0 to |contents|
      invariant |chunks| == i && offset == Offset(contents, i)
      invariant forall k | 0 <= k < i :: Built(contents, id, k, chunks[k])
    {
      hide Offset;
      OffsetStep(contents, i);
      var start := offset;
      var end := start + |contents[i]|;
      var chunk := Chunk(id(i + 1, contents[i]), contents[i], start, end);
      assert Built(contents, id, i, chunk);
      hide Built, IsChunk;
      chunks := chunks + [chunk];
      offset := end + 1;
    }
    assert forall i | 0 <= i < |chunks| :: Built(contents, id, i, chunks[i]) ==> IsChunk(contents, i, chunks[i]);
  }

  lemma {:induction false} OffsetFront(parts: seq<string>, i: nat)
    requires i < |parts|
    ensures Offset(parts[..|parts| - 1], i) == Offset(parts, i)
  {
    if i > 0 {
      OffsetFront(parts, i - 1);
    }
  }

  lemma {:induction false} JoinLength(parts: seq<string>)
    requires parts != []
    ensures |Join(parts)| + 1 == Offset(parts, |parts|)
  {
    if |parts| > 1 {
      JoinLength(parts[..|parts| - 1]);
      OffsetFront(parts, |parts| - 1);
    }
  }

  /** The stored offsets slice the joined document back to the chunk. */
  lemma {:induction false} SliceBack(parts: seq<string>, i: nat)
    requires i < |parts|
    ensures Offset(parts, i) + |parts[i]| <= |Join(parts)|
    ensures Join(parts)[Offset(parts, i)..Offset(parts, i) + |parts[i]|] == parts[i]
    decreases |parts|
  {
    JoinLength(parts);
    var last := |parts| - 1;
    if i < last {
      OffsetFront(parts, i);
      SliceBack(parts[..last], i);
    } else if last > 0 {
      JoinLength(parts[..last]);
      OffsetFront(parts, last);
    }
  }

  /** Every position of the joined text lies in a chunk or is the blank after one. */
  lemma {:induction false} Locate(parts: seq<string>, p: nat) returns (i: nat)
    requires p < |Join(parts)|
    ensures i < |parts| && Offset(parts, i) <= p <= Offset(parts, i) + |parts[i]|
    ensures p == Offset(parts, i) + |parts[i]| ==> Join(parts)[p] == ' '
    decreases |parts|
  {
    var last := |parts| - 1;
    JoinLength(parts);
    if last > 0 && p < |Join(parts[..last])| {
      i := Locate(parts[..last], p);
      OffsetFront(parts, i);
    } else if last > 0 {
      JoinLength(parts[..last]);
      OffsetFront(parts, last);
      OffsetFront(parts, last - 1);
      i := if p == |Join(parts[..last])| then last - 1 else last;
    } else {
      i := 0;
    }
  }

  // ---------------------------------------------------------------- matching

  predicate Occurs(text: string, evidence: string, s: nat) {
    s + |evidence| <= |text| && text[s..s + |evidence|] == evidence
  }

  /** `text.find(evidence, cursor)`: the first occurrence at or after the cursor. */
  function FindFrom(text: string, evidence: string, cursor: nat): (found: Option<nat>)
    ensures found.Some? ==> cursor <= found.value && Occurs(text, evidence, found.value)
    ensures found.Some? ==> forall s | cursor <= s < found.value :: !Occurs(text, evidence, s)
    ensures found.None? ==> forall s | cursor <= s :: !Occurs(text, evidence, s)
    decreases |text| - cursor
  {
    if cursor + |evidence| > |text| then None
    else if Occurs(text, evidence, cursor) then Some(cursor)
    else FindFrom(text, evidence, cursor + 1)
  }

  predicate Touches(chunk: Chunk, s: nat, length: nat) {
    chunk.start < s + length && chunk.end > s
  }

  /** Some chunk with this id touches the occurrence at `s`. */
  ghost predicate TouchedAt(chunks: seq<Chunk>, id: string, s: nat, length: nat) {
    exists i | 0 <= i < |chunks| :: chunks[i].id == id && Touches(chunks[i], s, length)
  }

  /** `_matching_chunk_ids`: every occurrence is found, overlapping ones included, and a chunk is
      kept if and only if it touches one of them. */
  method MatchingChunkIds(evidence: string, chunks: seq<Chunk>, text: string) returns (matches: set<string>)
    ensures forall id :: id in matches <==>
      exists s: nat :: Occurs(text, evidence, s) && TouchedAt(chunks, id, s, |evidence|)
  {
    var starts := FindAll(text, evidence);
    matches := {};
    for k := 0 to |starts|
      invariant forall id :: id in matches <==> exists j | 0 <= j < k :: TouchedAt(chunks, id, starts[j], |evidence|)
    {
      matches := matches + set i | 0 <= i < |chunks| && Touches(chunks[i], starts[k], |evidence|) :: chunks[i].id;
    }
    forall id
      ensures id in matches <==> exists s: nat :: Occurs(text, evidence, s) && TouchedAt(chunks, id, s, |evidence|)
    {
      if s: nat :| Occurs(text, evidence, s) && TouchedAt(chunks, id, s, |evidence|) {
        assert s in starts;
      }
      if j :| 0 <= j < |starts| && TouchedAt(chunks, id, starts[j], |evidence|) {
        assert starts[j] in starts;
      }
    }
  }

  /** The `while True` loop over `find`. */
  method FindAll(text: string, evidence: string) returns (starts: seq<nat>)
    ensures forall s: nat :: s in starts <==> Occurs(text, evidence, s)
    ensures forall i, j | 0 <= i < j < |starts| :: starts[i] < starts[j]
  {
    starts := [];
    var cursor: nat := 0;
    while true
      invariant forall s: nat :: s in starts <==> s < cursor && Occurs(text, evidence, s)
      invariant forall i, j | 0 <= i < j < |starts| :: starts[i] < starts[j]
      invariant cursor <= |text| + 1
      decreases |text| + 1 - cursor
    {
      var found := FindFrom(text, evidence, cursor);
      if found.None? {
        break;
      }
      assert forall i | 0 <= i < |starts| :: starts[i] in starts;
      starts := starts + [found.value];
      cursor := found.value + 1;
    }
  }

  predicate Within(chunk: Chunk, s: nat, length: nat, p: nat) {
    s <= p < s + length && chunk.start <= p < chunk.end
  }

  /** The chunk and the occurrence have a character in common. */
  ghost predicate SharesCharacter(chunk: Chunk, s: nat, length: nat) {
    exists p: nat :: Within(chunk, s, length, p)
  }

  lemma TouchingIsSharing(chunk: Chunk, s: nat, length: nat)
    requires chunk.start < chunk.end || chunk.start == chunk.end == 0
    requires length > 0
    ensures Touches(chunk, s, length) <==> SharesCharacter(chunk, s, length)
  {
    var p: nat := if s <= chunk.start then chunk.start else s;
    assert Touches(chunk, s, length) ==> Within(chunk, s, length, p);
  }

  /** Every occurrence of an evidence that does not start with a blank touches some chunk. */
  lemma OccurrenceTouches(parts: seq<string>, chunks: seq<Chunk>, evidence: string, s: nat) returns (i: nat)
    requires ChunksOf(parts, chunks) && Occurs(Join(parts), evidence, s)
    requires evidence != "" && evidence[0] != ' '
    ensures i < |chunks| && Touches(chunks[i], s, |evidence|)
  {
    i := Locate(parts, s);
    assert Join(parts)[s] == evidence[0];
    assert IsChunk(parts, i, chunks[i]);
  }

  /** Some chunk with this id shares a character with the occurrence at `s`. */
  ghost predicate SharedAt(chunks: seq<Chunk>, id: string, s: nat, length: nat) {
    exists i | 0 <= i < |chunks| :: chunks[i].id == id && SharesCharacter(chunks[i], s, length)
  }

  lemma TouchedIsShared(parts: seq<string>, chunks: seq<Chunk>, id: string, s: nat, length: nat)
    requires ChunksOf(parts, chunks) && length > 0 && forall i | 0 < i < |parts| :: |parts[i]| > 0
    ensures TouchedAt(chunks, id, s, length) <==> SharedAt(chunks, id, s, length)
  {
    forall i | 0 <= i < |chunks| ensures Touches(chunks[i], s, length) <==> SharesCharacter(chunks[i], s, length) {
      assert IsChunk(parts, i, chunks[i]);
      TouchingIsSharing(chunks[i], s, length);
    }
  }

  /** The document the offsets refer to; a text without words is kept as it is. */
  function Document(source: string, space: char -> bool): string {
    if Words(source, space) == [] then source else Flat(source, space)
  }

  /** The whole mapping of one evidence span: every stored pair of offsets slices the document back to
      its chunk, the result is exactly the chunks that share a character with some occurrence of the
      evidence, and it is empty only if the evidence does not occur. An evidence without words occurs
      everywhere and selects the chunks of two or more characters. */
  method MapEvidence(source: string, raw: string, space: char -> bool, maxChars: int, id: (nat, string) -> string)
    returns (matches: set<string>, ghost chunks: seq<Chunk>)
    requires space(' ')
    ensures Words(raw, space) != [] ==> forall x :: x in matches <==>
      exists s: nat ::
        Occurs(Document(source, space), Flat(raw, space), s) && SharedAt(chunks, x, s, |Flat(raw, space)|)
    ensures Words(raw, space) != [] ==>
      (matches == {} <==> forall s: nat :: !Occurs(Document(source, space), Flat(raw, space), s))
    ensures Words(raw, space) == [] ==> forall x :: x in matches <==>
      exists i | 0 <= i < |chunks| :: chunks[i].id == x && |chunks[i].content| >= 2
    ensures forall i | 0 <= i < |chunks| ::
      && chunks[i].start <= chunks[i].end <= |Document(source, space)|
      && Document(source, space)[chunks[i].start..chunks[i].end] == chunks[i].content
      && (chunks[i].content == "" ==> source == "")
  {
    var contents, groups := SplitText(source, space, maxChars);
    var built := BuildChunks(contents, id);
    chunks := built;
    var evidence, text := Flat(raw, space), Join(contents);
    matches := MatchingChunkIds(evidence, built, text);
    FlatNonEmpty(raw, space);
    FlatStarts(raw, space);
    hide Words, Flat, Join, Occurs, TouchedAt, SharedAt, Packing;
    JoinMore([], source);
    assert text == Document(source, space) && [] + [source] == [source];
    forall i | 0 <= i < |chunks|
      ensures chunks[i].start <= chunks[i].end <= |text| && text[chunks[i].start..chunks[i].end] == chunks[i].content
      ensures chunks[i].content == "" ==> source == ""
    {
      SliceBack(contents, i);
      assert IsChunk(contents, i, chunks[i]);
    }
    if evidence == "" {
      forall x ensures x in matches <==> exists i | 0 <= i < |chunks| :: chunks[i].id == x && |chunks[i].content| >= 2 {
        BlankTouches(text, chunks, x);
      }
    } else {
      forall x, s: nat ensures TouchedAt(chunks, x, s, |evidence|) <==> SharedAt(chunks, x, s, |evidence|) {
        TouchedIsShared(contents, chunks, x, s, |evidence|);
      }
      if s: nat :| Occurs(text, evidence, s) {
        var i := OccurrenceTouches(contents, chunks, evidence, s);
        TouchedBy(chunks, i, s, |evidence|);
        assert chunks[i].id in matches;
      }
    }
  }

  /** An empty evidence touches a chunk exactly if some position lies strictly inside it. */
  lemma BlankTouches(text: string, chunks: seq<Chunk>, x: string)
    requires forall i | 0 <= i < |chunks| ::
      chunks[i].start <= chunks[i].end <= |text| && text[chunks[i].start..chunks[i].end] == chunks[i].content
    ensures (exists s: nat :: Occurs(text, "", s) && TouchedAt(chunks, x, s, 0)) <==>
      exists i | 0 <= i < |chunks| :: chunks[i].id == x && |chunks[i].content| >= 2
  {
    if i :| 0 <= i < |chunks| && chunks[i].id == x && |chunks[i].content| >= 2 {
      var s := chunks[i].start + 1;
      assert Occurs(text, "", s) && Touches(chunks[i], s, 0);
      assert TouchedAt(chunks, x, s, 0);
    }
  }

  lemma TouchedBy(chunks: seq<Chunk>, i: nat, s: nat, length: nat)
    requires i < |chunks| && Touches(chunks[i], s, length)
    ensures TouchedAt(chunks, chunks[i].id, s, length)
  {
  }

  lemma FlatNonEmpty(text: string, space: char -> bool)
    ensures Flat(text, space) == "" <==> Words(text, space) == []
  {
    if Words(text, space) != [] {
      JoinStarts(Words(text, space));
    }
  }
}
