/** Splitting a text into token-safe fragments: a binary search for the end of each fragment. */
module TokenFragments {
  /** A token counter is any function on texts. */
  type Counter = string -> int

  predicate Fits(count: Counter, max: int, text: string, i: nat, j: nat)
    requires i <= j <= |text|
  {
    count(text[i..j]) <= max
  }

  /** Part of a text never has more tokens than the whole of it. */
  ghost predicate Monotone(count: Counter, text: string) {
    forall i: nat, i': nat, j': nat, j: nat | i <= i' <= j' <= j <= |text| :: count(text[i'..j']) <= count(text[i..j])
  }

  function Concat(parts: seq<string>): string {
    if parts == [] then "" else Concat(parts[..|parts| - 1]) + parts[|parts| - 1]
  }

  /** `parts` cuts the text into non-empty pieces that fit. */
  ghost predicate Split(count: Counter, max: int, text: string, parts: seq<string>) {
    Concat(parts) == text && forall k | 0 <= k < |parts| :: parts[k] != "" && count(parts[k]) <= max
  }

  /** The piece from `i` to `j` cannot take one more character of the text. */
  predicate Tight(count: Counter, max: int, text: string, i: nat, j: nat) {
    i <= j < |text| ==> !Fits(count, max, text, i, j + 1)
  }

  /** The inner loop. Whatever the counter, the end it finds fits and cannot be moved by one
      character; it stays at the start only if a single character is too much. */
  method SafeEnd(count: Counter, max: int, text: string, start: nat) returns (safeEnd: nat)
    requires start < |text|
    ensures start <= safeEnd <= |text|
    ensures safeEnd > start ==> Fits(count, max, text, start, safeEnd)
    ensures Tight(count, max, text, start, safeEnd)
  {
    var low, high := start + 1, |text|;
    safeEnd := start;
    while low <= high
      invariant low == safeEnd + 1 && start <= safeEnd <= high <= |text|
      invariant safeEnd > start ==> Fits(count, max, text, start, safeEnd)
      invariant high < |text| ==> !Fits(count, max, text, start, high + 1)
    {
      var midpoint := (low + high) / 2;
      if count(text[start..midpoint]) <= max {
        safeEnd := midpoint;
        low := midpoint + 1;
      } else {
        high := midpoint - 1;
      }
    }
  }

  /** The text before fragment `k`. */
  function Before(parts: seq<string>, k: nat): nat
    requires k <= |parts|
  {
    |Concat(parts[..k])|
  }

  /** No fragment can take one more character of the text. */
  ghost predicate Greedy(count: Counter, max: int, text: string, parts: seq<string>) {
    forall k | 0 <= k < |parts| :: Tight(count, max, text, Before(parts, k), Before(parts, k) + |parts[k]|)
  }

  datatype Result = Fragments(parts: seq<string>) | Unsplittable(at: nat)

  lemma ConcatPush(parts: seq<string>, part: string)
    ensures Concat(parts + [part]) == Concat(parts) + part
  {
    assert (parts + [part])[..|parts|] == parts;
  }

  lemma {:induction false} BeforeStep(parts: seq<string>, k: nat)
    requires k < |parts|
    ensures Before(parts, k + 1) == Before(parts, k) + |parts[k]|
    ensures Before(parts, k + 1) <= |Concat(parts)|
    ensures Concat(parts[..k + 1]) <= Concat(parts)
    ensures parts[k] == Concat(parts)[Before(parts, k)..Before(parts, k + 1)]
    decreases |parts|
  {
    assert parts[..k + 1][..k] == parts[..k];
    if k + 1 == |parts| {
      assert parts[..k + 1] == parts;
    } else {
      var front := parts[..|parts| - 1];
      BeforeStep(front, k);
      assert front[..k] == parts[..k] && front[..k + 1] == parts[..k + 1];
    }
  }

  /** The single character at this position is within the limit. */
  predicate CharFits(count: Counter, max: int, text: string, at: nat) {
    at < |text| ==> count(text[at..at + 1]) <= max
  }

  /** `_token_safe_text_fragments` */
  method TokenSafeFragments(count: Counter, max: int, text: string) returns (result: Result)
    ensures result.Fragments? ==> Split(count, max, text, result.parts) && Greedy(count, max, text, result.parts)
    ensures result.Unsplittable? ==> result.at < |text| && !CharFits(count, max, text, result.at)
  {
    hide Greedy, Tight, Concat;
    var parts: seq<string> := [];
    var start := 0;
    assert Concat(parts) == text[..start] && Greedy(count, max, text, parts) by { NoFragments(count, max, text); }
    while start < |text|
      invariant start <= |text| && Concat(parts) == text[..start]
      invariant forall k | 0 <= k < |parts| :: parts[k] != "" && count(parts[k]) <= max
      invariant Greedy(count, max, text, parts)
      decreases |text| - start
    {
      var safeEnd := SafeEnd(count, max, text, start);
      if safeEnd == start {
        TightAtStart(count, max, text, start);
        return Unsplittable(start);
      }
      ConcatPush(parts, text[start..safeEnd]);
      GreedyPush(count, max, text, parts, start, safeEnd);
      parts := parts + [text[start..safeEnd]];
      assert text[..start] + text[start..safeEnd] == text[..safeEnd];
      start := safeEnd;
    }
    assert text[..start] == text;
    return Fragments(parts);
  }

  lemma NoFragments(count: Counter, max: int, text: string)
    ensures Concat([]) == text[..0] && Greedy(count, max, text, [])
  {
  }

  lemma TightAtStart(count: Counter, max: int, text: string, start: nat)
    requires start < |text| && Tight(count, max, text, start, start)
    ensures !CharFits(count, max, text, start)
  {
  }

  lemma GreedyPush(count: Counter, max: int, text: string, parts: seq<string>, start: nat, end: nat)
    requires Greedy(count, max, text, parts) && start < end <= |text| && Concat(parts) == text[..start]
    requires Tight(count, max, text, start, end)
    ensures Greedy(count, max, text, parts + [text[start..end]])
  {
    hide Tight, Concat;
    var parts' := parts + [text[start..end]];
    forall k | 0 <= k < |parts'| ensures Tight(count, max, text, Before(parts', k), Before(parts', k) + |parts'[k]|) {
      assert parts'[..k] == parts[..k];
      assert parts[..|parts|] == parts;
    }
  }

  /** Each fragment is the longest piece that fits from where it starts. */
  lemma FragmentsAreMaximal(count: Counter, max: int, text: string, parts: seq<string>, k: nat, end: nat)
    requires Monotone(count, text) && Split(count, max, text, parts) && Greedy(count, max, text, parts)
    requires k < |parts| && Before(parts, k) < end <= |text|
    ensures Before(parts, k) + |parts[k]| <= |text|
    ensures Fits(count, max, text, Before(parts, k), end) <==> end <= Before(parts, k) + |parts[k]|
  {
    BeforeStep(parts, k);
    var i, j := Before(parts, k), Before(parts, k + 1);
    assert parts[k] == text[i..j];
    if end <= j {
      assert count(text[i..end]) <= count(text[i..j]);
    } else {
      assert count(text[i..j + 1]) <= count(text[i..end]);
    }
  }

  /** Greedy cutting stays ahead of every other split. */
  lemma {:induction false} StaysAhead(count: Counter, max: int, text: string, parts: seq<string>, other: seq<string>,
                                      k: nat)
    requires Monotone(count, text) && Split(count, max, text, parts) && Greedy(count, max, text, parts)
    requires Split(count, max, text, other) && k <= |parts| && k <= |other|
    ensures Before(other, k) <= Before(parts, k)
  {
    if k > 0 {
      StaysAhead(count, max, text, parts, other, k - 1);
      BeforeStep(parts, k - 1);
      BeforeStep(other, k - 1);
      var i, end := Before(parts, k - 1), Before(other, k);
      if i < end {
        assert count(text[i..end]) <= count(text[Before(other, k - 1)..end]);
        FragmentsAreMaximal(count, max, text, parts, k - 1, end);
      }
    }
  }

  lemma WholeTextMeansAllParts(parts: seq<string>, k: nat)
    requires k <= |parts| && forall i | 0 <= i < |parts| :: parts[i] != ""
    ensures Before(parts, k) >= |Concat(parts)| ==> k == |parts|
  {
    if k < |parts| {
      BeforeStep(parts, k);
    }
  }

  /** With a monotone counter no valid split uses fewer fragments. */
  lemma GreedyIsOptimal(count: Counter, max: int, text: string, parts: seq<string>, other: seq<string>)
    requires Monotone(count, text) && Split(count, max, text, parts) && Greedy(count, max, text, parts)
    requires Split(count, max, text, other)
    ensures |parts| <= |other|
  {
    if |other| <= |parts| {
      StaysAhead(count, max, text, parts, other, |other|);
      assert other[..|other|] == other;
      WholeTextMeansAllParts(parts, |other|);
    }
  }

  lemma CharOfPart(count: Counter, max: int, text: string, parts: seq<string>, at: nat, k: nat)
    requires Monotone(count, text) && Split(count, max, text, parts) && at < |text|
    requires k < |parts| && Before(parts, k) <= at < Before(parts, k + 1)
    ensures CharFits(count, max, text, at)
  {
    BeforeStep(parts, k);
    assert count(text[at..at + 1]) <= count(text[Before(parts, k)..Before(parts, k + 1)]);
  }

  lemma {:induction false} PartAt(parts: seq<string>, at: nat, n: nat) returns (k: nat)
    requires n <= |parts| && at < Before(parts, n)
    ensures k < n && Before(parts, k) <= at < Before(parts, k + 1)
  {
    BeforeStep(parts, n - 1);
    if Before(parts, n - 1) <= at {
      k := n - 1;
    } else {
      k := PartAt(parts, at, n - 1);
    }
  }

  /** With a monotone counter a text can be split at all if and only if each of its characters fits,
      so the error is raised exactly when no split exists. */
  method FragmentsExactly(count: Counter, max: int, text: string) returns (result: Result)
    requires Monotone(count, text)
    ensures result.Fragments? <==> forall at | 0 <= at < |text| :: CharFits(count, max, text, at)
    ensures result.Fragments? <==> exists parts :: Split(count, max, text, parts)
    ensures result.Fragments? ==> forall other | Split(count, max, text, other) :: |result.parts| <= |other|
  {
    result := TokenSafeFragments(count, max, text);
    forall other, at | Split(count, max, text, other) && 0 <= at < |text| ensures CharFits(count, max, text, at) {
      assert other[..|other|] == other;
      var k := PartAt(other, at, |other|);
      CharOfPart(count, max, text, other, at, k);
    }
    if result.Fragments? {
      forall other | Split(count, max, text, other) ensures |result.parts| <= |other| {
        GreedyIsOptimal(count, max, text, result.parts, other);
      }
    }
  }
}
