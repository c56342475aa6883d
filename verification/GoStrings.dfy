/** The parts of Go's `strings` package that the identity codec relies on, for one-character separators. */
module GoStrings {

  /** The first position of `c`, as strings.IndexByte gives it. */
  function IndexOf(s: string, c: char): (i: nat)
    requires c in s
    ensures i < |s| && s[i] == c && c !in s[..i]
  {
    if s[0] == c then 0
    else
      var j := IndexOf(s[1..], c);
      assert s[..j + 1] == [s[0]] + s[1..][..j];
      j + 1
  }

  /** The last position of `c`, as strings.LastIndexByte gives it. */
  function LastIndexOf(s: string, c: char): (i: nat)
    requires c in s
    ensures i < |s| && s[i] == c && c !in s[i + 1..]
  {
    if s[|s| - 1] == c then |s| - 1
    else
      var i := LastIndexOf(s[..|s| - 1], c);
      assert s[i + 1..] == s[..|s| - 1][i + 1..] + [s[|s| - 1]];
      i
  }

  /** strings.Split(s, sep) */
  function Split(s: string, sep: char): (chunks: seq<string>)
    ensures |chunks| >= 1
    decreases |s|
  {
    if sep !in s then [s]
    else var i := IndexOf(s, sep); [s[..i]] + Split(s[i + 1..], sep)
  }

  /** strings.SplitN(s, sep, n) for positive n: the last chunk is the unsplit remainder. */
  function SplitN(s: string, sep: char, n: nat): (chunks: seq<string>)
    requires n > 0
    ensures 1 <= |chunks| <= n
  {
    if n == 1 || sep !in s then [s]
    else var i := IndexOf(s, sep); [s[..i]] + SplitN(s[i + 1..], sep, n - 1)
  }

  /** strings.ReplaceAll(s, from, to) */
  function ReplaceAll(s: string, from: char, to: char): (r: string)
    ensures |r| == |s|
  {
    seq(|s|, i requires 0 <= i < |s| => if s[i] == from then to else s[i])
  }

  predicate HasSuffix(s: string, suffix: string) {
    |suffix| <= |s| && s[|s| - |suffix|..] == suffix
  }

  /** strings.TrimSuffix(s, suffix) */
  function TrimSuffix(s: string, suffix: string): string {
    if HasSuffix(s, suffix) then s[..|s| - |suffix|] else s
  }

  /** strings.TrimPrefix(s, prefix) */
  function TrimPrefix(s: string, prefix: string): string {
    if prefix <= s then s[|prefix|..] else s
  }

  function Occurrences(s: string, c: char): nat {
    if s == "" then 0 else (if s[0] == c then 1 else 0) + Occurrences(s[1..], c)
  }

  lemma IndexOfFirst(head: string, c: char, rest: string)
    requires c !in head
    ensures IndexOf(head + [c] + rest, c) == |head|
  {
    var s := head + [c] + rest;
    assert s[|head|] == c;
    assert s[..|head|] == head;
  }

  lemma {:induction false} LastIndexOfLast(head: string, c: char, rest: string)
    requires c !in rest
    ensures c in head + [c] + rest && LastIndexOf(head + [c] + rest, c) == |head|
    decreases |rest|
  {
    var s := head + [c] + rest;
    assert s[|head|] == c;
    if rest != "" {
      assert s[..|s| - 1] == head + [c] + rest[..|rest| - 1];
      LastIndexOfLast(head, c, rest[..|rest| - 1]);
    }
  }

  /** Splitting peels off a leading chunk that is free of the separator. */
  lemma SplitHead(head: string, c: char, rest: string)
    requires c !in head
    ensures Split(head + [c] + rest, c) == [head] + Split(rest, c)
  {
    var s := head + [c] + rest;
    assert s[|head|] == c;
    IndexOfFirst(head, c, rest);
    assert s[..|head|] == head && s[|head| + 1..] == rest;
  }

  /** No chunk holds the separator. */
  lemma {:induction false} SplitChunks(s: string, sep: char)
    ensures forall chunk <- Split(s, sep) :: sep !in chunk
    decreases |s|
  {
    if sep in s {
      SplitChunks(s[IndexOf(s, sep) + 1..], sep);
    }
  }

  lemma SplitNHead(head: string, c: char, rest: string, n: nat)
    requires c !in head && n > 1
    ensures SplitN(head + [c] + rest, c, n) == [head] + SplitN(rest, c, n - 1)
  {
    var s := head + [c] + rest;
    assert s[|head|] == c;
    IndexOfFirst(head, c, rest);
    assert s[..|head|] == head && s[|head| + 1..] == rest;
  }

  /** strings.Join(chunks, sep) */
  function Join(chunks: seq<string>, sep: char): string {
    if chunks == [] then ""
    else if |chunks| == 1 then chunks[0]
    else chunks[0] + [sep] + Join(chunks[1..], sep)
  }

  /** The bound on the number of chunks does not matter for a string with few separators. */
  lemma {:induction false} SplitNIsSplit(s: string, c: char, n: nat)
    requires n > Occurrences(s, c)
    ensures SplitN(s, c, n) == Split(s, c)
    decreases |s|
  {
    if c in s {
      var rest := s[IndexOf(s, c) + 1..];
      OccurrencesSplit(s, c, IndexOf(s, c));
      assert n > 1;
      SplitNIsSplit(rest, c, n - 1);
    } else {
      OccurrencesNone(s, c);
    }
  }

  lemma OccurrencesSplit(s: string, c: char, i: nat)
    requires i < |s| && s[i] == c && c !in s[..i]
    ensures Occurrences(s, c) == 1 + Occurrences(s[i + 1..], c)
  {
    assert s == s[..i] + ([c] + s[i + 1..]);
    OccurrencesConcat(s[..i], [c] + s[i + 1..], c);
    OccurrencesNone(s[..i], c);
    assert ([c] + s[i + 1..])[1..] == s[i + 1..];
  }

  /** Splitting undoes joining when no chunk holds the separator. */
  lemma {:induction false} SplitJoin(chunks: seq<string>, sep: char)
    requires chunks != [] && forall i :: 0 <= i < |chunks| ==> sep !in chunks[i]
    ensures Split(Join(chunks, sep), sep) == chunks
  {
    if |chunks| > 1 {
      SplitHead(chunks[0], sep, Join(chunks[1..], sep));
      SplitJoin(chunks[1..], sep);
    }
  }

  /** Splitting into as many chunks as were joined lets the last one hold the separator. */
  lemma {:induction false} SplitNJoin(chunks: seq<string>, sep: char)
    requires chunks != [] && forall i :: 0 <= i < |chunks| - 1 ==> sep !in chunks[i]
    ensures SplitN(Join(chunks, sep), sep, |chunks|) == chunks
  {
    if |chunks| > 1 {
      SplitNHead(chunks[0], sep, Join(chunks[1..], sep), |chunks|);
      SplitNJoin(chunks[1..], sep);
    }
  }

  lemma {:induction false} ReplaceJoin(chunks: seq<string>, from: char, to: char)
    requires forall chunk <- chunks :: from !in chunk
    ensures ReplaceAll(Join(chunks, from), from, to) == Join(chunks, to)
  {
    if |chunks| == 1 {
      assert chunks[0] in chunks;
      assert ReplaceAll(chunks[0], from, to) == chunks[0];
    } else if |chunks| > 1 {
      assert chunks[0] in chunks;
      var rest := Join(chunks[1..], from);
      assert ReplaceAll(chunks[0] + [from] + rest, from, to) == chunks[0] + [to] + ReplaceAll(rest, from, to);
      ReplaceJoin(chunks[1..], from, to);
    }
  }

  lemma {:induction false} OccurrencesConcat(a: string, b: string, c: char)
    ensures Occurrences(a + b, c) == Occurrences(a, c) + Occurrences(b, c)
  {
    if a == "" {
      assert a + b == b;
    } else {
      assert (a + b)[1..] == a[1..] + b;
      OccurrencesConcat(a[1..], b, c);
    }
  }

  lemma {:induction false} OccurrencesNone(s: string, c: char)
    requires c !in s
    ensures Occurrences(s, c) == 0
  {
    if s != "" {
      OccurrencesNone(s[1..], c);
    }
  }

  /** A string splits into one chunk more than it has separators. */
  lemma {:induction false} SplitLength(s: string, c: char)
    ensures |Split(s, c)| == Occurrences(s, c) + 1
    decreases |s|
  {
    if c !in s {
      OccurrencesNone(s, c);
    } else {
      var i := IndexOf(s, c);
      OccurrencesSplit(s, c, i);
      SplitLength(s[i + 1..], c);
    }
  }

  lemma {:induction false} OccurrencesReplaced(s: string, from: char, to: char)
    requires to !in s
    ensures Occurrences(ReplaceAll(s, from, to), to) == Occurrences(s, from)
  {
    if s != "" {
      assert ReplaceAll(s, from, to)[1..] == ReplaceAll(s[1..], from, to);
      OccurrencesReplaced(s[1..], from, to);
    }
  }
}
