/** The store slug: lower-case, collapse every other run of characters to a dash, trim dashes. */
module Slug {

  predicate IsWordChar(c: char) {
    'a' <= c <= 'z' || '0' <= c <= '9'
  }

  /** `replace(/[^a-z0-9]+/g, '-')`: each maximal run of other characters becomes one dash. `inGap` says whether
      the run being read already has its dash. */
  function Collapse(s: string, inGap: bool): string {
    if s == "" then ""
    else if IsWordChar(s[0]) then [s[0]] + Collapse(s[1..], false)
    else if inGap then Collapse(s[1..], true)
    else "-" + Collapse(s[1..], true)
  }

  function TrimStart(s: string): string {
    if s != "" && s[0] == '-' then TrimStart(s[1..]) else s
  }

  function TrimEnd(s: string): string {
    if s != "" && s[|s| - 1] == '-' then TrimEnd(s[..|s| - 1]) else s
  }

  /** The slug of a name; `lower` is the platform's lower-casing. */
  function SlugOf(lower: string -> string, name: string): string {
    TrimEnd(TrimStart(Collapse(lower(name), false)))
  }

  // ------------------------------------------------------------------ the maximal runs

  /** The length of the leading run of word characters. */
  function WordLength(s: string): (n: nat)
    ensures n <= |s| && (forall k :: 0 <= k < n ==> IsWordChar(s[k])) && (n < |s| ==> !IsWordChar(s[n]))
  {
    if s == "" || !IsWordChar(s[0]) then 0 else 1 + WordLength(s[1..])
  }

  /** The maximal `[a-z0-9]` runs of a string, in order. */
  function Runs(s: string): seq<string>
    decreases |s|
  {
    if s == "" then []
    else if !IsWordChar(s[0]) then Runs(s[1..])
    else [s[..WordLength(s)]] + Runs(s[WordLength(s)..])
  }

  function Join(words: seq<string>): string {
    if words == [] then "" else if |words| == 1 then words[0] else words[0] + "-" + Join(words[1..])
  }

  predicate IsWord(w: string) {
    w != "" && forall k :: 0 <= k < |w| ==> IsWordChar(w[k])
  }

  predicate AreWords(ws: seq<string>) {
    forall k :: 0 <= k < |ws| ==> IsWord(ws[k])
  }

  lemma {:induction false} RunsAreWords(s: string)
    ensures AreWords(Runs(s))
    decreases |s|
  {
    if s != "" {
      if IsWordChar(s[0]) {
        RunsAreWords(s[WordLength(s)..]);
      } else {
        RunsAreWords(s[1..]);
      }
    }
  }

  // ------------------------------------------------------------------ the pipeline is the joined runs

  lemma {:induction false} CollapseWord(w: string, rest: string, inGap: bool)
    requires forall k :: 0 <= k < |w| ==> IsWordChar(w[k])
    ensures Collapse(w + rest, inGap) == w + Collapse(rest, if w == "" then inGap else false)
  {
    if w == "" {
      assert w + rest == rest;
    } else {
      assert (w + rest)[1..] == w[1..] + rest;
      CollapseWord(w[1..], rest, false);
      if w[1..] == "" {
        assert w == [w[0]];
      }
    }
  }

  // A string after its leading gap.
  function SkipGap(s: string): (rest: string)
    ensures rest == "" || IsWordChar(rest[0])
    ensures |rest| <= |s|
  {
    if s != "" && !IsWordChar(s[0]) then SkipGap(s[1..]) else s
  }

  predicate EndsInGap(s: string) {
    s != "" && !IsWordChar(s[|s| - 1])
  }

  lemma {:induction false} SkipGapFacts(s: string)
    ensures Runs(SkipGap(s)) == Runs(s)
    ensures EndsInGap(SkipGap(s)) ==> EndsInGap(s)
    ensures EndsInGap(s) ==> EndsInGap(SkipGap(s)) || SkipGap(s) == ""
    ensures s != "" && SkipGap(s) == "" ==> EndsInGap(s)
    ensures Collapse(s, true) == Collapse(SkipGap(s), true)
  {
    if s != "" && !IsWordChar(s[0]) {
      SkipGapFacts(s[1..]);
      if s[1..] != "" { assert s[|s| - 1] == s[1..][|s| - 2]; }
    }
  }

  /** The joined runs, and a dash if the string ends in a gap. */
  function Dashed(s: string): string {
    Join(Runs(s)) + if EndsInGap(s) then "-" else ""
  }

  lemma JoinCons(w: string, words: seq<string>)
    requires words != []
    ensures Join([w] + words) == w + "-" + Join(words)
  {
  }

  lemma Associate(w: string, j: string, t: string)
    ensures w + ("-" + (j + t)) == (w + "-" + j) + t
  {
  }

  /** Split a string that starts with a word into the word, the gap after it, and the rest. */
  lemma RunsOfWordFirst(s: string)
    requires s != "" && IsWordChar(s[0])
    ensures var w, rest := s[..WordLength(s)], SkipGap(s[WordLength(s)..]);
            && Runs(s) == [w] + Runs(rest)
            && |rest| < |s|
            && (EndsInGap(s) <==> EndsInGap(rest) || (rest == "" && WordLength(s) < |s|))
  {
    var after := s[WordLength(s)..];
    SkipGapFacts(after);
    if after != "" {
      assert s[|s| - 1] == after[|after| - 1];
    }
  }

  lemma CollapseOfWordFirst(s: string, inGap: bool)
    requires s != "" && IsWordChar(s[0])
    ensures var w, after := s[..WordLength(s)], s[WordLength(s)..];
            Collapse(s, inGap) == w + if after == "" then "" else "-" + Collapse(SkipGap(after), true)
  {
    var w, after := s[..WordLength(s)], s[WordLength(s)..];
    assert s == w + after;
    CollapseWord(w, after, inGap);
    if after != "" {
      SkipGapFacts(after[1..]);
    }
  }

  lemma {:induction false} CollapseIsDashed(s: string)
    requires s != "" ==> IsWordChar(s[0])
    ensures Collapse(s, true) == Collapse(s, false) == Dashed(s)
    decreases |s|
  {
    if s != "" {
      RunsOfWordFirst(s);
      CollapseOfWordFirst(s, true);
      CollapseOfWordFirst(s, false);
      var w, rest := s[..WordLength(s)], SkipGap(s[WordLength(s)..]);
      CollapseIsDashed(rest);
      if rest == "" {
        assert [w] + [] == [w];
      } else {
        RunsOfWordFirst(rest);
        JoinCons(w, Runs(rest));
        Associate(w, Join(Runs(rest)), if EndsInGap(rest) then "-" else "");
      }
    }
  }

  lemma {:induction false} JoinEnds(words: seq<string>)
    requires words != [] && AreWords(words)
    ensures var j := Join(words); j != "" && IsWordChar(j[0]) && IsWordChar(j[|j| - 1])
  {
    assert IsWord(words[0]);
    if |words| > 1 {
      JoinEnds(words[1..]);
    }
  }

  lemma TrimJoined(j: string, tail: string)
    requires j == "" || (IsWordChar(j[0]) && IsWordChar(j[|j| - 1]))
    requires tail == "" || tail == "-"
    ensures TrimEnd(TrimStart(j + tail)) == j
    ensures TrimEnd(TrimStart("-" + (j + tail))) == j
  {
  }

  /** Main result. The three replacements amount to joining the maximal runs of the lower-cased name with dashes. */
  lemma SlugIsJoinedRuns(lower: string -> string, name: string)
    ensures SlugOf(lower, name) == Join(Runs(lower(name)))
  {
    var s := lower(name);
    var rest := SkipGap(s);
    SkipGapFacts(s);
    RunsAreWords(s);
    CollapseIsDashed(rest);
    if Runs(rest) != [] { JoinEnds(Runs(rest)); }
    TrimJoined(Join(Runs(rest)), if EndsInGap(rest) then "-" else "");
    if s != "" && !IsWordChar(s[0]) {
      SkipGapFacts(s[1..]);
      assert Collapse(s, false) == "-" + Collapse(rest, true);
    }
  }

  /** A slug never starts or ends with a dash. */
  lemma SlugHasWordEnds(lower: string -> string, name: string)
    ensures var slug := SlugOf(lower, name);
            slug != "" ==> IsWordChar(slug[0]) && IsWordChar(slug[|slug| - 1])
  {
    SlugIsJoinedRuns(lower, name);
    RunsAreWords(lower(name));
    if Runs(lower(name)) != [] { JoinEnds(Runs(lower(name))); }
  }

  lemma {:induction false} JoinSpelling(words: seq<string>)
    requires AreWords(words)
    ensures var j := Join(words);
            && (forall k :: 0 <= k < |j| ==> 'a' <= j[k] <= 'z' || '0' <= j[k] <= '9' || j[k] == '-')
            && (forall k :: 0 <= k < |j| - 1 ==> !(j[k] == '-' && j[k + 1] == '-'))
            && (j != "" ==> j[0] != '-' && j[|j| - 1] != '-')
  {
    if words != [] {
      assert IsWord(words[0]);
      if |words| > 1 {
        JoinSpelling(words[1..]);
        JoinEnds(words[1..]);
      }
    }
  }

  /** A slug is spelled with a-z, 0-9 and single dashes between them. */
  lemma SlugSpelling(lower: string -> string, name: string)
    ensures var slug := SlugOf(lower, name);
            && (forall k :: 0 <= k < |slug| ==> 'a' <= slug[k] <= 'z' || '0' <= slug[k] <= '9' || slug[k] == '-')
            && (forall k :: 0 <= k < |slug| - 1 ==> !(slug[k] == '-' && slug[k + 1] == '-'))
            && (slug != "" ==> slug[0] != '-' && slug[|slug| - 1] != '-')
  {
    SlugIsJoinedRuns(lower, name);
    RunsAreWords(lower(name));
    JoinSpelling(Runs(lower(name)));
  }

  /** A name of a-z and 0-9 alone is its own slug, digits included. */
  lemma PlainNameIsItsSlug(lower: string -> string, name: string)
    requires lower(name) == name
    requires forall k :: 0 <= k < |name| ==> 'a' <= name[k] <= 'z' || '0' <= name[k] <= '9'
    ensures SlugOf(lower, name) == name
  {
    SlugIsJoinedRuns(lower, name);
    WordLengthOf(name, "");
    assert name + "" == name && name[..|name|] == name && name[|name|..] == "";
  }

  /** Two such words with anything else between them are joined by one dash. */
  lemma TwoWordsJoinedByADash(lower: string -> string, a: string, gap: string, b: string)
    requires lower(a + gap + b) == a + gap + b && a != "" && gap != "" && b != ""
    requires forall c :: c in a + b ==> 'a' <= c <= 'z' || '0' <= c <= '9'
    requires forall c :: c in gap ==> !('a' <= c <= 'z' || '0' <= c <= '9')
    ensures SlugOf(lower, a + gap + b) == a + "-" + b
  {
    var s := a + gap + b;
    forall k | 0 <= k < |a| ensures IsWordChar(a[k]) { assert a[k] in a + b; }
    forall k | 0 <= k < |b| ensures IsWordChar(b[k]) { assert b[k] in a + b; }
    assert s == a + (gap + b) && gap[0] in gap;
    SlugIsJoinedRuns(lower, s);
    WordLengthOf(a, gap + b);
    assert s[..|a|] == a && s[|a|..] == gap + b;
    RunsSkipGap(gap, b);
    WordLengthOf(b, "");
    assert b + "" == b && b[..|b|] == b && b[|b|..] == "";
    assert Runs(b) == [b];
    assert Runs(s) == [a] + Runs(gap + b) == [a] + [b];
    JoinCons(a, [b]);
  }

  lemma {:induction false} RunsSkipGap(gap: string, rest: string)
    requires forall c :: c in gap ==> !IsWordChar(c)
    ensures Runs(gap + rest) == Runs(rest)
  {
    if gap == "" {
      assert gap + rest == rest;
    } else {
      assert gap[0] in gap && (gap + rest)[1..] == gap[1..] + rest;
      RunsSkipGap(gap[1..], rest);
    }
  }

  // ------------------------------------------------------------------ joined runs read back

  lemma {:induction false} WordLengthOf(w: string, rest: string)
    requires forall k :: 0 <= k < |w| ==> IsWordChar(w[k])
    requires rest == "" || !IsWordChar(rest[0])
    ensures WordLength(w + rest) == |w|
  {
    if w == "" {
      assert w + rest == rest;
    } else {
      assert (w + rest)[1..] == w[1..] + rest;
      WordLengthOf(w[1..], rest);
    }
  }

  lemma {:induction false} RunsOfJoin(words: seq<string>)
    requires AreWords(words)
    ensures Runs(Join(words)) == words
    decreases |words|
  {
    if words != [] {
      var w := words[0];
      assert IsWord(w);
      if |words| == 1 {
        WordLengthOf(w, "");
        assert w + "" == w && w[..|w|] == w && w[|w|..] == "";
        assert words == [w] + [];
      } else {
        var rest := "-" + Join(words[1..]);
        RunsOfJoin(words[1..]);
        assert Join(words) == w + rest;
        WordLengthOf(w, rest);
        assert (w + rest)[..|w|] == w && (w + rest)[|w|..] == rest && rest[1..] == Join(words[1..]);
        assert words == [w] + words[1..];
      }
    }
  }

  /** Two names collide exactly when their lower-cased run sequences are equal. */
  lemma SlugsCollideIffRunsEqual(lower: string -> string, a: string, b: string)
    ensures SlugOf(lower, a) == SlugOf(lower, b) <==> Runs(lower(a)) == Runs(lower(b))
  {
    SlugIsJoinedRuns(lower, a);
    SlugIsJoinedRuns(lower, b);
    RunsAreWords(lower(a));
    RunsAreWords(lower(b));
    RunsOfJoin(Runs(lower(a)));
    RunsOfJoin(Runs(lower(b)));
  }

  /** Lower-casing leaves strings of `[a-z0-9-]` alone. */
  ghost predicate FixesSlugs(lower: string -> string) {
    forall s :: (forall k :: 0 <= k < |s| ==> IsWordChar(s[k]) || s[k] == '-') ==> lower(s) == s
  }

  lemma {:induction false} JoinAlphabet(words: seq<string>)
    requires AreWords(words)
    ensures forall k :: 0 <= k < |Join(words)| ==> IsWordChar(Join(words)[k]) || Join(words)[k] == '-'
  {
    if words != [] {
      assert IsWord(words[0]);
      if |words| > 1 {
        JoinAlphabet(words[1..]);
      }
    }
  }

  /** Slugging a slug changes nothing. */
  lemma SlugIsIdempotent(lower: string -> string, name: string)
    requires FixesSlugs(lower)
    ensures SlugOf(lower, SlugOf(lower, name)) == SlugOf(lower, name)
  {
    var words := Runs(lower(name));
    SlugIsJoinedRuns(lower, name);
    RunsAreWords(lower(name));
    JoinAlphabet(words);
    RunsOfJoin(words);
    SlugIsJoinedRuns(lower, SlugOf(lower, name));
  }
}
