/**
 * The suggestion preview: one text snippet per suggestion, joined into the
 * virtual preview document, and where each snippet starts in it.
 */
module Snippets {
  import opened Protocol

  const Banner := "================= Score: "
  const BannerEnd := " =================\n"

  /**
   * The preview snippet of one suggestion: a banner with its score rendered
   * by `formatScore`, then the diff preview and a line break.
   */
  function Snippet(formatScore: real -> string, s: EditSuggestion): (r: string)
    ensures |r| >= |Banner| + |s.changePreview| + 1
    ensures r[..|Banner|] == Banner
    ensures r[|r| - |s.changePreview| - 1..] == s.changePreview + "\n"
  {
    Banner + formatScore(s.score) + BannerEnd + s.changePreview + "\n"
  }

  /** The snippets of a list of suggestions, in order. */
  function SnippetsOf(formatScore: real -> string, ss: seq<EditSuggestion>): (r: seq<string>)
    ensures |r| == |ss|
    ensures forall i :: 0 <= i < |ss| ==> r[i] == Snippet(formatScore, ss[i])
  {
    seq(|ss|, i requires 0 <= i < |ss| => Snippet(formatScore, ss[i]))
  }

  /** The strings of `parts` concatenated with no separator (`join("")`). */
  function Join(parts: seq<string>): (s: string)
    ensures parts == [] ==> s == []
    ensures |parts| == 1 ==> s == parts[0]
  {
    if parts == [] then [] else Join(parts[..|parts| - 1]) + parts[|parts| - 1]
  }

  /** Joining one more part appends it. */
  lemma JoinStep(parts: seq<string>, i: nat)
    requires i < |parts|
    ensures Join(parts[..i + 1]) == Join(parts[..i]) + parts[i]
  {
    assert parts[..i + 1][..i] == parts[..i];
  }

  lemma {:induction false} JoinAppend(a: seq<string>, b: seq<string>)
    ensures Join(a + b) == Join(a) + Join(b)
    decreases |b|
  {
    if b == [] {
      assert a + b == a;
    } else {
      var b' := b[..|b| - 1];
      assert (a + b)[..|a + b| - 1] == a + b';
      JoinAppend(a, b');
    }
  }

  /**
   * Snippet `i` occupies the joined text from offset |Join(parts[..i])| on:
   * the running sum of the lengths of the snippets before it.
   */
  lemma SnippetAt(parts: seq<string>, i: nat)
    requires i < |parts|
    ensures var start := |Join(parts[..i])|;
      start + |parts[i]| <= |Join(parts)| &&
      Join(parts)[start..start + |parts[i]|] == parts[i]
  {
    assert parts == parts[..i] + [parts[i]] + parts[i + 1..];
    JoinAppend(parts[..i] + [parts[i]], parts[i + 1..]);
    JoinAppend(parts[..i], [parts[i]]);
    assert Join([parts[i]]) == parts[i] by {
      assert [parts[i]][..0] == [];
    }
  }

  /** The start offsets of the snippets never decrease. */
  lemma StartsNondecreasing(parts: seq<string>, i: nat, j: nat)
    requires i <= j <= |parts|
    ensures |Join(parts[..i])| <= |Join(parts[..j])|
  {
    assert parts[..j] == parts[..i] + parts[i..j];
    JoinAppend(parts[..i], parts[i..j]);
  }

  /** Every snippet is non-empty, so the snippets of a preview start at strictly increasing offsets. */
  lemma SnippetStartsIncrease(formatScore: real -> string, ss: seq<EditSuggestion>, i: nat, j: nat)
    requires i < j <= |ss|
    ensures var parts := SnippetsOf(formatScore, ss);
      |Join(parts[..i])| < |Join(parts[..j])|
  {
    var parts := SnippetsOf(formatScore, ss);
    assert parts[..j] == parts[..i] + [parts[i]] + parts[i + 1..j];
    JoinAppend(parts[..i] + [parts[i]], parts[i + 1..j]);
    JoinAppend(parts[..i], [parts[i]]);
    assert Join([parts[i]]) == parts[i] by {
      assert [parts[i]][..0] == [];
    }
  }
}
