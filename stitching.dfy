/**
  Assembling the per-segment texts of a long recording into one transcript:
  `"\n\n".join([f"[Segmento {i+1}]\n{trans}" for i, trans in enumerate(transcriptions)])`.
*/
module Stitching {
  import opened Text

  /** The header line of the segment numbered `k` (1-based). */
  function Header(k: nat): string {
    "[Segmento " + NatToString(k) + "]"
  }

  /** Segment `k`'s header followed by its text on the next line. */
  function Block(k: nat, text: string): string {
    Header(k) + "\n" + text
  }

  /** The blocks of the segments in index order, numbered from 1. */
  function Blocks(texts: seq<string>): seq<string> {
    seq(|texts|, i requires 0 <= i < |texts| => Block(i + 1, texts[i]))
  }

  /** The stitched transcript. */
  function Stitch(texts: seq<string>): string {
    Join(Blocks(texts), "\n\n")
  }

  /** Stitching one more segment appends a blank line and that segment's block. */
  lemma StitchAppend(texts: seq<string>, t: string)
    requires texts != []
    ensures Stitch(texts + [t]) == Stitch(texts) + "\n\n" + Block(|texts| + 1, t)
  {
    assert Blocks(texts + [t]) == Blocks(texts) + [Block(|texts| + 1, t)];
    JoinAppend(Blocks(texts), Block(|texts| + 1, t), "\n\n");
  }

  /** A transcript of one segment is that segment's block alone. */
  lemma StitchOne(t: string)
    ensures Stitch([t]) == Block(1, t)
  {
    assert Blocks([t]) == [Block(1, t)];
  }

  /** The transcript of the first `k` segments is a prefix of the whole transcript. */
  lemma {:induction false} StitchPrefix(texts: seq<string>, k: nat)
    requires 1 <= k <= |texts|
    ensures StartsWith(Stitch(texts), Stitch(texts[..k]))
    decreases |texts| - k
  {
    if k == |texts| {
      assert texts[..k] == texts;
    } else {
      StitchPrefix(texts, k + 1);
      assert texts[..k + 1] == texts[..k] + [texts[k]];
      StitchAppend(texts[..k], texts[k]);
      var longer := Stitch(texts[..k + 1]);
      assert Stitch(texts)[..|Stitch(texts[..k])|] == longer[..|Stitch(texts[..k])|];
    }
  }

  /** Where segment `j`'s block starts in the stitched transcript. */
  function BlockOffset(texts: seq<string>, j: nat): nat
    requires j <= |texts|
  {
    if j == 0 then 0 else |Stitch(texts[..j])| + 2
  }

  /**
    The stitched transcript lays the blocks out in index order: segment `j`'s
    block sits at `BlockOffset(texts, j)`, the next block starts after a blank
    line, and the last block ends the transcript.
  */
  lemma StitchLayout(texts: seq<string>, j: nat)
    requires j < |texts|
    ensures var s, b, at := Stitch(texts), Block(j + 1, texts[j]), BlockOffset(texts, j);
      && at + |b| <= |s|
      && s[at..at + |b|] == b
      && (j + 1 < |texts| ==> BlockOffset(texts, j + 1) == at + |b| + 2 <= |s| && s[at + |b|..at + |b| + 2] == "\n\n")
      && (j + 1 == |texts| ==> at + |b| == |s|)
  {
    var s, b, at := Stitch(texts), Block(j + 1, texts[j]), BlockOffset(texts, j);
    var upTo := Stitch(texts[..j + 1]);
    StitchUpTo(texts, j);
    StitchPrefix(texts, j + 1);
    assert s[..|upTo|] == upTo;
    assert s[at..at + |b|] == upTo[at..];
    if j + 1 < |texts| {
      StitchSeparator(texts, j);
      StitchPrefix(texts, j + 2);
      var next := Stitch(texts[..j + 2]);
      assert s[..|next|] == next;
      assert s[at + |b|..at + |b| + 2] == next[|upTo|..|upTo| + 2];
    } else {
      assert texts[..j + 1] == texts;
    }
  }

  /** Segment `j`'s block ends the transcript of the first `j + 1` segments. */
  lemma StitchUpTo(texts: seq<string>, j: nat)
    requires j < |texts|
    ensures var upTo, b, at := Stitch(texts[..j + 1]), Block(j + 1, texts[j]), BlockOffset(texts, j);
      at + |b| == |upTo| && upTo[at..] == b
  {
    if j == 0 {
      assert texts[..1] == [texts[0]];
      StitchOne(texts[0]);
    } else {
      var before, b := Stitch(texts[..j]), Block(j + 1, texts[j]);
      assert texts[..j + 1] == texts[..j] + [texts[j]];
      StitchAppend(texts[..j], texts[j]);
      assert (before + "\n\n" + b)[|before| + 2..] == b;
    }
  }

  /** The transcript of the first `j + 2` segments continues that of the first `j + 1` with a blank line. */
  lemma StitchSeparator(texts: seq<string>, j: nat)
    requires j + 1 < |texts|
    ensures var upTo, next := Stitch(texts[..j + 1]), Stitch(texts[..j + 2]);
      |upTo| + 2 <= |next| && next[..|upTo|] == upTo && next[|upTo|..|upTo| + 2] == "\n\n"
  {
    assert texts[..j + 2] == texts[..j + 1] + [texts[j + 1]];
    StitchAppend(texts[..j + 1], texts[j + 1]);
  }

  /** A stitched transcript of at least one segment opens with the first segment's header. */
  lemma StitchOpensWithFirstHeader(texts: seq<string>)
    requires texts != []
    ensures StartsWith(Stitch(texts), "[Segmento 1]\n")
  {
    StitchPrefix(texts, 1);
    assert texts[..1] == [texts[0]];
    StitchOne(texts[0]);
    assert NatToString(1) == "1";
  }

  lemma BlocksOfThree()
    ensures Block(1, "a") == "[Segmento 1]\na"
    ensures Block(2, "b") == "[Segmento 2]\nb"
    ensures Block(3, "c") == "[Segmento 3]\nc"
  {
    assert NatToString(1) == "1" && NatToString(2) == "2" && NatToString(3) == "3";
  }

  /** Three segments are laid out as three blocks separated by blank lines. */
  lemma StitchThree(a: string, b: string, c: string)
    ensures Stitch([a, b, c]) == Block(1, a) + "\n\n" + Block(2, b) + "\n\n" + Block(3, c)
  {
    StitchOne(a);
    StitchAppend([a], b);
    assert [a] + [b] == [a, b];
    StitchAppend([a, b], c);
    assert [a, b] + [c] == [a, b, c];
  }

  /** The example of three segments "a", "b", "c". */
  lemma StitchThreeExample()
    ensures Stitch(["a", "b", "c"]) == "[Segmento 1]\na\n\n[Segmento 2]\nb\n\n[Segmento 3]\nc"
  {
    StitchThree("a", "b", "c");
    BlocksOfThree();
    var one := "[Segmento 1]\na" + "\n\n" + "[Segmento 2]\nb";
    assert one == "[Segmento 1]\na\n\n[Segmento 2]\nb";
    assert one + "\n\n" + "[Segmento 3]\nc" == "[Segmento 1]\na\n\n[Segmento 2]\nb\n\n[Segmento 3]\nc";
  }
}
