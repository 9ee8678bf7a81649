/** The filter graph the merge controller hands to the transcoding engine
    (controller/videoController.js, lines 59-63): for every staged input a
    video chain that scales to 640x360 at 30 fps and an audio chain that
    passes the stream through, then one N-way concat of the normalised pairs
    into the mapped outputs `outv` and `outa`. */
module FilterGraph {
  import opened Strings

  /** The per-input segment of line 60, `[i:v]scale=640:360,fps=30[vi];[i:a]anull[ai]`. */
  function Segment(i: nat): string {
    "[" + NatToString(i) + ":v]scale=640:360,fps=30[v" + NatToString(i) + "];["
      + NatToString(i) + ":a]anull[a" + NatToString(i) + "]"
  }

  /** `movedFiles.map((_, index) => segment)` for `n` staged files. */
  function Segments(n: nat): seq<string> {
    if n == 0 then [] else Segments(n - 1) + [Segment(n - 1)]
  }

  /** The concat input pair of line 61, `[vi][ai]`. */
  function Pair(i: nat): string {
    "[v" + NatToString(i) + "][a" + NatToString(i) + "]"
  }

  function Pairs(n: nat): seq<string> {
    if n == 0 then [] else Pairs(n - 1) + [Pair(n - 1)]
  }

  /** The concat inputs, the pairs joined with the empty separator. */
  function ConcatInputs(n: nat): string {
    Join(Pairs(n), "")
  }

  /** The concat filter of line 62. */
  function ConcatClause(n: nat): string {
    "concat=n=" + NatToString(n) + ":v=1:a=1" + "[outv][outa]"
  }

  /** The output labels mapped by `complexFilter` (line 63). */
  const OutputLabels: seq<string> := ["outv", "outa"]

  /** The whole filter expression built for the staged files, lines 60-62. */
  function FilterExpression(movedFiles: seq<string>): string {
    var n := |movedFiles|;
    Join(Segments(n), ";") + ";" + ConcatInputs(n) + ConcatClause(n)
  }

  /** What `complexFilter` receives: the expression and the mapped outputs. */
  datatype Graph = Graph(filter: string, outputs: seq<string>)

  function BuildGraph(movedFiles: seq<string>): Graph
  {
    Graph(FilterExpression(movedFiles), OutputLabels)
  }

  predicate EndsWith(s: string, t: string) {
    |t| <= |s| && s[|s| - |t|..] == t
  }

  // ----- Reference descriptions of the pieces -------------------------------

  /** Video chain of input `i`, ending in its label `vi`. */
  function VideoChain(i: nat): string {
    "[" + NatToString(i) + ":v]scale=640:360,fps=30" + Link(VideoLabel(i))
  }

  /** Audio chain of input `i`, ending in its label `ai`. */
  function AudioChain(i: nat): string {
    "[" + NatToString(i) + ":a]anull" + Link(AudioLabel(i))
  }

  /** A link label as it is written in a filter graph, `[l]`. */
  function Link(l: string): string { "[" + l + "]" }

  function VideoLabel(i: nat): string { "v" + NatToString(i) }

  function AudioLabel(i: nat): string { "a" + NatToString(i) }

  /** The chains in filter order: video 0, audio 0, video 1, audio 1, ... */
  function Chains(n: nat): seq<string> {
    if n == 0 then [] else Chains(n - 1) + [VideoChain(n - 1), AudioChain(n - 1)]
  }

  /** The labels concat consumes, in order: v0, a0, v1, a1, ... */
  function InputLabels(n: nat): seq<string> {
    if n == 0 then [] else InputLabels(n - 1) + [VideoLabel(n - 1), AudioLabel(n - 1)]
  }

  // ----- Lemmas ---------------------------------------------------------------

  lemma DigitsAvoid(s: string, c: char)
    requires AllDigits(s) && !IsDigit(c)
    ensures c !in s
  {
    forall i | 0 <= i < |s|
      ensures s[i] != c
    {
    }
  }

  lemma {:induction false} ChainsAt(n: nat)
    ensures |Chains(n)| == 2 * n
    ensures forall i :: 0 <= i < n ==> Chains(n)[2 * i] == VideoChain(i) && Chains(n)[2 * i + 1] == AudioChain(i)
  {
    if n > 0 {
      ChainsAt(n - 1);
      var prev := Chains(n - 1);
      assert Chains(n) == prev + [VideoChain(n - 1), AudioChain(n - 1)];
      forall i | 0 <= i < n
        ensures Chains(n)[2 * i] == VideoChain(i) && Chains(n)[2 * i + 1] == AudioChain(i)
      {
        if i < n - 1 {
          assert Chains(n)[2 * i] == prev[2 * i];
          assert Chains(n)[2 * i + 1] == prev[2 * i + 1];
        }
      }
    }
  }

  lemma {:induction false} InputLabelsAt(n: nat)
    ensures |InputLabels(n)| == 2 * n
    ensures forall i :: 0 <= i < n ==> InputLabels(n)[2 * i] == VideoLabel(i) && InputLabels(n)[2 * i + 1] == AudioLabel(i)
  {
    if n > 0 {
      InputLabelsAt(n - 1);
      var prev := InputLabels(n - 1);
      assert InputLabels(n) == prev + [VideoLabel(n - 1), AudioLabel(n - 1)];
      forall i | 0 <= i < n
        ensures InputLabels(n)[2 * i] == VideoLabel(i) && InputLabels(n)[2 * i + 1] == AudioLabel(i)
      {
        if i < n - 1 {
          assert InputLabels(n)[2 * i] == prev[2 * i];
          assert InputLabels(n)[2 * i + 1] == prev[2 * i + 1];
        }
      }
    }
  }

  /** Every segment is a video chain and an audio chain separated by `;`. */
  lemma SegmentIsTwoChains(i: nat)
    ensures Segment(i) == VideoChain(i) + ";" + AudioChain(i)
  {
  }

  /** Joining the segments with `;` is joining the chains with `;`. */
  lemma {:induction false} SegmentsJoinAsChains(n: nat)
    requires n >= 1
    ensures Join(Segments(n), ";") == Join(Chains(n), ";")
  {
    var v, a := VideoChain(n - 1), AudioChain(n - 1);
    SegmentIsTwoChains(n - 1);
    if n == 1 {
      assert Segments(1) == [Segment(0)];
      assert Chains(1) == [v, a];
      assert [v, a][..1] == [v];
    } else {
      SegmentsJoinAsChains(n - 1);
      ChainsAt(n - 1);
      JoinLastSplit(Segments(n - 1), Chains(n - 1), Segment(n - 1), v, a, ";");
    }
  }

  lemma ChainAvoidsSemicolon(i: nat)
    ensures ';' !in VideoChain(i) && ';' !in AudioChain(i)
  {
    DigitsAvoid(NatToString(i), ';');
  }

  lemma ChainsAvoidSemicolon(n: nat)
    ensures forall k :: 0 <= k < |Chains(n)| ==> ';' !in Chains(n)[k]
  {
    ChainsAt(n);
    forall k | 0 <= k < |Chains(n)|
      ensures ';' !in Chains(n)[k]
    {
      var i := k / 2;
      ChainAvoidsSemicolon(i);
      if k % 2 == 0 { assert k == 2 * i; } else { assert k == 2 * i + 1; }
    }
  }

  lemma TailAvoidsSemicolon(n: nat)
    ensures ';' !in ConcatInputs(n) + ConcatClause(n)
  {
    DigitsAvoid(NatToString(n), ';');
    PairsAvoidSemicolon(n);
    JoinAvoids(Pairs(n), "", ';');
  }

  lemma {:induction false} PairsAvoidSemicolon(n: nat)
    ensures forall k :: 0 <= k < |Pairs(n)| ==> ';' !in Pairs(n)[k]
  {
    if n > 0 {
      PairsAvoidSemicolon(n - 1);
      DigitsAvoid(NatToString(n - 1), ';');
    }
  }

  /** Cutting the filter expression at `;` gives the chains of every input in
      input order and, last, the concat inputs followed by the concat clause. */
  lemma FilterPieces(movedFiles: seq<string>)
    ensures Split(FilterExpression(movedFiles), ';')
         == (if |movedFiles| == 0 then [""] else Chains(|movedFiles|))
            + [ConcatInputs(|movedFiles|) + ConcatClause(|movedFiles|)]
  {
    var n := |movedFiles|;
    var tail := ConcatInputs(n) + ConcatClause(n);
    var segs := Join(Segments(n), ";");
    ConcatAssoc(segs, ";", ConcatInputs(n), ConcatClause(n));
    TailAvoidsSemicolon(n);
    if n == 0 {
      SplitAppend(segs, ';', tail);
    } else {
      SegmentsJoinAsChains(n);
      ChainsAt(n);
      ChainsAvoidSemicolon(n);
      SplitJoin(Chains(n), ';');
      SplitAppend(segs, ';', tail);
    }
  }

  /** The filter expression, written with the reference pieces: the chains
      of every input joined with `;`, a `;`, the bracketed concat input
      labels, and the concat clause. */
  lemma FilterExpressionByLabels(movedFiles: seq<string>)
    ensures var n := |movedFiles|;
      FilterExpression(movedFiles)
        == Join(Chains(n), ";") + ";" + Bracketed(InputLabels(n)) + ConcatClause(n)
  {
    var n := |movedFiles|;
    if n >= 1 {
      SegmentsJoinAsChains(n);
    }
    ConcatInputsAreBracketed(n);
  }

  /** For N >= 1 staged files the filter holds exactly N video chains and N
      audio chains, for inputs 0..N-1 in increasing order, then the concat
      inputs and the concat clause for N. */
  lemma FilterLayout(movedFiles: seq<string>)
    requires |movedFiles| >= 1
    ensures var n := |movedFiles|;
            var pieces := Split(FilterExpression(movedFiles), ';');
            && |pieces| == 2 * n + 1
            && (forall i :: 0 <= i < n ==> pieces[2 * i] == VideoChain(i) && pieces[2 * i + 1] == AudioChain(i))
            && pieces[2 * n] == ConcatInputs(n) + ConcatClause(n)
  {
    FilterPieces(movedFiles);
    ChainsAt(|movedFiles|);
  }

  /** The filter expression records the number of staged files and nothing
      else about them: two file lists give the same filter exactly when they
      are equally long. */
  lemma FilterDeterminesCount(a: seq<string>, b: seq<string>)
    ensures FilterExpression(a) == FilterExpression(b) <==> |a| == |b|
  {
    FilterPieces(a);
    FilterPieces(b);
    ChainsAt(|a|);
    ChainsAt(|b|);
  }

  lemma PairIsBracketed(i: nat)
    ensures Pair(i) == Bracketed([VideoLabel(i), AudioLabel(i)])
  {
    var v, a := VideoLabel(i), AudioLabel(i);
    assert [v][..0] == [];
    assert Bracketed([v]) == "" + "[" + v + "]";
    assert [v, a][..1] == [v];
    assert Bracketed([v, a]) == Bracketed([v]) + "[" + a + "]";
  }

  lemma {:induction false} ConcatInputsAreBracketed(n: nat)
    ensures ConcatInputs(n) == Bracketed(InputLabels(n))
  {
    if n > 0 {
      ConcatInputsAreBracketed(n - 1);
      PairIsBracketed(n - 1);
      JoinBracketedStep(Pairs(n - 1), InputLabels(n - 1), Pair(n - 1), VideoLabel(n - 1), AudioLabel(n - 1));
    }
  }

  lemma LabelsAreLabelText(n: nat)
    ensures forall k :: 0 <= k < |InputLabels(n)| ==> LabelText(InputLabels(n)[k])
  {
    InputLabelsAt(n);
    forall k | 0 <= k < |InputLabels(n)|
      ensures LabelText(InputLabels(n)[k])
    {
      DigitsAvoid(NatToString(k / 2), '[');
      DigitsAvoid(NatToString(k / 2), ']');
      assert k == 2 * (k / 2) || k == 2 * (k / 2) + 1;
    }
  }

  /** The concat input list reads back as exactly v0, a0, v1, a1, ... */
  lemma ConcatInputsLabels(n: nat)
    ensures ParseLabels(ConcatInputs(n)) == Some(InputLabels(n))
  {
    ConcatInputsAreBracketed(n);
    LabelsAreLabelText(n);
    ParseBracketed(InputLabels(n));
  }

  lemma PrefixedInjective(c: char, s: string, t: string)
    requires [c] + s == [c] + t
    ensures s == t
  {
    assert s == ([c] + s)[1..];
    assert t == ([c] + t)[1..];
  }

  /** Labels made of one tag character and a decimal index are equal only
      when tag and index are. */
  lemma TaggedInjective(c: char, d: char, i: nat, j: nat)
    requires [c] + NatToString(i) == [d] + NatToString(j)
    ensures c == d && i == j
  {
    var x, y := [c] + NatToString(i), [d] + NatToString(j);
    assert x[0] == c && y[0] == d;
    PrefixedInjective(c, NatToString(i), NatToString(j));
    NatToStringInjective(i, j);
  }

  /** The tag of concat label `p`: `v` at even positions, `a` at odd ones. */
  function Tag(p: nat): char {
    if p % 2 == 0 then 'v' else 'a'
  }

  /** Concat label `p` is the tag of its position and the input `p / 2`. */
  lemma LabelAt(n: nat, p: nat)
    requires p < 2 * n
    ensures |InputLabels(n)| == 2 * n
    ensures InputLabels(n)[p] == [Tag(p)] + NatToString(p / 2)
  {
    InputLabelsAt(n);
    var i := p / 2;
    if p % 2 == 0 { assert p == 2 * i; } else { assert p == 2 * i + 1; }
  }

  /** Two positions with the same half and the same parity are equal. */
  lemma SameHalfAndParity(p: nat, q: nat)
    requires p / 2 == q / 2 && p % 2 == q % 2
    ensures p == q
  {
  }

  /** A concat label determines its position. */
  lemma LabelDeterminesPosition(p: nat, q: nat)
    requires [Tag(p)] + NatToString(p / 2) == [Tag(q)] + NatToString(q / 2)
    ensures p == q
  {
    TaggedInjective(Tag(p), Tag(q), p / 2, q / 2);
    assert p % 2 == q % 2;
    SameHalfAndParity(p, q);
  }

  /** No label is consumed twice: the concat labels are pairwise distinct. */
  lemma InputLabelsDistinct(n: nat)
    ensures forall p, q :: 0 <= p < q < |InputLabels(n)| ==> InputLabels(n)[p] != InputLabels(n)[q]
  {
    InputLabelsAt(n);
    forall p, q | 0 <= p < q < |InputLabels(n)|
      ensures InputLabels(n)[p] != InputLabels(n)[q]
    {
      LabelAt(n, p);
      LabelAt(n, q);
      if InputLabels(n)[p] == InputLabels(n)[q] {
        LabelDeterminesPosition(p, q);
      }
    }
  }

  /** Each chain's output label is the one concat consumes at its position. */
  lemma ChainsFeedConcat(n: nat, i: nat)
    requires i < n
    ensures |InputLabels(n)| == 2 * n
    ensures EndsWith(VideoChain(i), Link(InputLabels(n)[2 * i]))
    ensures EndsWith(AudioChain(i), Link(InputLabels(n)[2 * i + 1]))
  {
    InputLabelsAt(n);
    EndsWithConcat("[" + NatToString(i) + ":v]scale=640:360,fps=30", Link(VideoLabel(i)));
    EndsWithConcat("[" + NatToString(i) + ":a]anull", Link(AudioLabel(i)));
  }

  lemma EndsWithConcat(x: string, y: string)
    ensures EndsWith(x + y, y)
  {
    assert (x + y)[|x|..] == y;
  }

  /** The concat clause states the number of staged files in decimal and maps
      exactly the outputs handed to `complexFilter`. */
  lemma ConcatClauseCount(n: nat)
    ensures ConcatClause(n) == "concat=n=" + NatToString(n) + ":v=1:a=1" + Bracketed(OutputLabels)
    ensures ParseDecimal(NatToString(n)) == n
    ensures ParseLabels(Bracketed(OutputLabels)) == Some(OutputLabels)
  {
    OutputLabelsText();
    DecimalRoundTrip(n);
    ParseBracketed(OutputLabels);
  }

  lemma OutputLabelsText()
    ensures Bracketed(OutputLabels) == "[outv][outa]"
  {
    assert OutputLabels[..1] == ["outv"];
    assert ["outv"][..0] == [];
    assert Bracketed(OutputLabels) == "" + "[" + "outv" + "]" + "[" + "outa" + "]";
  }

  /** The graph handed to `complexFilter` ends in the concat clause for the
      number of staged files, whose last labels are exactly the mapped
      outputs `outv` and `outa`. */
  lemma GraphOutputs(movedFiles: seq<string>)
    ensures BuildGraph(movedFiles).outputs == ["outv", "outa"]
    ensures EndsWith(BuildGraph(movedFiles).filter, ConcatClause(|movedFiles|))
    ensures EndsWith(BuildGraph(movedFiles).filter, Bracketed(BuildGraph(movedFiles).outputs))
  {
    var n := |movedFiles|;
    var head := Join(Segments(n), ";") + ";" + ConcatInputs(n);
    var clause := ConcatClause(n);
    var f := BuildGraph(movedFiles).filter;
    assert f == head + clause;
    assert f[|f| - |clause|..] == clause;
    var out := Bracketed(OutputLabels);
    var front := "concat=n=" + NatToString(n) + ":v=1:a=1";
    ConcatClauseCount(n);
    assert f == (head + front) + out;
    assert f[|f| - |out|..] == out;
  }
}
