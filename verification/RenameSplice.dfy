/**
 The splicing loop of a rename: occurrences are replaced in one pass over the text, and
 the places of the new name are remembered.
 */
module RenameSplice {
  import opened Wrappers
  import opened Orderings

  type Span = (nat, nat)

  /** Replaces each span by the text at its position, reading the source from `cursor` on. */
  function Replace(source: Text, cursor: nat, spans: seq<Span>, texts: seq<Text>): Option<Text>
    requires |spans| == |texts|
    decreases |spans|
  {
    if spans == [] then
      if cursor <= |source| then Some(source[cursor..]) else None
    else if !(cursor <= spans[0].0 <= |source|) then None
    else match Replace(source, spans[0].1, spans[1..], texts[1..])
      case Some(rest) => Some(source[cursor..spans[0].0] + texts[0] + rest)
      case None => None
  }

  /** Where the replacements end up, when `offset` bytes have been written before. */
  function NewSpans(offset: nat, cursor: nat, spans: seq<Span>, texts: seq<Text>): seq<Span>
    requires |spans| == |texts|
    decreases |spans|
  {
    if spans == [] || spans[0].0 < cursor then []
    else
      var start := offset + (spans[0].0 - cursor);
      [(start, start + |texts[0]|)] + NewSpans(start + |texts[0]|, spans[0].1, spans[1..], texts[1..])
  }

  function Repeat(name: Text, count: nat): (r: seq<Text>)
    ensures |r| == count && forall i | 0 <= i < count :: r[i] == name
  {
    seq(count, _ => name)
  }

  datatype SpliceError = OverlappingEdits

  lemma BeforeNothing(rest: Option<Text>)
    ensures Before([], rest) == rest
  {
    if rest.Some? { assert [] + rest.value == rest.value; }
  }

  /** One turn of the loop: a replacement is written and its place noted. */
  lemma SpliceStep(source: Text, cursor: nat, output: Text, ranges: seq<Span>, spans: seq<Span>, texts: seq<Text>)
    requires |spans| == |texts| > 0 && cursor <= spans[0].0 <= |source|
    ensures var more, start := output + source[cursor..spans[0].0], |output| + (spans[0].0 - cursor);
            && Before(output, Replace(source, cursor, spans, texts)) ==
               Before(more + texts[0], Replace(source, spans[0].1, spans[1..], texts[1..]))
            && ranges + NewSpans(|output|, cursor, spans, texts) ==
               (ranges + [(start, |more + texts[0]|)])
               + NewSpans(|more + texts[0]|, spans[0].1, spans[1..], texts[1..])
  {
    var written := source[cursor..spans[0].0] + texts[0];
    BeforeTwice(output, written, Replace(source, spans[0].1, spans[1..], texts[1..]));
    assert output + written == output + source[cursor..spans[0].0] + texts[0];
  }

  lemma SpliceRefused(source: Text, cursor: nat, output: Text, spans: seq<Span>, texts: seq<Text>)
    requires |spans| == |texts| > 0 && !(cursor <= spans[0].0 <= |source|)
    ensures Before(output, Replace(source, cursor, spans, texts)) == None
  {
  }

  lemma SpliceEnd(source: Text, cursor: nat, output: Text, offset: nat)
    ensures Before(output, Replace(source, cursor, [], [])) ==
            if cursor <= |source| then Some(output + source[cursor..]) else None
    ensures NewSpans(offset, cursor, [], []) == []
  {
  }

  /** The loop of `rename` over one document. */
  method Splice(source: Text, occurrences: seq<Span>, newName: Text)
    returns (r: Result<(Text, seq<Span>), SpliceError>)
    ensures r.Success? <==> Replace(source, 0, occurrences, Repeat(newName, |occurrences|)).Some?
    ensures r.Success? ==> Some(r.value.0) == Replace(source, 0, occurrences, Repeat(newName, |occurrences|))
    ensures r.Success? ==> r.value.1 == NewSpans(0, 0, occurrences, Repeat(newName, |occurrences|))
  {
    hide Replace; hide NewSpans; hide Before;
    var output: Text := [];
    var cursor: nat := 0;
    var ranges: seq<Span> := [];
    ghost var names := Repeat(newName, |occurrences|);
    ghost var whole, spans := Replace(source, 0, occurrences, names), NewSpans(0, 0, occurrences, names);
    assert occurrences[0..] == occurrences && names[0..] == names;
    BeforeNothing(whole);
    for i := 0 to |occurrences|
      invariant whole == Before(output, Replace(source, cursor, occurrences[i..], names[i..]))
      invariant spans == ranges + NewSpans(|output|, cursor, occurrences[i..], names[i..])
    {
      var start, end := occurrences[i].0, occurrences[i].1;
      ghost var now, texts := occurrences[i..], names[i..];
      assert now[0] == occurrences[i] && now[1..] == occurrences[i + 1..] && texts[1..] == names[i + 1..];
      if !(cursor <= start <= |source|) {
        SpliceRefused(source, cursor, output, now, texts);
        return Failure(OverlappingEdits);
      }
      SpliceStep(source, cursor, output, ranges, now, texts);
      output := output + source[cursor..start];
      var rewrittenStart := |output|;
      output := output + newName;
      ranges := ranges + [(rewrittenStart, |output|)];
      cursor := end;
    }
    SpliceEnd(source, cursor, output, |output|);
    if cursor > |source| { return Failure(OverlappingEdits); }
    output := output + source[cursor..];
    assert ranges + [] == ranges;
    r := Success((output, ranges));
  }

  function Before(prefix: Text, rest: Option<Text>): Option<Text> {
    match rest case Some(t) => Some(prefix + t) case None => None
  }

  lemma BeforeTwice(a: Text, b: Text, rest: Option<Text>)
    ensures Before(a, Before(b, rest)) == Before(a + b, rest)
  {
    if rest.Some? { assert a + (b + rest.value) == (a + b) + rest.value; }
  }

  /* ----- the text between the occurrences ----- */

  /** Gaps and texts by turns, a gap first and last. */
  function Weave(gaps: seq<Text>, texts: seq<Text>): Text
    requires |gaps| == |texts| + 1
    decreases |texts|
  {
    if texts == [] then gaps[0] else gaps[0] + (texts[0] + Weave(gaps[1..], texts[1..]))
  }

  /** The places of the texts in a weave that starts at `offset`. */
  function Places(offset: nat, gaps: seq<Text>, texts: seq<Text>): seq<Span>
    requires |gaps| == |texts| + 1
    decreases |texts|
  {
    if texts == [] then []
    else
      var start := offset + |gaps[0]|;
      [(start, start + |texts[0]|)] + Places(start + |texts[0]|, gaps[1..], texts[1..])
  }

  lemma {:induction false} PlaceCount(offset: nat, gaps: seq<Text>, texts: seq<Text>)
    requires |gaps| == |texts| + 1
    ensures |Places(offset, gaps, texts)| == |texts|
    decreases |texts|
  {
    if texts != [] { PlaceCount(offset + |gaps[0]| + |texts[0]|, gaps[1..], texts[1..]); }
  }

  lemma WovenOnce(gap: Text, text: Text, gaps: seq<Text>, texts: seq<Text>, offset: nat)
    requires |gaps| == |texts| + 1
    ensures Weave([gap] + gaps, [text] + texts) == gap + (text + Weave(gaps, texts))
    ensures Places(offset, [gap] + gaps, [text] + texts) ==
            [(offset + |gap|, offset + |gap| + |text|)] + Places(offset + |gap| + |text|, gaps, texts)
  {
    assert ([gap] + gaps)[1..] == gaps && ([text] + texts)[1..] == texts;
  }

  /** One place in front of the others. */
  lemma ReplaceOnce(source: Text, cursor: nat, offset: nat, span: Span, text: Text, spans: seq<Span>, texts: seq<Text>)
    requires |spans| == |texts| && cursor <= span.0 <= |source|
    ensures Replace(source, cursor, [span] + spans, [text] + texts) ==
            (match Replace(source, span.1, spans, texts)
             case Some(rest) => Some(source[cursor..span.0] + text + rest)
             case None => None)
    ensures var start := offset + (span.0 - cursor);
            NewSpans(offset, cursor, [span] + spans, [text] + texts) ==
            [(start, start + |text|)] + NewSpans(start + |text|, span.1, spans, texts)
  {
    assert ([span] + spans)[1..] == spans && ([text] + texts)[1..] == texts;
  }

  /** Replacing the texts of a weave keeps its gaps. */
  lemma NextText(before: Text, gap: Text, text: Text, rest: Text)
    ensures before + (gap + (text + rest)) == (before + gap + text) + rest
    ensures (before + (gap + (text + rest)))[|before|..|before| + |gap|] == gap
    ensures gap + (text + rest) == gap + text + rest
  {
  }

  lemma FirstAndRest<T>(s: seq<T>)
    requires s != []
    ensures s == [s[0]] + s[1..]
  {
  }

  lemma WovenAlone(before: Text, gap: Text, offset: nat)
    ensures Weave([gap], []) == gap && Places(offset, [gap], []) == []
    ensures Replace(before + gap, |before|, [], []) == Some(gap) && NewSpans(offset, |before|, [], []) == []
  {
    assert (before + gap)[|before|..] == gap;
  }

  lemma {:induction false} ReplaceWoven(before: Text, gaps: seq<Text>, a: seq<Text>, b: seq<Text>, offset: nat)
    requires |gaps| == |a| + 1 == |b| + 1
    ensures |Places(|before|, gaps, a)| == |b|
    ensures Replace(before + Weave(gaps, a), |before|, Places(|before|, gaps, a), b) == Some(Weave(gaps, b))
    ensures NewSpans(offset, |before|, Places(|before|, gaps, a), b) == Places(offset, gaps, b)
    decreases |a|
  {
    hide *;
    PlaceCount(|before|, gaps, a);
    if a == [] {
      WovenAlone(before, gaps[0], offset);
      WovenAlone(before, gaps[0], |before|);
      assert gaps == [gaps[0]] && b == [];
    } else {
      FirstAndRest(gaps);
      FirstAndRest(a);
      FirstAndRest(b);
      var gap, old_, new_ := gaps[0], a[0], b[0];
      var next := before + gap + old_;
      var later := Places(|next|, gaps[1..], a[1..]);
      WovenOnce(gap, old_, gaps[1..], a[1..], |before|);
      WovenOnce(gap, new_, gaps[1..], b[1..], offset);
      NextText(before, gap, old_, Weave(gaps[1..], a[1..]));
      NextText(before, gap, new_, Weave(gaps[1..], b[1..]));
      ReplaceWoven(next, gaps[1..], a[1..], b[1..], offset + |gap| + |new_|);
      ReplaceOnce(before + Weave(gaps, a), |before|, offset, (|before| + |gap|, |next|), new_, later, b[1..]);
    }
  }

  /** Spans run forward. */
  ghost predicate Forward(spans: seq<Span>) { forall i | 0 <= i < |spans| :: spans[i].0 <= spans[i].1 }

  /** A text that can be spliced is a weave around its spans. */
  lemma {:induction false} Unweave(source: Text, cursor: nat, spans: seq<Span>, texts: seq<Text>)
    returns (gaps: seq<Text>, olds: seq<Text>)
    requires |spans| == |texts| && Forward(spans) && cursor <= |source| && Replace(source, cursor, spans, texts).Some?
    ensures |olds| == |spans| && |gaps| == |olds| + 1
    ensures source[cursor..] == Weave(gaps, olds) && spans == Places(cursor, gaps, olds)
    ensures forall i | 0 <= i < |spans| :: spans[i].1 <= |source| && olds[i] == source[spans[i].0..spans[i].1]
    decreases |spans|
  {
    if spans == [] {
      gaps, olds := [source[cursor..]], [];
      return;
    }
    EndsInside(source, cursor, spans, texts);
    var start, end := spans[0].0, spans[0].1;
    var laterGaps, laterOlds := Unweave(source, end, spans[1..], texts[1..]);
    gaps, olds := [source[cursor..start]] + laterGaps, [source[start..end]] + laterOlds;
    WovenOnce(source[cursor..start], source[start..end], laterGaps, laterOlds, cursor);
    assert source[cursor..] == source[cursor..start] + (source[start..end] + source[end..]);
    assert spans == [spans[0]] + spans[1..];
    hide Weave; hide Places; hide Replace;
    forall i | 0 <= i < |spans| ensures spans[i].1 <= |source| && olds[i] == source[spans[i].0..spans[i].1] {
      if i > 0 { assert spans[i] == spans[1..][i - 1]; }
    }
  }

  /** No two spans overlap, and all lie between `cursor` and the end of the text. */
  ghost predicate Apart(cursor: nat, spans: seq<Span>, length: nat) {
    && cursor <= length
    && (forall i | 0 <= i < |spans| :: cursor <= spans[i].0 && spans[i].1 <= length)
    && (forall i, j | 0 <= i < j < |spans| :: spans[i].1 <= spans[j].0)
  }

  /** The splice fails exactly on overlapping or overlong occurrences. */
  lemma {:induction false} SplicesWhenApart(source: Text, cursor: nat, spans: seq<Span>, texts: seq<Text>)
    requires |spans| == |texts| && Forward(spans)
    ensures Replace(source, cursor, spans, texts).Some? <==> Apart(cursor, spans, |source|)
    decreases |spans|
  {
    if spans != [] {
      var start, end, later := spans[0].0, spans[0].1, spans[1..];
      assert Forward(later) by { assert forall i | 0 <= i < |later| :: later[i] == spans[i + 1]; }
      SplicesWhenApart(source, end, later, texts[1..]);
      assert spans == [spans[0]] + later;
      assert start <= end;
      if Apart(cursor, spans, |source|) {
        forall i | 0 <= i < |later| ensures end <= later[i].0 && later[i].1 <= |source| {
          assert later[i] == spans[i + 1];
        }
        forall i, j | 0 <= i < j < |later| ensures later[i].1 <= later[j].0 {
          assert later[i] == spans[i + 1] && later[j] == spans[j + 1];
        }
      }
    }
  }

  lemma EndsInside(source: Text, cursor: nat, spans: seq<Span>, texts: seq<Text>)
    requires |spans| == |texts| && spans != [] && Forward(spans) && Replace(source, cursor, spans, texts).Some?
    ensures spans[0].1 <= |source| && Forward(spans[1..])
    ensures Replace(source, spans[0].1, spans[1..], texts[1..]).Some?
  {
    assert forall i | 0 <= i < |spans[1..]| :: spans[1..][i] == spans[i + 1];
  }

  /**
   A rename can be undone: putting the old names back at the remembered places of the new
   one gives the source, so nothing between the occurrences changed.
   */
  lemma RenameUndone(source: Text, occurrences: seq<Span>, newName: Text)
    requires Forward(occurrences)
    requires Replace(source, 0, occurrences, Repeat(newName, |occurrences|)).Some?
    ensures var names := Repeat(newName, |occurrences|);
            var output, places := Replace(source, 0, occurrences, names).value, NewSpans(0, 0, occurrences, names);
            && |places| == |occurrences|
            && (forall i | 0 <= i < |occurrences| :: occurrences[i].1 <= |source|)
            && Replace(output, 0, places, Olds(source, occurrences)) == Some(source)
            && forall i | 0 <= i < |places| ::
                places[i].0 <= places[i].1 <= |output| && output[places[i].0..places[i].1] == newName
  {
    var names := Repeat(newName, |occurrences|);
    var gaps, olds := Unweave(source, 0, occurrences, names);
    assert source[0..] == source && olds == Olds(source, occurrences);
    assert [] + Weave(gaps, olds) == Weave(gaps, olds) && [] + Weave(gaps, names) == Weave(gaps, names);
    ReplaceWoven([], gaps, olds, names, 0);
    ReplaceWoven([], gaps, names, olds, 0);
    PlacesHold([], gaps, names);
  }

  /** The old names, where they can be read. */
  function Olds(source: Text, spans: seq<Span>): (r: seq<Text>)
    ensures |r| == |spans|
  {
    seq(|spans|, i requires 0 <= i < |spans| =>
      if spans[i].0 <= spans[i].1 <= |source| then source[spans[i].0..spans[i].1] else [])
  }

  lemma {:induction false} PlacesHold(before: Text, gaps: seq<Text>, texts: seq<Text>)
    requires |gaps| == |texts| + 1
    ensures var places, text := Places(|before|, gaps, texts), before + Weave(gaps, texts);
            |places| == |texts| && forall i | 0 <= i < |places| ::
              places[i].0 <= places[i].1 <= |text| && text[places[i].0..places[i].1] == texts[i]
    decreases |texts|
  {
    if texts != [] {
      var next := before + gaps[0] + texts[0];
      assert before + Weave(gaps, texts) == next + Weave(gaps[1..], texts[1..]);
      PlacesHold(next, gaps[1..], texts[1..]);
    }
  }
}
