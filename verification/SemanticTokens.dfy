/**
 The delta encoding of semantic tokens, and the decoding that LSP 3.17, section
 "Semantic Tokens", prescribes for clients.
 */
module SemanticTokens {
  import opened Wrappers

  /** A lexer token with its place in the legend, if it has one. */
  datatype Token = Token(line: nat, start: nat, endLine: nat, end: nat, legend: Option<nat>)

  datatype Shown = Shown(line: nat, start: nat, length: nat, legend: nat)

  function SaturatingSub(a: nat, b: nat): nat { if a < b then 0 else a - b }

  /** Tokens without a legend entry, over several lines, or without width are skipped. */
  predicate IsShown(t: Token) { t.legend.Some? && t.line == t.endLine && t.start < t.end }

  function Show(t: Token): Shown
    requires IsShown(t)
  {
    Shown(t.line, t.start, t.end - t.start, t.legend.value)
  }

  function AllShown(tokens: seq<Token>): seq<Shown> {
    if tokens == [] then []
    else (if IsShown(tokens[0]) then [Show(tokens[0])] else []) + AllShown(tokens[1..])
  }

  lemma NextShown(tokens: seq<Token>, i: nat)
    requires i < |tokens|
    ensures AllShown(tokens[i..]) ==
            if IsShown(tokens[i]) then [Show(tokens[i])] + AllShown(tokens[i + 1..]) else AllShown(tokens[i + 1..])
  {
    assert tokens[i..][1..] == tokens[i + 1..];
  }

  /* ----- decoding, as the protocol has it ----- */

  function Group(line: nat, start: nat, data: seq<nat>): Shown
    requires |data| >= 5
  {
    Shown(line + data[0], if data[0] == 0 then start + data[1] else data[1], data[2], data[3])
  }

  function Decode(line: nat, start: nat, data: seq<nat>): seq<Shown>
    decreases |data|
  {
    if |data| < 5 then []
    else
      var shown := Group(line, start, data);
      [shown] + Decode(shown.line, shown.start, data[5..])
  }

  /* ----- encoding, as the source has it ----- */

  function EncodeOne(previous: Option<Shown>, t: Shown): seq<nat> {
    var deltaLine := if previous.None? then t.line else SaturatingSub(t.line, previous.value.line);
    var deltaStart := if previous.None? || deltaLine != 0 then t.start
        else SaturatingSub(t.start, previous.value.start);
    [deltaLine, deltaStart, t.length, t.legend, 0]
  }

  function Encode(previous: Option<Shown>, shown: seq<Shown>): seq<nat>
    decreases |shown|
  {
    if shown == [] then [] else EncodeOne(previous, shown[0]) + Encode(Some(shown[0]), shown[1..])
  }

  lemma EncodeNext(previous: Option<Shown>, t: Shown, rest: seq<Shown>)
    ensures Encode(previous, [t] + rest) == EncodeOne(previous, t) + Encode(Some(t), rest)
  {
    assert ([t] + rest)[1..] == rest;
  }

  lemma EncodeNothing(previous: Option<Shown>)
    ensures Encode(previous, AllShown([])) == []
  {
  }

  /** `encode_semantic_tokens`. */
  method EncodeSemanticTokens(tokens: seq<Token>) returns (encoded: seq<nat>)
    ensures encoded == Encode(None, AllShown(tokens))
  {
    hide Encode; hide AllShown;
    encoded := [];
    var previousLine, previousStart, first := 0, 0, true;
    ghost var previous: Option<Shown> := None;
    assert tokens[0..] == tokens && tokens[|tokens|..] == [];
    for i := 0 to |tokens|
      invariant first <==> previous.None?
      invariant !first ==> previousLine == previous.value.line && previousStart == previous.value.start
      invariant encoded + Encode(previous, AllShown(tokens[i..])) == Encode(None, AllShown(tokens))
    {
      var token := tokens[i];
      NextShown(tokens, i);
      if token.legend.None? || token.line != token.endLine { continue; }
      var length := SaturatingSub(token.end, token.start);
      if length == 0 { continue; }
      var deltaLine := if first then token.line else SaturatingSub(token.line, previousLine);
      var deltaStart := if first || deltaLine != 0 then token.start else SaturatingSub(token.start, previousStart);
      ghost var shown := Show(token);
      ghost var one := EncodeOne(previous, shown);
      EncodeNext(previous, shown, AllShown(tokens[i + 1..]));
      assert encoded + (one + Encode(Some(shown), AllShown(tokens[i + 1..])))
          == (encoded + one) + Encode(Some(shown), AllShown(tokens[i + 1..]));
      encoded := encoded + [deltaLine, deltaStart, length, token.legend.value, 0];
      previousLine, previousStart, first, previous := token.line, token.start, false, Some(shown);
    }
    EncodeNothing(previous);
    assert encoded + [] == encoded;
  }

  /* ----- the round trip ----- */

  predicate NotBefore(a: Shown, b: Shown) { a.line < b.line || (a.line == b.line && a.start <= b.start) }

  /** Shown tokens in source order. */
  ghost predicate InOrder(shown: seq<Shown>) {
    forall i: nat | i + 1 < |shown| :: OrderedAt(shown, i)
  }

  lemma DecodeOne(previous: Option<Shown>, t: Shown, rest: seq<nat>)
    ensures var (line, start) := if previous.Some? then (previous.value.line, previous.value.start) else (0, 0);
            var decoded := Decode(line, start, EncodeOne(previous, t) + rest);
            && |decoded| > 0
            && (decoded[0] == t <==> previous.None? || NotBefore(previous.value, t))
            && (decoded[0] == t ==> decoded[1..] == Decode(t.line, t.start, rest))
  {
    var data := EncodeOne(previous, t) + rest;
    assert data[5..] == rest;
  }

  ghost predicate OrderedAt(shown: seq<Shown>, i: nat)
    requires i + 1 < |shown|
  {
    NotBefore(shown[i], shown[i + 1])
  }

  lemma OrderSplit(shown: seq<Shown>)
    requires shown != []
    ensures InOrder(shown) <==> InOrder(shown[1..]) && (|shown| > 1 ==> NotBefore(shown[0], shown[1]))
  {
    var rest := shown[1..];
    forall i: nat | i + 1 < |rest| ensures OrderedAt(rest, i) <==> OrderedAt(shown, i + 1) {}
    if InOrder(shown) {
      assert |shown| > 1 ==> OrderedAt(shown, 0);
      forall i: nat | i + 1 < |rest| ensures OrderedAt(rest, i) { assert OrderedAt(shown, i + 1); }
    }
    if InOrder(rest) && (|shown| > 1 ==> NotBefore(shown[0], shown[1])) {
      forall i: nat | i + 1 < |shown| ensures OrderedAt(shown, i) { if i > 0 { assert OrderedAt(rest, i - 1); } }
    }
  }

  /** Neither subtraction in the group for `t` saturates. */
  predicate ExactGroup(previous: Shown, t: Shown) {
    && previous.line <= t.line
    && (SaturatingSub(t.line, previous.line) == 0 ==> previous.start <= t.start)
  }

  /** No subtraction in the encoding of `shown` saturates. */
  predicate NothingSaturates(previous: Option<Shown>, shown: seq<Shown>)
    decreases |shown|
  {
    shown != [] ==>
      (previous.Some? ==> ExactGroup(previous.value, shown[0])) && NothingSaturates(Some(shown[0]), shown[1..])
  }

  /** The subtractions are exact if and only if the tokens are in source order. */
  lemma {:induction false} OrderedNeverSaturates(previous: Option<Shown>, shown: seq<Shown>)
    ensures NothingSaturates(previous, shown) <==>
              InOrder(shown) && (previous.Some? && shown != [] ==> NotBefore(previous.value, shown[0]))
    decreases |shown|
  {
    if shown != [] {
      OrderedNeverSaturates(Some(shown[0]), shown[1..]);
      OrderSplit(shown);
    }
  }

  /** The client reads back exactly the shown tokens if and only if they are in source order. */
  lemma {:induction false} RoundTrip(previous: Option<Shown>, shown: seq<Shown>)
    ensures var (line, start) := if previous.Some? then (previous.value.line, previous.value.start) else (0, 0);
            Decode(line, start, Encode(previous, shown)) == shown <==>
              InOrder(shown) && (previous.Some? && shown != [] ==> NotBefore(previous.value, shown[0]))
    decreases |shown|
  {
    if shown != [] {
      var t, rest := shown[0], shown[1..];
      DecodeOne(previous, t, Encode(Some(t), rest));
      RoundTrip(Some(t), rest);
      OrderSplit(shown);
    }
  }

  predicate TokenNotBefore(a: Token, b: Token) { a.line < b.line || (a.line == b.line && a.start <= b.start) }

  ghost predicate TokensInOrder(tokens: seq<Token>) {
    forall i, j | 0 <= i < j < |tokens| :: TokenNotBefore(tokens[i], tokens[j])
  }

  lemma {:induction false} ShownFrom(tokens: seq<Token>, k: nat)
    requires k < |AllShown(tokens)|
    ensures exists i :: 0 <= i < |tokens| && IsShown(tokens[i]) && Show(tokens[i]) == AllShown(tokens)[k]
  {
    if IsShown(tokens[0]) && k == 0 {
      assert Show(tokens[0]) == AllShown(tokens)[k];
    } else {
      var k' := if IsShown(tokens[0]) then k - 1 else k;
      ShownFrom(tokens[1..], k');
      var i :| 0 <= i < |tokens[1..]| && IsShown(tokens[1..][i]) && Show(tokens[1..][i]) == AllShown(tokens[1..])[k'];
      assert tokens[i + 1] == tokens[1..][i];
    }
  }

  lemma {:induction false} OrderKept(tokens: seq<Token>)
    requires TokensInOrder(tokens)
    ensures InOrder(AllShown(tokens))
  {
    if tokens != [] {
      OrderKept(tokens[1..]);
      var rest := AllShown(tokens[1..]);
      NextShown(tokens, 0);
      assert tokens[0..] == tokens;
      if IsShown(tokens[0]) {
        var shown := AllShown(tokens);
        assert shown == [Show(tokens[0])] + rest;
        if rest != [] {
          ShownFrom(tokens[1..], 0);
          var i :| 0 <= i < |tokens[1..]| && IsShown(tokens[1..][i]) && Show(tokens[1..][i]) == rest[0];
          assert TokenNotBefore(tokens[0], tokens[i + 1]);
        }
        OrderSplit(shown);
      }
    }
  }

  /** Tokens as the lexer lists them come back whole. */
  lemma SourceTokensRoundTrip(tokens: seq<Token>)
    requires TokensInOrder(tokens)
    ensures Decode(0, 0, Encode(None, AllShown(tokens))) == AllShown(tokens)
  {
    OrderKept(tokens);
    RoundTrip(None, AllShown(tokens));
  }

  lemma {:induction false} FiveEach(previous: Option<Shown>, shown: seq<Shown>)
    ensures |Encode(previous, shown)| == 5 * |shown|
    decreases |shown|
  {
    if shown != [] { FiveEach(Some(shown[0]), shown[1..]); }
  }

  /* ----- which tokens are shown ----- */

  /** Each token is shown or not on its own account, in order. */
  lemma {:induction false} ShownInOrder(a: seq<Token>, b: seq<Token>)
    ensures AllShown(a + b) == AllShown(a) + AllShown(b)
    decreases |a|
  {
    if a == [] {
      assert a + b == b;
    } else {
      assert (a + b)[1..] == a[1..] + b;
      ShownInOrder(a[1..], b);
    }
  }

  /** A token is shown exactly if it has a legend entry, lies on one line and is not empty. */
  lemma ShownAlone(t: Token)
    ensures AllShown([t]) ==
            if t.legend.Some? && t.endLine == t.line && t.end > t.start
            then [Shown(t.line, t.start, t.end - t.start, t.legend.value)] else []
  {
    assert [t][1..] == [];
  }
}
