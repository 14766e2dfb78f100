/** packets.c, on lines of any spacing: which part of the line is sent as the text, and which words as handles. */
module ChatLines {
  import opened Bytes
  import opened ChatPackets

  // ----- the text, by spaces alone

  /** front ends right behind a space, or is empty. */
  predicate EndsAtSpace(front: seq<byte>) {
    front == [] || front[|front| - 1] == SPACE
  }

  lemma {:induction false} HasSpace(s: seq<byte>)
    requires s != [] && s[|s| - 1] == SPACE
    ensures Spaces(s) > 0
    decreases |s|
  {
    if |s| > 1 {
      HasSpace(s[1..]);
    }
  }

  lemma {:induction false} SearchStops(s: seq<byte>, pos: nat, end: nat)
    requires pos <= end <= |s| && EndsAtSpace(s[pos..end])
    ensures AfterSpaces(s, pos, Spaces(s[pos..end])) == end
    decreases end - pos
  {
    var front := s[pos..end];
    if pos < end {
      HasSpace(front);
      assert front[1..] == s[pos + 1..end];
      SearchStops(s, pos + 1, end);
    } else {
      assert front == [];
    }
  }

  /**
   * For any line whose announced words are there, however they are spaced: what the server parses is the sender,
   * those words, and as the text what follows the first n spaces of the line, doubled ones counted.
   */
  lemma ParsedTextIs(memory: seq<byte>, line: seq<byte>, sender: seq<byte>, front: seq<byte>, text: seq<byte>)
    requires |memory| == MAXBUF && |line| >= 5 && |sender| <= 0xFF
    requires Handles(line) == front + text && EndsAtSpace(front) && Spaces(front) == NumHandles(line[3])
    requires |Words(Handles(line), 0, Spaces(front))| == Spaces(front)
    requires InReach(sender, Words(Handles(line), 0, Spaces(front)), text)
    ensures ParseMessage(Sent(memory, line, sender))
         == Some(Parsed(sender, Words(Handles(line), 0, Spaces(front)), text))
  {
    hide Words, Prefixed, Spaces, InReach, Composed, ParseMessage, MessagePacket;
    var h, n := Handles(line), Spaces(front);
    assert h[0..|front|] == front;
    SearchStops(h, 0, |front|);
    assert h[AfterSpaces(h, 0, n)..] == text;
    WordsFit(h, 0, n);
    ComposedInReach(memory, sender, n, Words(h, 0, n), text);
    MessageRoundTrip(sender, Words(h, 0, n), text);
  }

  // ----- handles with more than one space in front

  function Blanks(n: nat): (s: seq<byte>)
    ensures |s| == n
  {
    seq(n, _ => SPACE)
  }

  /** Handles with gaps[i] surplus spaces in front of the i-th, each followed by one space, then the text. */
  function Spaced(gaps: seq<nat>, names: seq<seq<byte>>, text: seq<byte>): seq<byte>
    requires |gaps| == |names|
  {
    if names == [] then text else Blanks(gaps[0]) + names[0] + [SPACE] + Spaced(gaps[1..], names[1..], text)
  }

  lemma {:induction false} SkipsBlanks(s: seq<byte>, pos: nat, g: nat)
    requires pos + g < |s| && s[pos..pos + g] == Blanks(g) && s[pos + g] != SPACE
    ensures SkipSpaces(s, pos) == pos + g
    decreases g
  {
    if g > 0 {
      assert s[pos] == s[pos..pos + g][0] == SPACE;
      assert s[pos + 1..pos + g] == s[pos..pos + g][1..] == Blanks(g - 1);
      SkipsBlanks(s, pos + 1, g - 1);
    }
  }

  lemma FirstSpaced(s: seq<byte>, pos: nat, g: nat, h: seq<byte>)
    requires Typable(h) && pos + g + |h| < |s|
    requires s[pos..pos + g] == Blanks(g) && s[pos + g..pos + g + |h|] == h && s[pos + g + |h|] == SPACE
    ensures NextToken(s, pos) == Token(h, pos + g + |h| + 1) && SkipSpaces(s, pos) == pos + g
  {
    hide NextToken, SkipSpaces, WordEnd, Blanks;
    assert s[pos + g] == s[pos + g..pos + g + |h|][0] == h[0] && h[0] in h;
    SkipsBlanks(s, pos, g);
    WordEndOf(s, pos + g, h);
    TokenAt(s, pos, pos + g, pos + g + |h|);
  }

  lemma TokenAt(s: seq<byte>, pos: nat, start: nat, end: nat)
    requires pos <= start < end < |s| && s[end] == SPACE
    requires SkipSpaces(s, pos) == start && WordEnd(s, start) == end
    ensures NextToken(s, pos) == Token(s[start..end], end + 1)
  {
    hide SkipSpaces, WordEnd;
  }

  lemma Parts(s: seq<byte>, pos: nat, b: seq<byte>, h: seq<byte>, tail: seq<byte>)
    requires pos <= |s| && s[pos..] == b + h + [SPACE] + tail
    ensures var at := pos + |b|;
      && at + |h| < |s| && s[pos..at] == b && s[at..at + |h|] == h && s[at + |h|] == SPACE && s[at + |h| + 1..] == tail
  {
    var at := pos + |b|;
    assert s[pos..][..|b|] == b && s[pos..][|b|..|b| + |h|] == h;
    assert s[pos..][|b| + |h|] == SPACE && s[pos..][|b| + |h| + 1..] == tail;
  }

  predicate NoGaps(gaps: seq<nat>) {
    forall i :: 0 <= i < |gaps| ==> gaps[i] == 0
  }

  /** The tokenizer finds the handles through any gaps; single spacing is what NoGaps says. */
  lemma {:induction false} SpacedWords(s: seq<byte>, pos: nat, gaps: seq<nat>, names: seq<seq<byte>>, text: seq<byte>)
    requires |gaps| == |names| && AllTypable(names) && pos <= |s| && s[pos..] == Spaced(gaps, names, text)
    ensures Words(s, pos, |names|) == names && s[AfterWords(s, pos, |names|)..] == text
    ensures Delimited(s, pos, |names|) && (SingleSpaced(s, pos, |names|) <==> NoGaps(gaps))
    decreases |names|
  {
    hide NextToken, SkipSpaces, Typable, Blanks, Words, AfterWords, Delimited, SingleSpaced, NoGaps, Spaced;
    SpacedUnfolds(gaps, names, text);
    if names == [] {
      NoMore(s, pos);
    } else {
      var g, h, tail := gaps[0], names[0], Spaced(gaps[1..], names[1..], text);
      Parts(s, pos, Blanks(g), h, tail);
      FirstSpaced(s, pos, g, h);
      SpacedWords(s, pos + g + |h| + 1, gaps[1..], names[1..], text);
      NextWord(s, pos, |names|);
      GapsCons(gaps);
      assert [h] + names[1..] == names;
    }
  }

  lemma SpacedUnfolds(gaps: seq<nat>, names: seq<seq<byte>>, text: seq<byte>)
    requires |gaps| == |names|
    ensures Spaced(gaps, names, text) ==
            if names == [] then text
            else Blanks(gaps[0]) + names[0] + [SPACE] + Spaced(gaps[1..], names[1..], text)
  {
  }

  lemma NoMore(s: seq<byte>, pos: nat)
    requires pos <= |s|
    ensures Words(s, pos, 0) == [] && AfterWords(s, pos, 0) == pos
    ensures Delimited(s, pos, 0) && SingleSpaced(s, pos, 0) && NoGaps([])
  {
  }

  lemma NextWord(s: seq<byte>, pos: nat, n: nat)
    requires pos <= |s| && n > 0 && NextToken(s, pos).Token?
    ensures var t := NextToken(s, pos);
      && Words(s, pos, n) == [t.word] + Words(s, t.next, n - 1)
      && AfterWords(s, pos, n) == AfterWords(s, t.next, n - 1)
      && (Delimited(s, pos, n) <==> s[t.next - 1] == SPACE && Delimited(s, t.next, n - 1))
      && (SingleSpaced(s, pos, n) <==> SkipSpaces(s, pos) == pos && SingleSpaced(s, t.next, n - 1))
  {
    hide NextToken, SkipSpaces;
  }

  lemma GapsCons(gaps: seq<nat>)
    requires gaps != []
    ensures NoGaps(gaps) <==> gaps[0] == 0 && NoGaps(gaps[1..])
  {
    assert gaps == [gaps[0]] + gaps[1..];
  }

  /**
   * The two ways of finding the text, end to end: through any gaps sender and handles come back, but the text
   * that comes back is the one typed if and only if no space is doubled.
   */
  lemma TextComesBackIff(memory: seq<byte>, line: seq<byte>, sender: seq<byte>, gaps: seq<nat>,
                         names: seq<seq<byte>>, text: seq<byte>)
    requires |memory| == MAXBUF && |line| >= 5 && |sender| <= 0xFF
    requires |gaps| == |names| == NumHandles(line[3]) && AllTypable(names)
    requires Handles(line) == Spaced(gaps, names, text)
    requires Short(names) && 3 + |sender| + |Prefixed(names)| <= 0xFF
    ensures var m := ParseMessage(Sent(memory, line, sender));
      && m.Some? && m.value.sender == sender && m.value.names == names
      && (m.value.text == text <==> NoGaps(gaps))
  {
    hide Words, Prefixed, Composed, ParseMessage, MessagePacket, Spaced, Delimited, SingleSpaced, NoGaps;
    var h, n := Handles(line), |names|;
    SpacedWords(h, 0, gaps, names, text);
    TextIndexAgrees(h, n);
    var found := h[AfterSpaces(h, 0, n)..];
    assert found == text <==> AfterSpaces(h, 0, n) == AfterWords(h, 0, n);
    WordsFit(h, 0, n);
    assert InReach(sender, names, found);
    ComposedInReach(memory, sender, n, names, found);
    MessageRoundTrip(sender, names, found);
  }
}
