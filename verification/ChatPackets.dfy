/** packets.c: a typed %M command line becomes a message packet, and the packet is parsed back. */
module ChatPackets {
  import opened Bytes

  const SPACE: byte := 32
  const NUL: byte := 0
  const PERCENT: byte := 37
  const LETTER_M: byte := 77
  const DIGIT_ZERO: byte := 48
  const MESSAGE_PACKET: byte := 5
  const MAXBUF := 1024

  // ----- strtok_r with a space as the only delimiter

  function SkipSpaces(s: seq<byte>, pos: nat): (r: nat)
    requires pos <= |s|
    ensures pos <= r <= |s|
    decreases |s| - pos
  {
    if pos < |s| && s[pos] == SPACE then SkipSpaces(s, pos + 1) else pos
  }

  function WordEnd(s: seq<byte>, pos: nat): (r: nat)
    requires pos <= |s|
    ensures pos <= r <= |s|
    decreases |s| - pos
  {
    if pos < |s| && s[pos] != SPACE && s[pos] != NUL then WordEnd(s, pos + 1) else pos
  }

  /** The next word and where the search goes on: past the delimiter, or at the terminating NUL. */
  datatype Token = NoToken | Token(word: seq<byte>, next: nat)

  function NextToken(s: seq<byte>, pos: nat): (t: Token)
    requires pos <= |s|
    ensures t.Token? ==> pos < t.next <= |s| && 0 < |t.word| <= t.next - pos
  {
    var start := SkipSpaces(s, pos);
    var end := WordEnd(s, start);
    if end == start then NoToken
    else Token(s[start..end], if end < |s| && s[end] == SPACE then end + 1 else end)
  }

  /** The first n words, or all of them if there are fewer. */
  function Words(s: seq<byte>, pos: nat, n: nat): (ws: seq<seq<byte>>)
    requires pos <= |s|
    ensures |ws| <= n
    ensures |s| <= 0xFF ==> Short(ws)
    decreases n
  {
    var t := NextToken(s, pos);
    if n == 0 || t.NoToken? then [] else [t.word] + Words(s, t.next, n - 1)
  }

  /** Where the search stands after n words. */
  function AfterWords(s: seq<byte>, pos: nat, n: nat): (r: nat)
    requires pos <= |s|
    ensures r <= |s|
    decreases n
  {
    var t := NextToken(s, pos);
    if n == 0 || t.NoToken? then pos else AfterWords(s, t.next, n - 1)
  }

  // ----- getIndexforMessage

  /** The position after the n-th space, or the end of the buffer. */
  function AfterSpaces(s: seq<byte>, pos: nat, n: nat): (r: nat)
    requires pos <= |s|
    ensures pos <= r <= |s|
    decreases |s| - pos
  {
    if n == 0 || pos == |s| then pos
    else AfterSpaces(s, pos + 1, if s[pos] == SPACE then n - 1 else n)
  }

  function Spaces(s: seq<byte>): nat {
    if s == [] then 0 else (if s[0] == SPACE then 1 else 0) + Spaces(s[1..])
  }

  /** Count spaces from the front; the buffer's length is not looked at, so it must hold enough of them. */
  method GetIndexForMessage(buffer: seq<byte>, numHandles: nat) returns (i: nat)
    requires numHandles <= Spaces(buffer)
    ensures i == AfterSpaces(buffer, 0, numHandles)
  {
    i := 0;
    var left: nat := numHandles;
    while left > 0
      invariant i <= |buffer| && left <= Spaces(buffer[i..])
      invariant AfterSpaces(buffer, 0, numHandles) == AfterSpaces(buffer, i, left)
      decreases |buffer| - i
    {
      assert buffer[i..][1..] == buffer[i + 1..];
      if buffer[i] == SPACE {
        left := left - 1;
      }
      i := i + 1;
    }
  }

  // ----- the two ways of finding the text agree

  /** Each of the first n words starts where the one before it left off, and ends at a space. */
  predicate SingleSpaced(s: seq<byte>, pos: nat, n: nat)
    requires pos <= |s|
    decreases n
  {
    n == 0 || (
      var t := NextToken(s, pos);
      t.Token? && SkipSpaces(s, pos) == pos && SingleSpaced(s, t.next, n - 1))
  }

  /** n words are there, each followed by a space. */
  predicate Delimited(s: seq<byte>, pos: nat, n: nat)
    requires pos <= |s|
    decreases n
  {
    n == 0 || (
      var t := NextToken(s, pos);
      t.Token? && s[t.next - 1] == SPACE && Delimited(s, t.next, n - 1))
  }

  lemma {:induction false} SpacesInWord(s: seq<byte>, pos: nat, m: nat)
    requires pos <= |s| && m > 0
    ensures AfterSpaces(s, pos, m) == AfterSpaces(s, WordEnd(s, pos), m)
    decreases |s| - pos
  {
    if pos < |s| && s[pos] != SPACE && s[pos] != NUL {
      SpacesInWord(s, pos + 1, m);
    }
  }

  /** Skipping a space does not change which words follow. */
  lemma SkipOne(s: seq<byte>, pos: nat, n: nat)
    requires pos < |s| && s[pos] == SPACE && n > 0
    ensures NextToken(s, pos) == NextToken(s, pos + 1)
    ensures SkipSpaces(s, pos) > pos
    ensures AfterWords(s, pos, n) == (if NextToken(s, pos).Token? then AfterWords(s, pos + 1, n) else pos)
    ensures Delimited(s, pos, n) == Delimited(s, pos + 1, n)
  {
  }

  /** A word in place is passed, with the space behind it, as one space and as one word. */
  lemma WordStep(s: seq<byte>, pos: nat, n: nat)
    requires pos < |s| && s[pos] != SPACE && n > 0 && Delimited(s, pos, n)
    ensures SkipSpaces(s, pos) == pos
    ensures var t := NextToken(s, pos);
      && t.Token? && Delimited(s, t.next, n - 1)
      && forall m: nat :: m > 0 ==> AfterSpaces(s, pos, m) == AfterSpaces(s, t.next, m - 1)
  {
    var t, end := NextToken(s, pos), WordEnd(s, pos);
    WordStops(s, pos);
    assert s[end] == SPACE && t.next == end + 1;
    forall m: nat | m > 0
      ensures AfterSpaces(s, pos, m) == AfterSpaces(s, t.next, m - 1)
    {
      SpacesInWord(s, pos, m);
    }
  }

  lemma {:induction false} SpacesAgainstWords(s: seq<byte>, pos: nat, m: nat, n: nat)
    requires pos <= |s| && m <= n && Delimited(s, pos, n)
    ensures AfterSpaces(s, pos, m) <= AfterWords(s, pos, n)
    ensures AfterSpaces(s, pos, m) == AfterWords(s, pos, n) <==> m == n && SingleSpaced(s, pos, n)
    decreases |s| - pos
  {
    hide NextToken, SkipSpaces, WordEnd;
    if n > 0 {
      if s[pos] == SPACE {
        SkipOne(s, pos, n);
        SpacesAgainstWords(s, pos + 1, if m > 0 then m - 1 else 0, n);
      } else {
        WordStep(s, pos, n);
        SpacesAgainstWords(s, NextToken(s, pos).next, if m > 0 then m - 1 else 0, n - 1);
      }
    }
  }

  lemma {:induction false} WordStops(s: seq<byte>, pos: nat)
    requires pos <= |s|
    ensures var e := WordEnd(s, pos); e == |s| || s[e] == SPACE || s[e] == NUL
    ensures forall i :: pos <= i < WordEnd(s, pos) ==> s[i] != SPACE && s[i] != NUL
    decreases |s| - pos
  {
    if pos < |s| && s[pos] != SPACE && s[pos] != NUL {
      WordStops(s, pos + 1);
    }
  }

  /** getIndexforMessage finds the end of the n-th word exactly when no space is doubled on the way. */
  lemma TextIndexAgrees(s: seq<byte>, n: nat)
    requires Delimited(s, 0, n)
    ensures AfterSpaces(s, 0, n) == AfterWords(s, 0, n) <==> SingleSpaced(s, 0, n)
  {
    SpacesAgainstWords(s, 0, n, n);
  }

  // ----- the packet

  /** Length-prefixed names, one after the other. */
  function Prefixed(names: seq<seq<byte>>): seq<byte>
    requires Short(names)
  {
    if names == [] then [] else
      Prefixed(names[..|names| - 1]) + [|names[|names| - 1]|] + names[|names| - 1]
  }

  predicate Short(names: seq<seq<byte>>) {
    forall i :: 0 <= i < |names| ==> |names[i]| <= 0xFF
  }

  function Head(sender: seq<byte>, numHandles: byte): seq<byte>
    requires |sender| <= 0xFF
  {
    [MESSAGE_PACKET, |sender|] + sender + [numHandles]
  }

  function MessagePacket(sender: seq<byte>, numHandles: byte, names: seq<seq<byte>>, text: seq<byte>): seq<byte>
    requires |sender| <= 0xFF && Short(names)
  {
    Head(sender, numHandles) + Prefixed(names) + text
  }

  // ----- the words of a line

  function NumHandles(digit: byte): byte {
    (digit - DIGIT_ZERO) % 0x100
  }

  /** One more word at the end of the words found so far. */
  lemma {:induction false} WordsSnoc(s: seq<byte>, pos: nat, k: nat)
    requires pos <= |s| && |Words(s, pos, k)| == k
    ensures var t := NextToken(s, AfterWords(s, pos, k));
      && Words(s, pos, k + 1) == Words(s, pos, k) + (if t.Token? then [t.word] else [])
      && (t.Token? ==> AfterWords(s, pos, k + 1) == t.next)
      && (t.NoToken? ==> forall n :: n >= k ==> Words(s, pos, n) == Words(s, pos, k))
    decreases k
  {
    hide NextToken;
    var u := NextToken(s, pos);
    if k == 0 {
      if u.NoToken? {
        forall n: nat
          ensures Words(s, pos, n) == []
        {
        }
      }
    } else {
      WordsSnoc(s, u.next, k - 1);
      forall n: nat | n >= k && NextToken(s, AfterWords(s, pos, k)).NoToken?
        ensures Words(s, pos, n) == Words(s, pos, k)
      {
        assert Words(s, u.next, n - 1) == Words(s, u.next, k - 1);
      }
    }
  }

  /** The words taken off a line, with their length bytes, are no longer than the line and their number. */
  lemma {:induction false} WordsFit(s: seq<byte>, pos: nat, n: nat)
    requires pos <= |s| <= 0xFF
    ensures |Prefixed(Words(s, pos, n))| <= |s| - pos + n
    decreases n
  {
    hide NextToken;
    var t := NextToken(s, pos);
    if n > 0 && t.Token? {
      WordsFit(s, t.next, n - 1);
      PrefixedCons(t.word, Words(s, t.next, n - 1));
    }
  }

  // ----- the packet buffer, whose index is 8 bits wide

  /** The packet under construction, and the index behind what was written last. */
  datatype Draft = Draft(bytes: seq<byte>, index: byte)

  function Index(n: nat): byte {
    n % 0x100
  }

  /** memcpy on a value. */
  function Put(p: seq<byte>, at: nat, src: seq<byte>): (q: seq<byte>)
    requires at + |src| <= |p|
    ensures |q| == |p|
  {
    p[..at] + src + p[at + |src|..]
  }

  /** Flag, sender and number of handles, put over what the memory held. */
  function Started(memory: seq<byte>, sender: seq<byte>, numHandles: byte): (d: Draft)
    requires |memory| == MAXBUF && |sender| <= 0xFF
    ensures |d.bytes| == MAXBUF
  {
    var at := Index(2 + |sender|);
    Draft(Put(Put(Put(memory, 0, [MESSAGE_PACKET, |sender|]), 2, sender), at, [numHandles]), Index(at + 1))
  }

  /** A length byte and a name, at an index that wraps at 256. */
  function WithName(d: Draft, name: seq<byte>): (e: Draft)
    requires |d.bytes| == MAXBUF && |name| <= 0xFF
    ensures |e.bytes| == MAXBUF
  {
    var at := Index(d.index + 1);
    Draft(Put(Put(d.bytes, d.index, [|name|]), at, name), Index(at + |name|))
  }

  function WithNames(d: Draft, names: seq<seq<byte>>): (e: Draft)
    requires |d.bytes| == MAXBUF && Short(names)
    ensures |e.bytes| == MAXBUF
  {
    if names == [] then d else
      var n := |names| - 1;
      WithName(WithNames(d, names[..n]), names[n])
  }

  /** The length that is counted in a full int, beside the 8-bit index. */
  function PacketLen(sender: seq<byte>, names: seq<seq<byte>>, text: seq<byte>): nat
    requires Short(names)
  {
    3 + |sender| + |Prefixed(names)| + |text|
  }

  /** What is handed to sendPDU, given what the packet's memory held before. */
  function Composed(memory: seq<byte>, sender: seq<byte>, numHandles: byte, names: seq<seq<byte>>,
                    text: seq<byte>): seq<byte>
    requires |memory| == MAXBUF && |sender| <= 0xFF && Short(names) && |text| <= 0xFF
    requires PacketLen(sender, names, text) <= MAXBUF
  {
    var d := WithNames(Started(memory, sender, numHandles), names);
    Put(d.bytes, d.index, text)[..PacketLen(sender, names, text)]
  }

  /** The part of a line behind "%M n ", as far as an 8-bit length counts it. */
  function Handles(line: seq<byte>): (h: seq<byte>)
    requires |line| >= 5
    ensures |h| <= 0xFF
  {
    line[5..5 + (|line| - 5) % 0x100]
  }

  /** The packet for a typed line. */
  function Sent(memory: seq<byte>, line: seq<byte>, sender: seq<byte>): seq<byte>
    requires |memory| == MAXBUF && |line| >= 5 && |sender| <= 0xFF
  {
    var h, n := Handles(line), NumHandles(line[3]);
    WordsFit(h, 0, n);
    Composed(memory, sender, n, Words(h, 0, n), h[AfterSpaces(h, 0, n)..])
  }

  // ----- message_packets

  /** memcpy, told as Put. */
  method Copy(packet: array<byte>, at: nat, src: seq<byte>)
    requires at + |src| <= packet.Length
    modifies packet
    ensures packet[..] == Put(old(packet[..]), at, src)
  {
    Memcpy(packet, at, src);
  }

  /** Flag, sender and number of handles in front. */
  method StartPacket(packet: array<byte>, sender: seq<byte>, numHandles: byte) returns (index: byte)
    requires packet.Length == MAXBUF && |sender| <= 0xFF
    modifies packet
    ensures Draft(packet[..], index) == Started(old(packet[..]), sender, numHandles)
  {
    hide Put;
    Copy(packet, 0, [MESSAGE_PACKET, |sender|]);
    Copy(packet, 2, sender);
    index := Index(2 + |sender|);
    Copy(packet, index, [numHandles]);
    index := Index(index + 1);
  }

  /** Put a length byte and a name at index. */
  method AppendName(packet: array<byte>, index: byte, name: seq<byte>) returns (next: byte)
    requires packet.Length == MAXBUF && |name| <= 0xFF
    modifies packet
    ensures Draft(packet[..], next) == WithName(Draft(old(packet[..]), index), name)
  {
    hide Put;
    Copy(packet, index, [|name|]);
    next := Index(index + 1);
    Copy(packet, next, name);
    next := Index(next + |name|);
  }

  /** One round of the loop below: the i-th word of the line becomes the i-th name. */
  method AddHandle(packet: array<byte>, index: byte, word: seq<byte>, ghost before: Draft,
                   ghost handles: seq<byte>, ghost i: nat)
    returns (next: byte)
    requires packet.Length == MAXBUF == |before.bytes| && |handles| <= 0xFF && |Words(handles, 0, i)| == i
    requires var token := NextToken(handles, AfterWords(handles, 0, i)); token.Token? && token.word == word
    requires Draft(packet[..], index) == WithNames(before, Words(handles, 0, i))
    modifies packet
    ensures Draft(packet[..], next) == WithNames(before, Words(handles, 0, i + 1))
    ensures |Words(handles, 0, i + 1)| == i + 1
    ensures AfterWords(handles, 0, i + 1) == NextToken(handles, AfterWords(handles, 0, i)).next
    ensures |Prefixed(Words(handles, 0, i + 1))| == |Prefixed(Words(handles, 0, i))| + 1 + |word|
  {
    hide NextToken, WithNames, Words, AfterWords, Prefixed, Short;
    OneMore(before, handles, i);
    next := AppendName(packet, index, word);
  }

  /** The strtok_r loop: a length byte and the name for each of the first n words of the line. */
  method AddHandles(packet: array<byte>, start: byte, handles: seq<byte>, n: byte) returns (index: byte, added: nat)
    requires packet.Length == MAXBUF && |handles| <= 0xFF
    modifies packet
    ensures Draft(packet[..], index) == WithNames(Draft(old(packet[..]), start), Words(handles, 0, n))
    ensures added == |Prefixed(Words(handles, 0, n))|
  {
    hide NextToken, WithNames, Words, AfterWords, Prefixed, Short;
    index, added := start, 0;
    var i: nat := 0;
    var rest := 0;
    ghost var before := Draft(packet[..], start);
    NoWords(before, handles);
    var token := NextToken(handles, rest);
    while token.Token? && i < n
      invariant rest == AfterWords(handles, 0, i) && token == NextToken(handles, rest)
      invariant i <= n && |Words(handles, 0, i)| == i
      invariant added == |Prefixed(Words(handles, 0, i))|
      invariant Draft(packet[..], index) == WithNames(before, Words(handles, 0, i))
      decreases |handles| - rest
    {
      index := AddHandle(packet, index, token.word, before, handles, i);
      added := added + 1 + |token.word|;
      i := i + 1;
      rest := token.next;
      token := NextToken(handles, rest);
    }
    if i < n {
      NoMoreWords(handles, i, n);
    }
  }

  lemma NoWords(d: Draft, handles: seq<byte>)
    requires |d.bytes| == MAXBUF
    ensures Words(handles, 0, 0) == [] && AfterWords(handles, 0, 0) == 0
    ensures Short([]) && WithNames(d, []) == d && Prefixed([]) == []
  {
  }

  lemma NoMoreWords(handles: seq<byte>, i: nat, n: nat)
    requires i <= n && |Words(handles, 0, i)| == i && NextToken(handles, AfterWords(handles, 0, i)).NoToken?
    ensures Words(handles, 0, n) == Words(handles, 0, i)
  {
    WordsSnoc(handles, 0, i);
  }

  /** One more word of the line is one more name in the packet. */
  lemma OneMore(d: Draft, handles: seq<byte>, i: nat)
    requires |d.bytes| == MAXBUF && |handles| <= 0xFF
    requires |Words(handles, 0, i)| == i && NextToken(handles, AfterWords(handles, 0, i)).Token?
    ensures var names, more := Words(handles, 0, i), Words(handles, 0, i + 1);
      var token := NextToken(handles, AfterWords(handles, 0, i));
      && |token.word| <= 0xFF && Short(names) && Short(more) && |more| == i + 1
      && AfterWords(handles, 0, i + 1) == token.next
      && WithNames(d, more) == WithName(WithNames(d, names), token.word)
      && |Prefixed(more)| == |Prefixed(names)| + 1 + |token.word|
  {
    hide NextToken, WithName;
    WordsSnoc(handles, 0, i);
    var names, token := Words(handles, 0, i), NextToken(handles, AfterWords(handles, 0, i));
    assert (names + [token.word])[..|names|] == names;
  }

  /**
   * Build the packet for a "%M" line typed by `sender`; returns what is handed to sendPDU. `memory` is what the
   * stack held. The line has to hold as many spaces as handles are announced.
   */
  method MessagePackets(memory: seq<byte>, line: seq<byte>, sender: seq<byte>) returns (sent: seq<byte>)
    requires |memory| == MAXBUF && |line| >= 5 && |sender| <= 0xFF
    requires NumHandles(line[3]) <= Spaces(Handles(line))
    ensures sent == Sent(memory, line, sender)
  {
    hide Words, AfterWords, Prefixed, AfterSpaces, Spaces, WithNames, Started, Put;
    var packet := new byte[MAXBUF](i requires 0 <= i < MAXBUF => memory[i]);
    assert packet[..] == memory;
    var numHandles := NumHandles(line[3]);
    var handles := Handles(line);
    var index := StartPacket(packet, sender, numHandles);
    var packetLen := 2 + |sender| + 1;
    var added;
    index, added := AddHandles(packet, index, handles, numHandles);
    packetLen := packetLen + added;
    var txtIndex := GetIndexForMessage(handles, numHandles);
    var text := handles[txtIndex..];
    Copy(packet, index, text);
    packetLen := packetLen + |text|;
    WordsFit(handles, 0, numHandles);
    sent := packet[..packetLen];
  }

  // ----- recieve_packet_five

  datatype Parsed = Parsed(sender: seq<byte>, names: seq<seq<byte>>, text: seq<byte>)

  /** Take n length-prefixed names off the front. */
  function ParseNames(p: seq<byte>, n: nat): Option<(seq<seq<byte>>, seq<byte>)> {
    if n == 0 then Some(([], p))
    else if p == [] then None
    else
      var len: nat := p[0];
      if 1 + len > |p| then None
      else
        match ParseNames(p[1 + len..], n - 1)
        case None => None
        case Some(rest) => Some(([p[1..1 + len]] + rest.0, rest.1))
  }

  function ParseMessage(p: seq<byte>): Option<Parsed> {
    if |p| < 2 then None
    else
      var len: nat := p[1];
      if |p| < 3 + len then None
      else
        match ParseNames(p[3 + len..], p[2 + len])
        case None => None
        case Some(rest) => Some(Parsed(p[2..2 + len], rest.0, rest.1))
  }

  /** The loop that reads length-prefixed names from index start on. */
  method ReceiveNames(packet: seq<byte>, start: nat, numHandles: byte) returns (names: seq<seq<byte>>, index: nat)
    requires start <= |packet| && ParseNames(packet[start..], numHandles).Some?
    ensures start <= index <= |packet|
    ensures ParseNames(packet[start..], numHandles) == Some((names, packet[index..]))
  {
    hide ParseNames, Joined;
    ghost var goal := ParseNames(packet[start..], numHandles);
    names, index := [], start;
    NoneJoined(goal);
    var num: nat := numHandles;
    while num > 0
      invariant start <= index <= |packet|
      invariant goal == Joined(names, ParseNames(packet[index..], num))
    {
      ParseStep(packet, index, num, names);
      var len: nat := packet[index];
      index := index + 1;
      names := names + [packet[index..index + len]];
      index := index + len;
      num := num - 1;
    }
    ParseEnd(packet[index..], names);
  }

  /** Parse a received message packet whose lengths stay within it. */
  method ReceivePacketFive(packet: seq<byte>) returns (m: Parsed)
    requires ParseMessage(packet).Some?
    ensures Some(m) == ParseMessage(packet)
  {
    ParseUnfold(packet);
    hide ParseNames, ParseMessage;
    var senderLen: nat := packet[1];
    var sender := packet[2..2 + senderLen];
    var numHandles := packet[2 + senderLen];
    var names, index := ReceiveNames(packet, 3 + senderLen, numHandles);
    m := Parsed(sender, names, packet[index..]);
  }

  lemma ParseUnfold(p: seq<byte>)
    requires ParseMessage(p).Some?
    ensures |p| >= 2 && |p| >= 3 + p[1] as int
    ensures var len: nat := p[1];
      var rest := ParseNames(p[3 + len..], p[2 + len]);
      rest.Some? && ParseMessage(p) == Some(Parsed(p[2..2 + len], rest.value.0, rest.value.1))
  {
  }

  /** The result of parsing, given names already taken and the result for the rest. */
  function Joined(names: seq<seq<byte>>, rest: Option<(seq<seq<byte>>, seq<byte>)>): Option<(seq<seq<byte>>,
                  seq<byte>)> {
    match rest
    case None => None
    case Some(r) => Some((names + r.0, r.1))
  }

  lemma NoneJoined(rest: Option<(seq<seq<byte>>, seq<byte>)>)
    ensures Joined([], rest) == rest
  {
    if rest.Some? {
      assert [] + rest.value.0 == rest.value.0;
    }
  }

  lemma ParseEnd(q: seq<byte>, names: seq<seq<byte>>)
    ensures Joined(names, ParseNames(q, 0)) == Some((names, q))
  {
    assert names + [] == names;
  }

  lemma ParseStep(p: seq<byte>, index: nat, num: nat, names: seq<seq<byte>>)
    requires index <= |p| && num > 0 && Joined(names, ParseNames(p[index..], num)).Some?
    ensures index < |p| && index + 1 + p[index] as int <= |p|
    ensures var next := index + 1 + p[index] as int;
      Joined(names, ParseNames(p[index..], num))
      == Joined(names + [p[index + 1..next]], ParseNames(p[next..], num - 1))
  {
    var q := p[index..];
    assert q[0] == p[index];
    var len: nat := p[index];
    var next := index + 1 + len;
    var w, rest := q[1..1 + len], ParseNames(q[1 + len..], num - 1).value;
    assert ParseNames(q, num) == Some(([w] + rest.0, rest.1));
    hide ParseNames;
    assert w == p[index + 1..next] && q[1 + len..] == p[next..];
    assert names + ([w] + rest.0) == names + [w] + rest.0;
  }

  // ----- round trip

  lemma {:induction false} PrefixedCons(w: seq<byte>, names: seq<seq<byte>>)
    requires |w| <= 0xFF && Short(names)
    ensures Short([w] + names)
    ensures Prefixed([w] + names) == [|w|] + w + Prefixed(names)
    decreases |names|
  {
    if names == [] {
      assert ([w] + names)[..0] == [];
    } else {
      var n := |names| - 1;
      PrefixedCons(w, names[..n]);
      assert ([w] + names)[..n + 1] == [w] + names[..n];
    }
  }

  lemma {:induction false} NamesRoundTrip(names: seq<seq<byte>>, text: seq<byte>)
    requires Short(names)
    ensures ParseNames(Prefixed(names) + text, |names|) == Some((names, text))
    decreases |names|
  {
    if names == [] {
      assert Prefixed(names) + text == text;
    } else {
      var w, rest := names[0], names[1..];
      assert names == [w] + rest;
      PrefixedCons(w, rest);
      NamesRoundTrip(rest, text);
      hide Prefixed;
      Joins([|w|] + w, Prefixed(rest), text);
    }
  }

  /** Parsing what was built gives back sender, handles in order, and text. */
  lemma MessageRoundTrip(sender: seq<byte>, names: seq<seq<byte>>, text: seq<byte>)
    requires |sender| <= 0xFF && |names| <= 0xFF && Short(names)
    ensures ParseMessage(MessagePacket(sender, |names|, names, text)) == Some(Parsed(sender, names, text))
  {
    var p := MessagePacket(sender, |names|, names, text);
    assert p[1] == |sender| && p[2 + |sender|] == |names|;
    assert p[2..2 + |sender|] == sender;
    assert p[3 + |sender|..] == Prefixed(names) + text;
    NamesRoundTrip(names, text);
  }

  /** A handle as it can be typed: not empty, without space or NUL. */
  predicate Typable(h: seq<byte>) {
    h != [] && SPACE !in h && NUL !in h
  }

  predicate AllTypable(names: seq<seq<byte>>) {
    forall i :: 0 <= i < |names| ==> Typable(names[i])
  }

  /** The line behind "%M n ": every handle followed by one space, then the text. */
  function Typed(names: seq<seq<byte>>, text: seq<byte>): seq<byte> {
    if names == [] then text else names[0] + [SPACE] + Typed(names[1..], text)
  }

  lemma {:induction false} WordEndOf(s: seq<byte>, pos: nat, h: seq<byte>)
    requires pos + |h| < |s| && s[pos..pos + |h|] == h && s[pos + |h|] == SPACE
    requires SPACE !in h && NUL !in h
    ensures WordEnd(s, pos) == pos + |h|
    decreases |h|
  {
    if h != [] {
      assert s[pos] == h[0];
      assert s[pos + 1..pos + |h|] == s[pos..pos + |h|][1..] == h[1..];
      WordEndOf(s, pos + 1, h[1..]);
    }
  }

  lemma FirstToken(prefix: seq<byte>, h: seq<byte>, tail: seq<byte>)
    requires Typable(h)
    ensures NextToken(prefix + h + [SPACE] + tail, |prefix|) == Token(h, |prefix| + |h| + 1)
    ensures SkipSpaces(prefix + h + [SPACE] + tail, |prefix|) == |prefix|
  {
    var s, pos := prefix + h + [SPACE] + tail, |prefix|;
    assert s[pos] == h[0] && h[0] in h;
    assert s[pos..pos + |h|] == h && s[pos + |h|] == SPACE;
    WordEndOf(s, pos, h);
  }

  lemma Reassociate(prefix: seq<byte>, h: seq<byte>, tail: seq<byte>)
    ensures prefix + (h + [SPACE] + tail) == prefix + h + [SPACE] + tail
  {
  }

  /** The tokenizer takes a typed line apart, and the text starts where it stops. */
  lemma {:induction false} TypedWords(prefix: seq<byte>, names: seq<seq<byte>>, text: seq<byte>)
    requires AllTypable(names)
    ensures var s, pos, n := prefix + Typed(names, text), |prefix|, |names|;
      && Words(s, pos, n) == names
      && s[AfterWords(s, pos, n)..] == text
      && SingleSpaced(s, pos, n) && Delimited(s, pos, n)
    decreases |names|
  {
    hide NextToken, SkipSpaces, Typable;
    var s, pos := prefix + Typed(names, text), |prefix|;
    if names != [] {
      var h, rest := names[0], names[1..];
      var next := prefix + h + [SPACE];
      Reassociate(prefix, h, Typed(rest, text));
      FirstToken(prefix, h, Typed(rest, text));
      TypedWords(next, rest, text);
      assert [h] + rest == names;
    }
  }

  // ----- what the 8-bit index does to the packet

  /** Where the last write that puts anything begins. */
  function LastWriteAt(sender: seq<byte>, names: seq<seq<byte>>, text: seq<byte>): int
    requires Short(names)
  {
    var textAt := PacketLen(sender, names, []);
    if text != [] then textAt
    else if names != [] then textAt - |names[|names| - 1]|
    else textAt - 1
  }

  predicate InReach(sender: seq<byte>, names: seq<seq<byte>>, text: seq<byte>)
    requires Short(names)
  {
    LastWriteAt(sender, names, text) <= 0xFF
  }

  lemma NameInReach(d: Draft, content: seq<byte>, w: seq<byte>)
    requires |d.bytes| == MAXBUF && |w| <= 0xFF
    requires d.index == |content| <= 0xFE && d.bytes[..|content|] == content
    ensures var e, more := WithName(d, w), content + [|w|] + w;
      |more| <= MAXBUF && e.bytes[..|more|] == more && e.index == Index(|more|)
  {
    var p := Put(d.bytes, d.index, [|w|]);
    assert p[..|content| + 1] == content + [|w|];
  }

  /** While the last name begins in reach, the names follow one another behind the content. */
  lemma {:induction false} NamesInReach(d: Draft, content: seq<byte>, names: seq<seq<byte>>)
    requires |d.bytes| == MAXBUF && Short(names)
    requires |content| <= MAXBUF && d.index == Index(|content|) && d.bytes[..|content|] == content
    requires names != [] ==> |content + Prefixed(names)| - |names[|names| - 1]| <= 0xFF
    ensures var e, more := WithNames(d, names), content + Prefixed(names);
      |more| <= MAXBUF && e.bytes[..|more|] == more && e.index == Index(|more|)
    decreases |names|
  {
    hide WithName, Prefixed;
    PrefixedLast(content, names);
    if names != [] {
      var n := |names| - 1;
      NamesInReach(d, content, names[..n]);
      NameInReach(WithNames(d, names[..n]), content + Prefixed(names[..n]), names[n]);
    }
  }

  lemma PrefixedLast(content: seq<byte>, names: seq<seq<byte>>)
    requires Short(names)
    ensures content + Prefixed(names) ==
            if names == [] then content
            else
              var n := |names| - 1;
              content + Prefixed(names[..n]) + [|names[n]|] + names[n]
  {
  }

  lemma PutLeaves(p: seq<byte>, at: nat, src: seq<byte>, k: nat)
    requires at + |src| <= |p| && k < |p| && !(at <= k < at + |src|)
    ensures Put(p, at, src)[k] == p[k]
  {
  }

  lemma IndexStep(start: nat, n: nat)
    ensures Index(Index(start) + n) == Index(start + n) && Index(start) <= start
  {
  }

  lemma IndexWraps(start: nat)
    ensures 0xFF <= start ==> Index(start + 1) + 0x100 <= start + 1 && Index(start) <= 0xFF
  {
  }

  /** A name is put behind its true start or, once the index has wrapped, below it. */
  lemma NameLeaves(d: Draft, start: nat, w: seq<byte>, k: nat)
    requires |d.bytes| == MAXBUF && |w| <= 0xFF && d.index == Index(start) && k < MAXBUF
    requires start + 1 + |w| <= k || (0xFF <= start && w != [] && k == start + |w|)
    ensures WithName(d, w).bytes[k] == d.bytes[k] && WithName(d, w).index == Index(start + 1 + |w|)
  {
    hide Put, Index;
    var at := Index(d.index + 1);
    IndexStep(start, 1);
    IndexStep(start + 1, |w|);
    IndexWraps(start);
    PutLeaves(d.bytes, d.index, [|w|], k);
    PutLeaves(Put(d.bytes, d.index, [|w|]), at, w, k);
  }

  /** Writing names never touches what lies behind their true end. */
  lemma {:induction false} NamesLeave(d: Draft, start: nat, names: seq<seq<byte>>, k: nat)
    requires |d.bytes| == MAXBUF && Short(names) && d.index == Index(start)
    requires start + |Prefixed(names)| <= k < MAXBUF
    ensures WithNames(d, names).bytes[k] == d.bytes[k]
    ensures WithNames(d, names).index == Index(start + |Prefixed(names)|)
    decreases |names|
  {
    hide WithName, Index;
    if names != [] {
      var n := |names| - 1;
      NamesLeave(d, start, names[..n], k);
      NameLeaves(WithNames(d, names[..n]), start + |Prefixed(names[..n])|, names[n], k);
    }
  }

  lemma StartInReach(memory: seq<byte>, sender: seq<byte>, numHandles: byte)
    requires |memory| == MAXBUF && 2 + |sender| <= 0xFF
    ensures var d := Started(memory, sender, numHandles);
      d.bytes[..3 + |sender|] == Head(sender, numHandles) && d.index == Index(3 + |sender|)
  {
    var p := Put(memory, 0, [MESSAGE_PACKET, |sender|]);
    assert p[..2] == [MESSAGE_PACKET, |sender|];
    assert Put(p, 2, sender)[..2 + |sender|] == [MESSAGE_PACKET, |sender|] + sender;
  }

  lemma DraftInReach(memory: seq<byte>, sender: seq<byte>, numHandles: byte, names: seq<seq<byte>>)
    requires |memory| == MAXBUF && |sender| <= 0xFF && Short(names) && InReach(sender, names, [])
    ensures var d, at := WithNames(Started(memory, sender, numHandles), names), PacketLen(sender, names, []);
      at <= MAXBUF && d.bytes[..at] == Head(sender, numHandles) + Prefixed(names) && d.index == Index(at)
  {
    hide Started, WithNames;
    StartInReach(memory, sender, numHandles);
    NamesInReach(Started(memory, sender, numHandles), Head(sender, numHandles), names);
  }

  /** While the last write begins in reach, the packet is the one the format describes. */
  lemma ComposedInReach(memory: seq<byte>, sender: seq<byte>, numHandles: byte, names: seq<seq<byte>>, text: seq<byte>)
    requires |memory| == MAXBUF && |sender| <= 0xFF && Short(names) && |text| <= 0xFF && InReach(sender, names, text)
    requires PacketLen(sender, names, text) <= MAXBUF
    ensures Composed(memory, sender, numHandles, names, text) == MessagePacket(sender, numHandles, names, text)
  {
    hide Started, WithNames, Prefixed;
    DraftInReach(memory, sender, numHandles, names);
  }

  /** Otherwise the last byte of what is sent was never written. */
  lemma LastByteUnwritten(memory: seq<byte>, sender: seq<byte>, numHandles: byte, names: seq<seq<byte>>,
                          text: seq<byte>)
    requires |memory| == MAXBUF && |sender| <= 0xFF && Short(names) && |text| <= 0xFF && !InReach(sender, names, text)
    requires names != [] ==> names[|names| - 1] != []
    requires PacketLen(sender, names, text) <= MAXBUF
    ensures var last := PacketLen(sender, names, text) - 1;
      Composed(memory, sender, numHandles, names, text)[last] == memory[last]
  {
    hide Started, WithName, Index, Put;
    var d, k := Started(memory, sender, numHandles), PacketLen(sender, names, text) - 1;
    var e := WithNames(d, names);
    StartLeaves(memory, sender, numHandles, k);
    if text != [] {
      NamesLeave(d, 3 + |sender|, names, k);
    } else if names != [] {
      var n := |names| - 1;
      NamesLeave(d, 3 + |sender|, names[..n], k);
      NameLeaves(WithNames(d, names[..n]), k - |names[n]|, names[n], k);
    }
    PutLeaves(e.bytes, e.index, text, k);
  }

  lemma StartLeaves(memory: seq<byte>, sender: seq<byte>, numHandles: byte, k: nat)
    requires |memory| == MAXBUF && |sender| <= 0xFF && 2 + |sender| <= k < MAXBUF && 0xFF < k
    ensures Started(memory, sender, numHandles).bytes[k] == memory[k]
    ensures Started(memory, sender, numHandles).index == Index(3 + |sender|)
  {
  }

  // ----- what the parser makes of it

  lemma {:induction false} ParsedNames(q: seq<byte>, n: nat, names: seq<seq<byte>>, text: seq<byte>)
    requires ParseNames(q, n) == Some((names, text))
    ensures |names| == n && Short(names) && q == Prefixed(names) + text
    decreases n
  {
    hide Prefixed;
    if n > 0 {
      var len: nat := q[0];
      var w, tail := q[1..1 + len], q[1 + len..];
      var rest := ParseNames(tail, n - 1).value;
      ParsedNames(tail, n - 1, rest.0, rest.1);
      PrefixedCons(w, rest.0);
      assert q == [|w|] + w + tail;
      Joins([|w|] + w, Prefixed(rest.0), text);
    } else {
      NoNames();
    }
  }

  lemma Joins(a: seq<byte>, b: seq<byte>, c: seq<byte>)
    ensures a + (b + c) == a + b + c
  {
  }

  lemma NoNames()
    ensures Prefixed([]) == []
  {
  }

  /** Only the format's own packet parses to these parts; its first byte, the flag, is not looked at. */
  lemma ParsedIsPacket(p: seq<byte>, m: Parsed)
    requires ParseMessage(p) == Some(m)
    ensures |m.sender| <= 0xFF && |m.names| <= 0xFF && Short(m.names)
    ensures p[1..] == MessagePacket(m.sender, |m.names|, m.names, m.text)[1..]
  {
    hide ParseNames, Prefixed;
    var len: nat := p[1];
    ParsedNames(p[3 + len..], p[2 + len], m.names, m.text);
    assert p[1..] == [p[1]] + p[2..2 + len] + [p[2 + len]] + p[3 + len..];
  }

  // ----- from the typed line to the parsed packet

  /** "%M n " and the rest of the line. */
  function Line(names: seq<seq<byte>>, text: seq<byte>): seq<byte> {
    [PERCENT, LETTER_M, SPACE, (DIGIT_ZERO + |names|) % 0x100, SPACE] + Typed(names, text)
  }

  /** The tokenizer and the space search take the part behind "%M n " apart as it was typed. */
  lemma TakesApart(names: seq<seq<byte>>, text: seq<byte>)
    requires AllTypable(names) && |Typed(names, text)| <= 0xFF
    ensures var h, n := Typed(names, text), |names|;
      Words(h, 0, n) == names && Short(names) && h[AfterSpaces(h, 0, n)..] == text
  {
    hide Words, SingleSpaced, Delimited, Typed;
    var h := Typed(names, text);
    TypedWords([], names, text);
    assert [] + h == h;
    TextIndexAgrees(h, |names|);
  }

  lemma SentIsComposed(memory: seq<byte>, line: seq<byte>, sender: seq<byte>, names: seq<seq<byte>>, text: seq<byte>)
    requires |memory| == MAXBUF && |line| >= 5 && |sender| <= 0xFF && |names| <= 0xFF && AllTypable(names)
    requires Handles(line) == Typed(names, text) && NumHandles(line[3]) == |names|
    ensures Short(names) && |text| <= 0xFF && PacketLen(sender, names, text) <= MAXBUF
    ensures Sent(memory, line, sender) == Composed(memory, sender, |names|, names, text)
  {
    hide Words, Typed, Composed, Prefixed;
    TakesApart(names, text);
    WordsFit(Handles(line), 0, |names|);
  }

  lemma {:induction false} SpacesAdd(a: seq<byte>, b: seq<byte>)
    ensures Spaces(a + b) == Spaces(a) + Spaces(b)
    decreases |a|
  {
    if a == [] {
      assert a + b == b;
    } else {
      SpacesAdd(a[1..], b);
      assert (a + b)[1..] == a[1..] + b;
    }
  }

  lemma {:induction false} NoSpaces(h: seq<byte>)
    requires SPACE !in h
    ensures Spaces(h) == 0
    decreases |h|
  {
    if h != [] {
      NoSpaces(h[1..]);
    }
  }

  /** A typed line holds enough spaces, and a cut that leaves enough of them cuts nothing but text. */
  lemma {:induction false} CutTyped(names: seq<seq<byte>>, text: seq<byte>, m: nat)
    requires AllTypable(names) && m <= |Typed(names, text)|
    ensures |Typed(names, text)| == |Typed(names, [])| + |text| && |names| <= Spaces(Typed(names, text))
    ensures |names| <= Spaces(Typed(names, text)[..m]) ==>
              m >= |Typed(names, [])| && Typed(names, text)[..m] == Typed(names, text[..m - |Typed(names, [])|])
    decreases |names|
  {
    hide Spaces;
    var s := Typed(names, text);
    if names != [] {
      var h, rest := names[0], names[1..];
      var tail := Typed(rest, text);
      assert Typable(h);
      NoSpaces(h);
      SpacesAdd(h + [SPACE], tail);
      SpacesAdd(h, [SPACE]);
      OneSpace();
      if m <= |h| {
        assert s[..m] == h[..m];
        NoSpaces(h[..m]);
        CutTyped(rest, text, 0);
      } else {
        var k := m - |h| - 1;
        assert s[..m] == h + [SPACE] + tail[..k];
        SpacesAdd(h + [SPACE], tail[..k]);
        CutTyped(rest, text, k);
      }
    }
  }

  /** If the text was cut, or the last write begins out of reach, some memory shows through. */
  lemma LosesOnSome(sender: seq<byte>, names: seq<seq<byte>>, kept: seq<byte>, text: seq<byte>)
    returns (memory: seq<byte>)
    requires |sender| <= 0xFF && |names| <= 0xFF && AllTypable(names) && Short(names) && |kept| <= 0xFF
    requires PacketLen(sender, names, kept) <= MAXBUF
    requires |kept| < |text| || (kept == text && !InReach(sender, names, text))
    ensures |memory| == MAXBUF
    ensures ParseMessage(Composed(memory, sender, |names|, names, kept)) != Some(Parsed(sender, names, text))
  {
    hide WithNames, Started, Prefixed, ParseMessage;
    var p := MessagePacket(sender, |names|, names, text);
    var last := PacketLen(sender, names, kept) - 1;
    var other: byte := 0xFF - p[last];
    memory := seq(MAXBUF, _ => other);
    var sent := Composed(memory, sender, |names|, names, kept);
    if |kept| == |text| {
      LastByteUnwritten(memory, sender, |names|, names, text);
    }
    if ParseMessage(sent) == Some(Parsed(sender, names, text)) {
      ParsedIsPacket(sent, Parsed(sender, names, text));
    }
  }

  lemma PutInside(pre: seq<byte>, mid: seq<byte>, post: seq<byte>, k: nat, src: seq<byte>)
    requires k + |src| <= |mid|
    ensures Put(pre + mid + post, |pre| + k, src) == pre + Put(mid, k, src) + post
  {
  }

  lemma PutBelow(p: seq<byte>, k: nat, src: seq<byte>, at: nat, end: nat)
    requires k + |src| <= at <= end <= |p|
    ensures Put(p, k, src)[..end] == Put(p[..at], k, src) + p[at..end]
  {
  }

  /**
   * Where the index has wrapped into the sender's name, the text is written over that name, and the text read
   * back is what the memory held: with a sender of 100 bytes, two handles of 80 and a text of 3, say.
   */
  lemma WrapLosesText(memory: seq<byte>, sender: seq<byte>, names: seq<seq<byte>>, text: seq<byte>)
    requires |memory| == MAXBUF && |sender| <= 0xFF && |names| <= 0xFF && Short(names) && |text| <= 0xFF
    requires names != [] && InReach(sender, names, [])
    requires var at := PacketLen(sender, names, []); 0x102 <= at && at + |text| <= 0x102 + |sender|
    ensures var at := PacketLen(sender, names, []);
      && at + |text| <= MAXBUF
      && ParseMessage(Composed(memory, sender, |names|, names, text))
         == Some(Parsed(Put(sender, at - 0x102, text), names, memory[at..at + |text|]))
  {
    hide Started, WithNames, Put, Prefixed, ParseMessage;
    var d, at := Started(memory, sender, |names|), PacketLen(sender, names, []);
    var e := WithNames(d, names);
    DraftInReach(memory, sender, |names|, names);
    forall k | at <= k < at + |text|
      ensures e.bytes[k] == memory[k]
    {
      StartLeaves(memory, sender, |names|, k);
      NamesLeave(d, 3 + |sender|, names, k);
    }
    var renamed, read := Put(sender, at - 0x102, text), memory[at..at + |text|];
    assert e.bytes[at..at + |text|] == read;
    PutBelow(e.bytes, at - 0x100, text, at, at + |text|);
    var front, back := [MESSAGE_PACKET, |sender|], [|names|] + Prefixed(names);
    assert Head(sender, |names|) + Prefixed(names) == front + sender + back;
    PutInside(front, sender, back, at - 0x102, text);
    assert front + renamed + back + read == MessagePacket(renamed, |names|, names, read);
    MessageRoundTrip(renamed, names, read);
  }

  lemma OneSpace()
    ensures Spaces([SPACE]) == 1
  {
    assert [SPACE][1..] == [];
  }

  /**
   * From command line to parsed packet, exactly. For a line of handles without spaces, each followed by one
   * space, and any text, what the server parses is the sender, the handles in order and the text, whatever the
   * packet's memory held before, if and only if the 8-bit length of the line does not wrap and the 8-bit index
   * does not wrap before the last write. The requirement is what keeps the space search within the line.
   */
  lemma CommandRoundTrip(sender: seq<byte>, names: seq<seq<byte>>, text: seq<byte>)
    requires |sender| <= 0xFF && |names| <= 0xFF && AllTypable(names)
    requires |names| <= Spaces(Handles(Line(names, text)))
    ensures (forall memory: seq<byte> :: |memory| == MAXBUF ==>
               ParseMessage(Sent(memory, Line(names, text), sender)) == Some(Parsed(sender, names, text)))
       <==> |Typed(names, text)| <= 0xFF && Short(names) && InReach(sender, names, text)
  {
    hide Sent, Typed, ParseMessage, Composed, MessagePacket, Spaces, InReach;
    var line := Line(names, text);
    var h := Handles(line);
    CutTyped(names, text, |h|);
    assert h == Typed(names, text)[..|h|];
    var kept := text[..|h| - |Typed(names, [])|];
    if |Typed(names, text)| <= 0xFF {
      assert kept == text;
    }
    SentIsComposed(seq(MAXBUF, _ => NUL), line, sender, names, kept);
    forall memory: seq<byte> | |memory| == MAXBUF
      ensures Sent(memory, line, sender) == Composed(memory, sender, |names|, names, kept)
    {
      SentIsComposed(memory, line, sender, names, kept);
    }
    if |Typed(names, text)| <= 0xFF && InReach(sender, names, text) {
      forall memory: seq<byte> | |memory| == MAXBUF
        ensures ParseMessage(Sent(memory, line, sender)) == Some(Parsed(sender, names, text))
      {
        ComposedInReach(memory, sender, |names|, names, text);
        MessageRoundTrip(sender, names, text);
      }
    } else {
      var memory := LosesOnSome(sender, names, kept, text);
    }
  }
}
