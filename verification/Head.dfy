/** Reading an HTTP head from a stream that arrives in pieces, byte for byte and no further
    (`podmesh-sidecar/src/http_connect_proxy.rs`).
 */
module Head {
  import opened Options

  type Byte = bv8

  const CR: Byte := 13
  const LF: Byte := 10

  /** An empty line ends the head; a bare line feed counts as a line ending (section 2.2 of RFC 9112). */
  predicate Ends(bytes: seq<Byte>) {
    || (|bytes| >= 4 && bytes[|bytes| - 4..] == [CR, LF, CR, LF])
    || (|bytes| >= 2 && bytes[|bytes| - 2..] == [LF, LF])
  }

  /** Exactly: the last four bytes are 13, 10, 13, 10 or the last two are 10, 10. */
  lemma EndsExactly(bytes: seq<Byte>)
    ensures Ends(bytes) <==> exists text :: bytes == text + [13, 10, 13, 10] || bytes == text + [10, 10]
  {
    if |bytes| >= 4 && bytes[|bytes| - 4..] == [CR, LF, CR, LF] {
      assert bytes == bytes[..|bytes| - 4] + [13, 10, 13, 10];
    } else if Ends(bytes) {
      assert bytes == bytes[..|bytes| - 2] + [10, 10];
    }
  }

  /** No prefix of up to `n` bytes ends the head. */
  predicate Open(input: seq<Byte>, n: nat)
    requires n <= |input|
  {
    forall m | 0 <= m <= n :: !Ends(input[..m])
  }

  /** The shortest prefix that ends the head. */
  predicate IsHead(input: seq<Byte>, head: seq<Byte>) {
    head <= input && Ends(head) && forall m | 0 <= m < |head| :: !Ends(input[..m])
  }

  datatype Outcome = Complete(head: seq<Byte>) | TooLarge | Invalid

  /** What reading a whole input must give, however it is cut into pieces. */
  predicate Correct(input: seq<Byte>, maximum: nat, outcome: Outcome) {
    match outcome
    case Complete(head) => |head| <= maximum && IsHead(input, head)
    case TooLarge => maximum <= |input| && Open(input, maximum)
    case Invalid => |input| < maximum && Open(input, |input|)
  }

  function Consumed(input: seq<Byte>, maximum: nat, outcome: Outcome): nat {
    match outcome
    case Complete(head) => |head|
    case TooLarge => maximum
    case Invalid => |input|
  }

  function Flatten(chunks: seq<seq<Byte>>): seq<Byte> {
    if chunks == [] then [] else chunks[0] + Flatten(chunks[1..])
  }

  predicate NoneEmpty(chunks: seq<seq<Byte>>) {
    forall i | 0 <= i < |chunks| :: chunks[i] != []
  }

  /** A buffered reader over pieces that the transport delivers; none is empty, and after the last comes the end
      of the stream. */
  class BufferedReader {
    var buffer: seq<Byte>
    var chunks: seq<seq<Byte>>

    ghost predicate Valid()
      reads this
    {
      NoneEmpty(chunks)
    }

    /** Everything not consumed yet: first the buffer, then the rest of the stream. */
    ghost function Pending(): seq<Byte>
      reads this
    {
      buffer + Flatten(chunks)
    }

    constructor (chunks: seq<seq<Byte>>)
      requires NoneEmpty(chunks)
      ensures Valid() && Pending() == Flatten(chunks)
    {
      buffer, this.chunks := [], chunks;
    }

    /** `fill_buf`: the buffer, refilled if it is empty; nothing at the end of the stream. */
    method FillBuf() returns (available: seq<Byte>)
      requires Valid()
      modifies this
      ensures Valid() && Pending() == old(Pending()) && available == buffer
      ensures available == [] <==> Pending() == []
    {
      if buffer == [] && chunks != [] {
        buffer, chunks := chunks[0], chunks[1..];
      }
      available := buffer;
      FlattenNothing(chunks);
    }

    method Consume(n: nat)
      requires Valid() && n <= |buffer|
      modifies this
      ensures Valid() && Pending() == old(Pending())[n..]
    {
      buffer := buffer[n..];
    }
  }

  lemma FlattenNothing(chunks: seq<seq<Byte>>)
    requires NoneEmpty(chunks)
    ensures Flatten(chunks) == [] <==> chunks == []
  {
  }

  /** The index of the first line feed, or the length. */
  method Position(bytes: seq<Byte>) returns (p: nat)
    ensures p <= |bytes| && LF !in bytes[..p]
    ensures p < |bytes| ==> bytes[p] == LF
  {
    p := 0;
    while p < |bytes| && bytes[p] != LF
      invariant p <= |bytes| && LF !in bytes[..p]
    {
      p := p + 1;
    }
  }

  /** The bytes read so far, and that none of them ends the head. */
  ghost predicate Reading(input: seq<Byte>, bytes: seq<Byte>, pending: seq<Byte>) {
    bytes + pending == input && Open(input, |bytes|)
  }

  /** A piece that holds no line feed before its last byte cannot hide the end of the head. */
  lemma PieceHidesNothing(input: seq<Byte>, bytes: seq<Byte>, pending: seq<Byte>, length: nat)
    requires Reading(input, bytes, pending) && 0 < length <= |pending| && LF !in pending[..length - 1]
    ensures input[..|bytes| + length] == bytes + pending[..length]
    ensures forall m | 0 <= m < |bytes| + length :: !Ends(input[..m])
  {
    forall m | |bytes| < m < |bytes| + length ensures !Ends(input[..m]) {
      assert input[m - 1] == pending[..length - 1][m - 1 - |bytes|];
      NotEnding(input, m);
    }
  }

  lemma NotEnding(input: seq<Byte>, m: nat)
    requires 0 < m <= |input| && input[m - 1] != LF
    ensures !Ends(input[..m])
  {
    var b := input[..m];
    assert b[|b| - 1] != LF;
    assert |b| >= 4 ==> b[|b| - 4..][3] == b[|b| - 1];
    assert |b| >= 2 ==> b[|b| - 2..][1] == b[|b| - 1];
  }

  /** One turn of the loop: take what is available up to the first line feed, within the room left. */
  method TakePiece(reader: BufferedReader, room: nat, ghost input: seq<Byte>, ghost bytes: seq<Byte>)
    returns (piece: seq<Byte>)
    requires reader.Valid() && 0 < room && Reading(input, bytes, reader.Pending())
    modifies reader
    ensures reader.Valid() && |piece| <= room && (piece == [] <==> old(reader.Pending()) == [])
    ensures bytes + piece + reader.Pending() == input
    ensures input[..|bytes + piece|] == bytes + piece
    ensures forall m | 0 <= m < |bytes + piece| :: !Ends(input[..m])
  {
    hide Ends, Flatten;
    var available := reader.FillBuf();
    if available == [] {
      piece := [];
      assert input == bytes;
    } else {
      var position := Position(available);
      var length := if position < |available| then position + 1 else |available|;
      length := if length <= room then length else room;
      ghost var pending := reader.Pending();
      assert pending[..length - 1] == available[..position][..length - 1];
      PieceHidesNothing(input, bytes, pending, length);
      piece := available[..length];
      assert piece == pending[..length];
      reader.Consume(length);
    }
  }

  /** `read_head` up to parsing.  The result and what is left on the reader depend only on the bytes of the
      stream, and every byte after the head is still there for whoever takes the reader over. */
  method ReadHead(reader: BufferedReader, maximum: nat) returns (outcome: Outcome)
    requires reader.Valid()
    modifies reader
    ensures reader.Valid() && Correct(old(reader.Pending()), maximum, outcome)
    ensures Consumed(old(reader.Pending()), maximum, outcome) <= |old(reader.Pending())|
    ensures reader.Pending() == old(reader.Pending())[Consumed(old(reader.Pending()), maximum, outcome)..]
  {
    hide Ends, Flatten;
    ghost var input := reader.Pending();
    var bytes := [];
    NothingEnds();
    while true
      invariant reader.Valid() && |bytes| <= maximum && Reading(input, bytes, reader.Pending())
      decreases maximum - |bytes|
    {
      if |bytes| >= maximum {
        return TooLarge;
      }
      var piece := TakePiece(reader, maximum - |bytes|, input, bytes);
      if piece == [] {
        return Invalid;
      }
      bytes := bytes + piece;
      if Ends(bytes) {
        return Complete(bytes);
      }
    }
  }

  lemma NothingEnds()
    ensures !Ends([])
  {
  }

  /** An input has one correct outcome, so the pieces it arrives in cannot matter. */
  lemma OutcomeIsDetermined(input: seq<Byte>, maximum: nat, a: Outcome, b: Outcome)
    requires Correct(input, maximum, a) && Correct(input, maximum, b)
    ensures a == b
  {
    hide Ends;
    HeadIsPrefix(input, maximum, a);
    HeadIsPrefix(input, maximum, b);
  }

  lemma HeadIsPrefix(input: seq<Byte>, maximum: nat, outcome: Outcome)
    requires Correct(input, maximum, outcome)
    ensures outcome.Complete? ==>
              |outcome.head| <= |input| && outcome.head == input[..|outcome.head|] && Ends(input[..|outcome.head|])
  {
    if outcome.Complete? {
      assert outcome.head == input[..|outcome.head|];
    }
  }

  // ---- handing the connection over ----

  /** What `handle_connect` passes on: the buffered bytes as the tunnel's first data, if there are any. */
  function InitialData(buffer: seq<Byte>): seq<seq<Byte>> {
    if buffer != [] then [buffer] else []
  }

  lemma FlattenInitial(buffer: seq<Byte>, chunks: seq<seq<Byte>>)
    ensures Flatten(InitialData(buffer) + chunks) == buffer + Flatten(chunks)
  {
    if buffer == [] {
      assert InitialData(buffer) + chunks == chunks;
    } else {
      assert (InitialData(buffer) + chunks)[1..] == chunks;
    }
  }

  /** `handle_connect`: read the head and hand the connection over.  `stream` is what the tunnel sees, first the
      buffered bytes and then the rest of the connection.  However the input arrives, head and tunnel together are
      exactly the input, and there is something to hand over exactly when it has a head within the limit. */
  method Connect(reader: BufferedReader, maximum: nat) returns (outcome: Outcome, stream: seq<seq<Byte>>)
    requires reader.Valid()
    modifies reader
    ensures Correct(old(reader.Pending()), maximum, outcome)
    ensures outcome.Complete? ==> outcome.head + Flatten(stream) == old(reader.Pending())
    ensures outcome.Complete? <==> exists head :: |head| <= maximum && IsHead(old(reader.Pending()), head)
  {
    hide Ends, Flatten;
    ghost var input := reader.Pending();
    outcome := ReadHead(reader, maximum);
    stream := [];
    if outcome.Complete? {
      stream := InitialData(reader.buffer) + reader.chunks;
      FlattenInitial(reader.buffer, reader.chunks);
      assert outcome.head + input[|outcome.head|..] == input by { HeadIsPrefix(input, maximum, outcome); }
    } else {
      forall head | |head| <= maximum && IsHead(input, head) ensures false {
        OutcomeIsDetermined(input, maximum, outcome, Complete(head));
      }
    }
  }

  // ---- forwarding a plain request ----

  const SPACE: Byte := 32
  const PROXY: seq<Byte> := [112, 114, 111, 120, 121, 45]

  /** What parsing a head yields: the words of the request line, with the path the URL names, and the header lines
      without their line endings. */
  datatype Request = Request(verb: seq<Byte>, path: seq<Byte>, version: seq<Byte>, headers: seq<seq<Byte>>)

  function LowerByte(b: Byte): Byte {
    if 65 <= b <= 90 then b + 32 else b
  }

  function LowerBytes(bytes: seq<Byte>): (lower: seq<Byte>)
    ensures |lower| == |bytes|
  {
    if bytes == [] then [] else [LowerByte(bytes[0])] + LowerBytes(bytes[1..])
  }

  /** A header meant for the proxy: its name starts with `proxy-`, in any case. */
  predicate ForProxy(header: seq<Byte>) {
    PROXY <= LowerBytes(header)
  }

  function RequestLine(r: Request): seq<Byte> {
    r.verb + [SPACE] + r.path + [SPACE] + r.version
  }

  function Forwarded(headers: seq<seq<Byte>>): seq<seq<Byte>> {
    if headers == [] then []
    else
      var rest, last := Forwarded(headers[..|headers| - 1]), headers[|headers| - 1];
      if ForProxy(last) then rest else rest + [last]
  }

  /** Lines, each with its ending. */
  function Joined(lines: seq<seq<Byte>>): seq<Byte> {
    if lines == [] then [] else Joined(lines[..|lines| - 1]) + lines[|lines| - 1] + [CR, LF]
  }

  /** The head that is sent on. */
  function Rewritten(r: Request): seq<Byte> {
    Joined([RequestLine(r)] + Forwarded(r.headers)) + [CR, LF]
  }

  /** Every header comes through as often as it came, but for those meant for the proxy. */
  lemma {:induction false} ForwardedExactly(headers: seq<seq<Byte>>, header: seq<Byte>)
    ensures multiset(Forwarded(headers))[header] == if ForProxy(header) then 0 else multiset(headers)[header]
    decreases |headers|
  {
    hide ForProxy;
    if headers != [] {
      var before, last := headers[..|headers| - 1], headers[|headers| - 1];
      assert headers == before + [last];
      ForwardedExactly(before, header);
    }
  }

  /** A line of a request: it has text, and no line feed. */
  predicate IsLine(line: seq<Byte>) {
    line != [] && LF !in line
  }

  lemma JoinedMore(lines: seq<seq<Byte>>, line: seq<Byte>)
    ensures Joined(lines + [line]) == Joined(lines) + line + [CR, LF]
  {
    assert (lines + [line])[..|lines|] == lines;
  }

  lemma LastLineOpen(text: seq<Byte>, line: seq<Byte>, m: nat)
    requires IsLine(line) && |text| < m <= |text + line + [CR, LF]|
    ensures !Ends((text + line + [CR, LF])[..m])
  {
    hide Ends;
    var all := text + line + [CR, LF];
    if m <= |text + line| {
      assert all[m - 1] == line[m - 1 - |text|];
      NotEnding(all, m);
    } else if m < |all| {
      assert all[m - 1] == CR;
      NotEnding(all, m);
    } else {
      assert all[m - 3] == line[|line| - 1] && all[m - 2] == CR;
      LineKeepsOpen(all, m);
    }
  }

  /** No prefix of a sequence of lines ends a head. */
  lemma {:induction false} LinesStayOpen(lines: seq<seq<Byte>>, m: nat)
    requires (forall i | 0 <= i < |lines| :: IsLine(lines[i])) && m <= |Joined(lines)|
    ensures !Ends(Joined(lines)[..m])
    decreases |lines|
  {
    hide Ends, IsLine;
    if lines == [] {
      NothingEnds();
    } else {
      var text := Joined(lines[..|lines| - 1]);
      if m <= |text| {
        LinesStayOpen(lines[..|lines| - 1], m);
        assert Joined(lines)[..m] == text[..m];
      } else {
        LastLineOpen(text, lines[|lines| - 1], m);
      }
    }
  }

  lemma LineKeepsOpen(input: seq<Byte>, m: nat)
    requires 3 <= m <= |input| && input[m - 3] != LF && input[m - 2] == CR
    ensures !Ends(input[..m])
  {
    var b := input[..m];
    assert |b| >= 4 ==> b[|b| - 4..][1] == b[|b| - 3];
    assert b[|b| - 2..][0] == b[|b| - 2];
  }

  predicate WellFormedRequest(r: Request) {
    LF !in RequestLine(r) && forall i | 0 <= i < |r.headers| :: IsLine(r.headers[i])
  }

  lemma {:induction false} ForwardedAreLines(headers: seq<seq<Byte>>)
    requires forall i | 0 <= i < |headers| :: IsLine(headers[i])
    ensures forall i | 0 <= i < |Forwarded(headers)| :: IsLine(Forwarded(headers)[i])
    decreases |headers|
  {
    hide ForProxy, IsLine;
    if headers != [] {
      ForwardedAreLines(headers[..|headers| - 1]);
    }
  }

  /** Whatever follows it, the rewritten head is read as exactly one head: the destination sees the same body. */
  lemma RewrittenIsHead(r: Request, rest: seq<Byte>)
    requires WellFormedRequest(r)
    ensures IsHead(Rewritten(r) + rest, Rewritten(r))
  {
    hide ForProxy, Ends;
    var lines := [RequestLine(r)] + Forwarded(r.headers);
    ForwardedAreLines(r.headers);
    var text, head := Joined(lines), Rewritten(r);
    forall m | 0 <= m < |head| ensures !Ends((head + rest)[..m]) {
      if m <= |text| {
        LinesStayOpen(lines, m);
        assert (head + rest)[..m] == text[..m];
      } else {
        assert (head + rest)[m - 1] == CR;
        NotEnding(head + rest, m);
      }
    }
    assert Ends(head) by { LinesEnd(lines); }
  }

  lemma LinesEnd(lines: seq<seq<Byte>>)
    requires lines != []
    ensures Ends(Joined(lines) + [CR, LF])
  {
    var text := Joined(lines);
    var all := text + [CR, LF];
    assert text == Joined(lines[..|lines| - 1]) + lines[|lines| - 1] + [CR, LF];
    assert text[|text| - 2..] == [CR, LF];
    assert all[|all| - 4..] == text[|text| - 2..] + [CR, LF];
  }

  /** The loop over the headers. */
  method Rewrite(request: Request) returns (bytes: seq<Byte>)
    ensures bytes == Rewritten(request)
  {
    hide ForProxy, RequestLine;
    var line := RequestLine(request);
    bytes := line + [CR, LF];
    JoinedMore([], line);
    var i := 0;
    while i < |request.headers|
      invariant 0 <= i <= |request.headers|
      invariant bytes == Joined([line] + Forwarded(request.headers[..i]))
    {
      var header := request.headers[i];
      ForwardedMore(line, request.headers[..i], header);
      assert request.headers[..i] + [header] == request.headers[..i + 1];
      if !ForProxy(header) {
        bytes := bytes + header + [CR, LF];
      }
      i := i + 1;
    }
    assert request.headers[..i] == request.headers;
    bytes := bytes + [CR, LF];
  }

  lemma ForwardedMore(line: seq<Byte>, headers: seq<seq<Byte>>, header: seq<Byte>)
    ensures Joined([line] + Forwarded(headers + [header])) ==
            Joined([line] + Forwarded(headers)) + (if ForProxy(header) then [] else header + [CR, LF])
  {
    hide ForProxy;
    assert (headers + [header])[..|headers|] == headers;
    if !ForProxy(header) {
      JoinedMore([line] + Forwarded(headers), header);
      assert [line] + Forwarded(headers) + [header] == [line] + (Forwarded(headers) + [header]);
    }
  }

  /** `handle_http_proxy`: read the head, rewrite it without the headers meant for the proxy, and hand over; `parse`
      stands for reading the head's text and its URL, and nothing is handed over when that fails.  The destination
      receives the rewritten head and then exactly the bytes that followed the head, however the input arrives. */
  method Forward(reader: BufferedReader, maximum: nat, parse: seq<Byte> -> Option<Request>)
    returns (outcome: Outcome, stream: Option<seq<seq<Byte>>>)
    requires reader.Valid()
    modifies reader
    ensures Correct(old(reader.Pending()), maximum, outcome)
    ensures stream.Some? <==> outcome.Complete? && parse(outcome.head).Some?
    ensures stream.Some? ==>
              && |outcome.head| <= |old(reader.Pending())|
              && Flatten(stream.value) ==
                 Rewritten(parse(outcome.head).value) + old(reader.Pending())[|outcome.head|..]
  {
    hide Ends, Flatten, Rewritten, Correct, Open, IsHead;
    outcome := ReadHead(reader, maximum);
    stream := None;
    if outcome.Complete? && parse(outcome.head).Some? {
      var bytes := Rewrite(parse(outcome.head).value);
      stream := Some([bytes + reader.buffer] + reader.chunks);
      FlattenMore(bytes, reader.buffer, reader.chunks);
    }
  }

  lemma FlattenMore(bytes: seq<Byte>, buffer: seq<Byte>, chunks: seq<seq<Byte>>)
    ensures Flatten([bytes + buffer] + chunks) == bytes + (buffer + Flatten(chunks))
  {
    assert ([bytes + buffer] + chunks)[1..] == chunks;
  }

  // ---- what the destination reads ----

  /** A header is for the proxy exactly when it starts with `proxy-`, each letter in either case. */
  lemma ForProxyExactly(header: seq<Byte>)
    ensures ForProxy(header) <==>
            && |header| >= 6
            && header[0] in {112, 80} && header[1] in {114, 82} && header[2] in {111, 79} && header[3] in {120, 88}
            && header[4] in {121, 89} && header[5] == 45
  {
    forall i | 0 <= i < |header| ensures LowerBytes(header)[i] == LowerByte(header[i]) {
      LowerAt(header, i);
    }
  }

  lemma {:induction false} LowerAt(bytes: seq<Byte>, i: nat)
    requires i < |bytes|
    ensures LowerBytes(bytes)[i] == LowerByte(bytes[i])
  {
    if i > 0 {
      LowerAt(bytes[1..], i - 1);
    }
  }

  /** What is chosen from the headers stands at ascending places, which are exactly those of headers not meant for the
      proxy. */
  ghost predicate ChosenAt(headers: seq<seq<Byte>>, chosen: seq<seq<Byte>>, places: seq<nat>) {
    && |places| == |chosen|
    && (forall i, j | 0 <= i < j < |places| :: places[i] < places[j])
    && (forall i | 0 <= i < |places| :: places[i] < |headers| && chosen[i] == headers[places[i]])
    && (forall n | 0 <= n < |headers| :: n in places <==> !ForProxy(headers[n]))
  }

  lemma SkipOne(headers: seq<seq<Byte>>, header: seq<Byte>, chosen: seq<seq<Byte>>, places: seq<nat>)
    requires ChosenAt(headers, chosen, places) && ForProxy(header)
    ensures ChosenAt(headers + [header], chosen, places)
  {
    hide ForProxy;
    var n := |headers|;
    assert forall m | 0 <= m < n :: (headers + [header])[m] == headers[m];
    assert n !in places;
  }

  lemma ChooseOne(headers: seq<seq<Byte>>, header: seq<Byte>, chosen: seq<seq<Byte>>, places: seq<nat>)
    requires ChosenAt(headers, chosen, places) && !ForProxy(header)
    ensures ChosenAt(headers + [header], chosen + [header], places + [|headers|])
  {
    hide ForProxy;
    var n, more := |headers|, places + [|headers|];
    assert forall m | 0 <= m < n :: (headers + [header])[m] == headers[m];
    assert forall m :: m in more <==> m in places || m == n;
  }

  /** The headers that are forwarded keep their order. */
  lemma {:induction false} ForwardedInOrder(headers: seq<seq<Byte>>) returns (places: seq<nat>)
    ensures ChosenAt(headers, Forwarded(headers), places)
    decreases |headers|
  {
    hide ForProxy;
    if headers == [] {
      places := [];
    } else {
      hide ChosenAt;
      var before, last := headers[..|headers| - 1], headers[|headers| - 1];
      places := ForwardedInOrder(before);
      assert headers == before + [last];
      if ForProxy(last) {
        SkipOne(before, last, Forwarded(before), places);
      } else {
        ChooseOne(before, last, Forwarded(before), places);
        places := places + [|before|];
      }
    }
  }

  function UntilLf(bytes: seq<Byte>): (line: seq<Byte>)
    ensures |line| <= |bytes|
  {
    if bytes == [] || bytes[0] == LF then [] else [bytes[0]] + UntilLf(bytes[1..])
  }

  function WithoutCr(line: seq<Byte>): seq<Byte> {
    if line != [] && line[|line| - 1] == CR then line[..|line| - 1] else line
  }

  /** The lines of a head, as one who receives it reads them: up to the first empty line. */
  function HeadLines(bytes: seq<Byte>): seq<seq<Byte>>
    decreases |bytes|
  {
    var line := UntilLf(bytes);
    if |line| == |bytes| || WithoutCr(line) == [] then []
    else [WithoutCr(line)] + HeadLines(bytes[|line| + 1..])
  }

  /** The words of a line, split at single spaces. */
  function Words(line: seq<Byte>): seq<seq<Byte>>
    decreases |line|
  {
    var word := UntilSpace(line);
    if |word| == |line| then [word] else [word] + Words(line[|word| + 1..])
  }

  function UntilSpace(bytes: seq<Byte>): (word: seq<Byte>)
    ensures |word| <= |bytes|
  {
    if bytes == [] || bytes[0] == SPACE then [] else [bytes[0]] + UntilSpace(bytes[1..])
  }

  lemma {:induction false} LineStops(line: seq<Byte>, rest: seq<Byte>)
    requires LF !in line
    ensures UntilLf(line + [LF] + rest) == line
  {
    if line == [] {
      assert line + [LF] + rest == [LF] + rest;
    } else {
      LineStops(line[1..], rest);
      assert (line + [LF] + rest)[1..] == line[1..] + [LF] + rest;
    }
  }

  lemma {:induction false} WordStops(word: seq<Byte>, rest: seq<Byte>)
    requires SPACE !in word
    ensures UntilSpace(word + [SPACE] + rest) == word && UntilSpace(word) == word
  {
    if word == [] {
      assert word + [SPACE] + rest == [SPACE] + rest;
    } else {
      WordStops(word[1..], rest);
      assert (word + [SPACE] + rest)[1..] == word[1..] + [SPACE] + rest;
    }
  }

  lemma OneHeadLine(line: seq<Byte>, rest: seq<Byte>)
    requires IsLine(line)
    ensures HeadLines(line + [CR, LF] + rest) == [line] + HeadLines(rest)
    ensures HeadLines([CR, LF] + rest) == []
  {
    hide UntilLf;
    LineStops(line + [CR], rest);
    assert line + [CR, LF] + rest == (line + [CR]) + [LF] + rest;
    assert (line + [CR, LF] + rest)[|line| + 2..] == rest;
    LineStops([CR], rest);
    assert [CR, LF] + rest == [CR] + [LF] + rest;
  }

  /** Lines put together from the front. */
  lemma {:induction false} JoinedFront(line: seq<Byte>, lines: seq<seq<Byte>>)
    ensures Joined([line] + lines) == line + [CR, LF] + Joined(lines)
    decreases |lines|
  {
    if lines == [] {
      JoinedMore([], line);
      assert [line] + lines == [] + [line];
    } else {
      var before, last := lines[..|lines| - 1], lines[|lines| - 1];
      JoinedFront(line, before);
      JoinedMore([line] + before, last);
      JoinedMore(before, last);
      assert [line] + lines == [line] + before + [last] && lines == before + [last];
    }
  }

  lemma {:induction false} LinesReadBack(lines: seq<seq<Byte>>, rest: seq<Byte>)
    requires forall i | 0 <= i < |lines| :: IsLine(lines[i])
    ensures HeadLines(Joined(lines) + ([CR, LF] + rest)) == lines
    decreases |lines|
  {
    hide HeadLines, IsLine;
    var end := [CR, LF] + rest;
    if lines == [] {
      assert Joined(lines) + end == end;
      SomeLine();
      OneHeadLine([SPACE], rest);
    } else {
      LinesReadBack(lines[1..], rest);
      JoinedFront(lines[0], lines[1..]);
      assert lines == [lines[0]] + lines[1..];
      OneHeadLine(lines[0], Joined(lines[1..]) + end);
      assert Joined(lines) + end == lines[0] + [CR, LF] + (Joined(lines[1..]) + end);
    }
  }

  lemma SomeLine()
    ensures IsLine([SPACE])
  {
  }

  /** Whoever receives a forwarded request reads its own method, path and version, and then the headers that are not
      meant for the proxy, whatever follows. */
  lemma ForwardedReads(r: Request, rest: seq<Byte>)
    requires WellFormedRequest(r) && SPACE !in r.verb && SPACE !in r.path && SPACE !in r.version
    ensures HeadLines(Rewritten(r) + rest) == [RequestLine(r)] + Forwarded(r.headers)
    ensures Words(RequestLine(r)) == [r.verb, r.path, r.version]
  {
    hide ForProxy, HeadLines, Joined;
    var lines := [RequestLine(r)] + Forwarded(r.headers);
    ForwardedAreLines(r.headers);
    LinesReadBack(lines, rest);
    assert Rewritten(r) + rest == Joined(lines) + ([CR, LF] + rest);
    WordsOfLine(r);
  }

  lemma WordsOfLine(r: Request)
    requires SPACE !in r.verb && SPACE !in r.path && SPACE !in r.version
    ensures Words(RequestLine(r)) == [r.verb, r.path, r.version]
  {
    hide UntilSpace;
    var tail := r.path + [SPACE] + r.version;
    assert RequestLine(r) == r.verb + [SPACE] + tail;
    WordStops(r.verb, tail);
    WordStops(r.path, r.version);
    WordStops(r.version, []);
    assert RequestLine(r)[|r.verb| + 1..] == tail;
    assert tail[|r.path| + 1..] == r.version;
    assert Words(tail) == [r.path, r.version];
  }
}
