/** Newline framing and the request loop of borg_ipc.py. */
module Ipc {
  import opened Wrappers

  newtype byte = n: int | 0 <= n < 256

  const NEWLINE: byte := 10
  const RECV_SIZE := 65536
  const MAX_MESSAGE_BYTES := 8 * 1024 * 1024

  type Bytes = seq<byte>

  /** Position of the first line feed, or the length. */
  function Find(s: Bytes): (i: nat)
    ensures i <= |s| && NEWLINE !in s[..i]
    ensures i < |s| ==> s[i] == NEWLINE
  {
    if s == [] || s[0] == NEWLINE then 0
    else
      var r := Find(s[1..]);
      assert s[..r + 1] == [s[0]] + s[1..][..r];
      r + 1
  }

  datatype LineResult = Line(bytes: Bytes) | Closed | TooLarge

  /** What a call of `read_message` yields, with the buffer and the unread chunks it leaves. */
  datatype Read = Read(result: LineResult, buffer: Bytes, incoming: seq<Bytes>)

  /** `incoming` is what later calls of `recv` return; when it is used up, the peer has closed. */
  function ReadLine(buffer: Bytes, incoming: seq<Bytes>): Read
    decreases |incoming|
  {
    var i := Find(buffer);
    if i < |buffer| then Read(Line(buffer[..i]), buffer[i + 1..], incoming)
    else if incoming == [] then Read(Closed, buffer, incoming)
    else
      var longer := buffer + incoming[0];
      if |longer| > MAX_MESSAGE_BYTES then Read(TooLarge, longer, incoming[1..])
      else ReadLine(longer, incoming[1..])
  }

  predicate ChunksFit(chunks: seq<Bytes>) {
    forall i :: 0 <= i < |chunks| ==> 0 < |chunks[i]| <= RECV_SIZE
  }

  class LineSocket {
    var buffer: Bytes
    var incoming: seq<Bytes>

    predicate Valid()
      reads this
    {
      |buffer| <= MAX_MESSAGE_BYTES && ChunksFit(incoming)
    }

    constructor (chunks: seq<Bytes>)
      requires ChunksFit(chunks)
      ensures Valid() && buffer == [] && incoming == chunks
    {
      buffer, incoming := [], chunks;
    }

    /** Reads one line; after `TooLarge` the connection is given up. */
    method ReadMessage() returns (result: LineResult)
      requires Valid()
      modifies this
      ensures Read(result, buffer, incoming) == ReadLine(old(buffer), old(incoming))
      ensures if result.TooLarge? then |buffer| <= MAX_MESSAGE_BYTES + RECV_SIZE else Valid()
    {
      var i := Find(buffer);
      while i == |buffer|
        invariant Valid() && i == Find(buffer)
        invariant ReadLine(buffer, incoming) == ReadLine(old(buffer), old(incoming))
        decreases |incoming|
      {
        if incoming == [] {
          return Closed;
        }
        buffer, incoming := buffer + incoming[0], incoming[1..];
        if |buffer| > MAX_MESSAGE_BYTES {
          return TooLarge;
        }
        i := Find(buffer);
      }
      result := Line(buffer[..i]);
      buffer := buffer[i + 1..];
    }
  }

  // ------------------------------------------------------------ whole streams

  function Concat(chunks: seq<Bytes>): Bytes {
    if chunks == [] then [] else chunks[0] + Concat(chunks[1..])
  }

  /** The encoded messages, each followed by its line feed. */
  function Stream(lines: seq<Bytes>): Bytes {
    if lines == [] then [] else lines[0] + [NEWLINE] + Stream(lines[1..])
  }

  /** Results of successive reads, up to and including the first that is not a line. */
  function Session(buffer: Bytes, incoming: seq<Bytes>): seq<LineResult>
    decreases |buffer| + |Concat(incoming)|
  {
    var r := ReadLine(buffer, incoming);
    ReadLineShortens(buffer, incoming);
    if r.result.Line? then [r.result] + Session(r.buffer, r.incoming) else [r.result]
  }

  lemma {:induction false} ReadLineShortens(buffer: Bytes, incoming: seq<Bytes>)
    ensures
      var r := ReadLine(buffer, incoming);
      r.result.Line? ==> buffer + Concat(incoming) == r.result.bytes + [NEWLINE] + (r.buffer + Concat(r.incoming))
    ensures ReadLine(buffer, incoming).result.Line? ==> NEWLINE !in ReadLine(buffer, incoming).result.bytes
    decreases |incoming|
  {
    var i := Find(buffer);
    if i < |buffer| {
      assert buffer == buffer[..i] + [NEWLINE] + buffer[i + 1..];
      Associates(buffer[..i] + [NEWLINE], buffer[i + 1..], Concat(incoming));
    } else if incoming != [] {
      Associates(buffer, incoming[0], Concat(incoming[1..]));
      ReadLineShortens(buffer + incoming[0], incoming[1..]);
    }
  }

  function Min(a: nat, b: nat): nat {
    if a < b then a else b
  }

  /**
    Whether a line fits however the stream is cut: the buffer may hold all of it when the next chunk
    comes, and that chunk brings the line feed with as many of the `after` bytes behind it as there are.
   */
  predicate Fits(line: Bytes, after: nat) {
    |line| + Min(RECV_SIZE, 1 + after) <= MAX_MESSAGE_BYTES
  }

  lemma {:induction false} ReadFirstLine(buffer: Bytes, incoming: seq<Bytes>, line: Bytes, rest: Bytes)
    requires ChunksFit(incoming) && NEWLINE !in line && Fits(line, |rest|)
    requires buffer + Concat(incoming) == line + [NEWLINE] + rest
    ensures
      var r := ReadLine(buffer, incoming);
      r.result == Line(line) && r.buffer + Concat(r.incoming) == rest && ChunksFit(r.incoming)
    decreases |incoming|
  {
    var i := Find(buffer);
    if i < |buffer| {
      FirstLineIs(buffer, i, Concat(incoming), line, rest);
    } else {
      LineGoesOn(buffer, Concat(incoming), line, rest);
      Associates(buffer, incoming[0], Concat(incoming[1..]));
      assert |buffer + incoming[0]| <= |line + [NEWLINE] + rest|;
      ReadFirstLine(buffer + incoming[0], incoming[1..], line, rest);
    }
  }

  lemma Associates(a: Bytes, b: Bytes, c: Bytes)
    ensures a + (b + c) == (a + b) + c
  {}

  /** Two ways to cut a text at its first line feed are the same. */
  lemma FirstLineIs(buffer: Bytes, i: nat, more: Bytes, line: Bytes, rest: Bytes)
    requires i < |buffer| && buffer[i] == NEWLINE && NEWLINE !in buffer[..i]
    requires NEWLINE !in line && buffer + more == line + [NEWLINE] + rest
    ensures buffer[..i] == line && buffer[i + 1..] + more == rest
  {
    var whole := line + [NEWLINE] + rest;
    SameFirst(whole, i, |line|);
    assert whole[..i] == line && whole[i + 1..] == rest;
    assert (buffer + more)[..i] == buffer[..i] && (buffer + more)[i + 1..] == buffer[i + 1..] + more;
  }

  lemma SameFirst(s: Bytes, i: nat, j: nat)
    requires i < |s| && s[i] == NEWLINE && NEWLINE !in s[..i]
    requires j < |s| && s[j] == NEWLINE && NEWLINE !in s[..j]
    ensures i == j
  {
    assert forall k :: 0 <= k < i ==> s[..i][k] == s[k];
    assert forall k :: 0 <= k < j ==> s[..j][k] == s[k];
  }

  /** A buffer without a line feed ends inside the first line. */
  lemma LineGoesOn(buffer: Bytes, more: Bytes, line: Bytes, rest: Bytes)
    requires NEWLINE !in buffer && buffer + more == line + [NEWLINE] + rest
    ensures |buffer| <= |line| && more != []
  {
    var whole := buffer + more;
    assert whole[|line|] == NEWLINE;
    assert forall k :: 0 <= k < |buffer| ==> whole[k] == buffer[k];
  }

  /** Every line fits, given the lines behind it. */
  predicate AllFit(lines: seq<Bytes>) {
    lines == [] || (Fits(lines[0], |Stream(lines[1..])|) && AllFit(lines[1..]))
  }

  predicate NoFeeds(lines: seq<Bytes>) {
    forall i :: 0 <= i < |lines| ==> NEWLINE !in lines[i]
  }

  function Lines(lines: seq<Bytes>): (r: seq<LineResult>)
    ensures |r| == |lines|
    ensures forall i :: 0 <= i < |r| ==> r[i] == Line(lines[i])
  {
    seq(|lines|, i requires 0 <= i < |lines| => Line(lines[i]))
  }

  /** Whatever the chunks, successive reads return the lines up to the end of `first`, and then go on with `later`. */
  lemma {:induction false} ReadsGoOn(buffer: Bytes, first: seq<Bytes>, later: seq<Bytes>, lines: seq<Bytes>)
    requires ChunksFit(first) && NoFeeds(lines) && AllFit(lines)
    requires buffer + Concat(first) == Stream(lines)
    ensures Session(buffer, first + later) == Lines(lines) + Session([], later)
    decreases |lines|
  {
    if lines == [] {
      assert buffer == [] && Concat(first) == [];
      assert first == [] && first + later == later;
    } else {
      ReadFirstLine(buffer, first, lines[0], Stream(lines[1..]));
      ReadIsLocal(buffer, first, later);
      var r := ReadLine(buffer, first);
      ReadsGoOn(r.buffer, r.incoming, later, lines[1..]);
      assert Lines(lines) == [Line(lines[0])] + Lines(lines[1..]);
    }
  }

  /** A read that needs no further chunk leaves the further chunks alone. */
  lemma {:induction false} ReadIsLocal(buffer: Bytes, first: seq<Bytes>, later: seq<Bytes>)
    requires !ReadLine(buffer, first).result.Closed?
    ensures
      var r := ReadLine(buffer, first);
      ReadLine(buffer, first + later) == Read(r.result, r.buffer, r.incoming + later)
    decreases |first|
  {
    if Find(buffer) == |buffer| {
      assert (first + later)[1..] == first[1..] + later;
      if |buffer + first[0]| <= MAX_MESSAGE_BYTES {
        ReadIsLocal(buffer + first[0], first[1..], later);
      }
    }
  }

  // -------------------------------------------------------- the bound is exact

  lemma NoFeedInPrefix(buffer: Bytes, more: Bytes, line: Bytes)
    requires NEWLINE !in line && buffer + more == line
    ensures Find(buffer) == |buffer|
  {
    assert forall k :: 0 <= k < |buffer| ==> line[k] == buffer[k] && line[k] in line;
  }

  /** Once the whole line is in the buffer, a chunk that takes it over the limit makes the read fail. */
  lemma {:induction false} ReadFails(buffer: Bytes, head: seq<Bytes>, last: Bytes, tail: seq<Bytes>, line: Bytes)
    requires NEWLINE !in line && |line| + |last| > MAX_MESSAGE_BYTES
    requires buffer + Concat(head) == line
    ensures ReadLine(buffer, head + ([last] + tail)).result == TooLarge
    decreases |head|
  {
    var incoming := head + ([last] + tail);
    NoFeedInPrefix(buffer, Concat(head), line);
    if head == [] {
      assert incoming[0] == last;
    } else {
      assert incoming[0] == head[0] && incoming[1..] == head[1..] + ([last] + tail);
      Associates(buffer, head[0], Concat(head[1..]));
      if |buffer + incoming[0]| <= MAX_MESSAGE_BYTES {
        ReadFails(buffer + head[0], head[1..], last, tail, line);
      }
    }
  }

  function Chop(s: Bytes): (chunks: seq<Bytes>)
    ensures ChunksFit(chunks) && Concat(chunks) == s
    decreases |s|
  {
    if s == [] then []
    else if |s| <= RECV_SIZE then assert s + Concat([]) == s; [s]
    else [s[..RECV_SIZE]] + Chop(s[RECV_SIZE..])
  }

  lemma {:induction false} ConcatLonger(a: seq<Bytes>, b: seq<Bytes>)
    ensures Concat(a + b) == Concat(a) + Concat(b)
    decreases |a|
  {
    if a == [] {
      assert a + b == b;
    } else {
      assert (a + b)[1..] == a[1..] + b;
      ConcatLonger(a[1..], b);
    }
  }

  /** A way to cut the stream that makes a line fail which does not fit. */
  lemma LongerLineCanFail(line: Bytes, rest: Bytes) returns (chunks: seq<Bytes>)
    requires NEWLINE !in line && !Fits(line, |rest|)
    ensures ChunksFit(chunks) && Concat(chunks) == line + [NEWLINE] + rest
    ensures ReadLine([], chunks).result == TooLarge
  {
    var n := Min(RECV_SIZE - 1, |rest|);
    var last, tail := [NEWLINE] + rest[..n], Chop(rest[n..]);
    chunks := Chop(line) + ([last] + tail);
    ConcatLonger(Chop(line), [last] + tail);
    assert ([last] + tail)[1..] == tail;
    Regroup(line, rest, n);
    assert [] + Concat(Chop(line)) == line;
    ReadFails([], Chop(line), last, tail, line);
  }

  lemma Regroup(line: Bytes, rest: Bytes, n: nat)
    requires n <= |rest|
    ensures line + (([NEWLINE] + rest[..n]) + rest[n..]) == line + [NEWLINE] + rest
  {
    assert ([NEWLINE] + rest[..n]) + rest[n..] == [NEWLINE] + rest;
  }

  /** The first line of a stream is read under every chunking exactly if it fits. */
  lemma FirstLineReadExactly(line: Bytes, rest: Bytes)
    requires NEWLINE !in line
    ensures (forall chunks :: ChunksFit(chunks) && Concat(chunks) == line + [NEWLINE] + rest ==>
                                ReadLine([], chunks).result == Line(line))
            <==> Fits(line, |rest|)
  {
    if Fits(line, |rest|) {
      forall chunks | ChunksFit(chunks) && Concat(chunks) == line + [NEWLINE] + rest
        ensures ReadLine([], chunks).result == Line(line)
      {
        assert [] + Concat(chunks) == Concat(chunks);
        ReadFirstLine([], chunks, line, rest);
      }
    } else {
      var chunks := LongerLineCanFail(line, rest);
    }
  }

  /** Whatever the chunks, successive reads return exactly the lines of the stream, in order, then the end. */
  lemma AllLinesAreRead(lines: seq<Bytes>, chunks: seq<Bytes>)
    requires NoFeeds(lines) && AllFit(lines)
    requires ChunksFit(chunks) && Concat(chunks) == Stream(lines)
    ensures Session([], chunks) == Lines(lines) + [Closed]
  {
    assert [] + Concat(chunks) == Stream(lines);
    ReadsGoOn([], chunks, [], lines);
    assert chunks + [] == chunks;
  }

  /** The lines before the first one that does not fit. */
  function Fitting(lines: seq<Bytes>): (n: nat)
    requires !AllFit(lines)
    ensures n < |lines| && !Fits(lines[n], |Stream(lines[n + 1..])|)
  {
    if !Fits(lines[0], |Stream(lines[1..])|) then 0
    else
      var n := Fitting(lines[1..]);
      assert lines[n + 2..] == lines[1..][n + 1..];
      n + 1
  }

  /** A line that fits still fits when less follows it. */
  lemma {:induction false} FittingLinesFit(lines: seq<Bytes>)
    requires !AllFit(lines)
    ensures AllFit(lines[..Fitting(lines)])
    decreases |lines|
  {
    var n := Fitting(lines);
    if n > 0 {
      FittingLinesFit(lines[1..]);
      assert lines[..n][1..] == lines[1..][..n - 1];
      StreamSplits(lines[1..], n - 1);
    }
  }

  lemma {:induction false} StreamSplits(lines: seq<Bytes>, n: nat)
    requires n <= |lines|
    ensures Stream(lines) == Stream(lines[..n]) + Stream(lines[n..])
    decreases n
  {
    if n == 0 {
      assert lines[0..] == lines;
    } else {
      StreamSplits(lines[1..], n - 1);
      assert lines[..n][1..] == lines[1..][..n - 1] && lines[n..] == lines[1..][n - 1..];
      Associates(lines[0] + [NEWLINE], Stream(lines[1..][..n - 1]), Stream(lines[n..]));
    }
  }

  /** If some line does not fit, there is a chunking under which it is not read. */
  lemma SomeChunkingFails(lines: seq<Bytes>) returns (chunks: seq<Bytes>)
    requires NoFeeds(lines) && !AllFit(lines)
    ensures ChunksFit(chunks) && Concat(chunks) == Stream(lines)
    ensures Session([], chunks) != Lines(lines) + [Closed]
  {
    var n := Fitting(lines);
    var before, line, rest := lines[..n], lines[n], Stream(lines[n + 1..]);
    FittingLinesFit(lines);
    var later := LongerLineCanFail(line, rest);
    chunks := Chop(Stream(before)) + later;
    ConcatLonger(Chop(Stream(before)), later);
    StreamSplits(lines, n);
    assert lines[n..][1..] == lines[n + 1..];
    assert [] + Concat(Chop(Stream(before))) == Stream(before);
    ReadsGoOn([], Chop(Stream(before)), later, before);
    assert Session([], chunks)[n] == TooLarge;
    assert (Lines(lines) + [Closed])[n] == Line(lines[n]);
  }

  /** Reading is independent of chunking exactly for the streams whose lines all fit. */
  lemma ReadingIgnoresChunking(lines: seq<Bytes>)
    requires NoFeeds(lines)
    ensures (forall chunks :: ChunksFit(chunks) && Concat(chunks) == Stream(lines) ==>
                                Session([], chunks) == Lines(lines) + [Closed])
            <==> AllFit(lines)
  {
    if AllFit(lines) {
      forall chunks | ChunksFit(chunks) && Concat(chunks) == Stream(lines)
        ensures Session([], chunks) == Lines(lines) + [Closed]
      {
        AllLinesAreRead(lines, chunks);
      }
    } else {
      var chunks := SomeChunkingFails(lines);
    }
  }

  /** Lines of up to MAX_MESSAGE_BYTES - 65536 bytes fit whatever follows. */
  lemma {:induction false} ShortLinesFit(lines: seq<Bytes>)
    requires forall i :: 0 <= i < |lines| ==> |lines[i]| <= MAX_MESSAGE_BYTES - RECV_SIZE
    ensures AllFit(lines)
    decreases |lines|
  {
    if lines != [] {
      ShortLinesFit(lines[1..]);
    }
  }

  /** The limits are eight mebibytes for a message and 64 kibibytes for a chunk; lines end with byte ten. */
  lemma FitsWithin(line: Bytes, after: nat)
    ensures Fits(line, after) <==> |line| + (if after < 65_536 then 1 + after else 65_536) <= 8_388_608
    ensures NEWLINE as int == 10
  {}

  /** Bytes without a line feed are never a message: the read ends with the peer, or at the limit. */
  lemma {:induction false} NoFeedNoMessage(buffer: Bytes, incoming: seq<Bytes>)
    requires NEWLINE !in buffer + Concat(incoming) && |buffer| <= MAX_MESSAGE_BYTES
    ensures ReadLine(buffer, incoming).result ==
            if |buffer| + |Concat(incoming)| <= 8_388_608 then Closed else TooLarge
    decreases |incoming|
  {
    NoFeedInPrefix(buffer, Concat(incoming), buffer + Concat(incoming));
    if incoming != [] {
      Associates(buffer, incoming[0], Concat(incoming[1..]));
      if |buffer + incoming[0]| <= MAX_MESSAGE_BYTES {
        NoFeedNoMessage(buffer + incoming[0], incoming[1..]);
      }
    }
  }

  function Encoded<M>(encode: M -> Bytes, messages: seq<M>): (lines: seq<Bytes>)
    ensures |lines| == |messages|
    ensures forall i :: 0 <= i < |lines| ==> lines[i] == encode(messages[i])
  {
    seq(|messages|, i requires 0 <= i < |messages| => encode(messages[i]))
  }

  /**
    The messages that were sent arrive one by one, in order, and then the end. Of JSON this uses that
    an encoded message has no line feed inside and that decoding undoes encoding.
   */
  lemma MessagesArriveInOrder<M(!new)>(encode: M -> Bytes, decode: Bytes -> M, messages: seq<M>, chunks: seq<Bytes>)
    requires forall m :: NEWLINE !in encode(m) && decode(encode(m)) == m
    requires AllFit(Encoded(encode, messages))
    requires ChunksFit(chunks) && Concat(chunks) == Stream(Encoded(encode, messages))
    ensures
      var results := Session([], chunks);
      && |results| == |messages| + 1 && results[|messages|] == Closed
      && forall i :: 0 <= i < |messages| ==> results[i].Line? && decode(results[i].bytes) == messages[i]
  {
    AllLinesAreRead(Encoded(encode, messages), chunks);
  }
}
