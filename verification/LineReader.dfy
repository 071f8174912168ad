/**
  The buffered connection reader and readBoundedLine
  (managesieveserver/parser.go). The bytes a client sends arrive in segments of
  any size and pass through a buffer of any capacity; what a line read returns
  and what it leaves depend on the bytes alone.
 */
module LineReader {
  import opened Text

  /** What a read reports once every byte that will ever arrive is consumed. */
  datatype End = Eof | Timeout | Broken

  datatype LineError = TooLong | MissingCRLF | Ended(end: End)

  datatype LineResult = Line(text: string) | NoLine(error: LineError)

  /** The bytes of a connection that are still unread. */
  datatype Stream = Stream(data: string, end: End)

  // ---------------------------------------------------------------------
  // One pass over the bytes

  function LineLength(data: string): (n: nat)
    ensures n <= |data|
    ensures data != "" ==> n > 0
    ensures Lacks(data, '\n') ==> n == |data|
  {
    var i := IndexOf(data, '\n');
    if i < |data| then i + 1 else |data|
  }

  /** The outcome of reading one line of at most maxBytes bytes. */
  function FirstLine(s: Stream, maxBytes: int): LineResult {
    var n := LineLength(s.data);
    if n > maxBytes then NoLine(TooLong)
    else if n > 0 && s.data[n - 1] == '\n' then
      if n >= 2 && s.data[n - 2] == '\r' then Line(s.data[..n]) else NoLine(MissingCRLF)
    else if s.end != Eof then NoLine(Ended(s.end))
    else if n > 0 then NoLine(MissingCRLF)
    else NoLine(Ended(Eof))
  }

  function AfterLine(s: Stream): Stream {
    s.(data := s.data[LineLength(s.data)..])
  }

  /** The text is a whole line that a stream starts with. */
  predicate StartsWithLine(data: string, text: string) {
    text <= data && |text| >= 2 && text[|text| - 2..] == "\r\n" && Lacks(text[..|text| - 1], '\n')
  }

  /** No line feed among the first n bytes, nor behind them if there is nothing behind them. */
  predicate NoLineWithin(data: string, n: nat) {
    Lacks(if n < |data| then data[..n] else data, '\n')
  }

  lemma LineAt(data: string, text: string)
    requires StartsWithLine(data, text)
    ensures 2 <= |text| == LineLength(data) && data[..|text|] == text
    ensures data[|text| - 2] == '\r' && data[|text| - 1] == '\n'
  {
    assert data[|text| - 1] == text[|text| - 1] == text[|text| - 2..][1];
    assert data[|text| - 2] == text[|text| - 2] == text[|text| - 2..][0];
    assert forall j | 0 <= j < |text| - 1 :: data[j] == text[..|text| - 1][j];
    IndexOfAt(data, '\n', |text| - 1);
  }

  lemma LineFoundThere(data: string)
    requires var n := LineLength(data); n >= 2 && data[n - 2] == '\r' && data[n - 1] == '\n'
    ensures StartsWithLine(data, data[..LineLength(data)])
  {
    var n := LineLength(data);
    assert data[..n][..n - 1] == data[..n - 1];
    assert data[..n][n - 2..] == [data[n - 2], data[n - 1]];
  }

  lemma LineIsLong(data: string, maxBytes: nat)
    ensures LineLength(data) > maxBytes <==> maxBytes < |data| && NoLineWithin(data, maxBytes)
  {
    var i := IndexOf(data, '\n');
    if maxBytes < |data| {
      assert forall j | 0 <= j < maxBytes :: data[j] == data[..maxBytes][j];
    }
  }

  lemma LineIsRead(s: Stream, maxBytes: nat, text: string)
    ensures FirstLine(s, maxBytes) == Line(text) <==> StartsWithLine(s.data, text) && |text| <= maxBytes
  {
    hide StartsWithLine, LineLength;
    if StartsWithLine(s.data, text) {
      LineAt(s.data, text);
    }
    if FirstLine(s, maxBytes).Line? {
      LineFoundThere(s.data);
    }
  }

  lemma NoLineIsRead(s: Stream, maxBytes: nat)
    ensures FirstLine(s, maxBytes) == NoLine(TooLong) <==> maxBytes < |s.data| && NoLineWithin(s.data, maxBytes)
    ensures FirstLine(s, maxBytes) == NoLine(Ended(s.end))
            <==> |s.data| <= maxBytes && Lacks(s.data, '\n') && (s.end == Eof ==> s.data == "")
    ensures FirstLine(s, maxBytes) == NoLine(MissingCRLF)
            ==> (s.data != "" && Lacks(s.data, '\n') && s.end == Eof)
                || exists n :: 0 <= n < |s.data| && s.data[n] == '\n' && Lacks(s.data[..n], '\n')
                               && (n == 0 || s.data[n - 1] != '\r')
  {
    hide NoLineWithin;
    LineIsLong(s.data, maxBytes);
    var i := IndexOf(s.data, '\n');
    if i < |s.data| {
      assert s.data[i] == '\n' && Lacks(s.data[..i], '\n');
    }
  }

  /**
    What a line read comes to, by the bytes: a line is read exactly if the stream
    starts with one of at most that many bytes, end included; it is too long
    exactly if that many bytes go by without a line feed and there is another
    byte; only a line feed without a carriage return, or a tail cut off by the
    end of the stream, is a line that does not end as it has to; and only a stream
    without a line feed can end or time out.
   */
  lemma LineIsExactly(s: Stream, maxBytes: nat, text: string)
    ensures FirstLine(s, maxBytes) == Line(text) <==> StartsWithLine(s.data, text) && |text| <= maxBytes
    ensures FirstLine(s, maxBytes) == NoLine(TooLong) <==> maxBytes < |s.data| && NoLineWithin(s.data, maxBytes)
    ensures FirstLine(s, maxBytes) == NoLine(Ended(s.end))
            <==> |s.data| <= maxBytes && Lacks(s.data, '\n') && (s.end == Eof ==> s.data == "")
    ensures FirstLine(s, maxBytes) == NoLine(MissingCRLF)
            ==> (s.data != "" && Lacks(s.data, '\n') && s.end == Eof)
                || exists n :: 0 <= n < |s.data| && s.data[n] == '\n' && Lacks(s.data[..n], '\n')
                               && (n == 0 || s.data[n - 1] != '\r')
  {
    hide StartsWithLine, NoLineWithin, FirstLine;
    LineIsRead(s, maxBytes, text);
    NoLineIsRead(s, maxBytes);
  }

  // ---------------------------------------------------------------------
  // The buffered reader

  function Flatten(segments: seq<string>): string {
    if segments == [] then "" else segments[0] + Flatten(segments[1..])
  }

  datatype SliceStatus = Found | BufferFull | AtEnd

  class Reader {
    var buffer: string
    var segments: seq<string>
    const capacity: nat
    const end: End

    ghost predicate Valid()
      reads this
    {
      |buffer| <= capacity && capacity > 0 && forall i | 0 <= i < |segments| :: segments[i] != ""
    }

    /** Every byte not yet handed out: received first, then still to come. */
    ghost function Data(): string
      reads this
    {
      buffer + Flatten(segments)
    }

    ghost function View(): Stream
      reads this
    {
      Stream(Data(), end)
    }

    constructor (segments: seq<string>, end: End, capacity: nat)
      requires capacity > 0 && forall i | 0 <= i < |segments| :: segments[i] != ""
      ensures Valid() && View() == Stream(Flatten(segments), end) && buffer == ""
    {
      this.buffer := "";
      this.segments := segments;
      this.end := end;
      this.capacity := capacity;
      new;
      assert "" + Flatten(segments) == Flatten(segments);
    }

    /** Drops the first n bytes of what is still to come in the next segment. */
    method Arrive(n: nat) returns (bytes: string)
      requires Valid() && segments != [] && 0 < n <= |segments[0]|
      modifies this`segments
      ensures Valid() && |bytes| == n
      ensures bytes + Flatten(segments) == old(Flatten(segments))
    {
      bytes := segments[0][..n];
      SplitAt(segments[0], n);
      ConcatAssoc(bytes, segments[0][n..], Flatten(segments[1..]));
      if n == |segments[0]| {
        assert segments[0][n..] + Flatten(segments[1..]) == Flatten(segments[1..]);
        segments := segments[1..];
      } else {
        segments := [segments[0][n..]] + segments[1..];
      }
    }

    /** One network read into the free part of the buffer; false when nothing more will come. */
    method Fill() returns (ok: bool)
      requires Valid() && |buffer| < capacity
      modifies this
      ensures Valid() && Data() == old(Data())
      ensures old(buffer) <= buffer && (ok ==> |old(buffer)| < |buffer|)
      ensures !ok ==> buffer == old(buffer) && segments == []
    {
      if segments == [] {
        return false;
      }
      var room := capacity - |buffer|;
      var n := if |segments[0]| < room then |segments[0]| else room;
      var bytes := Arrive(n);
      ConcatAssoc(buffer, bytes, Flatten(segments));
      buffer := buffer + bytes;
      return true;
    }

    /** bufio.Reader.ReadSlice with a line feed as delimiter. */
    method ReadSlice() returns (chunk: string, status: SliceStatus)
      requires Valid()
      modifies this
      ensures Valid() && old(Data()) == chunk + Data()
      ensures ChunkFits(chunk, status, Data()) && (status == BufferFull ==> |chunk| == capacity && buffer == "")
    {
      while true
        invariant Valid() && Data() == old(Data())
        decreases capacity - |buffer|
      {
        var i := IndexOf(buffer, '\n');
        if i < |buffer| {
          chunk := buffer[..i + 1];
          TakeFront(buffer, i + 1, Flatten(segments));
          buffer := buffer[i + 1..];
          return chunk, Found;
        }
        if |buffer| >= capacity {
          chunk := buffer;
          TakeFront(buffer, |buffer|, Flatten(segments));
          buffer := buffer[|buffer|..];
          return chunk, BufferFull;
        }
        var ok := Fill();
        if !ok {
          chunk := buffer;
          TakeFront(buffer, |buffer|, Flatten(segments));
          buffer := buffer[|buffer|..];
          return chunk, AtEnd;
        }
      }
    }

    /** bufio.Reader.Read: some of the next bytes, at most most of them; "" only at the end. */
    method Read(most: nat) returns (bytes: string)
      requires Valid() && most > 0
      modifies this
      ensures Valid() && |bytes| <= most && old(Data()) == bytes + Data()
      ensures bytes == "" ==> Data() == ""
    {
      if buffer == "" {
        if segments == [] {
          return "";
        }
        if most >= capacity {
          var n := if |segments[0]| < most then |segments[0]| else most;
          bytes := Arrive(n);
          assert buffer + Flatten(segments) == Flatten(segments);
          return;
        }
        var _ := Fill();
      }
      var n := if |buffer| < most then |buffer| else most;
      bytes := buffer[..n];
      TakeFront(buffer, n, Flatten(segments));
      buffer := buffer[n..];
    }

    /** io.ReadFull / io.CopyN: exactly n bytes, or a failure that has consumed everything. */
    method ReadExactly(n: nat) returns (bytes: string, ok: bool)
      requires Valid()
      modifies this
      ensures Valid() && ok == (n <= |old(Data())|)
      ensures ok ==> bytes == old(Data())[..n] && Data() == old(Data())[n..]
      ensures !ok ==> Data() == ""
    {
      bytes := "";
      while |bytes| < n
        invariant Valid() && |bytes| <= n && old(Data()) == bytes + Data()
        decreases n - |bytes|
      {
        var more := Read(n - |bytes|);
        ConcatAssoc(bytes, more, Data());
        bytes := bytes + more;
        if more == "" {
          return bytes, false;
        }
      }
      return bytes, true;
    }

    /** Whether bytes are already received but unread: the one observation that depends on segmentation. */
    method Buffered() returns (n: nat)
      ensures n == |buffer|
    {
      n := |buffer|;
    }
  }

  lemma TakeFront(buffer: string, n: nat, rest: string)
    requires n <= |buffer|
    ensures buffer + rest == buffer[..n] + (buffer[n..] + rest)
  {
    SplitAt(buffer, n);
    ConcatAssoc(buffer[..n], buffer[n..], rest);
  }

  // ---------------------------------------------------------------------
  // readBoundedLine

  lemma LineFound(front: string, rest: string)
    requires front != "" && front[|front| - 1] == '\n' && Lacks(front[..|front| - 1], '\n')
    ensures LineLength(front + rest) == |front|
    ensures (front + rest)[|front|..] == rest && (front + rest)[..|front|] == front
  {
    var s := front + rest;
    forall j | 0 <= j < |front| - 1 ensures s[j] != '\n' {
      assert s[j] == front[..|front| - 1][j];
    }
    IndexOfAt(s, '\n', |front| - 1);
  }

  lemma LineLonger(front: string, rest: string)
    requires Lacks(front, '\n')
    ensures LineLength(front + rest) == |front| + LineLength(rest)
    ensures (front + rest)[LineLength(front + rest)..] == rest[LineLength(rest)..]
  {
    var i := IndexOf(rest, '\n');
    IndexOfAt(front + rest, '\n', |front| + i);
  }

  /** The bytes of data read so far contain no line feed. */
  ghost predicate Scanned(data: string, line: string, rest: string) {
    Lacks(line, '\n') && data == line + rest
  }

  /** `line` is the first line of data, up to its line feed or the last byte. */
  ghost predicate Complete(data: string, line: string, rest: string) {
    LineLength(data) == |line| && data[..|line|] == line && data[|line|..] == rest
  }

  ghost predicate ChunkFits(chunk: string, status: SliceStatus, rest: string) {
    match status
    case Found => chunk != "" && chunk[|chunk| - 1] == '\n' && Lacks(chunk[..|chunk| - 1], '\n')
    case BufferFull => Lacks(chunk, '\n')
    case AtEnd => Lacks(chunk, '\n') && rest == ""
  }

  /** One turn of the read loop. */
  lemma LineTurn(data: string, line: string, chunk: string, status: SliceStatus, rest: string)
    requires Scanned(data, line, chunk + rest) && ChunkFits(chunk, status, rest)
    ensures status == BufferFull ==> Scanned(data, line + chunk, rest)
    ensures status != BufferFull ==> Complete(data, line + chunk, rest)
  {
    ConcatAssoc(line, chunk, rest);
    var front := line + chunk;
    if status == Found {
      assert front[..|front| - 1] == line + chunk[..|chunk| - 1];
      LineFound(front, rest);
    } else if status == AtEnd {
      LineLonger(front, rest);
    }
  }

  /** The verdict on a completed line. */
  lemma LineVerdict(s: Stream, line: string, rest: string, maxBytes: int)
    requires Complete(s.data, line, rest)
    ensures AfterLine(s) == Stream(rest, s.end)
    ensures FirstLine(s, maxBytes) ==
            if |line| > maxBytes then NoLine(TooLong)
            else if line != "" && line[|line| - 1] == '\n' then
              if |line| >= 2 && line[|line| - 2] == '\r' then Line(line) else NoLine(MissingCRLF)
            else if s.end != Eof then NoLine(Ended(s.end))
            else if line != "" then NoLine(MissingCRLF)
            else NoLine(Ended(Eof))
  {
    assert line != "" ==> s.data[|line| - 1] == line[|line| - 1];
    assert |line| >= 2 ==> s.data[|line| - 2] == line[|line| - 2];
  }

  /** An over-long line is dropped through its line feed. */
  lemma LineDrained(s: Stream, line: string, rest: string, maxBytes: int)
    requires Scanned(s.data, line, rest) && |line| > maxBytes
    ensures FirstLine(s, maxBytes) == NoLine(TooLong)
    ensures AfterLine(s) == Stream(rest[LineLength(rest)..], s.end)
  {
    LineLonger(line, rest);
  }

  method ReadBoundedLine(reader: Reader, maxBytes: int) returns (r: LineResult)
    requires reader.Valid()
    modifies reader
    ensures reader.Valid()
    ensures r == FirstLine(old(reader.View()), maxBytes)
    ensures reader.View() == AfterLine(old(reader.View()))
  {
    ghost var all := reader.View();
    var line := "";
    assert Scanned(all.data, line, reader.Data()) by {
      assert "" + reader.Data() == reader.Data();
    }
    while true
      invariant reader.Valid() && Scanned(all.data, line, reader.Data())
      invariant |line| > 0 ==> |line| <= maxBytes
      decreases |reader.Data()|
    {
      var chunk, status := reader.ReadSlice();
      LineTurn(all.data, line, chunk, status, reader.Data());
      line := line + chunk;
      if status != BufferFull {
        LineVerdict(all, line, reader.Data(), maxBytes);
      }
      if |line| > maxBytes {
        if status == BufferFull {
          LineDrained(all, line, reader.Data(), maxBytes);
          DrainLine(reader);
        }
        return NoLine(TooLong);
      }
      if status == Found {
        if |line| < 2 || line[|line| - 2] != '\r' {
          return NoLine(MissingCRLF);
        }
        return Line(line);
      }
      if status == BufferFull {
        continue;
      }
      if reader.end == Eof {
        return NoLine(if |line| > 0 then MissingCRLF else Ended(Eof));
      }
      return NoLine(Ended(reader.end));
    }
  }

  /** The nested drain of an over-long line: consumes exactly through the line feed. */
  method DrainLine(reader: Reader)
    requires reader.Valid()
    modifies reader
    ensures reader.Valid() && reader.Data() == old(reader.Data())[LineLength(old(reader.Data()))..]
  {
    ghost var all := reader.Data();
    ghost var gone := "";
    assert "" + reader.Data() == reader.Data();
    while true
      invariant reader.Valid() && Scanned(all, gone, reader.Data())
      decreases |reader.Data()|
    {
      var chunk, status := reader.ReadSlice();
      LineTurn(all, gone, chunk, status, reader.Data());
      gone := gone + chunk;
      if status != BufferFull {
        return;
      }
    }
  }
}
