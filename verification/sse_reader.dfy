/** The client side of an event stream: chunks of any size come in, whole messages go out. */
module SseReader {
  import opened SseFormat

  /** What the reader holds between chunks. */
  datatype Held = Held(buffer: string, delivered: seq<string>)

  function AfterChunk(h: Held, chunk: string): Held {
    var parts := SplitBlank(h.buffer + chunk);
    Held(Last(parts), h.delivered + MessagesOf(Front(parts)))
  }

  function AfterChunks(chunks: seq<string>): Held {
    if chunks == [] then Held("", []) else AfterChunk(AfterChunks(Front(chunks)), Last(chunks))
  }

  function Joined(chunks: seq<string>): string {
    if chunks == [] then "" else Joined(Front(chunks)) + Last(chunks)
  }

  /** Wherever the stream is cut into chunks, the reader ends as if it had come in one piece. */
  lemma {:induction false} ChunksDoNotMatter(chunks: seq<string>)
    ensures AfterChunks(chunks).delivered == Messages(Joined(chunks))
    ensures AfterChunks(chunks).buffer == Last(SplitBlank(Joined(chunks)))
  {
    if chunks == [] {
      assert FirstBlank("") == 0 && SplitBlank("") == [""];
      assert Front([""]) == [];
    } else {
      ChunksDoNotMatter(Front(chunks));
      MessagesMore(Joined(Front(chunks)), Last(chunks));
    }
  }

  /** Whatever the server prints and however it is cut, the client hears the clean payloads in order and holds
      nothing back. */
  lemma AnyCutOfFramesHeard(frames: seq<Frame>, chunks: seq<string>)
    requires AllClean(frames) && Joined(chunks) == Print(frames)
    ensures AfterChunks(chunks) == Held("", AllSaid(frames))
  {
    ChunksDoNotMatter(chunks);
    FramesHeard(frames);
  }

  class EventReader {
    var buffer: string
    var delivered: seq<string>

    constructor ()
      ensures View() == Held("", [])
    {
      buffer, delivered := "", [];
    }

    function View(): Held
      reads this
    {
      Held(buffer, delivered)
    }

    method Read(chunk: string)
      modifies this
      ensures View() == AfterChunk(old(View()), chunk)
    {
      buffer := buffer + chunk;
      var parts := SplitBlank(buffer);
      buffer := Last(parts);
      DeliverAll(Front(parts));
    }

    method DeliverAll(parts: seq<string>)
      modifies this`delivered
      ensures delivered == old(delivered) + MessagesOf(parts)
    {
      for i := 0 to |parts|
        invariant delivered == old(delivered) + MessagesOf(parts[..i])
      {
        var part := parts[i];
        assert Front(parts[..i + 1]) == parts[..i] && Last(parts[..i + 1]) == part;
        if IsBlank(part) {
          continue;
        }
        var data := GatherData(part);
        if data != "" {
          delivered := delivered + [data];
        }
      }
      assert parts[..|parts|] == parts;
    }

    method GatherData(part: string) returns (data: string)
      ensures data == DataOf(SplitLines(part))
    {
      data := "";
      var lines := SplitLines(part);
      for i := 0 to |lines|
        invariant data == DataOf(lines[..i])
      {
        assert Front(lines[..i + 1]) == lines[..i] && Last(lines[..i + 1]) == lines[i];
        if IsData(lines[i]) {
          data := data + (if data != "" then "\n" else "") + TrimStart(lines[i][5..]);
        }
      }
      assert lines[..|lines|] == lines;
    }

    method ReadAll(chunks: seq<string>)
      requires buffer == "" && delivered == []
      modifies this
      ensures delivered == Messages(Joined(chunks))
    {
      for i := 0 to |chunks|
        invariant View() == AfterChunks(chunks[..i])
      {
        assert Front(chunks[..i + 1]) == chunks[..i] && Last(chunks[..i + 1]) == chunks[i];
        Read(chunks[i]);
      }
      assert chunks[..|chunks|] == chunks;
      ChunksDoNotMatter(chunks);
    }
  }
}
