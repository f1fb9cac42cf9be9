/** `ChunkedReaderMixin`: the object that owns the buffer of chunked
    payload left over by one read call for the next, and the read loop
    itself, proved against `ChunkedSpec.ReadSpec`. */
module ChunkedReader {
  import opened Base
  import opened Framing
  import opened ChunkedSpec

  class ChunkedReaderMixin {
    /** Which copy of the mixin this is (read quantum, error names). */
    const flavour: Flavour
    /** `_chunked_reader_buffer` (pas) / `chunked_reader_buffer` (dNG). */
    var buffer: Option<Bytes>

    constructor (flavour: Flavour)
      ensures this.flavour == flavour && buffer.None?
    {
      this.flavour := flavour;
      buffer := None;
    }

    /** `_reset_chunked_buffer`: forget the leftover payload. */
    method ResetChunkedBuffer()
      modifies this
      ensures buffer.None?
    {
      buffer := None;
    }

    /** The routing block at the end of the loop body: payload beyond the
        quota is appended to the buffer, payload across it is split between
        the callback and a fresh buffer, payload within it goes to the
        callback; `size_read` grows by the payload's length. */
    method RoutePart(size: int, sizeRead: int, partData: Bytes, delivered: seq<Bytes>,
                     ghost processed: Bytes)
      returns (newSizeRead: int, newDelivered: seq<Bytes>)
      requires |partData| > 0
      modifies this
      ensures Sink(newSizeRead, buffer, newDelivered, processed + partData)
           == Route(size, Sink(sizeRead, old(buffer), delivered, processed), partData)
    {
      var partSize := |partData|;
      newDelivered := delivered;
      if sizeRead > size {
        assert (if buffer.None? then partData else buffer.value + partData)
            == buffer.GetOr([]) + partData;
        buffer := Some(if buffer.None? then partData else buffer.value + partData);
      } else if sizeRead + partSize > size {
        var sizeExpected := size - (sizeRead + partSize);
        assert PyIndex(partSize, sizeExpected) == size - sizeRead;
        buffer := Some(PyFrom(partData, sizeExpected));
        newDelivered := delivered + [PyTo(partData, sizeExpected)];
        assert buffer == Some(partData[size - sizeRead..]);
        assert newDelivered == delivered + [partData[..size - sizeRead]];
      } else {
        newDelivered := delivered + [partData];
      }
      newSizeRead := sizeRead + partSize;
    }

    /** The "get size for next chunk" block, entered with `chunk_size < 1`
        and the pull `partData` already taken off the budget: hold the bytes
        while no CRLF is in sight, otherwise read the size in front of the
        CRLF and keep what follows it as payload. `bad` is the `ValueError`
        of `int(octets, 16)`; `partSize` is 0 when nothing is to be routed.
        The result is what `Body` computes for the state `s`. */
    method NextChunkSize(ghost s: Locals, size: int, chunkBuffer: Option<Bytes>, chunkSize: int,
                         isLastChunk: bool, sizeUnread: int, partData: Bytes)
      returns (bad: bool, newChunkBuffer: Option<Bytes>, newChunkSize: int, newIsLastChunk: bool,
               newSizeUnread: int, newPartData: Bytes, partSize: int)
      requires |partData| > 0 && chunkSize < 1
      requires s.chunkBuffer == chunkBuffer && s.chunkSize == chunkSize && s.isLastChunk == isLastChunk
      requires s.sizeUnread - |partData| == sizeUnread
      ensures Body(size, s, partData)
           == if bad then Raise(BadChunkSize, s.(chunkBuffer := newChunkBuffer, chunkSize := newChunkSize,
                                                 isLastChunk := newIsLastChunk, sizeUnread := newSizeUnread))
              else Next(Routed(size, s.(chunkBuffer := newChunkBuffer, chunkSize := newChunkSize,
                                        isLastChunk := newIsLastChunk, sizeUnread := newSizeUnread),
                               if partSize > 0 then newPartData else []))
      ensures !bad ==> partSize == (if partSize > 0 then |newPartData| else 0)
    {
      bad, newChunkBuffer, newChunkSize, newIsLastChunk, newSizeUnread, newPartData, partSize :=
        false, chunkBuffer, chunkSize, isLastChunk, sizeUnread, partData, |partData|;
      var hay := if chunkBuffer.None? then partData else chunkBuffer.value + partData;
      assert hay == chunkBuffer.GetOr([]) + partData;
      var newline := FindCrlf(hay);
      if newline < 0 {
        BodyNoCrlf(size, s, partData);
        newChunkBuffer := Some(hay);
        partSize := 0;
        newSizeUnread := sizeUnread + 3;
        return;
      }
      if chunkBuffer.None? && isLastChunk {
        BodyAfterLastChunk(size, s, partData);
        partSize := 0;
        return;
      }
      newChunkBuffer := None;
      ghost var s2 := s.(sizeUnread := sizeUnread, chunkBuffer := None);
      assert Body(size, s, partData) == SizeLine(size, s2, hay);
      bad, newChunkSize, newIsLastChunk, newSizeUnread, newPartData, partSize :=
        ParseChunkSize(s2, size, hay, newline, chunkSize, isLastChunk, sizeUnread);
    }

    /** The size line found at `newline`: `int(octets, 16)` of the octets in
        front of the CRLF, the last-chunk flag for a zero size or the budget
        grown by any other, and the bytes after the CRLF as payload. The
        result is what `SizeLine` computes for the state `s`. */
    method ParseChunkSize(ghost s: Locals, size: int, hay: Bytes, newline: int, chunkSize: int,
                          isLastChunk: bool, sizeUnread: int)
      returns (bad: bool, newChunkSize: int, newIsLastChunk: bool, newSizeUnread: int,
               newPartData: Bytes, partSize: int)
      requires newline == FindCrlf(hay) >= 0
      requires s.chunkSize == chunkSize && s.isLastChunk == isLastChunk && s.sizeUnread == sizeUnread
      ensures SizeLine(size, s, hay)
           == if bad then Raise(BadChunkSize, s.(chunkSize := newChunkSize, isLastChunk := newIsLastChunk,
                                                 sizeUnread := newSizeUnread))
              else Next(Routed(size, s.(chunkSize := newChunkSize, isLastChunk := newIsLastChunk,
                                        sizeUnread := newSizeUnread),
                               if partSize > 0 then newPartData else []))
      ensures !bad ==> partSize == (if partSize > 0 then |newPartData| else 0)
    {
      bad, newChunkSize, newIsLastChunk, newSizeUnread := false, chunkSize, isLastChunk, sizeUnread;
      var octets := hay[..newline];
      newPartData := hay[2 + newline..];
      partSize := |newPartData|;
      var v := ParseHex(octets);
      if v.None? {
        bad := true;
        return;
      }
      newChunkSize := v.value;
      if newChunkSize == 0 {
        newIsLastChunk := true;
      } else {
        newSizeUnread := newSizeUnread + newChunkSize;
      }
    }

    /** The loop body after a non-empty pull `partData`: take it off the
        budget, look for the next size line when no chunk is open, and route
        the payload. `bad` is the `ValueError` of a size that is not hex.
        The new locals and buffer are what `Body` computes. */
    method ProcessPart(ghost s: Locals, size: int, partData: Bytes, sizeUnread: int, chunkSize: int,
                       chunkBuffer: Option<Bytes>, isLastChunk: bool, sizeRead: int,
                       delivered: seq<Bytes>, ghost processed: Bytes)
      returns (bad: bool, newSizeUnread: int, newChunkSize: int, newChunkBuffer: Option<Bytes>,
               newIsLastChunk: bool, newSizeRead: int, newDelivered: seq<Bytes>,
               ghost newProcessed: Bytes)
      requires |partData| > 0
      requires s == Locals(sizeUnread, chunkSize, chunkBuffer, isLastChunk,
                           Sink(sizeRead, buffer, delivered, processed), s.pos, s.iter)
      modifies this
      ensures Body(size, s, partData)
           == if bad then Raise(BadChunkSize, Locals(newSizeUnread, newChunkSize, newChunkBuffer, newIsLastChunk,
                                                     Sink(newSizeRead, buffer, newDelivered, newProcessed),
                                                     s.pos, s.iter))
              else Next(Locals(newSizeUnread, newChunkSize, newChunkBuffer, newIsLastChunk,
                               Sink(newSizeRead, buffer, newDelivered, newProcessed), s.pos, s.iter))
    {
      var partSize := |partData|;
      var data := partData;
      newSizeUnread := sizeUnread - partSize;
      newChunkSize, newChunkBuffer, newIsLastChunk := chunkSize, chunkBuffer, isLastChunk;
      newSizeRead, newDelivered, newProcessed := sizeRead, delivered, processed;
      // the state the routing starts from, and the payload it routes
      ghost var mid := s.(sizeUnread := s.sizeUnread - |partData|);
      ghost var payload := partData;
      if chunkSize < 1 {
        ghost var unread := newSizeUnread;
        bad, newChunkBuffer, newChunkSize, newIsLastChunk, newSizeUnread, data, partSize :=
          NextChunkSize(s, size, chunkBuffer, chunkSize, isLastChunk, newSizeUnread, partData);
        if bad {
          return;
        }
        mid := s.(chunkBuffer := newChunkBuffer, chunkSize := newChunkSize,
                  isLastChunk := newIsLastChunk, sizeUnread := newSizeUnread);
        payload := if partSize > 0 then data else [];
      } else {
        bad := false;
        BodyMidChunk(size, s, partData);
      }
      if partSize > 0 {
        newChunkSize := newChunkSize - partSize;
        newSizeRead, newDelivered := RoutePart(size, sizeRead, data, delivered, processed);
        newProcessed := processed + data;
      }
    }

    /** `_read_chunked_data(reader, callback, size, timeout)`. The reader is
        `src` read from `pos`; the slices handed to the callback are
        returned in `delivered`; `newPos` is where the reader was left;
        `error` is the exception raised, if any. */
    method ReadChunkedData(src: Source, pos: nat, size: int, timeout: Timeout)
      returns (error: Option<ReadError>, delivered: seq<Bytes>, newPos: nat)
      requires pos <= |src.wire|
      modifies this
      ensures Outcome(error, delivered, buffer, newPos) == ReadSpec(flavour, old(buffer), size, src, timeout, pos)
    {
      delivered := [];
      if buffer.None? {
        return Some(BufferIsNone), [], pos;
      }
      var isLastChunk := false;
      var sizeRead := 0;
      var sizeUnread := 5;
      var chunkBuffer := buffer;
      var chunkSize := |buffer.value|;
      ghost var held := buffer.value;
      ghost var start := Entry(held, pos);
      buffer := None;

      var q := Quantum(flavour);
      var p := pos;
      var k: nat := 0;
      ghost var processed: Bytes := [];
      while sizeUnread > 0 && (sizeRead < size || chunkSize > 0) && (timeout.NoTimeout? || !timeout.passed(k))
        invariant p <= |src.wire|
        invariant Run(q, size, src, timeout,
                      Locals(sizeUnread, chunkSize, chunkBuffer, isLastChunk,
                             Sink(sizeRead, buffer, delivered, processed), p, k))
               == Run(q, size, src, timeout, start)
        decreases |src.wire| - p
      {
        ghost var before := Locals(sizeUnread, chunkSize, chunkBuffer, isLastChunk,
                                   Sink(sizeRead, buffer, delivered, processed), p, k);
        var partSize := if sizeUnread > q then q else sizeUnread;
        var partData := Pull(src, p, partSize, k);
        ghost var part := Pull(src, before.pos, Min(q, before.sizeUnread), before.iter);
        assert partData == part;
        p := p + |partData|;
        k := k + 1;
        partSize := |partData|;
        if partSize < 1 {
          StepStarved(q, size, src, before);
          CallRaises(flavour, held, size, src, timeout, pos, before, ReaderStarved,
                     before.(iter := before.iter + 1));
          error, newPos := Some(ReaderStarved), p;
          return;
        }
        StepIsBody(q, size, src, before, partData);
        ghost var s1 := before.(pos := before.pos + |partData|, iter := before.iter + 1);
        assert Step(q, size, src, before) == Body(size, s1, partData);
        var bad;
        bad, sizeUnread, chunkSize, chunkBuffer, isLastChunk, sizeRead, delivered, processed :=
          ProcessPart(s1, size, partData, sizeUnread, chunkSize, chunkBuffer, isLastChunk,
                      sizeRead, delivered, processed);
        ghost var after := Locals(sizeUnread, chunkSize, chunkBuffer, isLastChunk,
                                  Sink(sizeRead, buffer, delivered, processed), s1.pos, s1.iter);
        assert Body(size, s1, partData) == if bad then Raise(BadChunkSize, after) else Next(after);
        assert s1.pos == p && s1.iter == k;
        if bad {
          CallRaises(flavour, held, size, src, timeout, pos, before, BadChunkSize, after);
          error, newPos := Some(BadChunkSize), p;
          return;
        }
        RunNext(q, size, src, timeout, before, after);
      }
      CallEnds(flavour, held, size, src, timeout, pos,
               Locals(sizeUnread, chunkSize, chunkBuffer, isLastChunk,
                      Sink(sizeRead, buffer, delivered, processed), p, k));
      error := if sizeUnread > 0 then Some(TimedOut) else None;
      newPos := p;
    }
  }
}
