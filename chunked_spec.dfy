/** The chunked-data reader of `ChunkedReaderMixin._read_chunked_data`,
    written as a state transformer over the values its loop updates. One
    `Step` is one pass through the loop body; `Run` is the loop; `ReadSpec`
    is a whole call, including the entry that loads the stored buffer.

    Both copies of the mixin (the `pas_http_client` one and the `dNG` one)
    run this same loop; they differ in the read quantum and in the names of
    the errors they raise, which `Flavour` distinguishes. */
module ChunkedSpec {
  import opened Base
  import opened Framing

  datatype Flavour = Pas | Dng

  /** Largest number of bytes requested from the reader in one pull. */
  function Quantum(f: Flavour): nat {
    match f
    case Pas => 16384
    case Dng => 4096
  }

  /** Why a call ends with an exception. The Python classes are:
      BufferIsNone -- `TypeError` from `len(None)`, in both copies;
      ReaderStarved -- `IOException` (pas), `OSError` (dNG);
      BadChunkSize -- `ValueError` from `int(octets, 16)`, in both copies;
      TimedOut -- "Timeout occurred before EOF": `IOException` (pas), `IOError` (dNG). */
  datatype ReadError = BufferIsNone | ReaderStarved | BadChunkSize | TimedOut

  /** The deadline. `passed(k)` tells whether the clock has reached the
      deadline when the loop condition is evaluated for the k-th time
      (counting from 0); `NoTimeout` is `timeout=None`. */
  datatype Timeout = NoTimeout | Deadline(passed: nat -> bool)

  /** The raw input: the wire bytes the reader hands out in order, and for
      the k-th pull a cap on how many it hands out (a short read). */
  datatype Source = Source(wire: Bytes, cap: nat -> nat)

  /** Where payload goes: the count `size_read`, the instance buffer, the
      slices passed to the callback so far, and the payload parts routed so
      far (a record kept for the proofs). */
  datatype Sink = Sink(sizeRead: int, stored: Option<Bytes>, delivered: seq<Bytes>, processed: Bytes)

  /** Everything else the loop reads and writes: the locals `size_unread`,
      `chunk_size`, `chunk_buffer`, `is_last_chunk`, the reader's position
      in the wire and the number of loop-condition evaluations so far. */
  datatype Locals = Locals(
    sizeUnread: int,
    chunkSize: int,
    chunkBuffer: Option<Bytes>,
    isLastChunk: bool,
    out: Sink,
    pos: nat,
    iter: nat)

  /** The state on entry to the loop, after `chunk_buffer` and `chunk_size`
      have been loaded from the stored buffer and the buffer cleared. */
  function Entry(held: Bytes, pos: nat): Locals {
    Locals(5, |held|, Some(held), false, Sink(0, None, [], []), pos, 0)
  }

  /** `reader(want)`: the next bytes of the wire, at most `want`, at most
      what is left, at most the pull's cap. */
  function Pull(src: Source, pos: nat, want: int, k: nat): (part: Bytes)
    requires pos <= |src.wire|
    ensures |part| <= Max(want, 0) && |part| <= src.cap(k)
    ensures pos + |part| <= |src.wire| && part == src.wire[pos..pos + |part|]
    ensures |part| == Max(0, Min(Min(want, |src.wire| - pos), src.cap(k)))
  {
    src.wire[pos..pos + Max(0, Min(Min(want, |src.wire| - pos), src.cap(k)))]
  }

  /** The loop condition; `iter` selects the clock reading. */
  predicate Continue(size: int, timeout: Timeout, s: Locals) {
    && s.sizeUnread > 0
    && (s.out.sizeRead < size || s.chunkSize > 0)
    && (timeout.NoTimeout? || !timeout.passed(s.iter))
  }

  /** Routing of one non-empty payload part: beyond the quota it goes to the
      stored buffer; across the quota its prefix of `size - size_read`
      bytes goes to the callback and the rest replaces the stored buffer;
      within the quota it goes to the callback. */
  function Route(size: int, o: Sink, part: Bytes): (r: Sink)
    requires |part| > 0
    ensures r.sizeRead == o.sizeRead + |part| && r.processed == o.processed + part
    ensures o.sizeRead > size ==> r.delivered == o.delivered
    ensures o.sizeRead <= size ==>
      && |r.delivered| == |o.delivered| + 1
      && r.delivered[..|o.delivered|] == o.delivered
      && r.delivered[|o.delivered|] == part[..Min(size - o.sizeRead, |part|)]
    ensures o.sizeRead > size ==> r.stored == Some(o.stored.GetOr([]) + part)
    ensures o.sizeRead <= size < o.sizeRead + |part| ==> r.stored == Some(part[size - o.sizeRead..])
    ensures o.sizeRead + |part| <= size ==> r.stored == o.stored
  {
    if o.sizeRead > size then
      Sink(o.sizeRead + |part|, Some(o.stored.GetOr([]) + part), o.delivered, o.processed + part)
    else if o.sizeRead + |part| > size then
      var k := size - o.sizeRead;
      Sink(o.sizeRead + |part|, Some(part[k..]), o.delivered + [part[..k]], o.processed + part)
    else
      Sink(o.sizeRead + |part|, o.stored, o.delivered + [part], o.processed + part)
  }

  /** `if part_size > 0: chunk_size -= part_size`, then route. */
  function Routed(size: int, s: Locals, data: Bytes): (r: Locals)
    ensures |data| == 0 ==> r == s
    ensures r.sizeUnread == s.sizeUnread && r.chunkSize == s.chunkSize - |data|
    ensures r.chunkBuffer == s.chunkBuffer && r.isLastChunk == s.isLastChunk
    ensures r.pos == s.pos && r.iter == s.iter
  {
    if |data| > 0 then s.(chunkSize := s.chunkSize - |data|, out := Route(size, s.out, data)) else s
  }

  datatype StepResult = Next(s: Locals) | Raise(e: ReadError, s: Locals)

  /** The bytes searched for the size line: held bytes, if any, then the pull. */
  function Hay(held: Option<Bytes>, part: Bytes): (r: Bytes)
    ensures r == held.GetOr([]) + part
  {
    if held.None? then part else held.value + part
  }

  /** A CRLF was found: parse the size before it and route what follows.
      `s` is the state after the pull, with the held bytes already dropped. */
  function SizeLine(size: int, s: Locals, hay: Bytes): (r: StepResult)
    requires FindCrlf(hay) >= 0
  {
    var nl := FindCrlf(hay);
    match ParseHex(hay[..nl])
    case None => Raise(BadChunkSize, s)
    case Some(v) =>
      var s4 := if v == 0 then s.(chunkSize := 0, isLastChunk := true)
                else s.(chunkSize := v, sizeUnread := s.sizeUnread + v);
      Next(Routed(size, s4, hay[nl + 2..]))
  }

  /** The loop body after a non-empty pull `part`; `s` is the state with
      the reader already moved past `part`. */
  function Body(size: int, s: Locals, part: Bytes): (r: StepResult)
    requires |part| > 0
  {
    var s2 := s.(sizeUnread := s.sizeUnread - |part|);
    if s.chunkSize < 1 then
      var hay := Hay(s.chunkBuffer, part);
      if FindCrlf(hay) < 0 then
        Next(s2.(chunkBuffer := Some(hay), sizeUnread := s2.sizeUnread + 3))
      else if s.chunkBuffer.Some? || !s.isLastChunk then
        SizeLine(size, s2.(chunkBuffer := None), hay)
      else
        Next(s2)
    else
      Next(Routed(size, s2, part))
  }

  /** One pass through the loop body: pull `min(quantum, size_unread)`
      bytes, raise if none came, otherwise go on with them. */
  function Step(q: nat, size: int, src: Source, s: Locals): (r: StepResult)
    requires s.pos <= |src.wire|
  {
    var part := Pull(src, s.pos, Min(q, s.sizeUnread), s.iter);
    var s1 := s.(pos := s.pos + |part|, iter := s.iter + 1);
    if |part| < 1 then Raise(ReaderStarved, s1) else Body(size, s1, part)
  }

  // -----------------------------------------------------------------------
  // One pass of the loop

  /** The reader is asked for `min(quantum, size_unread)` bytes; an empty
      answer raises at once with nothing else changed, any other answer is
      the next bytes of the wire and moves the reader past them. */
  lemma StepPull(q: nat, size: int, src: Source, s: Locals)
    requires s.pos <= |src.wire|
    ensures var r := Step(q, size, src, s);
      && r.s.iter == s.iter + 1
      && s.pos <= r.s.pos <= |src.wire|
      && r.s.pos - s.pos == |Pull(src, s.pos, Min(q, s.sizeUnread), s.iter)|
      && (r.s.pos == s.pos <==> r == Raise(ReaderStarved, s.(iter := s.iter + 1)))
      && (r.s.pos > s.pos ==> r == Body(size, s.(pos := r.s.pos, iter := s.iter + 1), src.wire[s.pos..r.s.pos]))
  {
  }

  /** An empty pull raises with nothing but the loop count changed. */
  lemma StepStarved(q: nat, size: int, src: Source, s: Locals)
    requires s.pos <= |src.wire|
    requires |Pull(src, s.pos, Min(q, s.sizeUnread), s.iter)| == 0
    ensures Step(q, size, src, s) == Raise(ReaderStarved, s.(iter := s.iter + 1))
  {
  }

  /** A non-empty pull moves the reader past it and goes on with `Body`. */
  lemma StepIsBody(q: nat, size: int, src: Source, s: Locals, part: Bytes)
    requires s.pos <= |src.wire|
    requires part == Pull(src, s.pos, Min(q, s.sizeUnread), s.iter) && |part| > 0
    ensures Step(q, size, src, s) == Body(size, s.(pos := s.pos + |part|, iter := s.iter + 1), part)
  {
  }

  /** Mid-chunk (`chunk_size >= 1`) the whole pull is payload and the
      budget goes down by its length. */
  lemma BodyMidChunk(size: int, s: Locals, part: Bytes)
    requires |part| > 0 && s.chunkSize >= 1
    ensures Body(size, s, part)
      == Next(Routed(size, s.(sizeUnread := s.sizeUnread - |part|), part))
  {
  }

  /** Without a CRLF in the held bytes and the pull, everything is held,
      nothing is routed and the budget grows by 3. */
  lemma BodyNoCrlf(size: int, s: Locals, part: Bytes)
    requires |part| > 0 && s.chunkSize < 1
    requires FindCrlf(s.chunkBuffer.GetOr([]) + part) < 0
    ensures Body(size, s, part) == Next(s.(chunkBuffer := Some(s.chunkBuffer.GetOr([]) + part),
                                           sizeUnread := s.sizeUnread - |part| + 3))
  {
  }

  /** After the terminal chunk, with nothing held, a pull holding a CRLF is
      dropped: only the budget changes. */
  lemma BodyAfterLastChunk(size: int, s: Locals, part: Bytes)
    requires |part| > 0 && s.chunkSize < 1 && s.chunkBuffer.None? && s.isLastChunk
    requires FindCrlf(part) >= 0
    ensures Body(size, s, part) == Next(s.(sizeUnread := s.sizeUnread - |part|))
  {
  }

  /** A size line whose octets before the first CRLF are not a hex number
      raises, with the held bytes dropped and the pull taken off the budget. */
  lemma BodyBadSize(size: int, s: Locals, part: Bytes)
    requires |part| > 0 && s.chunkSize < 1 && (s.chunkBuffer.Some? || !s.isLastChunk)
    requires var hay := s.chunkBuffer.GetOr([]) + part;
      FindCrlf(hay) >= 0 && ParseHex(hay[..FindCrlf(hay)]).None?
    ensures Body(size, s, part)
         == Raise(BadChunkSize, s.(sizeUnread := s.sizeUnread - |part|, chunkBuffer := None))
  {
    assert Hay(s.chunkBuffer, part) == s.chunkBuffer.GetOr([]) + part;
  }

  /** A size line of size `v`: the bytes after the CRLF are the payload
      routed, the held bytes are dropped, a zero size marks the last chunk
      and leaves the budget alone, another size is added to it. */
  lemma BodySizeLine(size: int, s: Locals, part: Bytes, v: nat)
    requires |part| > 0 && s.chunkSize < 1 && (s.chunkBuffer.Some? || !s.isLastChunk)
    requires var hay := s.chunkBuffer.GetOr([]) + part;
      FindCrlf(hay) >= 0 && ParseHex(hay[..FindCrlf(hay)]) == Some(v)
    ensures var hay := s.chunkBuffer.GetOr([]) + part;
      var s3 := s.(sizeUnread := s.sizeUnread - |part|, chunkBuffer := None);
      Body(size, s, part)
        == Next(Routed(size, if v == 0 then s3.(chunkSize := 0, isLastChunk := true)
                             else s3.(chunkSize := v, sizeUnread := s3.sizeUnread + v),
                       hay[FindCrlf(hay) + 2..]))
  {
    assert Hay(s.chunkBuffer, part) == s.chunkBuffer.GetOr([]) + part;
  }

  /** A pull that starts with a size line as a server writes it, hex digits
      and CRLF: that size is taken, and exactly the bytes after the CRLF are
      routed as payload. */
  lemma BodyEncodedSizeLine(size: int, s: Locals, n: nat, rest: Bytes, part: Bytes)
    requires s.chunkSize < 1 && s.chunkBuffer.None? && !s.isLastChunk
    requires part == HexEncode(n) + [CR, LF] + rest
    ensures Body(size, s, part)
         == Next(Routed(size, if n == 0 then s.(sizeUnread := s.sizeUnread - |part|, chunkSize := 0, isLastChunk := true)
                              else s.(sizeUnread := s.sizeUnread - |part| + n, chunkSize := n),
                        rest))
  {
    EncodedSizeLine(n, rest, part);
    assert s.chunkBuffer.GetOr([]) + part == part;
    BodySizeLine(size, s, part, n);
  }

  /** Once the terminal chunk has been seen it stays seen. */
  lemma StepKeepsLastChunk(q: nat, size: int, src: Source, s: Locals)
    requires s.pos <= |src.wire| && s.isLastChunk
    ensures Step(q, size, src, s).s.isLastChunk
  {
  }

  // -----------------------------------------------------------------------
  // The loop

  datatype Exit = LoopEnded | Raised(e: ReadError)

  datatype RunResult = RunResult(exit: Exit, final: Locals)

  /** The `while` loop. */
  function Run(q: nat, size: int, src: Source, timeout: Timeout, s: Locals): (r: RunResult)
    requires s.pos <= |src.wire|
    ensures s.pos <= r.final.pos <= |src.wire|
    decreases |src.wire| - s.pos
  {
    if !Continue(size, timeout, s) then RunResult(LoopEnded, s)
    else
      StepPull(q, size, src, s);
      match Step(q, size, src, s)
      case Raise(e, s1) => RunResult(Raised(e), s1)
      case Next(s1) => Run(q, size, src, timeout, s1)
  }

  /** One pass of a loop whose condition holds and that raises ends the loop. */
  lemma RunRaise(q: nat, size: int, src: Source, timeout: Timeout, s: Locals, e: ReadError, t: Locals)
    requires s.pos <= |src.wire| && Continue(size, timeout, s)
    requires Step(q, size, src, s) == Raise(e, t)
    ensures Run(q, size, src, timeout, s) == RunResult(Raised(e), t)
  {
  }

  /** One pass of a loop whose condition holds and that goes on leaves the
      rest of the loop to run from the new state. */
  lemma RunNext(q: nat, size: int, src: Source, timeout: Timeout, s: Locals, t: Locals)
    requires s.pos <= |src.wire| && Continue(size, timeout, s)
    requires Step(q, size, src, s) == Next(t)
    ensures t.pos <= |src.wire|
    ensures Run(q, size, src, timeout, s) == Run(q, size, src, timeout, t)
  {
    StepPull(q, size, src, s);
  }

  /** What one call leaves behind: the exception it raises, if any, the
      slices given to the callback, the stored buffer, and the reader's
      position. */
  datatype Outcome = Outcome(error: Option<ReadError>, delivered: seq<Bytes>,
                             stored: Option<Bytes>, pos: nat)

  /** The loop run of a call whose stored buffer was `held`. */
  function CallRun(f: Flavour, held: Bytes, size: int, src: Source, timeout: Timeout, pos: nat): RunResult
    requires pos <= |src.wire|
  {
    Run(Quantum(f), size, src, timeout, Entry(held, pos))
  }

  /** One call of `_read_chunked_data(reader, callback, size, timeout)` on a
      mixin whose stored buffer is `buffer`: `len(None)` fails first; then
      the loop runs from the entry state, and a loop that ends with budget
      left raises the timeout error. */
  function ReadSpec(f: Flavour, buffer: Option<Bytes>, size: int, src: Source, timeout: Timeout,
                    pos: nat): (o: Outcome)
    requires pos <= |src.wire|
    ensures pos <= o.pos <= |src.wire|
  {
    if buffer.None? then Outcome(Some(BufferIsNone), [], None, pos)
    else
      var r := CallRun(f, buffer.value, size, src, timeout, pos);
      var error := match r.exit
        case Raised(e) => Some(e)
        case LoopEnded => if r.final.sizeUnread > 0 then Some(TimedOut) else None;
      Outcome(error, r.final.out.delivered, r.final.out.stored, r.final.pos)
  }

  /** A call whose loop, from the state `s` it has reached, raises `e` in
      the next pass leaves the state of that pass behind. */
  lemma CallRaises(f: Flavour, held: Bytes, size: int, src: Source, timeout: Timeout, pos: nat,
                   s: Locals, e: ReadError, t: Locals)
    requires pos <= |src.wire| && s.pos <= |src.wire| && Continue(size, timeout, s)
    requires Run(Quantum(f), size, src, timeout, s) == CallRun(f, held, size, src, timeout, pos)
    requires Step(Quantum(f), size, src, s) == Raise(e, t)
    ensures ReadSpec(f, Some(held), size, src, timeout, pos)
         == Outcome(Some(e), t.out.delivered, t.out.stored, t.pos)
  {
    RunRaise(Quantum(f), size, src, timeout, s, e, t);
  }

  /** A call whose loop condition fails at the state `s` it has reached
      ends there, raising the timeout error when budget is left. */
  lemma CallEnds(f: Flavour, held: Bytes, size: int, src: Source, timeout: Timeout, pos: nat,
                 s: Locals)
    requires pos <= |src.wire| && s.pos <= |src.wire| && !Continue(size, timeout, s)
    requires Run(Quantum(f), size, src, timeout, s) == CallRun(f, held, size, src, timeout, pos)
    ensures ReadSpec(f, Some(held), size, src, timeout, pos)
         == Outcome(if s.sizeUnread > 0 then Some(TimedOut) else None, s.out.delivered, s.out.stored, s.pos)
  {
  }

  /** What a call promises. */
  lemma ReadSpecMeans(f: Flavour, buffer: Option<Bytes>, size: int, src: Source, timeout: Timeout,
                      pos: nat)
    requires pos <= |src.wire|
    ensures var o := ReadSpec(f, buffer, size, src, timeout, pos);
      // `len(None)` fails before anything else happens
      && (buffer.None? <==> o.error == Some(BufferIsNone))
      && (buffer.None? ==> o == Outcome(Some(BufferIsNone), [], None, pos))
      // the callback never receives more than the quota in total
      && |Flatten(o.delivered)| <= Max(size, 0)
      // the callback slices and then the stored buffer are exactly the
      // payload routed in this call: the old buffer is not kept
      && (buffer.Some? ==>
            Flatten(o.delivered) + o.stored.GetOr([])
              == CallRun(f, buffer.value, size, src, timeout, pos).final.out.processed)
      // the timeout error is raised exactly when the loop ended with budget left
      && (buffer.Some? ==>
            var r := CallRun(f, buffer.value, size, src, timeout, pos);
            (o.error == Some(TimedOut) <==> r.exit.LoopEnded? && r.final.sizeUnread > 0))
  {
    if buffer.Some? {
      RunKeepsInv(Quantum(f), size, src, timeout, Entry(buffer.value, pos));
      RunRaises(Quantum(f), size, src, timeout, Entry(buffer.value, pos));
    }
  }

  // -----------------------------------------------------------------------
  // The invariant of the loop: conservation and the quota

  /** The callback slices followed by the stored buffer are exactly the
      routed payload; the callback got min(size_read, max(size, 0)) bytes;
      the buffer is only ever filled once the quota has been passed. */
  ghost predicate Inv(size: int, o: Sink) {
    && o.sizeRead == |o.processed|
    && Flatten(o.delivered) + o.stored.GetOr([]) == o.processed
    && |Flatten(o.delivered)| == Min(o.sizeRead, Max(size, 0))
    && (o.stored.Some? ==> o.sizeRead > size)
  }

  lemma RouteKeepsInv(size: int, o: Sink, part: Bytes)
    requires |part| > 0 && Inv(size, o)
    ensures Inv(size, Route(size, o, part))
  {
    var r := Route(size, o, part);
    if o.sizeRead > size {
      calc {
        Flatten(r.delivered) + r.stored.GetOr([]);
        Flatten(o.delivered) + (o.stored.GetOr([]) + part);
        (Flatten(o.delivered) + o.stored.GetOr([])) + part;
      }
    } else if o.sizeRead + |part| > size {
      var k := size - o.sizeRead;
      FlattenAppend(o.delivered, part[..k]);
      assert part[..k] + part[k..] == part;
      calc {
        Flatten(r.delivered) + r.stored.GetOr([]);
        Flatten(o.delivered) + part[..k] + part[k..];
        Flatten(o.delivered) + part;
      }
    } else {
      FlattenAppend(o.delivered, part);
    }
  }

  lemma RoutedKeepsInv(size: int, s: Locals, data: Bytes)
    requires Inv(size, s.out)
    ensures Inv(size, Routed(size, s, data).out)
  {
    if |data| > 0 { RouteKeepsInv(size, s.out, data); }
  }

  lemma SizeLineKeepsInv(size: int, s: Locals, hay: Bytes)
    requires FindCrlf(hay) >= 0 && Inv(size, s.out)
    ensures Inv(size, SizeLine(size, s, hay).s.out)
  {
    var nl := FindCrlf(hay);
    match ParseHex(hay[..nl])
    case None =>
    case Some(v) =>
      var s4 := if v == 0 then s.(chunkSize := 0, isLastChunk := true)
                else s.(chunkSize := v, sizeUnread := s.sizeUnread + v);
      RoutedKeepsInv(size, s4, hay[nl + 2..]);
  }

  lemma BodyKeepsInv(size: int, s: Locals, part: Bytes)
    requires |part| > 0 && Inv(size, s.out)
    ensures Inv(size, Body(size, s, part).s.out)
  {
    var s2 := s.(sizeUnread := s.sizeUnread - |part|);
    if s.chunkSize < 1 {
      var hay := Hay(s.chunkBuffer, part);
      if FindCrlf(hay) < 0 {
        BodyNoCrlf(size, s, part);
      } else if s.chunkBuffer.Some? || !s.isLastChunk {
        assert Body(size, s, part) == SizeLine(size, s2.(chunkBuffer := None), hay);
        SizeLineKeepsInv(size, s2.(chunkBuffer := None), hay);
      } else {
        BodyAfterLastChunk(size, s, part);
      }
    } else {
      BodyMidChunk(size, s, part);
      RoutedKeepsInv(size, s2, part);
    }
  }

  lemma StepKeepsInv(q: nat, size: int, src: Source, s: Locals)
    requires s.pos <= |src.wire| && Inv(size, s.out)
    ensures Inv(size, Step(q, size, src, s).s.out)
  {
    var part := Pull(src, s.pos, Min(q, s.sizeUnread), s.iter);
    if |part| >= 1 {
      BodyKeepsInv(size, s.(pos := s.pos + |part|, iter := s.iter + 1), part);
    }
  }

  /** The invariant holds wherever the loop stops or raises. */
  lemma {:induction false} RunKeepsInv(q: nat, size: int, src: Source, timeout: Timeout, s: Locals)
    requires s.pos <= |src.wire| && Inv(size, s.out)
    ensures Inv(size, Run(q, size, src, timeout, s).final.out)
    decreases |src.wire| - s.pos
  {
    if Continue(size, timeout, s) {
      StepKeepsInv(q, size, src, s);
      StepPull(q, size, src, s);
      match Step(q, size, src, s)
      case Raise(e, s1) =>
      case Next(s1) => RunKeepsInv(q, size, src, timeout, s1);
    }
  }

  /** Inside the loop only the reader and the size parse raise. */
  lemma {:induction false} RunRaises(q: nat, size: int, src: Source, timeout: Timeout, s: Locals)
    requires s.pos <= |src.wire|
    ensures var x := Run(q, size, src, timeout, s).exit;
      x.Raised? ==> x.e == ReaderStarved || x.e == BadChunkSize
    decreases |src.wire| - s.pos
  {
    if Continue(size, timeout, s) {
      StepPull(q, size, src, s);
      match Step(q, size, src, s)
      case Raise(e, s1) =>
      case Next(s1) => RunRaises(q, size, src, timeout, s1);
    }
  }

  // -----------------------------------------------------------------------
  // How the loop ends

  /** A loop that ends without raising ends because its condition is false. */
  lemma {:induction false} RunEndsOnCondition(q: nat, size: int, src: Source, timeout: Timeout, s: Locals)
    requires s.pos <= |src.wire|
    ensures var r := Run(q, size, src, timeout, s);
      r.exit.LoopEnded? ==> !Continue(size, timeout, r.final)
    decreases |src.wire| - s.pos
  {
    if Continue(size, timeout, s) {
      StepPull(q, size, src, s);
      match Step(q, size, src, s)
      case Raise(e, s1) =>
      case Next(s1) => RunEndsOnCondition(q, size, src, timeout, s1);
    }
  }

  /** "Timeout occurred before EOF" is raised when budget is left, whichever
      conjunct of the loop condition failed: the deadline, or a quota reached
      while no chunk bytes are outstanding. Without a deadline it is only the
      latter. */
  lemma TimedOutMeans(f: Flavour, buffer: Bytes, size: int, src: Source, timeout: Timeout, pos: nat)
    requires pos <= |src.wire|
    ensures var o := ReadSpec(f, Some(buffer), size, src, timeout, pos);
      var fin := CallRun(f, buffer, size, src, timeout, pos).final;
      o.error == Some(TimedOut) ==>
        fin.sizeUnread > 0 &&
        ((fin.out.sizeRead >= size && fin.chunkSize <= 0) || (timeout.Deadline? && timeout.passed(fin.iter)))
    ensures var o := ReadSpec(f, Some(buffer), size, src, timeout, pos);
      var fin := CallRun(f, buffer, size, src, timeout, pos).final;
      o.error == Some(TimedOut) && timeout.NoTimeout? ==> fin.out.sizeRead >= size && fin.chunkSize <= 0
  {
    RunEndsOnCondition(Quantum(f), size, src, timeout, Entry(buffer, pos));
    RunRaises(Quantum(f), size, src, timeout, Entry(buffer, pos));
  }
}
