/** Concrete calls of the chunked reader on the wire
    `4\r\nWiki\r\n5\r\npedia\r\n0\r\n\r\n`, read by a reader that returns
    exactly what it is asked for. They show the behaviour as written: a
    straddling chunk is split at the quota, and the bytes left in the
    buffer are re-read as a chunk-size counter by the next call, so the
    second call hands the next size line to the callback as payload.
    A last call shows the held bytes being searched again for a size line
    afterwards, so that payload behind their CRLF is delivered after all. */
module ChunkedTrace {
  import opened Base
  import opened Framing
  import opened ChunkedSpec

  /** `4\r\nWiki\r\n5\r\npedia\r\n0\r\n\r\n` */
  const WikiWire: Bytes := [52, 13, 10, 87, 105, 107, 105, 13, 10,
                            53, 13, 10, 112, 101, 100, 105, 97, 13, 10,
                            48, 13, 10, 13, 10]

  /** A reader that never returns fewer bytes than asked while any are left. */
  function Exact(wire: Bytes): Source {
    Source(wire, (k: nat) => |wire|)
  }

  /** From an empty buffer with `size=3`: the callback gets `Wi` and then
      `k`, `i\r\n` stays in the buffer, and no exception is raised. */
  lemma FirstCall(f: Flavour)
    ensures ReadSpec(f, Some([]), 3, Exact(WikiWire), NoTimeout, 0)
         == Outcome(None, [[87, 105], [107]], Some([105, 13, 10]), 9)
  {
    var src := Exact(WikiWire);
    var q := Quantum(f);
    var t1 := Locals(4, 2, None, false, Sink(2, None, [[87, 105]], [87, 105]), 5, 1);
    var t2 := Locals(0, -2, None, false,
                     Sink(6, Some([105, 13, 10]), [[87, 105], [107]], [87, 105, 107, 105, 13, 10]), 9, 2);
    FirstPass(q);
    RunNext(q, 3, src, NoTimeout, Entry([], 0), t1);
    SecondPass(q);
    RunNext(q, 3, src, NoTimeout, t1, t2);
    // the budget is spent: the loop ends without the timeout error
    CallEnds(f, [], 3, src, NoTimeout, 0, t2);
  }

  /** Pass 1 of the first call: the size line `4` and two payload bytes. */
  lemma FirstPass(q: nat)
    requires q >= 5
    ensures Step(q, 3, Exact(WikiWire), Entry([], 0))
         == Next(Locals(4, 2, None, false, Sink(2, None, [[87, 105]], [87, 105]), 5, 1))
  {
    var s1 := Entry([], 0).(pos := 5, iter := 1);
    var p1 := WikiWire[..5];
    assert p1 == [52, 13, 10, 87, 105] && p1[1..] == [13, 10, 87, 105];
    assert FindCrlf(p1[1..]) == 0 && FindCrlf(p1) == 1;
    assert p1[..1] == [52] && [52][..0] == [];
    assert HexDigits([52]) == Some(4);
    StepIsBody(q, 3, Exact(WikiWire), Entry([], 0), p1);
    BodySizeLine(3, s1, p1, 4);
    assert ([] + p1)[3..] == [87, 105];
  }

  /** Pass 2 of the first call: four payload bytes straddle the quota. */
  lemma SecondPass(q: nat)
    requires q >= 5
    ensures Step(q, 3, Exact(WikiWire), Locals(4, 2, None, false, Sink(2, None, [[87, 105]], [87, 105]), 5, 1))
         == Next(Locals(0, -2, None, false,
                        Sink(6, Some([105, 13, 10]), [[87, 105], [107]], [87, 105, 107, 105, 13, 10]), 9, 2))
  {
    var t1 := Locals(4, 2, None, false, Sink(2, None, [[87, 105]], [87, 105]), 5, 1);
    var p2 := WikiWire[5..9];
    assert p2 == [107, 105, 13, 10];
    assert p2[..1] == [107] && p2[1..] == [105, 13, 10];
    assert [87, 105] + p2 == [87, 105, 107, 105, 13, 10];
    StepIsBody(q, 3, Exact(WikiWire), t1, p2);
    BodyMidChunk(3, t1.(pos := 9, iter := 2), p2);
  }

  /** The second call with `size=6` re-counts `i\r\n` as three payload bytes
      still owed and hands the next five wire bytes, `5\r\npe`, to the
      callback; the buffer stays cleared. */
  lemma SecondCall(f: Flavour)
    ensures ReadSpec(f, Some([105, 13, 10]), 6, Exact(WikiWire), NoTimeout, 9)
         == Outcome(None, [[53, 13, 10, 112, 101]], None, 14)
  {
    var src := Exact(WikiWire);
    var q := Quantum(f);
    var s0 := Entry([105, 13, 10], 9);
    var t1 := Locals(0, -2, Some([105, 13, 10]), false,
                     Sink(5, None, [[53, 13, 10, 112, 101]], [53, 13, 10, 112, 101]), 14, 1);
    var p1 := WikiWire[9..14];
    assert p1 == [53, 13, 10, 112, 101];
    StepIsBody(q, 6, src, s0, p1);
    BodyMidChunk(6, s0.(pos := 14, iter := 1), p1);
    assert Step(q, 6, src, s0) == Next(t1);
    RunNext(q, 6, src, NoTimeout, s0, t1);
    CallEnds(f, [105, 13, 10], 6, src, NoTimeout, 9, t1);
  }

  // ---------------------------------------------------------------------
  // Left-over bytes are scanned again

  /** `1234Z`, read by a reader that returns only four bytes the first time. */
  function ShortFirst(): Source {
    Source([49, 50, 51, 52, 90], (k: nat) => if k == 0 then 4 else 5)
  }

  /** The held bytes `a\r\nX`: `size=100` and a stored buffer of four bytes.
      They are first counted as four chunk bytes still owed, so `1234` goes to
      the callback. The next pull is then searched together with the held
      bytes for a size line: `a` (10) is read and `X` comes out as payload
      along with `Z`. The wire then runs dry. */
  lemma HeldBytesRescanned(f: Flavour)
    ensures ReadSpec(f, Some([97, 13, 10, 88]), 100, ShortFirst(), NoTimeout, 0)
         == Outcome(Some(ReaderStarved), [[49, 50, 51, 52], [88, 90]], None, 5)
  {
    var q := Quantum(f);
    var held: Bytes := [97, 13, 10, 88];
    var s0 := Entry(held, 0);
    var t1 := Locals(1, 0, Some(held), false, Sink(4, None, [[49, 50, 51, 52]], [49, 50, 51, 52]), 4, 1);
    var t2 := Locals(10, 8, None, false,
                     Sink(6, None, [[49, 50, 51, 52], [88, 90]], [49, 50, 51, 52, 88, 90]), 5, 2);
    RescanFirstPass(q);
    RunNext(q, 100, ShortFirst(), NoTimeout, s0, t1);
    RescanSecondPass(q);
    RunNext(q, 100, ShortFirst(), NoTimeout, t1, t2);
    StepStarved(q, 100, ShortFirst(), t2);
    CallRaises(f, held, 100, ShortFirst(), NoTimeout, 0, t2, ReaderStarved, t2.(iter := 3));
  }

  /** Pass 1: the four held bytes are owed as chunk data, so the four bytes
      pulled are payload. */
  lemma RescanFirstPass(q: nat)
    requires q >= 5
    ensures Step(q, 100, ShortFirst(), Entry([97, 13, 10, 88], 0))
         == Next(Locals(1, 0, Some([97, 13, 10, 88]), false,
                        Sink(4, None, [[49, 50, 51, 52]], [49, 50, 51, 52]), 4, 1))
  {
    var s0 := Entry([97, 13, 10, 88], 0);
    var p1 := ShortFirst().wire[..4];
    assert p1 == [49, 50, 51, 52];
    StepIsBody(q, 100, ShortFirst(), s0, p1);
    BodyMidChunk(100, s0.(pos := 4, iter := 1), p1);
  }

  /** Pass 2: the pull `Z` is searched with the held bytes in front of it. */
  lemma RescanSecondPass(q: nat)
    requires q >= 5
    ensures Step(q, 100, ShortFirst(), Locals(1, 0, Some([97, 13, 10, 88]), false,
                                              Sink(4, None, [[49, 50, 51, 52]], [49, 50, 51, 52]), 4, 1))
         == Next(Locals(10, 8, None, false,
                        Sink(6, None, [[49, 50, 51, 52], [88, 90]], [49, 50, 51, 52, 88, 90]), 5, 2))
  {
    var t1 := Locals(1, 0, Some([97, 13, 10, 88]), false, Sink(4, None, [[49, 50, 51, 52]], [49, 50, 51, 52]), 4, 1);
    assert ShortFirst().wire[4..5] == [90];
    StepIsBody(q, 100, ShortFirst(), t1, [90]);
    RescanSizeLine();
  }

  /** `a\r\nXZ`: the size `a` is read and `XZ` is payload. */
  lemma RescanSizeLine()
    ensures Body(100, Locals(1, 0, Some([97, 13, 10, 88]), false,
                             Sink(4, None, [[49, 50, 51, 52]], [49, 50, 51, 52]), 5, 2), [90])
         == Next(Locals(10, 8, None, false,
                        Sink(6, None, [[49, 50, 51, 52], [88, 90]], [49, 50, 51, 52, 88, 90]), 5, 2))
  {
    var hay: Bytes := [97, 13, 10, 88, 90];
    assert [97, 13, 10, 88] + [90] == hay && hay[1..] == [13, 10, 88, 90];
    assert FindCrlf(hay[1..]) == 0 && FindCrlf(hay) == 1;
    assert hay[..1] == [97] && [97][..0] == [];
    assert HexDigits([97]) == Some(10);
    assert hay[3..] == [88, 90];
    BodySizeLine(100, Locals(1, 0, Some([97, 13, 10, 88]), false,
                             Sink(4, None, [[49, 50, 51, 52]], [49, 50, 51, 52]), 5, 2), [90], 10);
    assert [49, 50, 51, 52] + [88, 90] == [49, 50, 51, 52, 88, 90];
  }

  /** A fresh mixin (buffer None) fails on `len(None)` before reading. */
  lemma FreshMixinFails(f: Flavour, size: int, src: Source, timeout: Timeout, pos: nat)
    requires pos <= |src.wire|
    ensures ReadSpec(f, None, size, src, timeout, pos) == Outcome(Some(BufferIsNone), [], None, pos)
  {
  }

  /** The "read to the end" default `size=-1` (or any size up to 0) on an
      empty buffer never enters the loop: nothing is read and the timeout
      error is raised at once. */
  lemma NonPositiveSizeTimesOut(f: Flavour, size: int, src: Source, timeout: Timeout, pos: nat)
    requires pos <= |src.wire| && size <= 0
    ensures ReadSpec(f, Some([]), size, src, timeout, pos) == Outcome(Some(TimedOut), [], None, pos)
  {
    CallEnds(f, [], size, src, timeout, pos, Entry([], pos));
  }
}
