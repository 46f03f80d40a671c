/**
 The console log readers: the last lines of a file read backward in chunks, and the delta after
 an offset read forward. A file is its bytes; decoding them as UTF-8 is left to the caller.
 */
module Tail {
  type Bytes = seq<int>

  // ---------------------------------------------------------------- forward

  datatype ForwardRead = ForwardRead(text: Bytes, offset: nat, gap: bool)

  function Min(a: nat, b: nat): nat {
    if a <= b then a else b
  }

  /**
   One forward read of a file that can be opened. `count` is how many bytes the system call would
   give at most: it may be short. The read starts where it was asked to, unless the file has shrunk or more
   than 8 MiB are new: then it reports a gap and starts as many bytes before the end, or at the start of a
   file that is shorter. What comes back is what was given from there, and where that ended.
   */
  function ReadFrom(file: Bytes, offset: nat, count: nat): (r: ForwardRead)
    ensures r.gap <==> |file| < offset || |file| - offset > 8 * 1024 * 1024
    ensures var start := if !r.gap then offset else if |file| > 8 * 1024 * 1024 then |file| - 8 * 1024 * 1024 else 0;
            && |r.text| == Min(count, |file| - start)
            && r.offset == start + |r.text| && r.text == file[start..r.offset]
  {
    var size := |file|;
    var shrank := size < offset;
    var from := if shrank then 0 else offset;
    var available := size - from;
    if available <= 0 then ForwardRead([], size, shrank)
    else
      var span := Min(available, 8388608);
      var start := from + (available - span);
      var read := Min(count, span);
      ForwardRead(file[start..start + read], start + read, shrank || span < available)
  }

  /** The file as one poll finds it, and how much the system call gives. */
  datatype Poll = Poll(file: Bytes, count: nat)

  /** What a reader that starts at `offset` has gathered after the polls, and whether any of them had a gap. */
  function Follow(polls: seq<Poll>, offset: nat): ForwardRead {
    if polls == [] then ForwardRead([], offset, false)
    else
      var before := Follow(polls[..|polls| - 1], offset);
      var r := ReadFrom(polls[|polls| - 1].file, before.offset, polls[|polls| - 1].count);
      ForwardRead(before.text + r.text, r.offset, before.gap || r.gap)
  }

  /** Between two polls the file only grows at its end. */
  predicate AppendOnly(polls: seq<Poll>) {
    forall i, j :: 0 <= i < j < |polls| ==> polls[i].file <= polls[j].file
  }

  function Last(polls: seq<Poll>): Bytes
    requires polls != []
  {
    polls[|polls| - 1].file
  }

  /** The offset never passes the end and never moves back, however short the reads are. */
  lemma {:induction false} OffsetStaysInFile(polls: seq<Poll>, offset: nat)
    requires polls != [] && AppendOnly(polls) && offset <= |polls[0].file|
    ensures offset <= Follow(polls, offset).offset <= |Last(polls)|
  {
    var front := polls[..|polls| - 1];
    if front == [] {
      assert Follow(front, offset) == ForwardRead([], offset, false);
    } else {
      OffsetStaysInFile(front, offset);
      assert Last(front) <= Last(polls);
    }
  }

  /**
   Polls of an append-only file that report no gap give, joined up, exactly the bytes between the
   first offset and the last: nothing skipped, nothing twice.
   */
  lemma {:induction false} GapFreeReadsAreExact(polls: seq<Poll>, offset: nat)
    requires polls != [] && AppendOnly(polls) && offset <= |polls[0].file|
    requires !Follow(polls, offset).gap
    ensures offset <= Follow(polls, offset).offset <= |Last(polls)|
    ensures Follow(polls, offset).text == Last(polls)[offset..Follow(polls, offset).offset]
  {
    OffsetStaysInFile(polls, offset);
    var front := polls[..|polls| - 1];
    var before := Follow(front, offset);
    if front == [] {
      assert before == ForwardRead([], offset, false);
    } else {
      GapFreeReadsAreExact(front, offset);
      assert Last(front) <= Last(polls);
      PrefixSlice(Last(front), Last(polls), offset, before.offset);
    }
    var r := ReadFrom(Last(polls), before.offset, polls[|polls| - 1].count);
    Adjacent(Last(polls), offset, before.offset, r.offset);
  }

  lemma {:induction false} Adjacent(file: Bytes, a: nat, b: nat, c: nat)
    requires a <= b <= c <= |file|
    ensures file[a..b] + file[b..c] == file[a..c]
  {
  }

  lemma {:induction false} PrefixSlice(short: Bytes, long: Bytes, a: nat, b: nat)
    requires a <= b <= |short| && short <= long
    ensures short[a..b] == long[a..b]
  {
  }

  /** On an append-only file the bytes gathered and the bytes skipped add up, and skipping is reported. */
  lemma {:induction false} SkippingIsReported(polls: seq<Poll>, offset: nat)
    requires polls != [] && AppendOnly(polls) && offset <= |polls[0].file|
    ensures |Follow(polls, offset).text| <= Follow(polls, offset).offset - offset
    ensures Follow(polls, offset).gap <==> |Follow(polls, offset).text| < Follow(polls, offset).offset - offset
  {
    OffsetStaysInFile(polls, offset);
    var front := polls[..|polls| - 1];
    if front == [] {
      assert Follow(front, offset) == ForwardRead([], offset, false);
    } else {
      OffsetStaysInFile(front, offset);
      SkippingIsReported(front, offset);
      assert Last(front) <= Last(polls);
    }
  }

  // ---------------------------------------------------------------- backward

  function Newlines(bytes: Bytes): nat {
    if bytes == [] then 0 else (if bytes[0] == 0x0a then 1 else 0) + Newlines(bytes[1..])
  }

  lemma {:induction false} NewlinesAppend(a: Bytes, b: Bytes)
    ensures Newlines(a + b) == Newlines(a) + Newlines(b)
  {
    if a == [] {
      assert a + b == b;
    } else {
      NewlinesAppend(a[1..], b);
      assert (a + b)[1..] == a[1..] + b;
    }
  }

  method CountNewlines(buffer: Bytes) returns (n: nat)
    ensures n == Newlines(buffer)
  {
    n := 0;
    for i := 0 to |buffer|
      invariant n == Newlines(buffer[..i])
    {
      assert buffer[..i + 1] == buffer[..i] + [buffer[i]];
      NewlinesAppend(buffer[..i], [buffer[i]]);
      assert [buffer[i]][1..] == [];
      if buffer[i] == 0x0a {
        n := n + 1;
      }
    }
    assert buffer[..|buffer|] == buffer;
  }

  /** The last `n` bytes of a file. */
  function EndOf(file: Bytes, n: nat): (end: Bytes)
    requires n <= |file|
    ensures |end| == n
  {
    file[|file| - n..]
  }

  /** Without its first `s` bytes, one chunk, the text has too few lines. */
  predicate Needed(tail: Bytes, lines: int, s: nat) {
    0 < s <= Min(65536, |tail|) && Newlines(tail[s..]) <= lines
  }

  /** The last chunk of what has been read was needed. */
  ghost predicate Frugal(file: Bytes, read: nat, lines: int)
    requires read <= |file|
  {
    read > 0 ==> exists s: nat :: Needed(EndOf(file, read), lines, s)
  }

  lemma {:induction false} OneChunkMore(file: Bytes, read: nat, span: nat, lines: int)
    requires 0 < span <= 65536 && read + span <= |file| && Newlines(EndOf(file, read)) <= lines
    ensures var position := |file| - read - span;
            && file[position..position + span] + EndOf(file, read) == EndOf(file, read + span)
            && Newlines(EndOf(file, read + span))
               == Newlines(file[position..position + span]) + Newlines(EndOf(file, read))
    ensures Frugal(file, read + span, lines)
  {
    var position := |file| - read - span;
    NewlinesAppend(file[position..position + span], EndOf(file, read));
    assert file[position..position + span] + EndOf(file, read) == EndOf(file, read + span);
    assert EndOf(file, read + span)[span..] == EndOf(file, read);
    assert Needed(EndOf(file, read + span), lines, span);
  }

  // ---------------------------------------------------------------- short backward reads

  /** How many bytes the read at each position gives, and what its fresh buffer held before it. */
  datatype Reads = Reads(given: nat -> nat, junk: nat -> int)

  function Budget(size: nat): nat {
    Min(size, 8388608)
  }

  /** Where the chunk that holds a byte starts; chunks are cut from the end of the file. */
  function ChunkStart(size: nat, p: nat): nat
    requires p < size && size - 1 - p < Budget(size)
  {
    var read := (size - 1 - p) / 65536 * 65536;
    size - read - Min(65536, Budget(size) - read)
  }

  /** The byte is one that the read of its chunk gave. */
  predicate Delivered(size: nat, given: nat -> nat, p: nat)
    requires p < size && size - 1 - p < Budget(size)
  {
    p < ChunkStart(size, p) + given(ChunkStart(size, p))
  }

  function SeenByte(file: Bytes, disk: Reads, p: nat): int
    requires p < |file|
  {
    if |file| - 1 - p < Budget(|file|) && !Delivered(|file|, disk.given, p) then disk.junk(p) else file[p]
  }

  /** The file as the reader's buffers hold it: a short read is not noticed. */
  function Seen(file: Bytes, disk: Reads): (seen: Bytes)
    ensures |seen| == |file|
  {
    seq(|file|, p requires 0 <= p < |file| => SeenByte(file, disk, p))
  }

  lemma {:induction false} ChunkStartIs(size: nat, read: nat, p: nat)
    requires read % 65536 == 0 && read < Budget(size)
    requires var span := Min(65536, Budget(size) - read); size - read - span <= p < size - read
    ensures p < size && size - 1 - p < Budget(size)
    ensures ChunkStart(size, p) == size - read - Min(65536, Budget(size) - read)
  {
    assert (size - 1 - p) / 65536 == read / 65536;
  }

  /** How much the next chunk asks for once `read` bytes have been read. */
  function Span(size: nat, read: nat): nat
    requires read <= Budget(size)
  {
    Min(65536, Budget(size) - read)
  }

  /** One `readSync`: what it gives, in front of what the buffer held. */
  function Chunk(file: Bytes, disk: Reads, read: nat): (buffer: Bytes)
    requires read < Budget(|file|)
    ensures |buffer| == Span(|file|, read)
  {
    var span := Span(|file|, read);
    var position := |file| - read - span;
    var given := Min(disk.given(position), span);
    file[position..position + given] + seq(span - given, i requires 0 <= i => disk.junk(position + given + i))
  }

  lemma {:induction false} ChunkAt(file: Bytes, disk: Reads, read: nat, i: nat)
    requires read < Budget(|file|) && i < Span(|file|, read)
    ensures var position := |file| - read - Span(|file|, read);
            Chunk(file, disk, read)[i]
            == if i < disk.given(position) then file[position + i] else disk.junk(position + i)
  {
  }

  lemma {:induction false} ChunkByte(file: Bytes, disk: Reads, read: nat, i: nat)
    requires read % 65536 == 0 && read < Budget(|file|) && i < Span(|file|, read)
    ensures Chunk(file, disk, read)[i] == SeenByte(file, disk, |file| - read - Span(|file|, read) + i)
  {
    ChunkAt(file, disk, read, i);
    ChunkStartIs(|file|, read, |file| - read - Span(|file|, read) + i);
  }

  lemma {:induction false} ChunkIsSeen(file: Bytes, disk: Reads, read: nat)
    requires read % 65536 == 0 && read < Budget(|file|)
    ensures Chunk(file, disk, read) == Seen(file, disk)[|file| - read - Span(|file|, read)..|file| - read]
  {
    var position, buffer := |file| - read - Span(|file|, read), Chunk(file, disk, read);
    var slice := Seen(file, disk)[position..|file| - read];
    forall i | 0 <= i < |buffer|
      ensures buffer[i] == slice[i]
    {
      ChunkByte(file, disk, read, i);
      assert slice[i] == Seen(file, disk)[position + i];
    }
  }

  /** Chunk by chunk, the buffers hold `seen`. */
  ghost predicate Shows(file: Bytes, disk: Reads, seen: Bytes) {
    && |seen| == |file|
    && forall read: nat :: Aligned(read, |file|) && read < Budget(|file|) ==>
         Chunk(file, disk, read) == seen[|file| - read - Span(|file|, read)..|file| - read]
  }

  /** Every read starts a whole number of chunks before the end. */
  predicate Aligned(read: nat, size: nat) {
    read == Budget(size) || read % 65536 == 0
  }

  lemma {:induction false} SeenShows(file: Bytes, disk: Reads)
    ensures Shows(file, disk, Seen(file, disk))
  {
    forall read: nat | Aligned(read, |file|) && read < Budget(|file|)
      ensures Chunk(file, disk, read) == Seen(file, disk)[|file| - read - Span(|file|, read)..|file| - read]
    {
      ChunkIsSeen(file, disk, read);
    }
  }

  lemma {:induction false} NextAligned(read: nat, size: nat)
    requires Aligned(read, size) && read < Budget(size)
    ensures Aligned(read + Span(size, read), size) && read + Span(size, read) <= Budget(size) && Span(size, read) > 0
  {
  }

  /** Every chunk among the last `n` bytes was given whole. */
  ghost predicate ChunksWhole(size: nat, given: nat -> nat, n: nat)
    requires n <= Budget(size)
  {
    forall read: nat :: read < n && Aligned(read, size) ==> given(size - read - Span(size, read)) >= Span(size, read)
  }

  /** Whatever the buffers held before, the answer of `n` bytes is the true end of the file. */
  ghost predicate AlwaysTrue(file: Bytes, given: nat -> nat, n: nat)
    requires n <= |file|
  {
    forall junk: nat -> int :: EndOf(Seen(file, Reads(given, junk)), n) == EndOf(file, n)
  }

  lemma {:induction false} WholeChunksDeliver(size: nat, given: nat -> nat, n: nat, p: nat)
    requires n <= Budget(size) && ChunksWhole(size, given, n) && size - n <= p < size
    ensures Delivered(size, given, p)
  {
    var read := (size - 1 - p) / 65536 * 65536;
    assert Aligned(read, size) && read < n;
    ChunkStartIs(size, read, p);
  }

  /** Another buffer shows a byte that was not given for what it is not. */
  lemma {:induction false} TrueMeansWhole(file: Bytes, given: nat -> nat, n: nat, read: nat)
    requires n <= Budget(|file|) && AlwaysTrue(file, given, n) && read < n && Aligned(read, |file|)
    ensures given(|file| - read - Span(|file|, read)) >= Span(|file|, read)
  {
    var p: nat := |file| - read - 1;
    var junk := (q: nat) => file[p] + 1;
    var seen := Seen(file, Reads(given, junk));
    ChunkStartIs(|file|, read, p);
    assert EndOf(seen, n)[p - (|file| - n)] == seen[p] && EndOf(file, n)[p - (|file| - n)] == file[p];
  }

  /**
   The answer is the true end of the file, whatever the buffers held, if and only if every read that went into
   it gave all it was asked for.
   */
  lemma {:induction false} TailIsTrue(file: Bytes, given: nat -> nat, n: nat)
    requires n <= Budget(|file|)
    ensures AlwaysTrue(file, given, n) <==> ChunksWhole(|file|, given, n)
  {
    if AlwaysTrue(file, given, n) {
      forall read: nat | read < n && Aligned(read, |file|)
        ensures given(|file| - read - Span(|file|, read)) >= Span(|file|, read)
      {
        TrueMeansWhole(file, given, n, read);
      }
    }
    if ChunksWhole(|file|, given, n) {
      forall junk: nat -> int
        ensures EndOf(Seen(file, Reads(given, junk)), n) == EndOf(file, n)
      {
        forall p | |file| - n <= p < |file|
          ensures Seen(file, Reads(given, junk))[p] == file[p]
        {
          WholeChunksDeliver(|file|, given, n, p);
        }
      }
    }
  }

  /**
   The answer is the end of the file as the buffers hold it: all of it, or 8 MiB of it, or enough that
   it has more than `lines` line breaks; and the last chunk read was needed for that.
   */
  method TailFile(file: Bytes, lines: int, disk: Reads) returns (tail: Bytes)
    ensures |tail| <= |file| && |tail| <= 8 * 1024 * 1024 && tail == EndOf(Seen(file, disk), |tail|)
    ensures |tail| == |file| || |tail| == 8 * 1024 * 1024 || Newlines(tail) > lines
    ensures Frugal(Seen(file, disk), |tail|, lines)
  {
    SeenShows(file, disk);
    tail := TailChunks(file, lines, disk, Seen(file, disk));
  }

  /** The loop has read so many bytes, and holds their text and the number of their line breaks. */
  ghost predicate Reached(seen: Bytes, lines: int, read: nat, tail: Bytes, newlines: nat) {
    && read <= Budget(|seen|) && Aligned(read, |seen|) && Frugal(seen, read, lines)
    && tail == EndOf(seen, read) && newlines == Newlines(tail)
  }

  lemma {:induction false} ReachedNext(seen: Bytes, lines: int, read: nat, tail: Bytes, newlines: nat, span: nat,
                                       buffer: Bytes)
    requires Reached(seen, lines, read, tail, newlines) && newlines <= lines
    requires 0 < span <= 65536 && read + span <= Budget(|seen|) && Aligned(read + span, |seen|)
    requires buffer == seen[|seen| - read - span..|seen| - read]
    ensures Reached(seen, lines, read + span, buffer + tail, newlines + Newlines(buffer))
  {
    OneChunkMore(seen, read, span, lines);
  }

  lemma {:induction false} ShownChunk(file: Bytes, disk: Reads, seen: Bytes, read: nat)
    requires Shows(file, disk, seen) && Aligned(read, |file|) && read < Budget(|file|)
    ensures Chunk(file, disk, read) == seen[|file| - read - Span(|file|, read)..|file| - read]
  {
  }

  lemma {:induction false} NextChunk(file: Bytes, disk: Reads, seen: Bytes, lines: int, read: nat, tail: Bytes,
                                     newlines: nat)
    requires Shows(file, disk, seen) && Reached(seen, lines, read, tail, newlines)
    requires read < Budget(|file|) && newlines <= lines
    ensures var buffer := Chunk(file, disk, read);
            |buffer| > 0 && Reached(seen, lines, read + |buffer|, buffer + tail, newlines + Newlines(buffer))
  {
    NextAligned(read, |file|);
    ShownChunk(file, disk, seen, read);
    ReachedNext(seen, lines, read, tail, newlines, Span(|file|, read), Chunk(file, disk, read));
  }

  /** The loop, from the end of the file towards its start. */
  method TailChunks(file: Bytes, lines: int, disk: Reads, ghost seen: Bytes) returns (tail: Bytes)
    requires Shows(file, disk, seen)
    ensures |tail| <= Budget(|file|) && tail == EndOf(seen, |tail|)
    ensures |tail| == Budget(|file|) || Newlines(tail) > lines
    ensures Frugal(seen, |tail|, lines)
  {
    var read: nat, newlines: nat := 0, 0;
    tail := [];
    while read < Budget(|file|) && newlines <= lines
      invariant Reached(seen, lines, read, tail, newlines)
      decreases Budget(|file|) - read
    {
      var buffer := Chunk(file, disk, read);
      NextChunk(file, disk, seen, lines, read, tail, newlines);
      var more := CountNewlines(buffer);
      read, newlines, tail := read + |buffer|, newlines + more, buffer + tail;
    }
  }

  /** A read that gives nothing: the answer is what the buffer happened to hold. */
  method ShortReadGoesUnnoticed() returns (tail: Bytes)
    ensures tail == [7] != EndOf([1], 1)
  {
    var disk := Reads(q => 0, q => 7);
    tail := TailFile([1], 0, disk);
    assert Seen([1], disk)[0] == 7;
  }
}
