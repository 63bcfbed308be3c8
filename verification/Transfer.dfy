/** `readConversionResults` and `readConversionInput` of source/communication.cpp: the half of a
    sample buffer noted last, sent to the host as a 16-bit count and chunks of at most 512 bytes,
    each of which the host acknowledges with one byte. */
module Transfer {
  import opened Basics
  import opened SampleBuffers

  const CHUNK := 512

  // ----- Byte format -----

  /** A 16-bit value, low byte first. */
  function Bytes16(v: Sample): seq<Byte> {
    [v % 0x100, v / 0x100]
  }

  function Bytes(samples: seq<Sample>): (r: seq<Byte>)
    ensures |r| == 2 * |samples|
  {
    if samples == [] then [] else Bytes16(samples[0]) + Bytes(samples[1..])
  }

  /** How the host reads 16-bit values. */
  function Samples(bytes: seq<Byte>): seq<Sample> {
    if |bytes| < 2 then []
    else
      var low, high: int := bytes[0], bytes[1];
      [low + 0x100 * high] + Samples(bytes[2..])
  }

  lemma {:induction false} SamplesOfBytes(samples: seq<Sample>)
    ensures Samples(Bytes(samples)) == samples
  {
    if samples != [] {
      assert Bytes(samples)[2..] == Bytes(samples[1..]);
      SamplesOfBytes(samples[1..]);
    }
  }

  // ----- Chunks -----

  /** The writes that carry `bytes`; the last one may be empty. */
  function Chunks(bytes: seq<Byte>): seq<seq<Byte>> {
    if |bytes| <= CHUNK then [bytes] else [bytes[..CHUNK]] + Chunks(bytes[CHUNK..])
  }

  lemma {:induction false} ChunksCarry(bytes: seq<Byte>)
    ensures Flatten(Chunks(bytes)) == bytes
    ensures forall c :: c in Chunks(bytes) ==> |c| <= CHUNK
    ensures |Chunks(bytes)| == if |bytes| == 0 then 1 else (|bytes| + CHUNK - 1) / CHUNK
  {
    if |bytes| <= CHUNK {
      assert Chunks(bytes)[1..] == [];
    } else {
      ChunksCarry(bytes[CHUNK..]);
      assert Chunks(bytes)[1..] == Chunks(bytes[CHUNK..]);
      assert bytes == bytes[..CHUNK] + bytes[CHUNK..];
    }
  }

  /** Every write of a reply: the count, then the samples. */
  function Reply(samples: seq<Sample>): seq<seq<Byte>>
    requires |samples| < 0x1_0000
  {
    [Bytes16(|samples|)] + Chunks(Bytes(samples))
  }

  /** The reply when no half was noted. */
  const NOTHING: seq<seq<Byte>> := [[0, 0]]

  /** What the host makes of the stream: as many samples as the count says. */
  function Decoded(stream: seq<Byte>): seq<Sample>
    requires 2 <= |stream|
  {
    var low, high: int := stream[0], stream[1];
    var n := 2 * (low + 0x100 * high);
    if 2 + n <= |stream| then Samples(stream[2..2 + n]) else []
  }

  /** The transfer round trip: the host decodes exactly the samples sent, from a count and chunks of
      at most 512 bytes, one per acknowledgement. */
  lemma ReplyRoundTrip(samples: seq<Sample>)
    requires |samples| < 0x1_0000
    ensures var stream := Flatten(Reply(samples));
            |stream| == 2 + 2 * |samples| && Decoded(stream) == samples
    ensures forall w :: w in Reply(samples) ==> |w| <= CHUNK
    ensures |Reply(samples)| - 1 == if samples == [] then 1 else (2 * |samples| + CHUNK - 1) / CHUNK
  {
    var bytes := Bytes(samples);
    ChunksCarry(bytes);
    SamplesOfBytes(samples);
    assert Reply(samples)[1..] == Chunks(bytes);
    var stream := Flatten(Reply(samples));
    assert stream == Bytes16(|samples|) + bytes;
    assert stream[2..2 + 2 * |samples|] == bytes;
  }

  /** A reply reads like the one for "no half noted" exactly when the half is empty; the device still
      waits for an acknowledgement then. */
  lemma EmptyReplyAmbiguous(samples: seq<Sample>)
    requires |samples| < 0x1_0000
    ensures Flatten(Reply(samples)) == Flatten(NOTHING) <==> samples == []
  {
    ReplyRoundTrip(samples);
    assert NOTHING[1..] == [];
    if samples == [] {
      assert Bytes(samples) == [] && Chunks([]) == [[]];
      assert Reply(samples)[1..] == [[]] && Reply(samples)[1..][1..] == [];
    }
  }

  lemma {:induction false} BytesConcat(a: seq<Sample>, b: seq<Sample>)
    ensures Bytes(a + b) == Bytes(a) + Bytes(b)
  {
    if a == [] {
      assert a + b == b;
    } else {
      assert (a + b)[1..] == a[1..] + b;
      BytesConcat(a[1..], b);
    }
  }

  // ----- A half that changes while it is sent -----

  /** Samples in a full chunk. */
  const PIECE := 256

  /** How many chunks carry `n` samples. */
  function Pieces(n: nat): (r: nat)
    ensures r > 0
  {
    if n <= PIECE then 1 else 1 + Pieces(n - PIECE)
  }

  /** Every one of these memories has at least `n` samples. */
  predicate Reach(seen: seq<seq<Sample>>, n: nat) {
    forall k :: 0 <= k < |seen| ==> n <= |seen[k]|
  }

  /** `n` samples from `base` on, each piece of 256 as it is in the memory of its own moment. */
  function Mosaic(seen: seq<seq<Sample>>, base: nat, n: nat): (r: seq<Sample>)
    requires |seen| == Pieces(n) && Reach(seen, base + n)
    ensures |r| == n
    decreases n
  {
    if n <= PIECE then seen[0][base..base + n]
    else seen[0][base..base + PIECE] + Mosaic(seen[1..], base + PIECE, n - PIECE)
  }

  /** Sample `i` of `n` lies in piece `i / 256`, which exists. */
  lemma {:induction false} PieceOf(n: nat, i: nat, k: nat)
    requires i < n && PIECE * k <= i
    ensures k < Pieces(n)
    decreases n
  {
    if k > 0 {
      PieceOf(n - PIECE, i - PIECE, k - 1);
    }
  }

  /** Sample `i`, in piece `k`, is the one of moment `k`. */
  lemma {:induction false} MosaicPiece(seen: seq<seq<Sample>>, base: nat, n: nat, i: nat, k: nat)
    requires |seen| == Pieces(n) && Reach(seen, base + n) && PIECE * k <= i < PIECE * (k + 1) && i < n && k < |seen|
    ensures Mosaic(seen, base, n)[i] == seen[k][base + i]
    decreases n
  {
    if k > 0 {
      MosaicPiece(seen[1..], base + PIECE, n - PIECE, i - PIECE, k - 1);
    }
  }

  /** Sample `i` is the one of moment `i / 256`. */
  lemma MosaicAt(seen: seq<seq<Sample>>, base: nat, n: nat, i: nat)
    requires |seen| == Pieces(n) && Reach(seen, base + n) && i < n
    ensures i / PIECE < |seen| && base + i < |seen[i / PIECE]|
    ensures Mosaic(seen, base, n)[i] == seen[i / PIECE][base + i]
  {
    PieceOf(n, i, i / PIECE);
    MosaicPiece(seen, base, n, i, i / PIECE);
  }

  /** A half of which nothing changes meanwhile arrives as it is. */
  lemma {:induction false} QuietMosaic(seen: seq<seq<Sample>>, base: nat, n: nat, half: seq<Sample>)
    requires |seen| == Pieces(n) && Reach(seen, base + n)
    requires forall k :: 0 <= k < |seen| ==> seen[k][base..base + n] == half
    ensures Mosaic(seen, base, n) == half
  {
    assert seen[0][base..base + n] == half;
    forall i | 0 <= i < n ensures Mosaic(seen, base, n)[i] == half[i] {
      MosaicAt(seen, base, n, i);
      assert seen[i / PIECE][base..base + n][i] == half[i];
    }
  }

  /** The reply is the half as it was at its first moment, whatever happens meanwhile, if and only if the
      half fits one chunk: then nothing is read after the first acknowledgement. */
  lemma WholeIffOnePiece(base: nat, n: nat)
    ensures (forall seen: seq<seq<Sample>> ::
               |seen| == Pieces(n) && Reach(seen, base + n)
               ==> Mosaic(seen, base, n) == seen[0][base..base + n])
            <==> n <= PIECE
  {
    if n > PIECE {
      var zeros, ones := Repeat<Sample>(0, base + n), Repeat<Sample>(1, base + n);
      var seen := [zeros] + Repeat(ones, Pieces(n) - 1);
      assert seen[1] == ones;
      MosaicAt(seen, base, n, PIECE);
      assert Mosaic(seen, base, n)[PIECE] == 1 && seen[0][base..base + n][PIECE] == 0;
    }
  }

  /** A one-byte read: what it returns, `None` when nothing has come, what the samples have become by then, and
      the half noted last meanwhile, if any, since transfers and threads go on while the command waits. */
  datatype Poll = Poll(got: Option<Byte>, mem: seq<Sample>, noted: Option<nat>)

  /** How many of the host's answers to one-byte reads carry a byte. */
  function Arrivals(polls: seq<Poll>): nat {
    if polls == [] then 0 else (if polls[0].got.Some? then 1 else 0) + Arrivals(polls[1..])
  }

  /** The samples after the next byte has come, and the answers after it. */
  function NextMem(polls: seq<Poll>): seq<Sample>
    requires Arrivals(polls) > 0
  {
    if polls[0].got.Some? then polls[0].mem else NextMem(polls[1..])
  }

  function NextPolls(polls: seq<Poll>): (r: seq<Poll>)
    requires Arrivals(polls) > 0
    ensures Arrivals(r) == Arrivals(polls) - 1 && |r| < |polls|
    ensures forall p :: p in r ==> p in polls
  {
    if polls[0].got.Some? then polls[1..] else NextPolls(polls[1..])
  }

  /** What is noted after a read that found `before` noted. */
  function NotedNow(poll: Poll, before: Option<nat>): Option<nat> {
    if poll.noted.Some? then poll.noted else before
  }

  /** What is noted after the next byte has come, and after `n` of them. */
  function NextNoted(polls: seq<Poll>, before: Option<nat>): Option<nat>
    requires Arrivals(polls) > 0
  {
    if polls[0].got.Some? then NotedNow(polls[0], before) else NextNoted(polls[1..], NotedNow(polls[0], before))
  }

  function NotedAfter(polls: seq<Poll>, n: nat, before: Option<nat>): Option<nat>
    requires Arrivals(polls) >= n
    decreases n
  {
    if n == 0 then before else NotedAfter(NextPolls(polls), n - 1, NextNoted(polls, before))
  }

  /** As long as nothing new is noted, nothing is. */
  lemma {:induction false} NextUnnoted(polls: seq<Poll>)
    requires Arrivals(polls) > 0 && forall p :: p in polls ==> p.noted.None?
    ensures NextNoted(polls, None) == None
  {
    assert polls[0] in polls;
    if polls[0].got.None? {
      NextUnnoted(polls[1..]);
    }
  }

  /** A half that was handed out is not handed out again unless another is noted. */
  lemma {:induction false} HandedOnce(polls: seq<Poll>, n: nat)
    requires Arrivals(polls) >= n && forall p :: p in polls ==> p.noted.None?
    ensures NotedAfter(polls, n, None) == None
    decreases n
  {
    if n > 0 {
      NextUnnoted(polls);
      HandedOnce(NextPolls(polls), n - 1);
    }
  }

  /** All of physical memory is there, and halves are noted where they can start. */
  ghost predicate Steady(polls: seq<Poll>) {
    forall p :: p in polls ==>
      |p.mem| == MAX_SAMPLE_BUFFER_SIZE && (p.noted.Some? ==> p.noted.value <= MAX_SAMPLE_BUFFER_SIZE / 2)
  }

  lemma {:induction false} NextWhole(polls: seq<Poll>)
    requires Arrivals(polls) > 0 && Steady(polls)
    ensures |NextMem(polls)| == MAX_SAMPLE_BUFFER_SIZE && Steady(NextPolls(polls))
    decreases |polls|
  {
    assert polls[0] in polls;
    if polls[0].got.None? {
      NextWhole(polls[1..]);
    }
  }

  /** A sample buffer and a host that answers often enough for the half from `base` on to be sent. */
  ghost predicate CanSend(mem: seq<Sample>, base: nat, n: nat, polls: seq<Poll>) {
    && |mem| == MAX_SAMPLE_BUFFER_SIZE && base + n <= MAX_SAMPLE_BUFFER_SIZE
    && Arrivals(polls) >= Pieces(n) && Steady(polls)
  }

  /** The memories that the pieces of a transfer are read from, the first of them `mem`. */
  ghost function Seen(mem: seq<Sample>, base: nat, n: nat, polls: seq<Poll>): (r: seq<seq<Sample>>)
    requires CanSend(mem, base, n, polls)
    ensures |r| == Pieces(n) && Reach(r, MAX_SAMPLE_BUFFER_SIZE)
    decreases n
  {
    if n <= PIECE then [mem]
    else
      NextWhole(polls);
      [mem] + Seen(NextMem(polls), base + PIECE, n - PIECE, NextPolls(polls))
  }

  /** What is sent: the pieces of the half, each as it is in the buffer when its turn comes. */
  ghost function Sent(mem: seq<Sample>, base: nat, n: nat, polls: seq<Poll>): (r: seq<Sample>)
    requires CanSend(mem, base, n, polls)
    ensures |r| == n
  {
    Mosaic(Seen(mem, base, n, polls), base, n)
  }

  lemma ChunkFirst(first: seq<Sample>, rest: seq<Sample>, whole: seq<Sample>)
    requires |first| == PIECE && rest != [] && whole == first + rest
    ensures Chunks(Bytes(whole)) == [Bytes(first)] + Chunks(Bytes(rest))
  {
    BytesConcat(first, rest);
    assert Bytes(first + rest)[..CHUNK] == Bytes(first) && Bytes(first + rest)[CHUNK..] == Bytes(rest);
  }

  lemma MosaicFirst(mem: seq<Sample>, later: seq<seq<Sample>>, base: nat, n: nat)
    requires n > PIECE && |later| == Pieces(n - PIECE) && base + n <= |mem| && Reach(later, base + n)
    ensures |[mem] + later| == Pieces(n) && Reach([mem] + later, base + n)
    ensures Mosaic([mem] + later, base, n)
         == mem[base..base + PIECE] + Mosaic(later, base + PIECE, n - PIECE)
  {
    assert ([mem] + later)[1..] == later;
  }

  /** After the first of several pieces the rest can be sent. */
  lemma RestCanSend(mem: seq<Sample>, base: nat, n: nat, polls: seq<Poll>)
    requires CanSend(mem, base, n, polls) && n > PIECE
    ensures CanSend(NextMem(polls), base + PIECE, n - PIECE, NextPolls(polls))
  {
    NextWhole(polls);
  }

  lemma SeenFirst(mem: seq<Sample>, base: nat, n: nat, polls: seq<Poll>, next: seq<Sample>, rest: seq<Poll>)
    requires CanSend(mem, base, n, polls) && n > PIECE
    requires next == NextMem(polls) && rest == NextPolls(polls)
    requires CanSend(next, base + PIECE, n - PIECE, rest)
    ensures Seen(mem, base, n, polls) == [mem] + Seen(next, base + PIECE, n - PIECE, rest)
  {
  }

  lemma SentFirst(mem: seq<Sample>, base: nat, n: nat, polls: seq<Poll>, next: seq<Sample>, rest: seq<Poll>)
    requires CanSend(mem, base, n, polls) && n > PIECE
    requires next == NextMem(polls) && rest == NextPolls(polls)
    requires CanSend(next, base + PIECE, n - PIECE, rest)
    ensures Sent(mem, base, n, polls)
         == mem[base..base + PIECE] + Sent(next, base + PIECE, n - PIECE, rest)
  {
    SeenFirst(mem, base, n, polls, next, rest);
    MosaicFirst(mem, Seen(next, base + PIECE, n - PIECE, rest), base, n);
  }

  /** A half of one piece goes in one chunk. */
  lemma OnlyChunk(mem: seq<Sample>, base: nat, n: nat, polls: seq<Poll>)
    requires CanSend(mem, base, n, polls) && n <= PIECE
    ensures Chunks(Bytes(Sent(mem, base, n, polls))) == [Bytes(mem[base..base + n])]
  {
    assert Sent(mem, base, n, polls) == mem[base..base + n];
  }

  /** The first chunk of a longer one, and what then remains to be sent. */
  lemma FirstChunk(mem: seq<Sample>, base: nat, n: nat, polls: seq<Poll>, next: seq<Sample>, rest: seq<Poll>,
                   sent: seq<Sample>, left: seq<Sample>)
    requires CanSend(mem, base, n, polls) && n > PIECE
    requires next == NextMem(polls) && rest == NextPolls(polls)
    requires CanSend(next, base + PIECE, n - PIECE, rest)
    requires sent == Sent(mem, base, n, polls) && left == Sent(next, base + PIECE, n - PIECE, rest)
    ensures Chunks(Bytes(sent)) == [Bytes(mem[base..base + PIECE])] + Chunks(Bytes(left))
  {
    SentFirst(mem, base, n, polls, next, rest);
    ChunkFirst(mem[base..base + PIECE], left, sent);
  }

  // ----- The serial port -----

  /** `USBSerial` as the transfer sees it: the answers to one-byte reads to come, and every write so far. */
  class UsbSerial {
    var polls: seq<Poll>
    var writes: seq<seq<Byte>>

    constructor (polls: seq<Poll>)
      ensures this.polls == polls && writes == []
    {
      this.polls := polls;
      writes := [];
    }

    method Write(data: seq<Byte>)
      modifies this`writes
      ensures writes == old(writes) + [data]
    {
      writes := writes + [data];
    }

    /** One read, during which samples change as they may and halves may be noted. */
    method Read(buffer: SampleBuffer) returns (got: Option<Byte>)
      requires polls != [] && buffer.Valid() && Steady(polls)
      modifies this`polls, buffer`modified, buffer.buffer
      ensures got == old(polls)[0].got && polls == old(polls)[1..]
      ensures buffer.Valid() && buffer.buffer[..] == old(polls)[0].mem
      ensures buffer.modified == NotedNow(old(polls)[0], old(buffer.modified))
    {
      var poll := polls[0];
      assert poll in polls;
      got := poll.got;
      forall i | 0 <= i < MAX_SAMPLE_BUFFER_SIZE {
        buffer.buffer[i] := poll.mem[i];
      }
      if poll.noted.Some? {
        buffer.modified := poll.noted;
      }
      polls := polls[1..];
      assert buffer.buffer[..] == poll.mem;
    }

    /** The busy loop for one acknowledgement. */
    method AwaitByte(buffer: SampleBuffer)
      requires Arrivals(polls) > 0 && buffer.Valid() && Steady(polls)
      modifies this`polls, buffer`modified, buffer.buffer
      ensures buffer.Valid() && buffer.buffer[..] == NextMem(old(polls)) && polls == NextPolls(old(polls))
      ensures buffer.modified == NextNoted(old(polls), old(buffer.modified))
    {
      var got := Read(buffer);
      while got.None?
        invariant buffer.Valid() && Steady(polls)
        invariant if got.None? then
                    && Arrivals(polls) > 0
                    && NextMem(polls) == NextMem(old(polls)) && NextPolls(polls) == NextPolls(old(polls))
                    && NextNoted(polls, buffer.modified) == NextNoted(old(polls), old(buffer.modified))
                  else
                    && buffer.buffer[..] == NextMem(old(polls)) && polls == NextPolls(old(polls))
                    && buffer.modified == NextNoted(old(polls), old(buffer.modified))
        decreases |polls|
      {
        got := Read(buffer);
      }
    }
  }

  /** How a transfer can end: everything written, the answers left that carry a byte, and what is noted. */
  datatype End = End(all: seq<seq<Byte>>, spare: nat, noted: Option<nat>)

  /** A transfer on its way there: `done` is written, the samples from `base` on are left, and `noted` is
      noted. */
  ghost predicate Underway(done: seq<seq<Byte>>, mem: seq<Sample>, base: nat, n: nat, polls: seq<Poll>,
                           noted: Option<nat>, end: End)
  {
    && CanSend(mem, base, n, polls) && Arrivals(polls) == Pieces(n) + end.spare
    && done + Chunks(Bytes(Sent(mem, base, n, polls))) == end.all
    && NotedAfter(polls, Pieces(n), noted) == end.noted
  }

  ghost function Ends(done: seq<seq<Byte>>, mem: seq<Sample>, base: nat, n: nat, polls: seq<Poll>,
                      noted: Option<nat>): iset<End>
  {
    iset end: End | Underway(done, mem, base, n, polls, noted, end)
  }

  lemma NextChunk(done: seq<seq<Byte>>, mem: seq<Sample>, base: nat, n: nat, polls: seq<Poll>, noted: Option<nat>,
                  end: End)
    requires end in Ends(done, mem, base, n, polls, noted)
    ensures Arrivals(polls) > 0 && base + n <= |mem| == MAX_SAMPLE_BUFFER_SIZE && Steady(polls)
    ensures n <= PIECE ==>
              && done + [Bytes(mem[base..base + n])] == end.all && Arrivals(NextPolls(polls)) == end.spare
              && NextNoted(polls, noted) == end.noted
    ensures n > PIECE ==>
              end in Ends(done + [Bytes(mem[base..base + PIECE])], NextMem(polls), base + PIECE, n - PIECE,
                          NextPolls(polls), NextNoted(polls, noted))
  {
    assert NotedAfter(polls, Pieces(n), noted) == NotedAfter(NextPolls(polls), Pieces(n) - 1, NextNoted(polls, noted));
    if n <= PIECE {
      OnlyChunk(mem, base, n, polls);
    } else {
      RestCanSend(mem, base, n, polls);
      var next, rest := NextMem(polls), NextPolls(polls);
      FirstChunk(mem, base, n, polls, next, rest, Sent(mem, base, n, polls),
                 Sent(next, base + PIECE, n - PIECE, rest));
    }
  }

  /** One write, of the samples from `at` on, and the wait for its acknowledgement. */
  method SendChunk(buffer: SampleBuffer, usb: UsbSerial, at: nat, count: nat)
    requires buffer.Valid() && at + count <= MAX_SAMPLE_BUFFER_SIZE
    requires Arrivals(usb.polls) > 0 && Steady(usb.polls)
    modifies usb, buffer`modified, buffer.buffer
    ensures buffer.Valid() && buffer.buffer[..] == NextMem(old(usb.polls))
    ensures usb.writes == old(usb.writes) + [Bytes(old(buffer.buffer[..])[at..at + count])]
    ensures usb.polls == NextPolls(old(usb.polls))
    ensures buffer.modified == NextNoted(old(usb.polls), old(buffer.modified))
  {
    usb.Write(Bytes(buffer.buffer[at..at + count]));
    usb.AwaitByte(buffer);
  }

  /** A full chunk, `offset` bytes into the half, with `n` samples left from `at` on. */
  method SendFull(buffer: SampleBuffer, usb: UsbSerial, start: nat, offset: nat, ghost at: nat, ghost n: nat,
                  ghost end: End)
    requires buffer.Valid() && n > PIECE && offset == 2 * (at - start)
    requires end in Ends(usb.writes, buffer.buffer[..], at, n, usb.polls, buffer.modified)
    modifies usb, buffer`modified, buffer.buffer
    ensures buffer.Valid()
    ensures end in Ends(usb.writes, buffer.buffer[..], at + PIECE, n - PIECE, usb.polls, buffer.modified)
  {
    NextChunk(usb.writes, buffer.buffer[..], at, n, usb.polls, buffer.modified, end);
    SendChunk(buffer, usb, start + offset / 2, PIECE);
  }

  /** The chunk that ends a transfer, of `total` bytes. */
  method SendLast(buffer: SampleBuffer, usb: UsbSerial, start: nat, offset: nat, total: nat, ghost at: nat,
                  ghost n: nat, ghost end: End)
    requires buffer.Valid() && n <= PIECE && offset == 2 * (at - start) && total == 2 * n
    requires end in Ends(usb.writes, buffer.buffer[..], at, n, usb.polls, buffer.modified)
    modifies usb, buffer`modified, buffer.buffer
    ensures buffer.Valid() && usb.writes == end.all && Arrivals(usb.polls) == end.spare && buffer.modified == end.noted
  {
    NextChunk(usb.writes, buffer.buffer[..], at, n, usb.polls, buffer.modified, end);
    SendChunk(buffer, usb, start + offset / 2, total / 2);
  }

  /** The loop over the chunks, with one acknowledgement for each: in the end all is written. */
  method SendChunks(buffer: SampleBuffer, usb: UsbSerial, start: nat, ghost end: End)
    requires buffer.Valid() && buffer.size % 2 == 0
    requires end in Ends(usb.writes, buffer.buffer[..], start, buffer.size / 2, usb.polls, buffer.modified)
    modifies usb, buffer`modified, buffer.buffer
    ensures buffer.Valid() && usb.writes == end.all && Arrivals(usb.polls) == end.spare && buffer.modified == end.noted
  {
    var total, offset := buffer.size, 0;
    ghost var at, left: nat := start, buffer.size / 2;
    while total > CHUNK
      invariant start <= at && offset == 2 * (at - start) && total == 2 * left
      invariant buffer.Valid()
      invariant end in Ends(usb.writes, buffer.buffer[..], at, left, usb.polls, buffer.modified)
    {
      SendFull(buffer, usb, start, offset, at, left, end);
      offset := offset + CHUNK;
      total := total - CHUNK;
      at, left := at + PIECE, left - PIECE;
    }
    SendLast(buffer, usb, start, offset, total, at, left, end);
  }

  /** Both read commands. A noted half is sent once, from where it was noted even if the size has
      changed since, with the half length of now, each piece as it is when its turn comes; as long as the
      host acknowledges, every chunk is acknowledged exactly once. What is noted afterwards was noted
      meanwhile. */
  method ReadHalf(buffer: SampleBuffer, usb: UsbSerial)
    requires buffer.Valid() && buffer.size % 2 == 0
    requires buffer.modified.Some? ==>
               CanSend(buffer.buffer[..], buffer.modified.value, buffer.size / 2, usb.polls)
    modifies buffer`modified, usb, buffer.buffer
    ensures buffer.Valid()
    ensures match old(buffer.modified)
            case None =>
              && usb.writes == old(usb.writes) + NOTHING && usb.polls == old(usb.polls)
              && buffer.Value() == old(buffer.Value())
            case Some(start) =>
              var n := buffer.size / 2;
              && usb.writes == old(usb.writes)
                   + Reply(Sent(old(buffer.buffer[..]), start, n, old(usb.polls)))
              && Arrivals(usb.polls) == old(Arrivals(usb.polls)) - Pieces(n)
              && buffer.modified == NotedAfter(old(usb.polls), Pieces(n), None)
  {
    var samps := buffer.TakeModified();
    if samps.Some? {
      var n := buffer.size / 2;
      ghost var half := Sent(buffer.buffer[..], samps.value, n, usb.polls);
      ghost var end := End(usb.writes + Reply(half), Arrivals(usb.polls) - Pieces(n),
                           NotedAfter(usb.polls, Pieces(n), None));
      usb.Write([n % 0x100, n / 0x100 % 0x100]);
      assert usb.writes + Chunks(Bytes(half)) == end.all;
      SendChunks(buffer, usb, samps.value, end);
    } else {
      usb.Write([0, 0]);
    }
  }

  /** Sample `i` of the half, at the moment its piece is sent. */
  ghost function SampleSeen(mem: seq<Sample>, base: nat, n: nat, polls: seq<Poll>, i: nat): Sample
    requires CanSend(mem, base, n, polls) && i < n
  {
    PieceOf(n, i, i / PIECE);
    var seen := Seen(mem, base, n, polls);
    seen[i / PIECE][base + i]
  }

  /** Nothing of the half changes while it is sent. */
  ghost predicate Quiet(mem: seq<Sample>, base: nat, n: nat, polls: seq<Poll>)
    requires CanSend(mem, base, n, polls)
  {
    var seen := Seen(mem, base, n, polls);
    forall k :: 0 <= k < |seen| ==> seen[k][base..base + n] == mem[base..base + n]
  }

  /** What the host decodes: as many samples as announced, each as it was in the buffer when its piece was
      sent; so the half exactly as it was when it fits one chunk, or when nothing of it has changed. */
  lemma HostDecodes(mem: seq<Sample>, base: nat, n: nat, polls: seq<Poll>)
    requires CanSend(mem, base, n, polls)
    ensures var stream := Flatten(Reply(Sent(mem, base, n, polls)));
            && 2 <= |stream| && |Decoded(stream)| == n
            && (forall i :: 0 <= i < n ==> Decoded(stream)[i] == SampleSeen(mem, base, n, polls, i))
            && (n <= PIECE || Quiet(mem, base, n, polls) ==> Decoded(stream) == mem[base..base + n])
  {
    var seen := Seen(mem, base, n, polls);
    ReplyRoundTrip(Sent(mem, base, n, polls));
    forall i | 0 <= i < n ensures Sent(mem, base, n, polls)[i] == SampleSeen(mem, base, n, polls, i) {
      MosaicAt(seen, base, n, i);
    }
    if Quiet(mem, base, n, polls) {
      QuietMosaic(seen, base, n, mem[base..base + n]);
    }
  }
}
