/** source/samplebuffer.cpp: a physical buffer of 8192 samples, the logical size in use, and a
    slot that names the half written last. */
module SampleBuffers {
  import opened Basics

  const MAX_SAMPLE_BUFFER_SIZE := 8192

  /** Mid-scale, the value an idle output holds. */
  const MIDSCALE: Sample := 2048

  /** A sample buffer as a value. Pointers into the buffer are offsets from its start. */
  datatype Buffer = Buffer(mem: seq<Sample>, size: nat, modified: Option<nat>) {

    /** `middata`, the start of the second half. */
    function Mid(): nat {
      size / 2
    }

    /** What every operation keeps: all of physical memory is there, the logical size fits, and a
        noted half (of this or an earlier size) starts no later than the physical middle. */
    predicate Valid() {
      && |mem| == MAX_SAMPLE_BUFFER_SIZE
      && size <= MAX_SAMPLE_BUFFER_SIZE
      && (modified.Some? ==> modified.value <= MAX_SAMPLE_BUFFER_SIZE / 2)
    }
  }

  /** `(n + 15) & ~15`. */
  function RoundUp16(n: nat): (r: nat)
    ensures n <= r < n + 16 && r % 16 == 0
    ensures n % 16 == 0 ==> r == n
  {
    n + 15 - (n + 15) % 16
  }

  /** How many samples the unrolled do-while loop moves for a rounded length: the body runs before
      the first test, so at least one block of sixteen. */
  function Moved(rounded: nat): nat {
    if rounded == 0 then 16 else rounded
  }

  /** How many samples a copy of `n` samples moves. */
  function CopyCount(n: nat): (r: nat)
    ensures n <= r && r % 16 == 0 && 16 <= r
  {
    Moved(RoundUp16(n))
  }

  lemma CopyCountMonotone(a: nat, b: nat)
    requires a <= b
    ensures CopyCount(a) <= CopyCount(b)
  {
    assert RoundUp16(a) < b + 16;
  }

  /** Storing `more` right after `first` stores their concatenation. */
  lemma JoinOverwrites(mem: seq<Sample>, at: nat, first: seq<Sample>, more: seq<Sample>)
    requires at + |first| + |more| <= |mem|
    ensures Overwrite(Overwrite(mem, at, first), at + |first|, more) == Overwrite(mem, at, first + more)
  {
  }

  /** Passes of the do-while loop. */
  ghost function PassesOf(rounded: nat): (r: nat)
    requires rounded % 16 == 0
    ensures 0 < r && Moved(rounded) == 16 * r
  {
    Moved(rounded) / 16
  }

  /** One more block of sixteen extends the stretch of the source copied so far. */
  lemma StretchGrows(mem: seq<Sample>, dest: nat, source: seq<Sample>, start: nat, src: nat)
    requires start <= src && src + 16 <= |source| && dest + (src + 16 - start) <= |mem|
    ensures Overwrite(Overwrite(mem, dest, source[start..src]), dest + (src - start), source[src..src + 16])
         == Overwrite(mem, dest, source[start..src + 16])
  {
    JoinOverwrites(mem, dest, source[start..src], source[src..src + 16]);
    assert source[start..src] + source[src..src + 16] == source[start..src + 16];
  }

  /** Element-wise meaning of `modify`: the first half of the buffer receives the source. */
  function Modified(b: Buffer, source: seq<Sample>, srcsize: nat): (r: Buffer)
    requires b.Valid()
    requires CopyCount(Min(srcsize, b.size)) <= |source|
    ensures r.Valid()
  {
    var n := CopyCount(Min(srcsize, b.size));
    Buffer(Overwrite(b.mem, 0, source[..n]), b.size, Some(0))
  }

  /** Element-wise meaning of `midmodify`: likewise from `middata` on. */
  function MidModified(b: Buffer, source: seq<Sample>, srcsize: nat): (r: Buffer)
    requires b.Valid()
    requires CopyCount(Min(srcsize, b.size / 2)) <= |source|
    ensures r.Valid()
  {
    var n := CopyCount(Min(srcsize, b.size / 2));
    Buffer(Overwrite(b.mem, b.Mid(), source[..n]), b.size, Some(b.Mid()))
  }

  /** A half-size source written to either half stays inside physical memory whatever the logical
      size, and fills exactly that half of what the size announces. */
  lemma HalfWritesFit(b: Buffer, source: seq<Sample>)
    requires b.Valid()
    requires CopyCount(b.size / 2) <= |source|
    ensures var h := b.size / 2;
            && h + CopyCount(h) <= MAX_SAMPLE_BUFFER_SIZE
            && Modified(b, source, h).mem[..h] == source[..h]
            && MidModified(b, source, h).mem[h..2 * h] == source[..h]
            && MidModified(b, source, h).mem[..h] == b.mem[..h]
  {
    CopyCountMonotone(b.size / 2, MAX_SAMPLE_BUFFER_SIZE / 2);
  }

  /** Where `modify` with a half-size source leaves the second half: at most sixteen samples past the
      half are replaced, by the source samples that follow the half. */
  lemma FirstHalfSpill(b: Buffer, source: seq<Sample>)
    requires b.Valid()
    requires CopyCount(b.size / 2) <= |source|
    ensures var h := b.size / 2;
            var first := Modified(b, source, h);
            && h <= CopyCount(h) <= h + 16
            && first.mem[h..CopyCount(h)] == source[h..CopyCount(h)]
            && first.mem[CopyCount(h)..] == b.mem[CopyCount(h)..]
  {
  }

  ghost predicate FirstHalfIsolated(b: Buffer, source: seq<Sample>)
    requires b.Valid() && CopyCount(b.size / 2) <= |source|
  {
    Modified(b, source, b.size / 2).mem[b.size / 2..] == b.mem[b.size / 2..]
  }

  /** `modify` leaves the second half alone, whatever it holds and whatever is copied, exactly when
      the half size is a positive multiple of sixteen. */
  lemma FirstHalfIsolatedIff(size: nat)
    requires size <= MAX_SAMPLE_BUFFER_SIZE
    ensures (forall b: Buffer, source: seq<Sample> ::
               b.Valid() && b.size == size && CopyCount(size / 2) <= |source| ==> FirstHalfIsolated(b, source))
            <==> 0 < size / 2 && (size / 2) % 16 == 0
  {
    var h := size / 2;
    if 0 < h && h % 16 == 0 {
      forall b: Buffer, source: seq<Sample>
        | b.Valid() && b.size == size && CopyCount(h) <= |source|
        ensures FirstHalfIsolated(b, source)
      {
        FirstHalfSpill(b, source);
      }
    } else {
      var b := Buffer(Repeat(0, MAX_SAMPLE_BUFFER_SIZE), size, None);
      var source := Repeat(1, CopyCount(h));
      FirstHalfSpill(b, source);
      assert Modified(b, source, h).mem[h..][0] == 1;
      assert !FirstHalfIsolated(b, source);
    }
  }

  // ----- The noted half, between the threads -----

  /** Accesses to the slot: a note by the interrupt or the runner, and the load and the store of
      `modified()` in the command thread, between which notes may come. */
  datatype Access = Note(half: nat) | LoadNote | ClearNote

  /** A note of a half; its number tells it from other notes of the same half. */
  datatype Noted = Noted(half: nat, number: nat)

  /** The slot, and what `modified()` has loaded if it is between load and store; all halves noted so far,
      the notes handed out, and how many notes were replaced by newer ones or cleared, in both cases
      without having been read. */
  datatype Slot = Slot(modified: Option<Noted>, loaded: Option<Option<Noted>>, notes: seq<nat>,
                       handed: seq<Noted>, replaced: nat, cleared: nat)

  /** The slot holds a note nobody has read. */
  predicate Unread(s: Slot) {
    s.modified.Some? && s.loaded != Some(s.modified)
  }

  function Accessed(s: Slot, access: Access): Slot {
    match access
    case Note(half) =>
      s.(modified := Some(Noted(half, |s.notes|)), notes := s.notes + [half],
         replaced := s.replaced + if Unread(s) then 1 else 0)
    case LoadNote => s.(loaded := Some(s.modified))
    case ClearNote =>
      if s.loaded.None? then s
      else Slot(None, None, s.notes, s.handed + if s.loaded.value.Some? then [s.loaded.value.value] else [],
                s.replaced, s.cleared + if Unread(s) then 1 else 0)
  }

  function AccessedAll(s: Slot, accesses: seq<Access>): Slot
    decreases |accesses|
  {
    if accesses == [] then s else AccessedAll(Accessed(s, accesses[0]), accesses[1..])
  }

  /** One call of `modified()` at a time: a load, then its store. */
  predicate OneCall(s: Slot, accesses: seq<Access>)
    decreases |accesses|
  {
    accesses == [] || ((accesses[0].LoadNote? ==> s.loaded.None?) && OneCall(Accessed(s, accesses[0]), accesses[1..]))
  }

  /** Each note is handed out, replaced, cleared, in the slot, or on its way to the host. */
  ghost predicate NotesAccounted(s: Slot) {
    |s.notes| == |s.handed| + s.replaced + s.cleared + (if Unread(s) then 1 else 0)
                 + (if s.loaded.Some? && s.loaded.value.Some? then 1 else 0)
  }

  /** A note that was made, and after the first `n`. */
  predicate Made(s: Slot, note: Noted, n: int) {
    n <= note.number < |s.notes| && s.notes[note.number] == note.half
  }

  /** One more than the number of the note handed out last. */
  function HandedBefore(s: Slot): int {
    if s.handed == [] then 0 else s.handed[|s.handed| - 1].number + 1
  }

  /** The notes handed out were made, and in that order, none of them twice; what is in the slot or on its
      way to the host comes after them. */
  ghost predicate NotesInOrder(s: Slot) {
    && (forall note :: note in s.handed ==> Made(s, note, 0))
    && (forall i, j :: 0 <= i < j < |s.handed| ==> s.handed[i].number < s.handed[j].number)
    && (s.modified.Some? ==> s.modified.value.number == |s.notes| - 1 && Made(s, s.modified.value, HandedBefore(s)))
    && (s.loaded.Some? && s.loaded.value.Some? ==> Made(s, s.loaded.value.value, HandedBefore(s)))
  }

  /** No store clears a note made since its load. */
  predicate NotesApart(s: Slot, accesses: seq<Access>)
    decreases |accesses|
  {
    accesses == [] || (!(accesses[0].ClearNote? && s.loaded.Some? && Unread(s))
                       && NotesApart(Accessed(s, accesses[0]), accesses[1..]))
  }

  lemma AccessKeepsOrder(s: Slot, access: Access)
    requires NotesInOrder(s)
    ensures NotesInOrder(Accessed(s, access))
  {
    if s.handed != [] {
      assert s.handed[|s.handed| - 1] in s.handed;
    }
    if access.ClearNote? && s.loaded.Some? && s.loaded.value.Some? {
      var note := s.loaded.value.value;
      assert Accessed(s, access).handed == s.handed + [note];
      forall i | 0 <= i < |s.handed| ensures s.handed[i].number < note.number {
        assert s.handed[i].number <= s.handed[|s.handed| - 1].number;
      }
    }
  }

  lemma AccessAccounts(s: Slot, access: Access)
    requires NotesAccounted(s) && NotesInOrder(s) && (access.LoadNote? ==> s.loaded.None?)
    ensures NotesAccounted(Accessed(s, access))
  {
  }

  /** Notes over every interleaving. The host is handed notes that were made, in the order in which they
      were made and none twice; all others are replaced by newer ones, cleared, in the slot or on their way.
      And none is cleared unread if and only if none is made between a load and the store that follows it. */
  lemma {:induction false} NotesConserved(s: Slot, accesses: seq<Access>)
    requires NotesAccounted(s) && NotesInOrder(s) && OneCall(s, accesses)
    ensures var r := AccessedAll(s, accesses);
            && NotesAccounted(r) && NotesInOrder(r) && s.cleared <= r.cleared
            && (r.cleared == s.cleared <==> NotesApart(s, accesses))
    decreases |accesses|
  {
    if accesses != [] {
      AccessKeepsOrder(s, accesses[0]);
      AccessAccounts(s, accesses[0]);
      NotesConserved(Accessed(s, accesses[0]), accesses[1..]);
    }
  }

  /** A call of `modified()` that no note comes into hands out what is noted, once, and leaves nothing noted. */
  lemma UninterruptedTake(s: Slot)
    requires s.loaded.None?
    ensures var r := Accessed(Accessed(s, LoadNote), ClearNote);
            && r.modified.None? && r.loaded.None?
            && r.handed == s.handed + (if s.modified.Some? then [s.modified.value] else [])
            && r.notes == s.notes && r.replaced == s.replaced && r.cleared == s.cleared
  {
  }

  /** `SampleBuffer`. */
  class SampleBuffer {
    const buffer: array<Sample>
    var size: nat
    var modified: Option<nat>

    ghost predicate Valid()
      reads this, buffer
    {
      buffer.Length == MAX_SAMPLE_BUFFER_SIZE && Value().Valid()
    }

    ghost function Value(): Buffer
      reads this, buffer
    {
      Buffer(buffer[..], size, modified)
    }

    constructor (memory: array<Sample>)
      requires memory.Length == MAX_SAMPLE_BUFFER_SIZE
      ensures Valid() && buffer == memory
      ensures Value() == Buffer(memory[..], MAX_SAMPLE_BUFFER_SIZE, None)
    {
      buffer := memory;
      size := MAX_SAMPLE_BUFFER_SIZE;
      modified := None;
    }

    method Clear()
      requires Valid()
      modifies buffer
      ensures Valid()
      ensures Value() == old(Value()).(mem := Overwrite(old(buffer[..]), 0, Repeat(MIDSCALE, size)))
    {
      var i := 0;
      while i < size
        invariant 0 <= i <= size
        invariant forall j :: 0 <= j < MAX_SAMPLE_BUFFER_SIZE ==>
                    buffer[j] == if j < i then MIDSCALE else old(buffer[j])
      {
        buffer[i] := MIDSCALE;
        i := i + 1;
      }
      assert buffer[..] == Overwrite(old(buffer[..]), 0, Repeat(MIDSCALE, size));
    }

    /** One pass of the unrolled loop: eight words, two samples each, all loaded before any is
        stored. */
    method CopyEightWords(source: array<Sample>, s: nat, d: nat)
      requires source != buffer
      requires s + 16 <= source.Length && d + 16 <= buffer.Length
      modifies buffer
      ensures buffer[..] == Overwrite(old(buffer[..]), d, source[s..s + 16])
    {
      var a0, a1 := source[s], source[s + 1];
      var b0, b1 := source[s + 2], source[s + 3];
      var c0, c1 := source[s + 4], source[s + 5];
      var d0, d1 := source[s + 6], source[s + 7];
      var e0, e1 := source[s + 8], source[s + 9];
      var f0, f1 := source[s + 10], source[s + 11];
      var g0, g1 := source[s + 12], source[s + 13];
      var h0, h1 := source[s + 14], source[s + 15];
      ghost var mem := buffer[..];
      StoreFourWords(d, a0, a1, b0, b1, c0, c1, d0, d1);
      StoreFourWords(d + 8, e0, e1, f0, f1, g0, g1, h0, h1);
      JoinOverwrites(mem, d, [a0, a1, b0, b1, c0, c1, d0, d1], [e0, e1, f0, f1, g0, g1, h0, h1]);
      assert source[s..s + 16]
          == [a0, a1, b0, b1, c0, c1, d0, d1] + [e0, e1, f0, f1, g0, g1, h0, h1];
    }

    /** Four 32-bit stores, each of which writes two neighbouring samples. */
    method StoreFourWords(at: nat, a0: Sample, a1: Sample, b0: Sample, b1: Sample,
                          c0: Sample, c1: Sample, d0: Sample, d1: Sample)
      requires at + 8 <= buffer.Length
      modifies buffer
      ensures buffer[..] == Overwrite(old(buffer[..]), at, [a0, a1, b0, b1, c0, c1, d0, d1])
    {
      ghost var mem := buffer[..];
      StoreWord(at, a0, a1);
      StoreWord(at + 2, b0, b1);
      JoinOverwrites(mem, at, [a0, a1], [b0, b1]);
      assert [a0, a1] + [b0, b1] == [a0, a1, b0, b1];
      StoreWord(at + 4, c0, c1);
      JoinOverwrites(mem, at, [a0, a1, b0, b1], [c0, c1]);
      assert [a0, a1, b0, b1] + [c0, c1] == [a0, a1, b0, b1, c0, c1];
      StoreWord(at + 6, d0, d1);
      JoinOverwrites(mem, at, [a0, a1, b0, b1, c0, c1], [d0, d1]);
      assert [a0, a1, b0, b1, c0, c1] + [d0, d1] == [a0, a1, b0, b1, c0, c1, d0, d1];
    }

    method StoreWord(at: nat, low: Sample, high: Sample)
      requires at + 2 <= buffer.Length
      modifies buffer
      ensures buffer[..] == Overwrite(old(buffer[..]), at, [low, high])
    {
      buffer[at], buffer[at + 1] := low, high;
    }

    /** The do-while loop of both copies. It stops exactly at `srcend` unless the length is zero,
        when the first pass already overshoots it by a block. */
    method CopyBlocks(source: array<Sample>, start: nat, dest: nat, rounded: nat)
      requires source != buffer && rounded % 16 == 0
      requires start + Moved(rounded) <= source.Length
      requires dest + Moved(rounded) <= buffer.Length
      modifies buffer
      ensures buffer[..] == Overwrite(old(buffer[..]), dest, source[start..start + Moved(rounded)])
    {
      ghost var mem := buffer[..];
      ghost var passes := PassesOf(rounded);
      var src, srcend, dst := start, start + rounded, dest;
      ghost var left := passes;
      while true
        invariant 0 < left <= passes && src == start + 16 * (passes - left) && dst == dest + 16 * (passes - left)
        invariant buffer[..] == Overwrite(mem, dest, source[start..src])
        decreases left
      {
        CopyPass(source, src, dst, mem, dest, start);
        src := src + 16;
        dst := dst + 16;
        left := left - 1;
        if !(src < srcend) {
          break;
        }
      }
    }

    /** One pass, after which the source is copied up to where it ends. */
    method CopyPass(source: array<Sample>, src: nat, dst: nat, ghost mem: seq<Sample>, ghost dest: nat,
                    ghost start: nat)
      requires source != buffer && start <= src && dst == dest + (src - start)
      requires src + 16 <= source.Length && dst + 16 <= buffer.Length == |mem|
      requires buffer[..] == Overwrite(mem, dest, source[start..src])
      modifies buffer
      ensures buffer[..] == Overwrite(mem, dest, source[start..src + 16])
    {
      ghost var data := source[..];
      assert data[start..src] == source[start..src] && data[src..src + 16] == source[src..src + 16];
      CopyEightWords(source, src, dst);
      StretchGrows(mem, dest, data, start, src);
      assert data[start..src + 16] == source[start..src + 16];
    }

    method Modify(data: array<Sample>, start: nat, srcsize: nat)
      requires Valid() && data != buffer
      requires start + CopyCount(Min(srcsize, size)) <= data.Length
      modifies this`modified, buffer
      ensures Valid() && Value() == Modified(old(Value()), data[start..], srcsize)
    {
      var n := if srcsize < size then srcsize else size;
      n := RoundUp16(n);
      modified := Some(0);
      CopyBlocks(data, start, 0, n);
      assert data[start..][..Moved(n)] == data[start..start + Moved(n)];
    }

    method MidModify(data: array<Sample>, start: nat, srcsize: nat)
      requires Valid() && data != buffer
      requires start + CopyCount(Min(srcsize, size / 2)) <= data.Length
      modifies this`modified, buffer
      ensures Valid() && Value() == MidModified(old(Value()), data[start..], srcsize)
    {
      var n := if srcsize < size / 2 then srcsize else size / 2;
      n := RoundUp16(n);
      modified := Some(size / 2);
      CopyBlocks(data, start, size / 2, n);
      assert data[start..][..Moved(n)] == data[start..start + Moved(n)];
    }

    method SetModified()
      requires Valid()
      modifies this`modified
      ensures Valid() && Value() == old(Value()).(modified := Some(0))
    {
      modified := Some(0);
    }

    method SetMidmodified()
      requires Valid()
      modifies this`modified
      ensures Valid() && Value() == old(Value()).(modified := Some(size / 2))
    {
      modified := Some(size / 2);
    }

    method SetSize(n: nat)
      requires Valid()
      modifies this`size
      ensures Valid() && Value() == old(Value()).(size := Min(n, MAX_SAMPLE_BUFFER_SIZE))
    {
      size := if n < MAX_SAMPLE_BUFFER_SIZE then n else MAX_SAMPLE_BUFFER_SIZE;
    }

    /** Test and clear: hands out the half noted last, once. */
    method TakeModified() returns (m: Option<nat>)
      requires Valid()
      modifies this`modified
      ensures Valid() && m == old(modified) && Value() == old(Value()).(modified := None)
    {
      m := modified;
      modified := None;
    }
  }
}
