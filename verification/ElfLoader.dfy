/** source/elfload.cpp: loading a 32-bit little-endian ELF file from the file buffer into memory.
    The header fields are those of the TIS ELF Specification version 1.2, Book I, parts "ELF Header"
    and "Program Header". */
module ElfLoader {
  import opened Basics

  const MAX_ELF_FILE_SIZE := 16384
  const PT_LOAD := 1
  const MAGIC: seq<Byte> := [0x7F, 0x45, 0x4C, 0x46]

  // ----- Layout -----

  function Half(file: seq<Byte>, at: nat): nat
    requires at + 2 <= |file|
  {
    var low, high: int := file[at], file[at + 1];
    low + 0x100 * high
  }

  function Word(file: seq<Byte>, at: nat): nat
    requires at + 4 <= |file|
  {
    Half(file, at) + 0x1_0000 * Half(file, at + 2)
  }

  /** The fields of the packed `Elf32_Ehdr` that the loader reads. */
  datatype Header = Header(entry: nat, phoff: nat, phentsize: nat, phnum: nat)

  function HeaderOf(file: seq<Byte>): Header
    requires 52 <= |file|
  {
    Header(Word(file, 24), Word(file, 28), Half(file, 42), Half(file, 44))
  }

  /** The fields of a packed `Elf32_Phdr` that the loader reads. */
  datatype Segment = Segment(kind: nat, offset: nat, vaddr: nat, filesz: nat, memsz: nat)

  function SegmentAt(file: seq<Byte>, at: nat): Segment
    requires at + 32 <= |file|
  {
    Segment(Word(file, at), Word(file, at + 4), Word(file, at + 8), Word(file, at + 16), Word(file, at + 20))
  }

  /** The program header table lies in the file. */
  predicate TableFits(file: seq<Byte>) {
    && 52 <= |file|
    && forall i :: 0 <= i < HeaderOf(file).phnum ==> EntryFits(file, i)
  }

  /** Where entry `i` of the table is: the table is walked in strides of `e_phentsize`. */
  function EntryAt(h: Header, i: nat): nat {
    h.phoff + i * h.phentsize
  }

  predicate EntryFits(file: seq<Byte>, i: nat)
    requires 52 <= |file|
  {
    EntryAt(HeaderOf(file), i) + 32 <= |file|
  }

  /** The program header table, entry by entry. */
  function Segments(file: seq<Byte>): seq<Segment>
    requires TableFits(file)
  {
    seq(HeaderOf(file).phnum, i requires 0 <= i < HeaderOf(file).phnum =>
      assert EntryFits(file, i);
      SegmentAt(file, EntryAt(HeaderOf(file), i)))
  }

  // ----- What a segment means -----

  /** The memory image of a segment: as the loader writes it, or as the standard gives it. The
      standard fills the rest of `memsz` with zeros; the loader does so only when the segment has no
      file contents at all. */
  datatype Reading = Loader | Standard

  function Contents(reading: Reading, file: seq<Byte>, s: Segment): seq<Byte>
    requires SegmentFits(file, s)
  {
    if s.filesz == 0 then Repeat(0, s.memsz)
    else if reading == Loader || s.memsz <= s.filesz then file[s.offset..s.offset + s.filesz]
    else file[s.offset..s.offset + s.filesz] + Repeat(0, s.memsz - s.filesz)
  }

  predicate SegmentFits(file: seq<Byte>, s: Segment) {
    s.filesz > 0 ==> s.offset + s.filesz <= |file|
  }

  /** Every loadable segment has its contents in the file and its image in memory. */
  predicate AllFit(reading: Reading, file: seq<Byte>, segments: seq<Segment>, size: nat) {
    forall s :: s in segments && s.kind == PT_LOAD ==>
      SegmentFits(file, s) && s.vaddr + |Contents(reading, file, s)| <= size
  }

  predicate Covers(reading: Reading, file: seq<Byte>, s: Segment, a: nat) {
    && s.kind == PT_LOAD && SegmentFits(file, s)
    && s.vaddr <= a < s.vaddr + |Contents(reading, file, s)|
  }

  /** Entry `i` is the last one of the table that covers address `a`. */
  predicate LastCovering(reading: Reading, file: seq<Byte>, segments: seq<Segment>, i: nat, a: nat) {
    && i < |segments| && Covers(reading, file, segments[i], a)
    && forall j :: i < j < |segments| ==> !Covers(reading, file, segments[j], a)
  }

  /** `after` is the image of the segments over `before`: every address has the value given by the
      last loadable segment that covers it, and every other address is as it was. */
  ghost predicate IsImage(reading: Reading, file: seq<Byte>, segments: seq<Segment>,
                          before: seq<Byte>, after: seq<Byte>)
  {
    && |after| == |before|
    && (forall a, i :: 0 <= a < |after| && 0 <= i && LastCovering(reading, file, segments, i, a) ==>
          after[a] == Contents(reading, file, segments[i])[a - segments[i].vaddr])
    && (forall a :: 0 <= a < |after| && Uncovered(reading, file, segments, a) ==> after[a] == before[a])
  }

  ghost predicate Uncovered(reading: Reading, file: seq<Byte>, segments: seq<Segment>, a: nat) {
    forall i :: 0 <= i < |segments| ==> !Covers(reading, file, segments[i], a)
  }

  // ----- The image exists, is unique, and grows entry by entry -----

  /** One entry of the table applied to memory. */
  function Applied(reading: Reading, file: seq<Byte>, s: Segment, memory: seq<Byte>): (r: seq<Byte>)
    requires s.kind == PT_LOAD ==>
               SegmentFits(file, s) && s.vaddr + |Contents(reading, file, s)| <= |memory|
    ensures |r| == |memory|
  {
    if s.kind == PT_LOAD then Overwrite(memory, s.vaddr, Contents(reading, file, s)) else memory
  }

  lemma ImageExtends(reading: Reading, file: seq<Byte>, segments: seq<Segment>, s: Segment,
                     before: seq<Byte>, after: seq<Byte>)
    requires IsImage(reading, file, segments, before, after)
    requires s.kind == PT_LOAD ==>
               SegmentFits(file, s) && s.vaddr + |Contents(reading, file, s)| <= |after|
    ensures IsImage(reading, file, segments + [s], before, Applied(reading, file, s, after))
  {
    var all, r, n := segments + [s], Applied(reading, file, s, after), |segments|;
    forall a, i | 0 <= a < |r| && 0 <= i && LastCovering(reading, file, all, i, a)
      ensures r[a] == Contents(reading, file, all[i])[a - all[i].vaddr]
    {
      if i < n {
        assert all[n] == s && !Covers(reading, file, s, a);
        assert forall j :: i < j < n ==> all[j] == segments[j];
        assert LastCovering(reading, file, segments, i, a);
      }
    }
    forall a | 0 <= a < |r| && Uncovered(reading, file, all, a)
      ensures r[a] == before[a]
    {
      assert all[n] == s && !Covers(reading, file, s, a);
      assert forall j :: 0 <= j < n ==> all[j] == segments[j];
      assert Uncovered(reading, file, segments, a);
    }
  }

  lemma {:induction false} FindLast(reading: Reading, file: seq<Byte>, segments: seq<Segment>, a: nat, n: nat)
    requires n <= |segments|
    requires forall j :: n <= j < |segments| ==> !Covers(reading, file, segments[j], a)
    ensures Uncovered(reading, file, segments, a)
            || exists i :: 0 <= i < |segments| && LastCovering(reading, file, segments, i, a)
  {
    if n > 0 {
      if Covers(reading, file, segments[n - 1], a) {
        assert LastCovering(reading, file, segments, n - 1, a);
      } else {
        FindLast(reading, file, segments, a, n - 1);
      }
    }
  }

  /** The description leaves nothing open: there is at most one image. */
  lemma ImageUnique(reading: Reading, file: seq<Byte>, segments: seq<Segment>,
                    before: seq<Byte>, x: seq<Byte>, y: seq<Byte>)
    requires IsImage(reading, file, segments, before, x) && IsImage(reading, file, segments, before, y)
    ensures x == y
  {
    forall a | 0 <= a < |x| ensures x[a] == y[a] {
      FindLast(reading, file, segments, a, |segments|);
    }
  }

  /** The image, built entry by entry. */
  function Loaded(reading: Reading, file: seq<Byte>, segments: seq<Segment>, memory: seq<Byte>): (r: seq<Byte>)
    requires AllFit(reading, file, segments, |memory|)
    ensures |r| == |memory|
  {
    if segments == [] then memory
    else
      var n := |segments| - 1;
      Applied(reading, file, segments[n], Loaded(reading, file, segments[..n], memory))
  }

  lemma {:induction false} LoadedIsImage(reading: Reading, file: seq<Byte>, segments: seq<Segment>,
                                         memory: seq<Byte>)
    requires AllFit(reading, file, segments, |memory|)
    ensures IsImage(reading, file, segments, memory, Loaded(reading, file, segments, memory))
  {
    if segments != [] {
      var n := |segments| - 1;
      LoadedIsImage(reading, file, segments[..n], memory);
      ImageExtends(reading, file, segments[..n], segments[n], memory,
                   Loaded(reading, file, segments[..n], memory));
      assert segments[..n] + [segments[n]] == segments;
    }
  }

  // ----- Order of the table -----

  /** Some loadable segment has contents in the file. */
  predicate HasCode(segments: seq<Segment>) {
    exists s :: s in segments && s.kind == PT_LOAD && s.filesz != 0
  }

  /** No address is covered by two different entries. */
  ghost predicate Disjoint(reading: Reading, file: seq<Byte>, segments: seq<Segment>) {
    forall s, t, a: nat :: s in segments && t in segments && s != t ==>
      !(Covers(reading, file, s, a) && Covers(reading, file, t, a))
  }

  /** Two loadable entries, of one file each, that put the same contents at the same address. */
  predicate Same(reading: Reading, file: seq<Byte>, s: Segment, other: seq<Byte>, t: Segment) {
    && s.kind == t.kind == PT_LOAD && SegmentFits(file, s) && SegmentFits(other, t)
    && s.vaddr == t.vaddr && Contents(reading, file, s) == Contents(reading, other, t)
    && (s.filesz == 0) == (t.filesz == 0)
  }

  /** Every loadable entry of one table has its like in the other. */
  ghost predicate Included(reading: Reading, file: seq<Byte>, segments: seq<Segment>,
                           other: seq<Byte>, others: seq<Segment>)
  {
    forall s :: s in segments && s.kind == PT_LOAD ==> exists t :: t in others && Same(reading, file, s, other, t)
  }

  lemma LikeEntriesCover(reading: Reading, file: seq<Byte>, segments: seq<Segment>,
                         other: seq<Byte>, others: seq<Segment>, a: nat)
    requires Included(reading, other, others, file, segments)
    requires Uncovered(reading, file, segments, a)
    ensures Uncovered(reading, other, others, a)
  {
    forall j | 0 <= j < |others| ensures !Covers(reading, other, others[j], a) {
      assert others[j] in others;
      if Covers(reading, other, others[j], a) {
        var s :| s in segments && Same(reading, other, others[j], file, s);
        var i :| 0 <= i < |segments| && segments[i] == s;
        assert Covers(reading, file, segments[i], a);
      }
    }
  }

  lemma SameCovers(reading: Reading, file: seq<Byte>, s: Segment, other: seq<Byte>, t: Segment, a: nat)
    requires Same(reading, file, s, other, t) && Covers(reading, file, s, a)
    ensures Covers(reading, other, t, a)
    ensures Contents(reading, file, s)[a - s.vaddr] == Contents(reading, other, t)[a - t.vaddr]
  {
  }

  lemma OnlyOneCovers(reading: Reading, file: seq<Byte>, segments: seq<Segment>, s: Segment, t: Segment, a: nat)
    requires Disjoint(reading, file, segments) && s in segments && t in segments
    requires Covers(reading, file, s, a) && Covers(reading, file, t, a)
    ensures s == t
  {
  }

  /** The entries that cover an address in both tables are alike. */
  lemma LikeEntriesAgree(reading: Reading, file: seq<Byte>, segments: seq<Segment>, s: Segment,
                         other: seq<Byte>, others: seq<Segment>, t: Segment, a: nat)
    requires Disjoint(reading, file, segments) && Included(reading, other, others, file, segments)
    requires s in segments && Covers(reading, file, s, a) && t in others && Covers(reading, other, t, a)
    ensures Same(reading, other, t, file, s)
  {
    var like :| like in segments && Same(reading, other, t, file, like);
    SameCovers(reading, other, t, file, like, a);
    OnlyOneCovers(reading, file, segments, like, s, a);
  }

  /** The last entry that covers an address gives it its value. */
  lemma CoveredValue(reading: Reading, file: seq<Byte>, segments: seq<Segment>, before: seq<Byte>, x: seq<Byte>,
                     a: nat)
    returns (s: Segment)
    requires IsImage(reading, file, segments, before, x) && a < |x| && !Uncovered(reading, file, segments, a)
    ensures s in segments && Covers(reading, file, s, a) && x[a] == Contents(reading, file, s)[a - s.vaddr]
  {
    FindLast(reading, file, segments, a, |segments|);
    var i :| 0 <= i < |segments| && LastCovering(reading, file, segments, i, a);
    s := segments[i];
  }

  lemma LikeValues(reading: Reading, file: seq<Byte>, segments: seq<Segment>, other: seq<Byte>, others: seq<Segment>,
                   before: seq<Byte>, x: seq<Byte>, y: seq<Byte>, a: nat)
    requires Disjoint(reading, file, segments) && Included(reading, other, others, file, segments)
    requires IsImage(reading, file, segments, before, x) && IsImage(reading, other, others, before, y) && a < |x|
    requires !Uncovered(reading, file, segments, a) && !Uncovered(reading, other, others, a)
    ensures x[a] == y[a]
  {
    var s := CoveredValue(reading, file, segments, before, x, a);
    var t := CoveredValue(reading, other, others, before, y, a);
    LikeEntriesAgree(reading, file, segments, s, other, others, t, a);
    SameCovers(reading, other, t, file, s, a);
  }

  lemma LikeCode(reading: Reading, file: seq<Byte>, segments: seq<Segment>, other: seq<Byte>, others: seq<Segment>)
    requires Included(reading, file, segments, other, others) && HasCode(segments)
    ensures HasCode(others)
  {
  }

  /** Order independence. Take two files, with their tables in whatever order and wherever in the file,
      whose loadable entries put the same contents at the same addresses. If the segments are disjoint,
      both files give the same memory, and agree on whether there is code. */
  lemma OrderIndependent(reading: Reading, file: seq<Byte>, segments: seq<Segment>,
                         other: seq<Byte>, others: seq<Segment>, before: seq<Byte>, x: seq<Byte>, y: seq<Byte>)
    requires Disjoint(reading, file, segments)
    requires Included(reading, file, segments, other, others) && Included(reading, other, others, file, segments)
    requires IsImage(reading, file, segments, before, x) && IsImage(reading, other, others, before, y)
    ensures x == y && HasCode(segments) == HasCode(others)
  {
    forall a | 0 <= a < |x| ensures x[a] == y[a] {
      if Uncovered(reading, file, segments, a) {
        LikeEntriesCover(reading, file, segments, other, others, a);
      } else if Uncovered(reading, other, others, a) {
        LikeEntriesCover(reading, other, others, file, segments, a);
      } else {
        LikeValues(reading, file, segments, other, others, before, x, y, a);
      }
    }
    if HasCode(segments) {
      LikeCode(reading, file, segments, other, others);
    } else if HasCode(others) {
      LikeCode(reading, other, others, file, segments);
    }
  }

  // ----- Agreement with the standard -----

  /** The loader's image of disjoint well-formed segments is the standard's, whatever memory held
      before, exactly when every loadable segment has no file contents or is all file contents. */
  lemma StandardIff(file: seq<Byte>, segments: seq<Segment>, size: nat)
    requires AllFit(Standard, file, segments, size) && Disjoint(Standard, file, segments)
    requires forall s :: s in segments && s.kind == PT_LOAD ==> s.filesz <= s.memsz
    ensures (forall before: seq<Byte>, after: seq<Byte> ::
               |before| == size && IsImage(Loader, file, segments, before, after)
               ==> IsImage(Standard, file, segments, before, after))
            <==> (forall s :: s in segments && s.kind == PT_LOAD ==> s.filesz == 0 || s.filesz == s.memsz)
  {
    if forall s :: s in segments && s.kind == PT_LOAD ==> s.filesz == 0 || s.filesz == s.memsz {
      forall before: seq<Byte>, after: seq<Byte>
        | |before| == size && IsImage(Loader, file, segments, before, after)
        ensures IsImage(Standard, file, segments, before, after)
      {
        SameContentsSameImage(file, segments, before, after);
      }
    } else {
      var s :| s in segments && s.kind == PT_LOAD && s.filesz != 0 && s.filesz != s.memsz;
      TailDiffers(file, segments, size, s);
    }
  }

  lemma SameContentsSameImage(file: seq<Byte>, segments: seq<Segment>, before: seq<Byte>, after: seq<Byte>)
    requires IsImage(Loader, file, segments, before, after)
    requires forall s :: s in segments && s.kind == PT_LOAD ==> s.filesz == 0 || s.filesz == s.memsz
    ensures IsImage(Standard, file, segments, before, after)
  {
    forall i, a: nat | 0 <= i < |segments|
      ensures Covers(Standard, file, segments[i], a) == Covers(Loader, file, segments[i], a)
    {
      assert segments[i] in segments;
    }
    forall a, i | 0 <= a < |after| && 0 <= i && LastCovering(Standard, file, segments, i, a)
      ensures after[a] == Contents(Standard, file, segments[i])[a - segments[i].vaddr]
    {
      assert segments[i] in segments;
      assert LastCovering(Loader, file, segments, i, a);
    }
    forall a | 0 <= a < |after| && Uncovered(Standard, file, segments, a)
      ensures after[a] == before[a]
    {
      assert Uncovered(Loader, file, segments, a);
    }
  }

  /** Over memory full of ones the first byte past the file contents of `s` shows the difference. */
  lemma TailDiffers(file: seq<Byte>, segments: seq<Segment>, size: nat, s: Segment)
    requires AllFit(Standard, file, segments, size) && Disjoint(Standard, file, segments)
    requires forall t :: t in segments && t.kind == PT_LOAD ==> t.filesz <= t.memsz
    requires s in segments && s.kind == PT_LOAD && 0 < s.filesz < s.memsz
    ensures exists before: seq<Byte>, after: seq<Byte> ::
              && |before| == size && IsImage(Loader, file, segments, before, after)
              && !IsImage(Standard, file, segments, before, after)
  {
    var before := Repeat<Byte>(1, size);
    LoaderFits(file, segments, size);
    var after := Loaded(Loader, file, segments, before);
    LoadedIsImage(Loader, file, segments, before);
    var a := s.vaddr + s.filesz;
    assert Covers(Standard, file, s, a);
    forall i | 0 <= i < |segments| ensures !Covers(Loader, file, segments[i], a) {
      assert segments[i] in segments;
      assert Covers(Loader, file, segments[i], a) ==> Covers(Standard, file, segments[i], a);
    }
    assert Uncovered(Loader, file, segments, a) && after[a] == 1;
    FindLast(Standard, file, segments, a, |segments|);
    var k :| 0 <= k < |segments| && segments[k] == s;
    var i :| 0 <= i < |segments| && LastCovering(Standard, file, segments, i, a);
    assert segments[i] in segments && segments[i] == s;
    assert Contents(Standard, file, s)[s.filesz] == 0;
    assert !IsImage(Standard, file, segments, before, after);
  }

  lemma LoaderFits(file: seq<Byte>, segments: seq<Segment>, size: nat)
    requires AllFit(Standard, file, segments, size)
    ensures AllFit(Loader, file, segments, size)
  {
  }

  // ----- The loader -----

  /** What the loader relies on without checking. */
  predicate WellFormed(file: seq<Byte>, size: nat) {
    TableFits(file) && AllFit(Loader, file, Segments(file), size)
  }

  /** A file buffer that the loader can be run on: one it rejects, or a well-formed one. */
  predicate LoadsSafely(file: seq<Byte>, size: nat) {
    4 <= |file| && (file[..4] == MAGIC ==> WellFormed(file, size))
  }

  /** `ELFManager`, with the memory it loads into. The file buffer is not part of that memory. */
  class ElfManager {
    const fileBuffer: array<Byte>
    const memory: array<Byte>
    var entry: nat

    ghost predicate Valid()
      reads this
    {
      fileBuffer.Length == MAX_ELF_FILE_SIZE && fileBuffer != memory
    }

    constructor (memory: array<Byte>)
      ensures Valid() && this.memory == memory && entry == 0 && fresh(fileBuffer)
    {
      fileBuffer := new Byte[MAX_ELF_FILE_SIZE](_ => 0);
      this.memory := memory;
      entry := 0;
    }

    method Unload()
      modifies this
      ensures entry == 0
    {
      entry := 0;
    }

    /** `std::memset` with zero. */
    method Clear(at: nat, count: nat)
      requires at + count <= memory.Length
      modifies memory
      ensures memory[..] == Overwrite(old(memory[..]), at, Repeat(0, count))
    {
      var i := 0;
      while i < count
        invariant 0 <= i <= count
        invariant memory[..] == Overwrite(old(memory[..]), at, Repeat(0, i))
      {
        memory[at + i] := 0;
        i := i + 1;
      }
    }

    /** `std::memcpy` from the file buffer. */
    method Copy(at: nat, offset: nat, count: nat)
      requires Valid() && at + count <= memory.Length && offset + count <= fileBuffer.Length
      modifies memory
      ensures memory[..] == Overwrite(old(memory[..]), at, fileBuffer[offset..offset + count])
    {
      ghost var data := fileBuffer[offset..offset + count];
      var i := 0;
      while i < count
        invariant 0 <= i <= count
        invariant memory[..] == Overwrite(old(memory[..]), at, data[..i])
      {
        memory[at + i] := fileBuffer[offset + i];
        assert data[..i + 1] == data[..i] + [data[i]];
        i := i + 1;
      }
      assert data[..count] == data;
    }

    method LoadSegment(phdr: Segment) returns (loaded: bool)
      requires Valid()
      requires phdr.kind == PT_LOAD ==>
                 && SegmentFits(fileBuffer[..], phdr)
                 && phdr.vaddr + |Contents(Loader, fileBuffer[..], phdr)| <= memory.Length
      modifies memory
      ensures memory[..] == Applied(Loader, fileBuffer[..], phdr, old(memory[..]))
      ensures loaded == (phdr.kind == PT_LOAD && phdr.filesz != 0)
    {
      loaded := false;
      if phdr.kind == PT_LOAD {
        if phdr.filesz == 0 {
          Clear(phdr.vaddr, phdr.memsz);
        } else {
          Copy(phdr.vaddr, phdr.offset, phdr.filesz);
          loaded := true;
        }
      }
    }

    /** The comparison with the signature, byte by byte. */
    method HasSignature() returns (ok: bool)
      requires Valid()
      ensures ok == (fileBuffer[..4] == MAGIC)
    {
      var i := 0;
      while i < 4 && fileBuffer[i] == MAGIC[i]
        invariant 0 <= i <= 4
        invariant forall j :: 0 <= j < i ==> fileBuffer[j] == MAGIC[j]
      {
        i := i + 1;
      }
      ok := i == 4;
      assert !ok ==> fileBuffer[..4][i] != MAGIC[i];
    }

    /** Without the signature nothing is loaded. With it, the loop leaves in memory the image of the
        program header table, and there is an entry point exactly when some loadable segment had
        contents in the file. */
    method LoadFromInternalBuffer() returns (loaded: bool)
      requires Valid()
      requires LoadsSafely(fileBuffer[..], memory.Length)
      modifies this, memory
      ensures Valid() && fileBuffer[..] == old(fileBuffer[..])
      ensures fileBuffer[..4] != MAGIC ==> !loaded && memory[..] == old(memory[..])
      ensures fileBuffer[..4] == MAGIC ==>
                && IsImage(Loader, fileBuffer[..], Segments(fileBuffer[..]), old(memory[..]), memory[..])
                && loaded == HasCode(Segments(fileBuffer[..]))
      ensures entry == if loaded then HeaderOf(fileBuffer[..]).entry else 0
    {
      entry := 0;
      var signed := HasSignature();
      if !signed {
        return false;
      }
      var ehdr := HeaderOf(fileBuffer[..]);
      loaded := LoadTable(ehdr);
      if loaded {
        entry := ehdr.entry;
      }
    }

    /** The entry at `phdr`, number `i` of the table. */
    method LoadEntry(phdr: nat, ghost file: seq<Byte>, ghost i: nat, ghost before: seq<Byte>) returns (copied: bool)
      requires Valid() && fileBuffer[..] == file && WellFormed(file, memory.Length)
      requires i < HeaderOf(file).phnum && phdr == EntryAt(HeaderOf(file), i)
      requires IsImage(Loader, file, Segments(file)[..i], before, memory[..])
      modifies memory
      ensures IsImage(Loader, file, Segments(file)[..i + 1], before, memory[..])
      ensures HasCode(Segments(file)[..i + 1]) == (HasCode(Segments(file)[..i]) || copied)
    {
      assert EntryFits(file, i);
      var segment := SegmentAt(fileBuffer[..], phdr);
      ExtendTable(file, Segments(file), i, segment, before, memory[..]);
      copied := LoadSegment(segment);
    }

    /** The loop over the program header table. */
    method LoadTable(ehdr: Header) returns (loaded: bool)
      requires Valid() && WellFormed(fileBuffer[..], memory.Length) && ehdr == HeaderOf(fileBuffer[..])
      modifies memory
      ensures IsImage(Loader, fileBuffer[..], Segments(fileBuffer[..]), old(memory[..]), memory[..])
      ensures loaded == HasCode(Segments(fileBuffer[..]))
    {
      ghost var file, before := fileBuffer[..], memory[..];
      ghost var segments := Segments(file);
      loaded := false;
      var phdr, i := ehdr.phoff, 0;
      LoadedIsImage(Loader, file, [], before);
      while i < ehdr.phnum
        invariant 0 <= i <= ehdr.phnum && phdr == EntryAt(ehdr, i)
        invariant fileBuffer[..] == file
        invariant IsImage(Loader, file, segments[..i], before, memory[..])
        invariant loaded == HasCode(segments[..i])
      {
        var copied := LoadEntry(phdr, file, i, before);
        if copied && !loaded {
          loaded := true;
        }
        NextEntry(ehdr, i);
        phdr := phdr + ehdr.phentsize;
        i := i + 1;
      }
      assert segments[..i] == segments;
    }
  }

  /** One stride leads to the next entry. */
  lemma NextEntry(h: Header, i: nat)
    ensures EntryAt(h, i + 1) == EntryAt(h, i) + h.phentsize
  {
  }

  /** One more entry of the table. */
  lemma ExtendTable(file: seq<Byte>, segments: seq<Segment>, i: nat, s: Segment,
                    before: seq<Byte>, after: seq<Byte>)
    requires i < |segments| && s == segments[i]
    requires IsImage(Loader, file, segments[..i], before, after)
    requires AllFit(Loader, file, segments, |after|)
    ensures s.kind == PT_LOAD ==>
              SegmentFits(file, s) && s.vaddr + |Contents(Loader, file, s)| <= |after|
    ensures IsImage(Loader, file, segments[..i + 1], before, Applied(Loader, file, s, after))
    ensures HasCode(segments[..i + 1]) == (HasCode(segments[..i]) || (s.kind == PT_LOAD && s.filesz != 0))
  {
    assert s in segments;
    ImageExtends(Loader, file, segments[..i], s, before, after);
    assert segments[..i + 1] == segments[..i] + [s];
    assert s in segments[..i + 1];
  }
}
