/** source/elf.h: how a linker lays out the headers that source/elfload.cpp reads. The structures are packed
    and their fields little-endian, in the order of the TIS ELF Specification version 1.2, Book I. */
module ElfLayout {
  import opened Basics
  import opened ElfLoader

  type Half16 = n: nat | n < 0x1_0000
  type Word32 = n: nat | n < 0x1_0000_0000

  /** `Elf32_Ehdr`. */
  datatype Ehdr = Ehdr(
    ident: seq<Byte>,
    kind: Half16,
    machine: Half16,
    version: Word32,
    entry: Word32,
    phoff: Word32,
    shoff: Word32,
    flags: Word32,
    ehsize: Half16,
    phentsize: Half16,
    phnum: Half16,
    shentsize: Half16,
    shnum: Half16,
    shstrndx: Half16)

  /** `Elf32_Phdr`. */
  datatype Phdr = Phdr(
    kind: Word32,
    offset: Word32,
    vaddr: Word32,
    paddr: Word32,
    filesz: Word32,
    memsz: Word32,
    flags: Word32,
    align: Word32)

  const EI_NIDENT := 16

  function PackHalf(n: Half16): (r: seq<Byte>)
    ensures |r| == 2
  {
    [n % 0x100, n / 0x100]
  }

  function PackWord(n: Word32): (r: seq<Byte>)
    ensures |r| == 4
  {
    PackHalf(n % 0x1_0000) + PackHalf(n / 0x1_0000)
  }

  /** The fields before the entry point, from there to the flags, and the rest. */
  function PackEhdr(e: Ehdr): (r: seq<Byte>)
    requires |e.ident| == EI_NIDENT
    ensures |r| == 52
  {
    e.ident + PackHalf(e.kind) + PackHalf(e.machine) + PackWord(e.version)
    + PackWord(e.entry) + PackWord(e.phoff) + PackWord(e.shoff) + PackWord(e.flags)
    + PackHalf(e.ehsize) + PackHalf(e.phentsize) + PackHalf(e.phnum)
    + PackHalf(e.shentsize) + PackHalf(e.shnum) + PackHalf(e.shstrndx)
  }

  function PackPhdr(p: Phdr): (r: seq<Byte>)
    ensures |r| == 32
  {
    PackWord(p.kind) + PackWord(p.offset) + PackWord(p.vaddr) + PackWord(p.paddr)
    + PackWord(p.filesz) + PackWord(p.memsz) + PackWord(p.flags) + PackWord(p.align)
  }

  /** The bytes of `part` are in the file, from `at` on. */
  predicate Holds(file: seq<Byte>, at: nat, part: seq<Byte>) {
    at + |part| <= |file| && file[at..at + |part|] == part
  }

  lemma HoldsPart(file: seq<Byte>, at: nat, before: seq<Byte>, part: seq<Byte>, after: seq<Byte>)
    requires Holds(file, at, before + part + after)
    ensures Holds(file, at + |before|, part)
  {
    var whole := before + part + after;
    assert whole[|before|..|before| + |part|] == part;
    SliceOfSlice(file, at, |whole|, |before|, |before| + |part|);
  }

  lemma HalfRead(file: seq<Byte>, at: nat, n: Half16)
    requires Holds(file, at, PackHalf(n))
    ensures Half(file, at) == n
  {
    var part := file[at..at + 2];
    assert part[0] == file[at] && part[1] == file[at + 1];
  }

  lemma WordRead(file: seq<Byte>, at: nat, n: Word32)
    requires Holds(file, at, PackWord(n))
    ensures Word(file, at) == n
  {
    var low, high := PackHalf(n % 0x1_0000), PackHalf(n / 0x1_0000);
    assert PackWord(n) == [] + low + high == low + high + [];
    HoldsPart(file, at, [], low, high);
    HoldsPart(file, at, low, high, []);
    HalfRead(file, at, n % 0x1_0000);
    HalfRead(file, at + 2, n / 0x1_0000);
  }

  /** The four fields that the loader reads, with what is packed before and after each. */
  lemma EhdrParts(e: Ehdr)
    requires |e.ident| == EI_NIDENT
    ensures var start := e.ident + PackHalf(e.kind) + PackHalf(e.machine) + PackWord(e.version);
            var middle := start + PackWord(e.entry) + PackWord(e.phoff) + PackWord(e.shoff) + PackWord(e.flags)
                          + PackHalf(e.ehsize);
            && |start| == 24 && |middle| == 42
            && start + PackWord(e.entry) + PackEhdr(e)[28..] == PackEhdr(e)
            && (start + PackWord(e.entry)) + PackWord(e.phoff) + PackEhdr(e)[32..] == PackEhdr(e)
            && middle + PackHalf(e.phentsize) + PackEhdr(e)[44..] == PackEhdr(e)
            && (middle + PackHalf(e.phentsize)) + PackHalf(e.phnum) + PackEhdr(e)[46..] == PackEhdr(e)
  {
  }

  /** A packed header is read as what it was packed from: entry point, place, stride and length of the program
      header table are those of the linker. */
  lemma HeaderPacked(file: seq<Byte>, e: Ehdr)
    requires |e.ident| == EI_NIDENT && Holds(file, 0, PackEhdr(e))
    ensures HeaderOf(file) == Header(e.entry, e.phoff, e.phentsize, e.phnum)
    ensures file[..4] == e.ident[..4]
  {
    var packed := PackEhdr(e);
    var start := e.ident + PackHalf(e.kind) + PackHalf(e.machine) + PackWord(e.version);
    var middle := start + PackWord(e.entry) + PackWord(e.phoff) + PackWord(e.shoff) + PackWord(e.flags)
                  + PackHalf(e.ehsize);
    EhdrParts(e);
    HoldsPart(file, 0, start, PackWord(e.entry), packed[28..]);
    HoldsPart(file, 0, start + PackWord(e.entry), PackWord(e.phoff), packed[32..]);
    HoldsPart(file, 0, middle, PackHalf(e.phentsize), packed[44..]);
    HoldsPart(file, 0, middle + PackHalf(e.phentsize), PackHalf(e.phnum), packed[46..]);
    WordRead(file, 24, e.entry);
    WordRead(file, 28, e.phoff);
    HalfRead(file, 42, e.phentsize);
    HalfRead(file, 44, e.phnum);
    assert packed[..4] == e.ident[..4] && file[0..52][..4] == file[..4];
  }

  /** What the loader needs of an entry. */
  function SegmentOf(p: Phdr): Segment {
    Segment(p.kind, p.offset, p.vaddr, p.filesz, p.memsz)
  }

  lemma PhdrParts(p: Phdr)
    ensures var addresses := PackWord(p.kind) + PackWord(p.offset) + PackWord(p.vaddr) + PackWord(p.paddr);
            && |addresses| == 16
            && [] + PackWord(p.kind) + PackPhdr(p)[4..] == PackPhdr(p)
            && PackWord(p.kind) + PackWord(p.offset) + PackPhdr(p)[8..] == PackPhdr(p)
            && (PackWord(p.kind) + PackWord(p.offset)) + PackWord(p.vaddr) + PackPhdr(p)[12..] == PackPhdr(p)
            && addresses + PackWord(p.filesz) + PackPhdr(p)[20..] == PackPhdr(p)
            && (addresses + PackWord(p.filesz)) + PackWord(p.memsz) + PackPhdr(p)[24..] == PackPhdr(p)
  {
  }

  /** A packed entry of the program header table is read as what it was packed from. */
  lemma SegmentPacked(file: seq<Byte>, at: nat, p: Phdr)
    requires Holds(file, at, PackPhdr(p))
    ensures SegmentAt(file, at) == SegmentOf(p)
  {
    var packed := PackPhdr(p);
    var addresses := PackWord(p.kind) + PackWord(p.offset) + PackWord(p.vaddr) + PackWord(p.paddr);
    PhdrParts(p);
    HoldsPart(file, at, [], PackWord(p.kind), packed[4..]);
    HoldsPart(file, at, PackWord(p.kind), PackWord(p.offset), packed[8..]);
    HoldsPart(file, at, PackWord(p.kind) + PackWord(p.offset), PackWord(p.vaddr), packed[12..]);
    HoldsPart(file, at, addresses, PackWord(p.filesz), packed[20..]);
    HoldsPart(file, at, addresses + PackWord(p.filesz), PackWord(p.memsz), packed[24..]);
    WordRead(file, at, p.kind);
    WordRead(file, at + 4, p.offset);
    WordRead(file, at + 8, p.vaddr);
    WordRead(file, at + 16, p.filesz);
    WordRead(file, at + 20, p.memsz);
  }

  // ----- Linked files -----

  /** Where the linker puts entry `i` of the table. */
  function Place(e: Ehdr, i: nat): nat {
    e.phoff + i * e.phentsize
  }

  /** A file with this header and with this program header table, one stride after the other from where the
      header says. */
  ghost predicate Linked(file: seq<Byte>, e: Ehdr, ps: seq<Phdr>) {
    && |e.ident| == EI_NIDENT && Holds(file, 0, PackEhdr(e)) && |ps| == e.phnum
    && forall i :: 0 <= i < |ps| ==> Holds(file, Place(e, i), PackPhdr(ps[i]))
  }

  /** The loader tells its files by the bytes 7F 45 4C 46. */
  lemma LinkedSignature(file: seq<Byte>, e: Ehdr)
    requires |e.ident| == EI_NIDENT && Holds(file, 0, PackEhdr(e))
    ensures file[..4] == MAGIC <==> e.ident[0] == 0x7F && e.ident[1] == 0x45 && e.ident[2] == 0x4C && e.ident[3] == 0x46
  {
    HeaderPacked(file, e);
    var four: seq<Byte> := [0x7F, 0x45, 0x4C, 0x46];
    assert file[..4] == e.ident[..4];
    assert e.ident[..4] == four <==>
           e.ident[0] == 0x7F && e.ident[1] == 0x45 && e.ident[2] == 0x4C && e.ident[3] == 0x46;
  }

  ghost predicate Alike(segments: seq<Segment>, ps: seq<Phdr>) {
    |segments| == |ps| && forall i :: 0 <= i < |ps| ==> segments[i] == SegmentOf(ps[i])
  }

  lemma EntryRead(file: seq<Byte>, e: Ehdr, ps: seq<Phdr>, i: nat)
    requires Linked(file, e, ps) && i < |ps| && HeaderOf(file) == Header(e.entry, e.phoff, e.phentsize, e.phnum)
    ensures EntryFits(file, i) && SegmentAt(file, EntryAt(HeaderOf(file), i)) == SegmentOf(ps[i])
  {
    SegmentPacked(file, Place(e, i), ps[i]);
  }

  /** The loader reads the table that the linker wrote. */
  lemma LinkedTable(file: seq<Byte>, e: Ehdr, ps: seq<Phdr>)
    requires Linked(file, e, ps)
    ensures TableFits(file) && Alike(Segments(file), ps)
  {
    HeaderPacked(file, e);
    forall i | 0 <= i < |ps|
      ensures EntryFits(file, i) && SegmentAt(file, EntryAt(HeaderOf(file), i)) == SegmentOf(ps[i])
    {
      EntryRead(file, e, ps, i);
    }
  }

  /** There is code to enter exactly when some entry of type 1 has file contents. */
  lemma CodeAlike(segments: seq<Segment>, ps: seq<Phdr>)
    requires Alike(segments, ps)
    ensures HasCode(segments) <==> exists p :: p in ps && p.kind == 1 && p.filesz != 0
  {
    if p :| p in ps && p.kind == 1 && p.filesz != 0 {
      var i :| 0 <= i < |ps| && ps[i] == p;
      assert segments[i] in segments;
    }
    if s :| s in segments && s.kind == PT_LOAD && s.filesz != 0 {
      var i :| 0 <= i < |segments| && segments[i] == s;
      assert ps[i] in ps;
    }
  }

  /** Entry `p` of the table writes address `a`: it is of type 1, and `a` is among its file contents, or, if it
      has none, in its memory. */
  predicate Writes(p: Phdr, a: nat) {
    p.kind == 1 && p.vaddr <= a < p.vaddr + if p.filesz == 0 then p.memsz else p.filesz
  }

  /** Only `ps[i]` and entries before it write `a`. */
  ghost predicate WritesLast(ps: seq<Phdr>, i: nat, a: nat) {
    i < |ps| && Writes(ps[i], a) && forall j :: i < j < |ps| ==> !Writes(ps[j], a)
  }

  lemma WritesCovered(file: seq<Byte>, segments: seq<Segment>, ps: seq<Phdr>, size: nat, j: nat, a: nat)
    requires Alike(segments, ps) && AllFit(Loader, file, segments, size) && j < |ps|
    ensures Covers(Loader, file, segments[j], a) == Writes(ps[j], a)
  {
    assert segments[j] in segments;
  }

  /** An address that entries of the linker's table write holds the byte of the last of them: zero if that has
      no file contents, and else the byte of the file as far into its contents as the address is into its
      memory. */
  lemma LinkedByte(file: seq<Byte>, e: Ehdr, ps: seq<Phdr>, before: seq<Byte>, after: seq<Byte>, i: nat, a: nat)
    requires Linked(file, e, ps) && WellFormed(file, |before|) && IsImage(Loader, file, Segments(file), before, after)
    requires a < |after| && WritesLast(ps, i, a)
    ensures var at := ps[i].offset + (a - ps[i].vaddr);
            if ps[i].filesz == 0 then after[a] == 0 else at < |file| && after[a] == file[at]
  {
    LinkedTable(file, e, ps);
    var segments := Segments(file);
    forall j | i <= j < |ps| ensures Covers(Loader, file, segments[j], a) == Writes(ps[j], a) {
      WritesCovered(file, segments, ps, |before|, j, a);
    }
    ImageByte(file, segments, before, after, i, a);
  }

  lemma ImageByte(file: seq<Byte>, segments: seq<Segment>, before: seq<Byte>, after: seq<Byte>, i: nat, a: nat)
    requires IsImage(Loader, file, segments, before, after) && a < |after|
    requires LastCovering(Loader, file, segments, i, a)
    ensures var s := segments[i]; var at := s.offset + (a - s.vaddr);
            if s.filesz == 0 then after[a] == 0 else at < |file| && after[a] == file[at]
  {
  }

  /** Every other address holds what it held. */
  lemma LinkedElsewhere(file: seq<Byte>, e: Ehdr, ps: seq<Phdr>, before: seq<Byte>, after: seq<Byte>, a: nat)
    requires Linked(file, e, ps) && WellFormed(file, |before|) && IsImage(Loader, file, Segments(file), before, after)
    requires a < |after| && forall j :: 0 <= j < |ps| ==> !Writes(ps[j], a)
    ensures after[a] == before[a]
  {
    LinkedTable(file, e, ps);
    forall j | 0 <= j < |ps| ensures !Covers(Loader, file, Segments(file)[j], a) {
      WritesCovered(file, Segments(file), ps, |before|, j, a);
    }
    assert Uncovered(Loader, file, Segments(file), a);
  }
}
