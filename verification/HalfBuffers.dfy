/** Circular transfers over the two halves of a buffer: what a double-buffered output has put out, in
    terms of the contents each half had when its turn came. */
module HalfBuffers {
  import opened Basics

  /** Start of the half whose turn is number `n`, and of the other one. */
  function Current(h: nat, n: nat): nat {
    if n % 2 == 0 then 0 else h
  }

  function Other(h: nat, n: nat): nat {
    if n % 2 == 0 then h else 0
  }

  /** In turn `n`, `p` samples into it: the half from `c` on is the current one and holds what is planned
      for the turn, and the samples put out are those planned so far. */
  ghost predicate Playing(h: nat, c: nat, mem: seq<Sample>, played: seq<Sample>, slots: seq<seq<Sample>>,
                          n: nat, p: nat)
  {
    && c + h <= |mem| && p <= h && n < |slots|
    && mem[c..c + h] == slots[n]
    && played == Flatten(slots[..n]) + slots[n][..p]
  }

  /** The first turn, `p` samples into it. */
  lemma BeginPlay(h: nat, c: nat, mem: seq<Sample>, slots: seq<seq<Sample>>, p: nat)
    requires c + h <= |mem| && p <= h && slots != [] && slots[0] == mem[c..c + h]
    ensures Playing(h, c, mem, mem[c..c + p], slots, 0, p)
  {
    assert Flatten(slots[..0]) == [];
    assert mem[c..c + p] == mem[c..c + h][..p];
  }

  /** One more sample put out inside a half. */
  lemma PlayOne(h: nat, c: nat, mem: seq<Sample>, played: seq<Sample>, slots: seq<seq<Sample>>, n: nat, p: nat)
    requires Playing(h, c, mem, played, slots, n, p) && p < h
    ensures Playing(h, c, mem, played + [mem[c + p]], slots, n, p + 1)
  {
    var slot := slots[n];
    assert mem[c..c + h][p] == mem[c + p];
    assert slot[..p] + [slot[p]] == slot[..p + 1];
  }

  /** A half played to its end gives way to the one from `d` on, which must hold what is planned next. */
  lemma ClosePlay(h: nat, c: nat, d: nat, mem: seq<Sample>, played: seq<Sample>, slots: seq<seq<Sample>>, n: nat)
    requires Playing(h, c, mem, played, slots, n, h) && n + 1 < |slots|
    requires d + h <= |mem| && mem[d..d + h] == slots[n + 1]
    ensures Playing(h, d, mem, played, slots, n + 1, 0)
  {
    var slot := slots[n];
    FlattenSnoc(slots[..n], slot);
    assert slots[..n] + [slot] == slots[..n + 1];
    assert slot[..h] == slot;
  }

  /** The last sample of a turn, and the half that gives way. */
  lemma TurnPlayed(h: nat, c: nat, d: nat, mem: seq<Sample>, played: seq<Sample>, slots: seq<seq<Sample>>, n: nat)
    requires 0 < h && Playing(h, c, mem, played, slots, n, h - 1) && n + 1 < |slots|
    requires d + h <= |mem| && mem[d..d + h] == slots[n + 1]
    ensures Playing(h, d, mem, played + [mem[c + (h - 1)]], slots, n + 1, 0)
  {
    PlayOne(h, c, mem, played, slots, n, h - 1);
    ClosePlay(h, c, d, mem, played + [mem[c + (h - 1)]], slots, n);
  }

  lemma PlayMoreSlots(h: nat, c: nat, mem: seq<Sample>, played: seq<Sample>, slots: seq<seq<Sample>>,
                      n: nat, p: nat, slot: seq<Sample>)
    requires Playing(h, c, mem, played, slots, n, p)
    ensures Playing(h, c, mem, played, slots + [slot], n, p)
  {
    assert (slots + [slot])[..n] == slots[..n];
  }

  /** A write beside a half leaves it alone. */
  lemma BesideWritten(h: nat, mem: seq<Sample>, c: nat, at: nat, data: seq<Sample>)
    requires c + h <= |mem| && at + |data| <= |mem| && (at + |data| <= c || c + h <= at)
    ensures Overwrite(mem, at, data)[c..c + h] == mem[c..c + h]
  {
  }

  /** What was put out is the beginning of all that is planned. */
  lemma PlayedIsPrefix(h: nat, c: nat, mem: seq<Sample>, played: seq<Sample>, slots: seq<seq<Sample>>, n: nat, p: nat)
    requires Playing(h, c, mem, played, slots, n, p)
    ensures played <= Flatten(slots)
  {
    FlattenPrefix(slots, n, p);
  }

  lemma {:induction false} FlattenPrefix(parts: seq<seq<Sample>>, n: nat, m: nat)
    requires n < |parts| && m <= |parts[n]|
    ensures Flatten(parts[..n]) + parts[n][..m] <= Flatten(parts)
  {
    if n == 0 {
      assert parts[..0] == [];
    } else {
      assert parts[..n][1..] == parts[1..][..n - 1];
      assert parts[1..][n - 1] == parts[n];
      FlattenPrefix(parts[1..], n - 1, m);
    }
  }
}
