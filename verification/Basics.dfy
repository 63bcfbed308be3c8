/** Types shared by every component of the firmware model. */
module Basics {

  /** `uint16_t`, the type of one ADC or DAC sample. */
  type Sample = x: int | 0 <= x < 0x1_0000

  /** `unsigned char`. */
  type Byte = x: int | 0 <= x < 0x100

  datatype Option<+T> = None | Some(value: T)

  function Min(a: nat, b: nat): (r: nat)
    ensures r <= a && r <= b && (r == a || r == b)
  {
    if a < b then a else b
  }

  /** `mem` with `data` stored from index `at` on. */
  function Overwrite<T>(mem: seq<T>, at: nat, data: seq<T>): (r: seq<T>)
    requires at + |data| <= |mem|
    ensures |r| == |mem|
    ensures forall i :: 0 <= i < |mem| ==> r[i] == if at <= i < at + |data| then data[i - at] else mem[i]
  {
    mem[..at] + data + mem[at + |data|..]
  }

  /** The sequence holding `n` copies of `x`. */
  function Repeat<T>(x: T, n: nat): (r: seq<T>)
    ensures |r| == n
    ensures forall i :: 0 <= i < n ==> r[i] == x
  {
    seq(n, _ => x)
  }

  lemma SliceOfSlice<T>(mem: seq<T>, base: nat, h: nat, lo: nat, hi: nat)
    requires lo <= hi <= h && base + h <= |mem|
    ensures mem[base..base + h][lo..hi] == mem[base + lo..base + hi]
  {
    var outer := mem[base..base + h];
    assert forall i :: lo <= i < hi ==> outer[i] == mem[base + i];
  }

  /** Concatenation of all the sequences in `parts`. */
  function Flatten<T>(parts: seq<seq<T>>): seq<T> {
    if parts == [] then [] else parts[0] + Flatten(parts[1..])
  }

  lemma {:induction false} FlattenSnoc<T>(parts: seq<seq<T>>, last: seq<T>)
    ensures Flatten(parts + [last]) == Flatten(parts) + last
  {
    if parts == [] {
      assert (parts + [last])[1..] == [];
    } else {
      assert (parts + [last])[1..] == parts[1..] + [last];
      FlattenSnoc(parts[1..], last);
    }
  }
}
