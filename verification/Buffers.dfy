/** Buffers that are filled from the start. */
module Buffers {
  const CR: bv8 := 0x0d
  const LF: bv8 := 0x0a

  /** *d++ = c. */
  method Put(ret: array<bv8>, d: nat, c: bv8) returns (d': nat)
    requires d < ret.Length
    modifies ret
    ensures d' == d + 1 && ret[..d'] == old(ret[..d]) + [c]
  {
    ret[d] := c;
    d' := d + 1;
  }

  /** A line break. */
  method PutBreak(ret: array<bv8>, d: nat) returns (d': nat)
    requires d + 2 <= ret.Length
    modifies ret
    ensures d' == d + 2 && ret[..d'] == old(ret[..d]) + [CR, LF]
  {
    d' := Put(ret, d, CR);
    d' := Put(ret, d', LF);
  }
}
