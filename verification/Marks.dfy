/** The 32-bit packet mark.  Two bits belong to the daemon: 0x10000 records that
    the ports of a rule matched, 0x20000 that one of its peers matched. */
module Marks {

  type Mark = bv32

  /** Bitwise expression of nftables: mask, then xor. */
  function Masked(m: Mark, mask: Mark, xor: Mark): Mark {
    (m & mask) ^ xor
  }

  function Reset(m: Mark): Mark { Masked(m, 0xfffcffff, 0) }
  function SetPort(m: Mark): Mark { Masked(m, 0xfffeffff, 0x10000) }
  function SetPeer(m: Mark): Mark { Masked(m, 0xfffdffff, 0x20000) }

  predicate Both(m: Mark) { Masked(m, 0x30000, 0) == 0x30000 }

  /** The bits that belong to other users of the mark. */
  function Others(m: Mark): Mark { m & 0xfffcffff }

  lemma ResetClears(m: Mark)
    ensures !Both(Reset(m)) && !Both(SetPort(Reset(m))) && !Both(SetPeer(Reset(m)))
  {
  }

  lemma BothBits(m: Mark)
    ensures Both(SetPeer(SetPort(Reset(m))))
  {
  }

  lemma SetTwice(m: Mark)
    ensures SetPort(SetPort(m)) == SetPort(m) && SetPeer(SetPeer(m)) == SetPeer(m)
  {
  }

  lemma OthersReset(m: Mark)
    ensures Others(Reset(m)) == Others(m)
  {
  }

  lemma OthersPort(m: Mark)
    ensures Others(SetPort(m)) == Others(m)
  {
  }

  lemma OthersPeer(m: Mark)
    ensures Others(SetPeer(m)) == Others(m)
  {
  }

  /** No daemon rule touches the bits of other users. */
  lemma OtherBits(m: Mark)
    ensures Others(Reset(m)) == Others(SetPort(m)) == Others(SetPeer(m)) == Others(m)
  {
    OthersReset(m);
    OthersPort(m);
    OthersPeer(m);
  }
}
