/** The disk in memory of memide.c and the buffers its iderw serves. */
module Memide {
  import opened Blocks

  const ROOTDEV: nat := 1

  datatype Buf = Buf(busy: bool, valid: bool, dirty: bool, dev: nat, sector: nat, data: Block) {
    predicate Holds(d: nat, s: nat) {
      dev == d && sector == s
    }

    predicate Reusable() {
      !busy && !dirty
    }
  }

  /** (b->flags & (B_VALID|B_DIRTY)) == B_VALID */
  predicate UpToDate(x: Buf) {
    x.valid && !x.dirty
  }

  /** iderw gets past its panics on a disk of n sectors. */
  predicate Ready(x: Buf, n: nat) {
    x.busy && !UpToDate(x) && x.dev == ROOTDEV && x.sector < n
  }

  /** The buffer after iderw, the sector holding d before it. */
  function Settled(x: Buf, d: Block): Buf {
    if x.dirty then x.(dirty := false, valid := true) else x.(data := d, valid := true)
  }

  /** The disk after iderw. */
  function Stored(disk: seq<Block>, x: Buf): seq<Block>
    requires x.sector < |disk|
  {
    if x.dirty then disk[x.sector := x.data] else disk
  }
}
