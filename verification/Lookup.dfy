/** dirlookup on the root directory of an image: how the kernel finds by name what mkfs put
    there. */
module Lookup {
  import opened Blocks
  import opened Options
  import opened FileSystem
  import opened FileBytes
  import opened FileMaps
  import opened Mkfs

  const ENTRY: nat := 2 + DIRSIZ

  // ----- dirlookup -----

  /** namecmp, from byte k on: a C string and the name in the entry at `at`. */
  predicate NameIs(name: seq<Byte>, bs: seq<Byte>, at: nat, k: nat)
    requires at + ENTRY <= |bs| && k <= DIRSIZ
    decreases DIRSIZ - k
  {
    k == DIRSIZ || (At(name, k) == bs[at + 2 + k] && (At(name, k) == 0 || NameIs(name, bs, at, k + 1)))
  }

  function Inum(bs: seq<Byte>, at: nat): nat
    requires at + ENTRY <= |bs|
  {
    var low: nat, high: nat := bs[at], bs[at + 1];
    low + 0x100 * high
  }

  /** Entry j of a directory is in use and has this name. */
  predicate Matches(bs: seq<Byte>, name: seq<Byte>, j: nat)
    requires j < |bs| / ENTRY
  {
    Place(bs, j);
    Inum(bs, j * ENTRY) != 0 && NameIs(name, bs, j * ENTRY, 0)
  }

  lemma Place(bs: seq<Byte>, j: nat)
    requires j < |bs| / ENTRY
    ensures j * ENTRY + ENTRY <= |bs|
  {
  }

  /** strncmp, with its loop. */
  method Namecmp(name: seq<Byte>, bs: seq<Byte>, at: nat) returns (same: bool)
    requires at + ENTRY <= |bs|
    ensures same == NameIs(name, bs, at, 0)
  {
    var k := 0;
    while k < DIRSIZ && At(name, k) != 0 && At(name, k) == bs[at + 2 + k]
      invariant 0 <= k <= DIRSIZ && NameIs(name, bs, at, 0) == NameIs(name, bs, at, k)
    {
      k := k + 1;
    }
    same := k == DIRSIZ || At(name, k) == bs[at + 2 + k];
  }

  /** dirlookup on the bytes of a directory: the inode number and the place of the first
      entry in use that has the name, or none. */
  method Dirlookup(bs: seq<Byte>, name: seq<Byte>) returns (r: Option<(nat, nat)>)
    requires |bs| % ENTRY == 0
    ensures r.None? ==> forall j :: 0 <= j < |bs| / ENTRY ==> !Matches(bs, name, j)
    ensures r.Some? ==>
              var k := r.value.1 / ENTRY;
              && r.value.1 == k * ENTRY && r.value.1 + ENTRY <= |bs| && r.value.0 == Inum(bs, r.value.1)
              && k < |bs| / ENTRY && Matches(bs, name, k) && forall j :: 0 <= j < k ==> !Matches(bs, name, j)
  {
    hide NameIs, Inum;
    var off := 0;
    ghost var k: nat := 0;
    while off < |bs|
      invariant off == k * ENTRY && k <= |bs| / ENTRY
      invariant forall j :: 0 <= j < k ==> !Matches(bs, name, j)
      decreases |bs| - off
    {
      Place(bs, k);
      if Inum(bs, off) != 0 {
        var same := Namecmp(name, bs, off);
        if same {
          return Some((Inum(bs, off), off));
        }
      }
      assert !Matches(bs, name, k);
      off, k := off + ENTRY, k + 1;
    }
    r := None;
  }

  // ----- The entries of an image -----

  /** A file name has no NUL. */
  predicate Text(name: seq<Byte>) {
    forall k :: 0 <= k < |name| ==> name[k] != 0
  }

  /** As much of a name as an entry holds. */
  function Cut(name: seq<Byte>): seq<Byte> {
    if |name| > DIRSIZ then name[..DIRSIZ] else name
  }

  /** The name entry j has, and the inode: the directory itself twice, then the files. */
  function NameOf(files: seq<File>, j: nat): seq<Byte>
    requires j < 2 + |files|
  {
    if j == 0 then [46] else if j == 1 then [46, 46] else EntryName(files[j - 2].name)
  }

  function NumberOf(j: nat): nat {
    if j < 2 then ROOT else j
  }

  lemma {:induction false} EntryIs(files: seq<File>, j: nat, i: nat)
    requires j < 2 + |files| < 1000 && i < ENTRY
    ensures Entries(files)[j * ENTRY + i] == Dirent(NumberOf(j), NameOf(files, j))[i]
    decreases |files|
  {
    hide Dirent, EntryName;
    if files != [] {
      var m := |files| - 1;
      var a, b := Entries(files[..m]), Dirent(|files| + 1, EntryName(files[m].name));
      assert Entries(files) == a + b;
      if j < 2 + m {
        EntryIs(files[..m], j, i);
      }
    }
  }

  lemma {:induction false} PaddedIs(name: seq<Byte>, n: seq<Byte>, bs: seq<Byte>, at: nat, k: nat)
    requires Text(name) && Text(n) && at + ENTRY <= |bs| && k <= DIRSIZ && k <= |name| && k <= |n| && name[..k] == n[..k]
    requires forall i :: 0 <= i < DIRSIZ ==> bs[at + 2 + i] == At(n, i)
    ensures NameIs(name, bs, at, k) <==> Cut(name) == Cut(n)
    decreases DIRSIZ - k
  {
    assert k < DIRSIZ ==> bs[at + 2 + k] == At(n, k);
    if k == DIRSIZ {
      assert Cut(name) == name[..k] && Cut(n) == n[..k];
    } else if k < |name| && k < |n| && name[k] == n[k] {
      assert name[..k + 1] == name[..k] + [name[k]] && n[..k + 1] == n[..k] + [n[k]];
      PaddedIs(name, n, bs, at, k + 1);
    } else if k == |name| && k == |n| {
      assert name == name[..k] && n == n[..k];
    } else if k < |name| && k < |n| {
      assert Cut(name)[k] == name[k] && Cut(n)[k] == n[k];
    } else {
      assert |Cut(name)| == k < |Cut(n)| || |Cut(n)| == k < |Cut(name)|;
    }
  }

  lemma NameText(files: seq<File>, j: nat)
    requires j < 2 + |files| && forall i :: 0 <= i < |files| ==> Text(files[i].name)
    ensures Text(NameOf(files, j))
  {
    if j >= 2 {
      assert Text(files[j - 2].name);
    }
  }

  /** Which entries of the root match: those whose names agree as far as an entry holds them.
      The zeros after the entries match nothing. */
  lemma RootMatches(files: seq<File>, name: seq<Byte>, bs: seq<Byte>, j: nat)
    requires |files| <= SB.ninodes - 2 && bs == RoundUp(Entries(files)) && j < |bs| / ENTRY
    requires Text(name) && forall i :: 0 <= i < |files| ==> Text(files[i].name)
    ensures Matches(bs, name, j) <==> j < 2 + |files| && Cut(NameOf(files, j)) == Cut(name)
    ensures j * ENTRY + ENTRY <= |bs| && (j < 2 + |files| ==> Inum(bs, j * ENTRY) == NumberOf(j))
  {
    hide Entries, NameIs, Cut, RoundUp, Dirent, Text, NameOf, Inum;
    Place(bs, j);
    if j < 2 + |files| {
      var n := NameOf(files, j);
      forall i | 0 <= i < ENTRY ensures bs[j * ENTRY + i] == Dirent(NumberOf(j), n)[i] {
        EntryIs(files, j, i);
        Rounds(files, j * ENTRY + i);
      }
      DirentBytes(bs, j * ENTRY, NumberOf(j), n);
      NameText(files, j);
      NoPrefix(name, n);
      PaddedIs(name, n, bs, j * ENTRY, 0);
    } else {
      Rounds(files, j * ENTRY);
      Rounds(files, j * ENTRY + 1);
      NoInum(bs, j * ENTRY);
    }
  }

  lemma NoPrefix(a: seq<Byte>, b: seq<Byte>)
    ensures a[..0] == b[..0]
  {
  }

  lemma NoInum(bs: seq<Byte>, at: nat)
    requires at + ENTRY <= |bs| && bs[at] == 0 && bs[at + 1] == 0
    ensures Inum(bs, at) == 0
  {
  }

  lemma Rounds(files: seq<File>, o: nat)
    requires |files| < 1000 && o < |RoundUp(Entries(files))|
    ensures RoundUp(Entries(files))[o] == if o < (2 + |files|) * ENTRY then Entries(files)[o] else 0
  {
    hide Entries;
  }

  lemma DirentBytes(bs: seq<Byte>, at: nat, inum: nat, n: seq<Byte>)
    requires inum < 0x1_0000 && at + ENTRY <= |bs| && forall i :: 0 <= i < ENTRY ==> bs[at + i] == Dirent(inum, n)[i]
    ensures Inum(bs, at) == inum && forall i :: 0 <= i < DIRSIZ ==> bs[at + 2 + i] == At(n, i)
  {
    assert bs[at + 0] == Dirent(inum, n)[0] && bs[at + 1] == Dirent(inum, n)[1];
    forall i | 0 <= i < DIRSIZ ensures bs[at + 2 + i] == At(n, i) {
      assert bs[at + (2 + i)] == Dirent(inum, n)[2 + i];
    }
  }

  /** A lookup in the root of a booted image returns the inode of the first file whose name
      agrees with the one asked for in its first 14 bytes, and none exactly if no file's
      does; . and .. are the root. */
  method FindInImage(img: seq<Block>, ghost owner: map<nat, Slot>, files: seq<File>, name: seq<Byte>) returns (r: Option<nat>)
    requires Disk(img) && |files| <= SB.ninodes - 2 && ImageOf(Mounted(img), owner, files)
    requires Text(name) && forall i :: 0 <= i < |files| ==> Text(files[i].name)
    ensures r.None? <==> forall j :: 0 <= j < 2 + |files| ==> Cut(NameOf(files, j)) != Cut(name)
    ensures r.Some? ==> exists j :: 0 <= j < 2 + |files| && First(files, name, j) && r.value == NumberOf(j)
  {
    hide ImageOf, Mounted, Wanted, RoundUp, Entries, Matches, Cut, Inum;
    RootBytes(img, owner, files);
    var bs := Bytes(Mounted(img), ROOT);
    var found := Dirlookup(bs, name);
    forall j: nat | j < |bs| / ENTRY
      ensures Matches(bs, name, j) <==> j < 2 + |files| && Cut(NameOf(files, j)) == Cut(name)
    {
      RootMatches(files, name, bs, j);
    }
    if found.None? {
      forall j | 0 <= j < 2 + |files| ensures Cut(NameOf(files, j)) != Cut(name) {
        assert !Matches(bs, name, j);
      }
      return None;
    }
    ghost var k := found.value.1 / ENTRY;
    RootMatches(files, name, bs, k);
    forall i | 0 <= i < k ensures Cut(NameOf(files, i)) != Cut(name) {
      assert !Matches(bs, name, i);
    }
    assert First(files, name, k);
    r := Some(found.value.0);
  }

  predicate First(files: seq<File>, name: seq<Byte>, j: nat)
    requires j < 2 + |files|
  {
    Cut(NameOf(files, j)) == Cut(name) && forall i :: 0 <= i < j ==> Cut(NameOf(files, i)) != Cut(name)
  }

  lemma RootBytes(img: seq<Block>, owner: map<nat, Slot>, files: seq<File>)
    requires Disk(img) && |files| <= SB.ninodes - 2 && ImageOf(Mounted(img), owner, files)
    ensures SizesOk(Mounted(img)) && Bytes(Mounted(img), ROOT) == RoundUp(Entries(files))
    ensures |RoundUp(Entries(files))| % ENTRY == 0 && 2 + |files| <= |RoundUp(Entries(files))| / ENTRY
  {
    hide Mounted, Entries, Bytes, Peek, MappedTo, Owned, Kinds, RoundUp, Synced, Mapped;
    assert RoundedFile(Mounted(img), ROOT, Wanted(files)[ROOT]);
    RoundLength(files);
  }

  lemma RoundLength(files: seq<File>)
    requires |files| < 1000
    ensures |RoundUp(Entries(files))| % ENTRY == 0 && 2 + |files| <= |RoundUp(Entries(files))| / ENTRY
  {
    hide Entries;
    var n: nat := 2 + |files|;
    InBlock(n);
    Times(n + 32 - n % 32);
    assert |RoundUp(Entries(files))| == (n + 32 - n % 32) * ENTRY;
  }

  /** There are 32 entries to a block. */
  lemma InBlock(n: nat)
    ensures n * ENTRY % BSIZE == n % 32 * ENTRY
  {
    var q, r := n / 32, n % 32;
    assert n * ENTRY == q * BSIZE + r * ENTRY;
  }

  lemma Times(m: nat)
    ensures m * ENTRY % ENTRY == 0 && m * ENTRY / ENTRY == m
  {
  }
}
