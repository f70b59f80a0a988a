/**
 * Byte evidence about files that another process may change at any moment: digests
 * bound to a file's identity, and directory inventories bound to a directory's. Each
 * system call sees the world at its own tick.
 */
module FileEvidence {
  import opened Wrappers
  import opened Maildir

  newtype byte = x: int | 0 <= x < 256
  type Dir = seq<string>
  type Digest = string

  const MAX_HASH_FILES: nat := 500
  const MAX_HASH_BYTES: nat := 100 * 1024 * 1024
  const READ_SIZE: nat := 1_048_576

  // ----- the disk and what identities say ------------------------------------------------

  datatype Inode = Inode(device: nat, number: nat)

  /** What `stat` compares: size, mtime, inode, ctime and device. */
  datatype Identity = Identity(size: nat, mtime: int, number: nat, ctime: int, device: nat) {
    function Node(): Inode {
      Inode(device, number)
    }
  }

  datatype Entry = Entry(node: Inode, symlink: bool)

  datatype World = World(names: map<Path, Entry>, nodes: map<Inode, Identity>, dirs: map<Dir, Identity>)

  /** What an identity determines: a file's kind and bytes, a directory's listing. */
  datatype Facts = Facts(bytes: Identity -> seq<byte>, regular: Identity -> bool, listing: Identity -> set<string>,
                         hash: seq<byte> -> Digest)

  function StatAt(w: World, p: Path): Option<Identity> {
    if p in w.names && w.names[p].node in w.nodes then Some(w.nodes[w.names[p].node]) else None
  }

  function NodeAt(w: World, n: Inode): Option<Identity> {
    if n in w.nodes then Some(w.nodes[n]) else None
  }

  function DirAt(w: World, d: Dir): Option<Identity> {
    if d in w.dirs then Some(w.dirs[d]) else None
  }

  function Children(w: World, d: Dir): set<Path> {
    set p | p in w.names && p.dirs == d
  }

  ghost predicate Consistent(facts: Facts, w: World) {
    && (forall p | p in w.names :: w.names[p].node in w.nodes && p.dirs in w.dirs)
    && (forall n | n in w.nodes ::
            w.nodes[n].Node() == n && (facts.regular(w.nodes[n]) ==> |facts.bytes(w.nodes[n])| == w.nodes[n].size))
    && (forall d, name | d in w.dirs :: name in facts.listing(w.dirs[d]) <==> Path(d, name) in w.names)
  }

  /** An identity seen twice was there all along: a change moves the ctime, which never runs back. */
  ghost predicate PathOnce(worlds: nat -> World, p: Path) {
    forall i, j, k | i <= j <= k && StatAt(worlds(i), p).Some? && StatAt(worlds(i), p) == StatAt(worlds(k), p) ::
      StatAt(worlds(j), p) == StatAt(worlds(i), p)
  }

  ghost predicate NodeOnce(worlds: nat -> World, n: Inode) {
    forall i, j, k | i <= j <= k && NodeAt(worlds(i), n).Some? && NodeAt(worlds(i), n) == NodeAt(worlds(k), n) ::
      NodeAt(worlds(j), n) == NodeAt(worlds(i), n)
  }

  ghost predicate DirOnce(worlds: nat -> World, d: Dir) {
    forall i, j, k | i <= j <= k && DirAt(worlds(i), d).Some? && DirAt(worlds(i), d) == DirAt(worlds(k), d) ::
      DirAt(worlds(j), d) == DirAt(worlds(i), d)
  }

  ghost predicate Honest(facts: Facts, worlds: nat -> World) {
    && (forall t: nat :: Consistent(facts, worlds(t)))
    && (forall p :: PathOnce(worlds, p))
    && (forall n :: NodeOnce(worlds, n))
    && (forall d :: DirOnce(worlds, d))
  }

  /** The file holds these bytes now. */
  ghost predicate Holds(facts: Facts, w: World, p: Path, content: seq<byte>) {
    var id := StatAt(w, p);
    id.Some? && facts.regular(id.value) && facts.bytes(id.value) == content
  }

  lemma PathUnchanged(facts: Facts, worlds: nat -> World, p: Path, i: nat, j: nat, k: nat)
    requires Honest(facts, worlds) && i <= j <= k && StatAt(worlds(i), p).Some?
    requires StatAt(worlds(i), p) == StatAt(worlds(k), p)
    ensures StatAt(worlds(j), p) == StatAt(worlds(i), p)
  {
    assert PathOnce(worlds, p);
  }

  lemma NodeUnchanged(facts: Facts, worlds: nat -> World, n: Inode, i: nat, j: nat, k: nat)
    requires Honest(facts, worlds) && i <= j <= k && NodeAt(worlds(i), n).Some?
    requires NodeAt(worlds(i), n) == NodeAt(worlds(k), n)
    ensures NodeAt(worlds(j), n) == NodeAt(worlds(i), n)
  {
    assert NodeOnce(worlds, n);
  }

  lemma DirUnchanged(facts: Facts, worlds: nat -> World, d: Dir, i: nat, j: nat, k: nat)
    requires Honest(facts, worlds) && i <= j <= k && DirAt(worlds(i), d).Some?
    requires DirAt(worlds(i), d) == DirAt(worlds(k), d)
    ensures DirAt(worlds(j), d) == DirAt(worlds(i), d)
  {
    assert DirOnce(worlds, d);
  }

  lemma IdentityIsOfItsNode(facts: Facts, worlds: nat -> World, t: nat, p: Path)
    requires Honest(facts, worlds) && StatAt(worlds(t), p).Some?
    ensures var id := StatAt(worlds(t), p).value;
            NodeAt(worlds(t), id.Node()) == Some(id) && (facts.regular(id) ==> |facts.bytes(id)| == id.size)
  {
    assert Consistent(facts, worlds(t));
  }

  // ----- system calls -------------------------------------------------------------------------

  /**
   * The disk as one process meets it: each system call sees the world at its own tick, and
   * between two ticks anything may have changed. `fails` and `short` choose errors and
   * short reads.
   */
  class Disk {
    const facts: Facts
    const worlds: nat -> World
    const fails: nat -> bool
    const short: nat -> nat
    var tick: nat

    constructor (facts: Facts, worlds: nat -> World, fails: nat -> bool, short: nat -> nat)
      requires Honest(facts, worlds)
      ensures Valid() && tick == 0
      ensures this.facts == facts && this.worlds == worlds && this.fails == fails && this.short == short
    {
      this.facts, this.worlds, this.fails, this.short := facts, worlds, fails, short;
      tick := 0;
    }

    ghost predicate Valid() {
      Honest(facts, worlds)
    }

    function Meets(): Calls {
      Calls(worlds, fails)
    }

    /** `file_identity`. */
    method Stat(p: Path) returns (r: Option<Identity>)
      modifies this
      ensures tick == old(tick) + 1
      ensures r == if fails(old(tick)) then None else StatAt(worlds(old(tick)), p)
    {
      r := if fails(tick) then None else StatAt(worlds(tick), p);
      tick := tick + 1;
    }

    /** `_same_file`. */
    method SameFile(p: Path, identity: Identity) returns (same: bool)
      modifies this
      ensures tick == old(tick) + 1
      ensures same <==> SameAt(p, identity, old(tick))
      ensures same <==> !fails(old(tick)) && StatAt(worlds(old(tick)), p) == Some(identity)
    {
      var found := Stat(p);
      same := found == Some(identity);
    }

    /** `Path.exists`, where an error is no proof that nothing is there. */
    method Missing(p: Path) returns (missing: bool)
      modifies this
      ensures tick == old(tick) + 1
      ensures missing <==> MissingAt(p, old(tick))
      ensures missing <==> !fails(old(tick)) && StatAt(worlds(old(tick)), p).None?
    {
      missing := !fails(tick) && StatAt(worlds(tick), p).None?;
      tick := tick + 1;
    }

    predicate MissingAt(p: Path, t: nat) {
      !fails(t) && StatAt(worlds(t), p).None?
    }

    /** A check at that tick finds the file, with that identity. */
    predicate SameAt(p: Path, identity: Identity, t: nat) {
      !fails(t) && StatAt(worlds(t), p) == Some(identity)
    }

    /** `FolderInventory._signature`: a missing directory is no error, and has none. */
    method Signature(d: Dir) returns (r: Option<Option<Identity>>)
      modifies this
      ensures tick == old(tick) + 1
      ensures r == if fails(old(tick)) then None else Some(DirAt(worlds(old(tick)), d))
    {
      r := if fails(tick) then None else Some(DirAt(worlds(tick), d));
      tick := tick + 1;
    }

    /** `iterdir`. */
    method List(d: Dir) returns (r: Option<set<Path>>)
      requires Valid()
      modifies this
      ensures tick == old(tick) + 1
      ensures r == if fails(old(tick)) || d !in worlds(old(tick)).dirs then None
                   else Some(Children(worlds(old(tick)), d))
    {
      var w := worlds(tick);
      if fails(tick) || d !in w.dirs {
        r := None;
      } else {
        r := Some(Children(w, d));
      }
      tick := tick + 1;
    }

    /** `open` with `O_NOFOLLOW`. */
    method Open(p: Path) returns (r: Option<Inode>)
      requires Valid()
      modifies this
      ensures tick == old(tick) + 1
      ensures r == if fails(old(tick)) || p !in worlds(old(tick)).names || worlds(old(tick)).names[p].symlink then None
                   else Some(worlds(old(tick)).names[p].node)
    {
      var w := worlds(tick);
      r := if fails(tick) || p !in w.names || w.names[p].symlink then None else Some(w.names[p].node);
      tick := tick + 1;
    }

    method Fstat(n: Inode) returns (r: Option<Identity>)
      modifies this
      ensures tick == old(tick) + 1
      ensures r == if fails(old(tick)) then None else NodeAt(worlds(old(tick)), n)
    {
      r := if fails(tick) then None else NodeAt(worlds(tick), n);
      tick := tick + 1;
    }

    /** `read` at an offset: at most `size` bytes of what the node holds now, perhaps fewer. */
    method Read(n: Inode, offset: nat, size: nat) returns (chunk: seq<byte>)
      requires size > 0
      modifies this
      ensures tick == old(tick) + 1 && |chunk| <= size
      ensures forall id | NodeAt(worlds(old(tick)), n) == Some(id) ::
                offset + |chunk| <= |facts.bytes(id)| || chunk == []
      ensures forall id | NodeAt(worlds(old(tick)), n) == Some(id) ::
          chunk == [] <==> fails(old(tick)) || offset >= |facts.bytes(id)|
      ensures forall id | NodeAt(worlds(old(tick)), n) == Some(id) && chunk != [] ::
                chunk == facts.bytes(id)[offset..offset + |chunk|]
    {
      var node := NodeAt(worlds(tick), n);
      var held := if node.Some? then facts.bytes(node.value) else [];
      if fails(tick) || offset >= |held| {
        chunk := [];
      } else {
        var most := if 1 + short(tick) < size then 1 + short(tick) else size;
        var end := if offset + most < |held| then offset + most else |held|;
        chunk := held[offset..end];
      }
      tick := tick + 1;
    }
  }

  /** The node has this identity at every tick of a stretch. */
  ghost predicate Kept(worlds: nat -> World, n: Inode, identity: Identity, start: nat, end: nat) {
    forall u: nat | start <= u < end :: NodeAt(worlds(u), n) == Some(identity)
  }

  lemma PrefixGrows(got: seq<byte>, chunk: seq<byte>, all: seq<byte>)
    requires got <= all && |got| + |chunk| <= |all| && chunk == all[|got|..|got| + |chunk|]
    ensures got + chunk <= all
  {
    assert all[..|got| + |chunk|] == all[..|got|] + all[|got|..|got| + |chunk|];
  }

  /** The read loop: as many bytes as the identity's size says, or nothing. */
  method ReadAll(disk: Disk, node: Inode, identity: Identity) returns (got: Option<seq<byte>>)
    requires disk.Valid()
    modifies disk
    ensures disk.tick >= old(disk.tick)
    ensures got.Some? ==> |got.value| == identity.size
    ensures got.Some? && Kept(disk.worlds, node, identity, old(disk.tick), disk.tick) ==>
        got.value <= disk.facts.bytes(identity)
    ensures Quiet(disk, node, identity, old(disk.tick)) && identity.size <= |disk.facts.bytes(identity)| ==> got.Some?
  {
    hide Honest, NodeAt;
    ghost var start := disk.tick;
    ghost var all := disk.facts.bytes(identity);
    var read: seq<byte> := [];
    var remaining: nat := identity.size;
    while remaining > 0
      invariant start <= disk.tick && |read| + remaining == identity.size
      invariant Kept(disk.worlds, node, identity, start, disk.tick) ==> read <= all
    {
      QuietAt(disk, node, identity, start, disk.tick);
      var chunk := disk.Read(node, |read|, if READ_SIZE < remaining then READ_SIZE else remaining);
      if chunk == [] {
        return None;
      }
      if Kept(disk.worlds, node, identity, start, disk.tick) {
        KeptAt(disk.worlds, node, identity, start, disk.tick);
        PrefixGrows(read, chunk, all);
      }
      read := read + chunk;
      remaining := remaining - |chunk|;
    }
    got := Some(read);
  }

  /** From that tick on no call fails and the node keeps its identity. */
  ghost predicate Quiet(disk: Disk, n: Inode, identity: Identity, from: nat) {
    forall u: nat | u >= from :: !disk.fails(u) && NodeAt(disk.worlds(u), n) == Some(identity)
  }

  lemma QuietAt(disk: Disk, n: Inode, identity: Identity, from: nat, t: nat)
    requires from <= t
    ensures Quiet(disk, n, identity, from) ==>
        !disk.fails(t) && NodeAt(disk.worlds(t), n) == Some(identity) && Quiet(disk, n, identity, t)
  {
  }

  /** From that tick on nothing touches the file, and it can be read. */
  ghost predicate Undisturbed(disk: Disk, path: Path, identity: Identity, from: nat) {
    && disk.facts.regular(identity) && Quiet(disk, identity.Node(), identity, from)
    && forall u: nat | u >= from ::
            path in disk.worlds(u).names && disk.worlds(u).names[path] == Entry(identity.Node(), false)
  }

  lemma UndisturbedAt(disk: Disk, path: Path, identity: Identity, from: nat, t: nat)
    requires from <= t && disk.Valid()
    ensures Undisturbed(disk, path, identity, from) ==>
              && !disk.fails(t) && path in disk.worlds(t).names
              && disk.worlds(t).names[path] == Entry(identity.Node(), false)
              && disk.SameAt(path, identity, t) && NodeAt(disk.worlds(t), identity.Node()) == Some(identity)
              && Quiet(disk, identity.Node(), identity, t) && identity.size == |disk.facts.bytes(identity)|
              && disk.facts.regular(identity)
  {
    hide Honest;
    if Undisturbed(disk, path, identity, from) {
      QuietAt(disk, identity.Node(), identity, from, t);
      IdentityIsOfItsNode(disk.facts, disk.worlds, t, path);
    }
  }

  lemma KeptBetween(disk: Disk, n: Inode, identity: Identity, start: nat, last: nat)
    requires disk.Valid() && start <= last && NodeAt(disk.worlds(start), n) == Some(identity)
    requires NodeAt(disk.worlds(last), n) == Some(identity)
    ensures Kept(disk.worlds, n, identity, start, last)
  {
    hide Honest;
    forall u: nat | start <= u < last ensures NodeAt(disk.worlds(u), n) == Some(identity) {
      NodeUnchanged(disk.facts, disk.worlds, n, start, u, last);
    }
  }

  lemma KeptFrom(worlds: nat -> World, n: Inode, identity: Identity, start: nat, last: nat)
    requires Kept(worlds, n, identity, start, last)
    ensures Kept(worlds, n, identity, start + 1, last)
  {
  }

  lemma KeptAt(worlds: nat -> World, n: Inode, identity: Identity, start: nat, end: nat)
    requires start < end && Kept(worlds, n, identity, start, end)
    ensures Kept(worlds, n, identity, start, end - 1) && NodeAt(worlds(end - 1), n) == Some(identity)
  {
  }

  /**
   * `read_digest`: the file is opened, its descriptor compared with the captured identity
   * before and after reading, and its path once more at the end. A digest that comes back is
   * that of the bytes the identity names, however the file was changed meanwhile.
   */
  method ReadDigest(disk: Disk, path: Path, identity: Identity) returns (r: Option<Digest>)
    requires disk.Valid()
    modifies disk
    ensures disk.tick >= old(disk.tick)
    ensures r.Some? ==> disk.facts.regular(identity) && r.value == disk.facts.hash(disk.facts.bytes(identity))
    ensures r.Some? ==> old(disk.tick) < disk.tick && StatAt(disk.worlds(disk.tick - 1), path) == Some(identity)
    ensures Undisturbed(disk, path, identity, old(disk.tick)) ==> r.Some?
  {
    hide Honest, Undisturbed, Quiet, Kept, StatAt, NodeAt;
    ghost var from := disk.tick;
    var node := OpenAs(disk, path, identity);
    if node.None? {
      return None;
    }
    ghost var start: nat := disk.tick - 1;
    var got := ReadAll(disk, node.value, identity);
    if got.None? {
      return None;
    }
    var same := StillSame(disk, node.value, path, identity, from, start);
    if !same {
      return None;
    }
    IdentityIsOfItsNode(disk.facts, disk.worlds, disk.tick - 1, path);
    assert got.value == disk.facts.bytes(identity);
    r := Some(disk.facts.hash(got.value));
  }

  /** The descriptor, if it names a regular file with the captured identity. */
  method OpenAs(disk: Disk, path: Path, identity: Identity) returns (node: Option<Inode>)
    requires disk.Valid()
    modifies disk
    ensures disk.tick > old(disk.tick)
    ensures node.Some? ==>
        disk.facts.regular(identity) && NodeAt(disk.worlds(disk.tick - 1), node.value) == Some(identity)
    ensures node.Some? && Undisturbed(disk, path, identity, old(disk.tick)) ==>
              Quiet(disk, node.value, identity, disk.tick) && identity.size <= |disk.facts.bytes(identity)|
              && node.value == identity.Node()
    ensures Undisturbed(disk, path, identity, old(disk.tick)) ==> node.Some?
  {
    hide Honest, Undisturbed, Quiet;
    ghost var from := disk.tick;
    UndisturbedAt(disk, path, identity, from, from);
    UndisturbedAt(disk, path, identity, from, from + 1);
    UndisturbedAt(disk, path, identity, from, from + 2);
    var fd := disk.Open(path);
    if fd.None? {
      return None;
    }
    var st := disk.Fstat(fd.value);
    node := if st == Some(identity) && disk.facts.regular(identity) then fd else None;
  }

  /** The checks after reading: the descriptor's identity, and the path's. */
  method StillSame(disk: Disk, node: Inode, path: Path, identity: Identity, ghost from: nat, ghost start: nat)
    returns (same: bool)
    requires disk.Valid() && from <= start < disk.tick && NodeAt(disk.worlds(start), node) == Some(identity)
    modifies disk
    ensures disk.tick > old(disk.tick)
    ensures same ==>
        Kept(disk.worlds, node, identity, start + 1, old(disk.tick))
        && StatAt(disk.worlds(disk.tick - 1), path) == Some(identity)
    ensures Undisturbed(disk, path, identity, from) && node == identity.Node() ==> same
  {
    hide Honest, Undisturbed, Quiet, Kept;
    ghost var last := disk.tick;
    UndisturbedAt(disk, path, identity, from, last);
    UndisturbedAt(disk, path, identity, from, last + 1);
    var end := disk.Fstat(node);
    if end != Some(identity) {
      return false;
    }
    KeptBetween(disk, node, identity, start, last);
    KeptFrom(disk.worlds, node, identity, start, last);
    same := disk.SameFile(path, identity);
  }

  // ----- inventories ---------------------------------------------------------------------------

  /** A directory's children, under the signature it had when they were listed. */
  datatype Listing = Listing(signature: Option<Identity>, children: set<Path>)

  /** Every file of the directory is listed, and, while it is there, nothing else. */
  ghost predicate Lists(w: World, d: Dir, children: set<Path>) {
    && (forall p | p in w.names && p.dirs == d :: p in children)
    && (d in w.dirs ==> forall p | p in children :: p in w.names && p.dirs == d)
  }

  ghost predicate IsListing(facts: Facts, d: Dir, l: Listing) {
    l.signature.Some? ==> forall p :: p in l.children <==> p.dirs == d && p.name in facts.listing(l.signature.value)
  }

  lemma SignatureProvesListing(facts: Facts, w: World, d: Dir, l: Listing)
    requires Consistent(facts, w) && IsListing(facts, d, l) && DirAt(w, d) == l.signature
    ensures Lists(w, d, l.children)
  {
    forall p: Path ensures p in w.names && p.dirs == d ==> p in l.children {
      assert Path(p.dirs, p.name) == p;
    }
  }

  lemma ListedUnderSignature(facts: Facts, worlds: nat -> World, d: Dir, before: Option<Identity>, children: set<Path>,
                             i: nat, j: nat, k: nat)
    requires Honest(facts, worlds) && i <= j <= k
    requires before.Some? ==> DirAt(worlds(i), d) == before && DirAt(worlds(k), d) == before
    requires forall p :: p in children <==> p in worlds(j).names && p.dirs == d
    ensures IsListing(facts, d, Listing(before, children))
  {
    if before.Some? {
      DirUnchanged(facts, worlds, d, i, j, k);
      assert Consistent(facts, worlds(j));
      forall p: Path | p.dirs == d ensures p in children <==> p.name in facts.listing(before.value) {
        assert Path(p.dirs, p.name) == p;
      }
    }
  }

  // ----- what the looks at a folder come to, call by call ---------------------------------------

  /** What each system call meets: the world at its tick, or an error. */
  datatype Calls = Calls(worlds: nat -> World, fails: nat -> bool) {
    function SignatureAt(d: Dir, t: nat): Option<Option<Identity>> {
      if fails(t) then None else Some(DirAt(worlds(t), d))
    }
  }

  /** The recorded directories, and the tick of the next call. */
  datatype Inventory = Inventory(entries: map<Dir, Option<Listing>>, tick: nat)

  /** The first look at a directory: signature, listing if it is there, signature. */
  function FirstLook(c: Calls, d: Dir, t: nat): (Option<Listing>, nat) {
    var before := c.SignatureAt(d, t);
    if before.None? then (None, t + 1)
    else if before.value.None? then
      (if c.SignatureAt(d, t + 1) == before then Some(Listing(None, {})) else None, t + 2)
    else if c.fails(t + 1) || d !in c.worlds(t + 1).dirs then (None, t + 2)
    else
      var children := Children(c.worlds(t + 1), d);
      (if c.SignatureAt(d, t + 2) == before then Some(Listing(before.value, children)) else None, t + 3)
  }

  function Inventoried(c: Calls, i: Inventory, d: Dir): Inventory {
    if d in i.entries then i
    else
      var (listing, t) := FirstLook(c, d, i.tick);
      Inventory(i.entries[d := listing], t)
  }

  /** A look at a directory: its listing, once more under the signature it was recorded with. */
  function DirectoryLook(c: Calls, i: Inventory, d: Dir): (Option<set<Path>>, Inventory) {
    var known := Inventoried(c, i, d);
    var entry := if d in known.entries then known.entries[d] else None;
    if entry.None? then (None, known)
    else
      (if c.SignatureAt(d, known.tick) == Some(entry.value.signature) then Some(entry.value.children) else None,
       known.(tick := known.tick + 1))
  }

  /** The candidates of a path: its directory first, then the sibling. */
  function CandidatesLook(c: Calls, i: Inventory, path: Path): (Option<set<Path>>, Inventory) {
    var (own, looked) := DirectoryLook(c, i, path.dirs);
    if own.None? then (None, looked)
    else if Sibling(path.dirs).None? then (Some(WithUniq(own.value, path)), looked)
    else
      var (other, both) := DirectoryLook(c, looked, Sibling(path.dirs).value);
      (if other.None? then None else Some(WithUniq(own.value, path) + WithUniq(other.value, path)), both)
  }

  /** The tick of the look at the path's own directory, which is the last call of that look. */
  function OwnLook(c: Calls, path: Path, i: Inventory): nat {
    Last(DirectoryLook(c, i, path.dirs).1.tick)
  }

  /** The last call before `tick`. */
  function Last(tick: nat): nat {
    if tick == 0 then 0 else tick - 1
  }

  /** The path has a sibling directory, and it is recorded. */
  predicate HasSibling(path: Path, entries: map<Dir, Option<Listing>>) {
    Sibling(path.dirs).Some? && Sibling(path.dirs).value in entries
  }

  lemma LookLater(disk: Disk, i: Inventory, path: Path)
    ensures i.tick <= CandidatesLook(disk.Meets(), i, path).1.tick
  {
    hide WithUniq, Children;
  }

  lemma FirstLookIsListing(facts: Facts, c: Calls, d: Dir, t: nat)
    requires Honest(facts, c.worlds) && FirstLook(c, d, t).0.Some?
    ensures var l := FirstLook(c, d, t).0.value;
      IsListing(facts, d, l) && DirAt(c.worlds(t), d) == l.signature && t < FirstLook(c, d, t).1
  {
    hide Honest, IsListing;
    var l := FirstLook(c, d, t).0.value;
    if l.signature.Some? {
      ListedUnderSignature(facts, c.worlds, d, l.signature, l.children, t, t + 1, t + 2);
    } else {
      NoSignature(facts, d, l.children);
    }
  }

  function Sibling(d: Dir): Option<Dir> {
    if d == [] then None
    else
      var parent, last := d[..|d|-1], d[|d|-1];
      if last == "cur" then Some(parent + ["new"])
      else if last == "new" then Some(parent + ["cur"])
      else None
  }

  predicate SameUniqIn(w: World, path: Path, d: Dir, p: Path) {
    p in w.names && p.dirs == d && Uniq(p.name) == Uniq(path.name)
  }

  type Key = (Path, Identity)

  /** The facts a cache of digests may hold. */
  ghost predicate Digests(facts: Facts, hashes: map<Key, Digest>) {
    forall key | key in hashes :: facts.regular(key.1) && hashes[key] == facts.hash(facts.bytes(key.1))
  }

  /** `FolderInventory`. */
  class FolderInventory {
    const disk: Disk
    var entries: map<Dir, Option<Listing>>
    var hashes: map<Key, Digest>
    var files: nat
    var bytes: nat
    var hashDeferred: nat
    var attempted: set<Key>
    var deferred: set<Key>
    /** A tick at which the directory was seen under its recorded signature. */
    ghost var seenAt: map<Dir, nat>

    constructor (disk: Disk, hashes: map<Key, Digest>)
      requires disk.Valid() && Digests(disk.facts, hashes)
      ensures Valid() && this.disk == disk && this.hashes == hashes && entries == map[]
    {
      this.disk, this.hashes := disk, hashes;
      entries, seenAt := map[], map[];
      files, bytes, hashDeferred := 0, 0, 0;
      attempted, deferred := {}, {};
    }

    ghost predicate Valid()
      reads this, disk
    {
      && disk.Valid()
      && Digests(disk.facts, hashes)
      && files <= MAX_HASH_FILES && bytes <= MAX_HASH_BYTES
      && seenAt.Keys == entries.Keys
      && forall d | d in entries && entries[d].Some? :: Recorded(d, entries[d].value)
    }

    function Now(): Inventory
      reads this`entries, disk
    {
      Inventory(entries, disk.tick)
    }

    ghost predicate Recorded(d: Dir, l: Listing)
      requires d in seenAt
      reads this, disk
    {
      && IsListing(disk.facts, d, l)
      && seenAt[d] < disk.tick
      && (l.signature.Some? ==> DirAt(disk.worlds(seenAt[d]), d) == l.signature)
    }

    /** The directory's inventory proves nothing, or a look at it in that stretch failed or found it changed. */
    ghost predicate Unsettled(d: Dir, from: nat, to: nat)
      reads this
    {
      d in entries
      && (entries[d].None? || exists t: nat ::
              from <= t < to && (disk.fails(t) || DirAt(disk.worlds(t), d) != entries[d].value.signature))
    }

    lemma UnsettledLonger(d: Dir, from: nat, earlier: nat, to: nat)
      requires Unsettled(d, from, to) && earlier <= from
      ensures Unsettled(d, earlier, to)
    {
    }

    /** `digest`: at most 500 files and 100 MiB, failed reads included. */
    method Digest(path: Path, identity: Identity) returns (r: Option<Digest>)
      requires Valid()
      modifies disk, this`hashes, this`files, this`bytes, this`hashDeferred, this`attempted, this`deferred
      ensures Valid() && disk.tick >= old(disk.tick)
      ensures r.Some? ==> disk.facts.regular(identity) && r.value == disk.facts.hash(disk.facts.bytes(identity))
      ensures var key := (path, identity);
              var room := old(files) < MAX_HASH_FILES && old(bytes) + identity.size <= MAX_HASH_BYTES;
              var read := key !in old(hashes) && key !in old(attempted) && room;
              && (key in old(hashes) ==> r == Some(old(hashes)[key]))
              && (key !in old(hashes) && !read ==> r.None?)
              && (read && Undisturbed(disk, path, identity, old(disk.tick)) ==> r.Some?)
              && hashes == (if read && r.Some? then old(hashes)[key := r.value] else old(hashes))
              && attempted == (if read then old(attempted) + {key} else old(attempted))
              && files == old(files) + (if read then 1 else 0) && bytes
                  == old(bytes) + (if read then identity.size else 0)
    {
      hide Honest, IsListing, Undisturbed, StatAt, DirAt, Consistent;
      var key := (path, identity);
      if key in hashes {
        return Some(hashes[key]);
      }
      if key in attempted {
        return None;
      }
      if files >= MAX_HASH_FILES || bytes + identity.size > MAX_HASH_BYTES {
        if key !in deferred {
          deferred := deferred + {key};
          hashDeferred := hashDeferred + 1;
        }
        return None;
      }
      attempted := attempted + {key};
      files, bytes := files + 1, bytes + identity.size;
      r := ReadDigest(disk, path, identity);
      if r.Some? {
        hashes := hashes[key := r.value];
      }
    }

    /** `seed`: children that the walk listed at `listedAt`, between two looks at the directory. */
    method Seed(d: Dir, before: Option<Identity>, children: set<Path>, ghost statAt: nat, ghost listedAt: nat)
      requires Valid() && statAt <= listedAt < disk.tick
      requires before.Some? ==> DirAt(disk.worlds(statAt), d) == before
      requires forall p :: p in children <==> p in disk.worlds(listedAt).names && p.dirs == d
      modifies disk, this`entries, this`seenAt
      ensures Valid() && disk.tick >= old(disk.tick) && d in entries
      ensures var after := if disk.fails(old(disk.tick)) then None else DirAt(disk.worlds(old(disk.tick)), d);
              entries == old(entries)[d := if after == before then Some(Listing(before, children)) else None]
    {
      hide Honest, IsListing;
      var after := disk.Signature(d);
      ghost var now: nat := disk.tick - 1;
      seenAt := seenAt[d := statAt];
      if (if after.Some? then after.value else None) != before {
        entries := entries[d := None];
      } else {
        ListedUnderSignature(disk.facts, disk.worlds, d, before, children, statAt, listedAt, now);
        entries := entries[d := Some(Listing(before, children))];
      }
    }

    /** What the first look at a directory records: its children between two equal signatures. */
    method Look(d: Dir) returns (r: Option<Listing>, ghost since: nat)
      requires disk.Valid()
      modifies disk
      ensures old(disk.tick) == since < disk.tick
      ensures (r, disk.tick) == FirstLook(disk.Meets(), d, old(disk.tick))
      ensures r.Some? ==> IsListing(disk.facts, d, r.value) && DirAt(disk.worlds(since), d) == r.value.signature
    {
      hide Honest, IsListing, DirAt;
      since := disk.tick;
      r := None;
      var before := disk.Signature(d);
      if before.None? {
        return;
      }
      var children: set<Path> := {};
      if before.value.Some? {
        var listed := disk.List(d);
        if listed.None? {
          return;
        }
        children := listed.value;
      }
      var after := disk.Signature(d);
      if after == before {
        r := Some(Listing(before.value, children));
        FirstLookIsListing(disk.facts, disk.Meets(), d, since);
      }
    }

    method ListOnce(d: Dir)
      requires Valid() && d !in entries
      modifies disk, this`entries, this`seenAt
      ensures Valid() && disk.tick >= old(disk.tick) && d in entries
      ensures Inventory(entries, disk.tick) == Inventoried(disk.Meets(), Inventory(old(entries), old(disk.tick)), d)
      ensures forall k | k in old(entries) ::
          k in entries && entries[k] == old(entries[k]) && seenAt[k] == old(seenAt[k])
    {
      hide Honest, IsListing, Digests, FirstLook;
      var found, since := Look(d);
      entries := entries[d := found];
      seenAt := seenAt[d := since];
    }

    /** `_directory`: what the directory holds at this tick, or nothing known. */
    method Directory(d: Dir) returns (r: Option<set<Path>>)
      requires Valid()
      modifies disk, this`entries, this`seenAt
      ensures Valid() && disk.tick >= old(disk.tick) && d in entries
      ensures (r, Inventory(entries, disk.tick))
          == DirectoryLook(disk.Meets(), Inventory(old(entries), old(disk.tick)), d)
      ensures r.Some? ==> disk.tick > old(disk.tick)
      ensures forall k | k in old(entries) ::
          k in entries && entries[k] == old(entries[k]) && seenAt[k] == old(seenAt[k])
      ensures r.Some? ==>
          entries[d].Some? && r.value == entries[d].value.children && Lists(disk.worlds(disk.tick - 1), d, r.value)
      ensures r.Some? && d in old(entries) ==> seenAt[d] < old(disk.tick)
      ensures r.None? ==> Unsettled(d, old(disk.tick), disk.tick)
      ensures r.Some? && d in disk.worlds(disk.tick - 1).dirs ==>
                forall u: nat | seenAt[d] <= u < disk.tick :: Lists(disk.worlds(u), d, r.value)
    {
      hide Honest, IsListing, Lists, FirstLook;
      if d !in entries {
        ListOnce(d);
      }
      var entry := entries[d];
      if entry.None? {
        return None;
      }
      var signature := disk.Signature(d);
      if signature != Some(entry.value.signature) {
        return None;
      }
      r := Some(entry.value.children);
      ghost var now: nat := disk.tick - 1;
      ListedAt(disk.facts, disk.worlds, d, entry.value, now);
      if entry.value.signature.Some? {
        forall u: nat | seenAt[d] <= u < disk.tick ensures Lists(disk.worlds(u), d, entry.value.children) {
          DirUnchanged(disk.facts, disk.worlds, d, seenAt[d], u, now);
          ListedAt(disk.facts, disk.worlds, d, entry.value, u);
        }
      }
    }

    /**
     * `candidates`: the files of the folder's `cur` and `new` with the path's uniq. Its own
     * directory is looked at at `t1`, the sibling at `t2`; when the sibling was inventoried
     * before the call and is still there, both listings hold at `t1`.
     */
    method Candidates(path: Path) returns (r: Option<set<Path>>, ghost t1: nat, ghost t2: nat)
      requires Valid()
      modifies disk, this`entries, this`seenAt
      ensures Valid() && disk.tick >= old(disk.tick)
      ensures forall k | k in old(entries) ::
          k in entries && entries[k] == old(entries[k]) && seenAt[k] == old(seenAt[k])
      ensures r.Some? ==> old(disk.tick) <= t1 <= t2 < disk.tick
      ensures r.Some? && Sibling(path.dirs).Some? ==> Sibling(path.dirs).value in entries
      ensures r.Some? ==> CandidatesAt(disk.worlds, path, r.value, t1, t2, HasSibling(path, old(entries)))
      ensures r.Some? ==> CandidatesOnly(disk.worlds, path, r.value, t1, t2)
      ensures (r, Now()) == CandidatesLook(disk.Meets(), old(Now()), path)
      ensures r.Some? ==> t1 == OwnLook(disk.Meets(), path, old(Now())) && t2 == Last(disk.tick)
      ensures r.None? ==> Unsettled(path.dirs, old(disk.tick), disk.tick)
                          || (Sibling(path.dirs).Some?
                              && Unsettled(Sibling(path.dirs).value, old(disk.tick), disk.tick))
    {
      hide Honest, IsListing, Uniq, Sibling, Lists, CandidatesAt, CandidatesOnly, Digests, WithUniq, DirectoryLook;
      hide Disk.Meets;
      hide FolderInventory.Valid, FolderInventory.Unsettled;
      t1, t2 := 0, 0;
      var own := Directory(path.dirs);
      if own.None? {
        return None, 0, 0;
      }
      t1 := disk.tick - 1;
      t2 := t1;
      var found := WithUniq(own.value, path);
      if Sibling(path.dirs).None? {
        FoundAll(disk.worlds, path, own.value, {}, t1, t2, false);
        assert found + WithUniq({}, path) == found by { NoneWithUniq(path); }
      } else {
        var sibling := Sibling(path.dirs).value;
        var other := Directory(sibling);
        if other.None? {
          UnsettledLonger(sibling, t1 + 1, old(disk.tick), disk.tick);
          return None, 0, 0;
        }
        t2 := disk.tick - 1;
        FoundAll(disk.worlds, path, own.value, other.value, t1, t2, sibling in old(entries));
        found := found + WithUniq(other.value, path);
      }
      r := Some(found);
    }
  }

  /** Nothing else is among the candidates, as long as the directories are there. */
  ghost predicate CandidatesOnly(worlds: nat -> World, path: Path, found: set<Path>, t1: nat, t2: nat) {
    path.dirs in worlds(t1).dirs && (Sibling(path.dirs).Some? ==> Sibling(path.dirs).value in worlds(t2).dirs) ==>
      forall p | p in found ::
        SameUniqIn(worlds(t1), path, path.dirs, p)
        || (Sibling(path.dirs).Some? && SameUniqIn(worlds(t2), path, Sibling(path.dirs).value, p))
  }

  function WithUniq(children: set<Path>, path: Path): set<Path> {
    set p | p in children && Uniq(p.name) == Uniq(path.name)
  }

  lemma NoneWithUniq(path: Path)
    ensures WithUniq({}, path) == {}
  {
  }

  lemma FoundAll(worlds: nat -> World, path: Path, own: set<Path>, other: set<Path>, t1: nat, t2: nat, warm: bool)
    requires Lists(worlds(t1), path.dirs, own)
    requires Sibling(path.dirs).Some? ==>
               var sibling := Sibling(path.dirs).value;
               && Lists(worlds(t2), sibling, other)
               && (warm && sibling in worlds(t2).dirs ==> Lists(worlds(t1), sibling, other))
    requires Sibling(path.dirs).None? ==> other == {}
    ensures CandidatesAt(worlds, path, WithUniq(own, path) + WithUniq(other, path), t1, t2, warm)
    ensures CandidatesOnly(worlds, path, WithUniq(own, path) + WithUniq(other, path), t1, t2)
  {
    hide Uniq, Sibling;
  }

  /** Ticks alone do not harm an inventory. */
  twostate lemma TickOnly(inventory: FolderInventory)
    requires old(inventory.Valid()) && unchanged(inventory) && inventory.disk.tick >= old(inventory.disk.tick)
    ensures inventory.Valid()
  {
  }

  lemma NoSignature(facts: Facts, d: Dir, children: set<Path>)
    ensures IsListing(facts, d, Listing(None, children))
  {
  }

  lemma ListedAt(facts: Facts, worlds: nat -> World, d: Dir, l: Listing, t: nat)
    requires Honest(facts, worlds) && IsListing(facts, d, l) && DirAt(worlds(t), d) == l.signature
    ensures Lists(worlds(t), d, l.children)
  {
    assert Consistent(facts, worlds(t));
    SignatureProvesListing(facts, worlds(t), d, l);
  }

  /** `found` has every same-uniq file of the path's directory at `t1` and of its sibling at `t2`. */
  ghost predicate CandidatesAt(worlds: nat -> World, path: Path, found: set<Path>, t1: nat, t2: nat, warm: bool) {
    && (forall p | SameUniqIn(worlds(t1), path, path.dirs, p) :: p in found)
    && (Sibling(path.dirs).Some? ==>
          var sibling := Sibling(path.dirs).value;
          && (forall p | SameUniqIn(worlds(t2), path, sibling, p) :: p in found)
          && (warm && sibling in worlds(t2).dirs ==> forall p | SameUniqIn(worlds(t1), path, sibling, p) :: p in found))
  }

  /** What a check of the file at that tick sees. */
  ghost function Look(disk: Disk, p: Path, t: nat): Option<Identity> {
    if disk.fails(t) then None else StatAt(disk.worlds(t), p)
  }
}
