/** The archive copy of the cp utility: an explicit stack of paths still to be copied. */
module ArchiveCopy {
  import opened Wrappers

  type Name = string

  type Path = seq<Name>

  /** What a path holds.  Special stands for sockets, devices and the like: neither link, directory nor file. */
  datatype Node = File(content: string) | Link(target: string) | Dir | Special

  type FileSystem = map<Path, Node>

  datatype Error = Exists | NoParent | NotAFile

  function Parent(p: Path): Path
    requires p != []
  {
    p[..|p| - 1]
  }

  /** Every path but the root lies in a directory. */
  ghost predicate WellFormed(fs: FileSystem) {
    forall p {:trigger Parent(p)} | p in fs && p != [] :: Parent(p) in fs && fs[Parent(p)] == Dir
  }

  // ---------- The operating system calls ----------

  predicate CanCreate(fs: FileSystem, p: Path) { p != [] && Parent(p) in fs && fs[Parent(p)] == Dir }

  function CreateDir(fs: FileSystem, p: Path): Result<FileSystem, Error> {
    if p in fs then Failure(Exists) else if !CanCreate(fs, p) then Failure(NoParent) else Success(fs[p := Dir])
  }

  function Symlink(fs: FileSystem, target: string, p: Path): Result<FileSystem, Error> {
    if p in fs then Failure(Exists)
    else if !CanCreate(fs, p) then Failure(NoParent)
    else Success(fs[p := Link(target)])
  }

  /** Copying a file overwrites a file and creates a missing one. */
  function CopyFile(fs: FileSystem, content: string, p: Path): Result<FileSystem, Error> {
    if p in fs && !fs[p].File? then Failure(NotAFile)
    else if p !in fs && !CanCreate(fs, p) then Failure(NoParent)
    else Success(fs[p := File(content)])
  }

  function ReadDir(fs: FileSystem, p: Path): set<Name> {
    set q | q in fs && q != [] && Parent(q) == p :: q[|q| - 1]
  }

  // ---------- Links on the way ----------

  /** Where a path leads if every link on it is followed, the last one too; nowhere, if links go round in circles. */
  type Follow = (FileSystem, Path) -> Option<Path>

  predicate NoLinkOn(fs: FileSystem, p: Path) {
    forall k | 0 <= k <= |p| :: p[..k] in fs ==> !fs[p[..k]].Link?
  }

  /** No link is met before the last name. */
  predicate Direct(fs: FileSystem, p: Path) { p == [] || NoLinkOn(fs, Parent(p)) }

  /** All that is assumed of following links: a path without links leads to itself. */
  ghost predicate FollowsLinks(follow: Follow) {
    forall fs, p | NoLinkOn(fs, p) :: follow(fs, p) == Some(p)
  }

  /** The place a path names, where a link may lie that is not followed. */
  function PlaceOf(follow: Follow, fs: FileSystem, p: Path): Option<Path> {
    if p == [] then Some([])
    else
      var up := follow(fs, Parent(p));
      if up.None? then None else Some(up.value + [p[|p| - 1]])
  }

  function NodeAt(follow: Follow, fs: FileSystem, p: Path): Option<Node> {
    var at := PlaceOf(follow, fs, p);
    if at.Some? && at.value in fs then Some(fs[at.value]) else None
  }

  /** `exists` follows links. */
  predicate PathExists(follow: Follow, fs: FileSystem, p: Path) {
    var at := follow(fs, p);
    at.Some? && at.value in fs
  }

  /** What the system calls for one node come to.  Copying a file writes where the destination leads. */
  function MakeVia(follow: Follow, fs: FileSystem, source: Path, dest: Path): Result<FileSystem, Error> {
    var at, to := PlaceOf(follow, fs, dest), follow(fs, dest);
    match NodeAt(follow, fs, source)
    case None => Success(fs)
    case Some(Link(target)) => if at.None? then Failure(NoParent) else Symlink(fs, target, at.value)
    case Some(Dir) =>
      if PathExists(follow, fs, dest) then Success(fs)
      else if at.None? then Failure(NoParent)
      else CreateDir(fs, at.value)
    case Some(File(content)) =>
      if to.None? then Failure(NoParent)
      else CopyFile(fs, if PlaceOf(follow, fs, source) == to then "" else content, to.value)
    case Some(Special) => Success(fs)
  }

  // ---------- What is to be copied ----------

  /** The node a copy should make of a source node: everything but special files. */
  predicate Copied(n: Node) { !n.Special? }

  /** The file system after `r`, taken below `source`, has been copied to the same place below `dest`. */
  ghost predicate SameAt(before: FileSystem, after: FileSystem, source: Path, dest: Path, r: Path) {
    if source + r in before && Copied(before[source + r])
    then dest + r in after && after[dest + r] == before[source + r]
    else dest + r !in after
  }

  /** Nothing but the destination and what is below it has changed. */
  ghost predicate UnchangedOutside(before: FileSystem, after: FileSystem, dest: Path) {
    forall p | !(dest <= p) :: (p in before <==> p in after) && (p in before ==> before[p] == after[p])
  }

  /** The destination holds the source's tree, without special files, and nothing else has changed. */
  ghost predicate IsArchiveCopy(before: FileSystem, after: FileSystem, source: Path, dest: Path) {
    UnchangedOutside(before, after, dest) && forall r: Path :: SameAt(before, after, source, dest, r)
  }

  function At(fs: FileSystem, p: Path): Option<Node> { if p in fs then Some(fs[p]) else None }

  /**
    What a copy leaves at a place: files and links of the source, what was there where the source has nothing or a
    special file, and where the source has a directory what was there, or a directory.
   */
  function Overlaid(before: FileSystem, source: Path, dest: Path, r: Path): Option<Node> {
    var was := At(before, dest + r);
    match At(before, source + r)
    case None => was
    case Some(Special) => was
    case Some(Dir) => if was.Some? then was else Some(Dir)
    case Some(File(content)) => Some(File(content))
    case Some(Link(target)) => Some(Link(target))
  }

  /** What makes a node fail, as the file system is beforehand: its place is taken, or it is in no directory. */
  predicate Blocked(before: FileSystem, source: Path, dest: Path, r: Path) {
    var was := At(before, dest + r);
    match At(before, source + r)
    case None => false
    case Some(Special) => false
    case Some(Dir) => was.None? && !HasDirectory(before, dest, r)
    case Some(File(_)) => if was.Some? then !was.value.File? else !HasDirectory(before, dest, r)
    case Some(Link(_)) => was.Some? || !HasDirectory(before, dest, r)
  }

  predicate HasDirectory(before: FileSystem, dest: Path, r: Path) {
    if r == [] then CanCreate(before, dest)
    else dest + Parent(r) in before ==> before[dest + Parent(r)] == Dir
  }

  /** Neither path lies at or below the other. */
  predicate Apart(source: Path, dest: Path) { !(source <= dest) && !(dest <= source) }

  /** The destination is absent, in an existing directory, or an empty directory and the source a directory too. */
  ghost predicate FreshDestination(fs: FileSystem, source: Path, dest: Path) {
    && (forall p | p in fs && dest <= p :: p == dest)
    && (dest in fs ==> fs[dest] == Dir && source in fs && fs[source] == Dir)
    && (dest !in fs ==> CanCreate(fs, dest))
  }

  // ---------- The state of a run ----------

  /** Whether a pending entry stands for a path; entries are given by their path below the source. */
  ghost predicate Covers(pending: seq<Path>, r: Path) { exists i :: 0 <= i < |pending| && pending[i] <= r }

  /** Pending entries stand for parts of the tree that do not overlap. */
  ghost predicate Incomparable(pending: seq<Path>) {
    forall i, j | 0 <= i < |pending| && 0 <= j < |pending| && i != j :: !(pending[i] <= pending[j])
  }

  /** Pending entries stand for disjoint existing parts of the source, in directories that are dealt with. */
  ghost predicate Disjoint(before: FileSystem, source: Path, pending: seq<Path>) {
    && Incomparable(pending)
    && (forall i | 0 <= i < |pending| && pending[i] != [] ::
          source + pending[i] in before && !Covers(pending, Parent(pending[i])))
  }

  /** What no pending entry covers is overlaid, and was not blocked; what one covers is as it was. */
  ghost predicate Progress(before: FileSystem, now: FileSystem, source: Path, dest: Path, pending: seq<Path>) {
    forall r: Path {:trigger Covers(pending, r)} ::
      if Covers(pending, r) then At(now, dest + r) == At(before, dest + r)
      else At(now, dest + r) == Overlaid(before, source, dest, r) && !Blocked(before, source, dest, r)
  }

  lemma {:induction false} AncestorsAreDirectories(fs: FileSystem, p: Path, q: Path)
    requires WellFormed(fs) && q in fs && p <= q && p != q
    ensures p in fs && fs[p] == Dir
    decreases |q|
  {
    assert p <= Parent(q);
    if p != Parent(q) {
      AncestorsAreDirectories(fs, p, Parent(q));
    }
  }

  lemma PrefixesCompare(p: Path, q: Path, r: Path)
    requires p <= r && q <= r
    ensures p <= q || q <= p
  {
    if |p| <= |q| {
      assert p == r[..|p|] == q[..|p|];
    } else {
      assert q == r[..|q|] == p[..|q|];
    }
  }

  /** Nothing below the source is at or below the destination. */
  lemma SourceOutside(source: Path, dest: Path, r: Path)
    requires Apart(source, dest)
    ensures !(dest <= source + r)
  {
    if dest <= source + r {
      PrefixesCompare(dest, source, source + r);
    }
  }

  /** Taking the last entry off leaves its part, and nothing else, uncovered. */
  lemma Uncovered(init: seq<Path>, r: Path, q: Path)
    requires forall i | 0 <= i < |init| :: !(init[i] <= r) && !(r <= init[i])
    ensures Covers(init + [r], q) <==> Covers(init, q) || r <= q
    ensures r <= q ==> !Covers(init, q)
  {
    var pending := init + [r];
    assert pending[|init|] == r && forall i | 0 <= i < |init| :: pending[i] == init[i];
    if r <= q && Covers(init, q) {
      var i :| 0 <= i < |init| && init[i] <= q;
      PrefixesCompare(init[i], r, q);
    }
    if Covers(init, q) {
      var i :| 0 <= i < |init| && init[i] <= q;
      assert pending[i] <= q;
    }
  }

  lemma IncomparableInit(init: seq<Path>, r: Path)
    requires Incomparable(init + [r])
    ensures forall i | 0 <= i < |init| :: !(init[i] <= r) && !(r <= init[i])
    ensures Incomparable(init) && !Covers(init, r)
  {
    var pending := init + [r];
    assert pending[|init|] == r && forall i | 0 <= i < |init| :: pending[i] == init[i];
  }

  lemma DisjointInit(before: FileSystem, source: Path, init: seq<Path>, r: Path)
    requires Disjoint(before, source, init + [r])
    ensures forall i | 0 <= i < |init| :: !(init[i] <= r) && !(r <= init[i])
    ensures Disjoint(before, source, init)
    ensures !Covers(init, r)
  {
    var pending := init + [r];
    IncomparableInit(init, r);
    assert pending[|init|] == r && forall i | 0 <= i < |init| :: pending[i] == init[i];
    forall i | 0 <= i < |init| && init[i] != []
      ensures source + init[i] in before && !Covers(init, Parent(init[i]))
    {
      assert pending[i] == init[i];
      assert !Covers(pending, Parent(pending[i]));
      forall j | 0 <= j < |init|
        ensures !(init[j] <= Parent(init[i]))
      {
        assert pending[j] == init[j];
      }
    }
  }

  lemma NothingBelowDestination(before: FileSystem, source: Path, dest: Path, q: Path)
    requires FreshDestination(before, source, dest)
    ensures dest + q in before ==> q == [] && before[dest] == Dir && source in before && before[source] == Dir
  {
    assert dest <= dest + q;
    assert q != [] ==> dest + q != dest;
    assert dest + [] == dest;
  }

  // ---------- Opening a directory ----------

  function Entries(r: Path, names: seq<Name>): seq<Path> {
    seq(|names|, i requires 0 <= i < |names| => r + [names[i]])
  }

  ghost predicate Lists(names: seq<Name>, dir: set<Name>) {
    && (forall i, j | 0 <= i < j < |names| :: names[i] != names[j])
    && (forall n :: n in dir <==> exists i :: 0 <= i < |names| && names[i] == n)
  }

  /** What opening a directory leaves covered: all that was, less the directory itself and what is not in it. */
  lemma OpenedCovers(init: seq<Path>, r: Path, names: seq<Name>, q: Path)
    ensures Covers(init + Entries(r, names), q)
       <==> Covers(init, q) || (r <= q && |r| < |q| && exists i :: 0 <= i < |names| && names[i] == q[|r|])
  {
    var kids := Entries(r, names);
    var pending := init + kids;
    if Covers(pending, q) {
      var i :| 0 <= i < |pending| && pending[i] <= q;
      if i < |init| {
        assert init[i] <= q;
      } else {
        var k := i - |init|;
        assert kids[k] == r + [names[k]] <= q;
        assert q[..|r|] == r && q[|r|] == names[k];
      }
    }
    if Covers(init, q) {
      var i :| 0 <= i < |init| && init[i] <= q;
      assert pending[i] <= q;
    }
    if r <= q && |r| < |q| && exists i :: 0 <= i < |names| && names[i] == q[|r|] {
      var i :| 0 <= i < |names| && names[i] == q[|r|];
      assert pending[|init| + i] == r + [names[i]] <= q;
    }
  }

  /** A path in a directory starts with one of the names read from it. */
  lemma FirstNameIsListed(before: FileSystem, dir: Path, q: Path)
    requires WellFormed(before) && dir <= q && |dir| < |q| && q in before
    ensures q[|dir|] in ReadDir(before, dir)
  {
    var child := q[..|dir| + 1];
    if child != q {
      AncestorsAreDirectories(before, child, q);
    }
    assert Parent(child) == dir && child[|child| - 1] == q[|dir|];
  }

  lemma ApartAbove(p: Path, r: Path, q: Path)
    requires !(p <= r) && !(r <= p) && r <= q
    ensures !(p <= q)
  {
    if p <= q {
      PrefixesCompare(p, r, q);
    }
  }

  lemma OpenedIncomparable(init: seq<Path>, r: Path, names: seq<Name>)
    requires Incomparable(init + [r]) && forall i, j | 0 <= i < j < |names| :: names[i] != names[j]
    ensures Incomparable(init + Entries(r, names))
  {
    IncomparableInit(init, r);
    var pending := init + Entries(r, names);
    forall i, j | 0 <= i < |pending| && 0 <= j < |pending| && i != j
      ensures !(pending[i] <= pending[j])
    {
      if i < |init| && j < |init| {
        assert pending[i] == init[i] && pending[j] == init[j];
      } else if i < |init| {
        ApartAbove(init[i], r, pending[j]);
      } else if j < |init| {
        assert r <= pending[i];
      } else {
        assert pending[i][|r|] != pending[j][|r|];
      }
    }
  }

  lemma ListedExists(before: FileSystem, source: Path, r: Path, n: Name)
    requires n in ReadDir(before, source + r)
    ensures source + (r + [n]) in before && Parent(r + [n]) == r
  {
    var p :| p in before && p != [] && Parent(p) == source + r && p[|p| - 1] == n;
    assert p == source + (r + [n]);
  }

  lemma OpenedDisjoint(before: FileSystem, source: Path, init: seq<Path>, r: Path, names: seq<Name>)
    requires WellFormed(before) && Disjoint(before, source, init + [r])
    requires Lists(names, ReadDir(before, source + r))
    ensures Disjoint(before, source, init + Entries(r, names))
  {
    OpenedIncomparable(init, r, names);
    DisjointInit(before, source, init, r);
    var pending := init + Entries(r, names);
    forall i | 0 <= i < |pending| && pending[i] != []
      ensures source + pending[i] in before && !Covers(pending, Parent(pending[i]))
    {
      OpenedCovers(init, r, names, Parent(pending[i]));
      if i < |init| {
        assert (init + [r])[i] == init[i];
        Uncovered(init, r, Parent(init[i]));
      } else {
        assert pending[i] == r + [names[i - |init|]];
        ListedExists(before, source, r, names[i - |init|]);
      }
    }
  }

  /** Opening a directory uncovers the directory itself and places where the source has nothing. */
  lemma OpenedUncovers(before: FileSystem, source: Path, init: seq<Path>, r: Path, names: seq<Name>, q: Path)
    requires WellFormed(before) && Lists(names, ReadDir(before, source + r))
    requires forall i | 0 <= i < |init| :: !(init[i] <= r) && !(r <= init[i])
    ensures var covered := Covers(init + Entries(r, names), q);
            && (covered ==> Covers(init + [r], q) && q != r)
            && (Covers(init + [r], q) && !covered && q != r ==> source + q !in before)
  {
    assert Covers(init + [r], q) <==> Covers(init, q) || r <= q by {
      Uncovered(init, r, q);
    }
    OpenedCovers(init, r, names, q);
    if r <= q && q != r && source + q in before {
      NextNameIsListed(before, source, r, names, q);
    }
  }

  lemma NextNameIsListed(before: FileSystem, source: Path, r: Path, names: seq<Name>, q: Path)
    requires WellFormed(before) && Lists(names, ReadDir(before, source + r))
    requires r <= q && q != r && source + q in before
    ensures |r| < |q| && exists i :: 0 <= i < |names| && names[i] == q[|r|]
  {
    assert q[..|r|] == r && |q| > |r|;
    assert (source + q)[|source + r|] == q[|r|] && source + r <= source + q;
    FirstNameIsListed(before, source + r, source + q);
  }

  // ---------- The loop ----------

  /** The places below the source, and what is left of them further down: all that a copy can come by. */
  ghost function Places(fs: FileSystem, source: Path): set<Path> {
    {[]} + set p, k | p in fs && source <= p && |source| <= k <= |p| :: p[k..]
  }

  ghost predicate Within(places: set<Path>, now: FileSystem, source: Path) {
    forall p | p in now && source <= p :: p[|source|..] in places
  }

  /** The places still to be visited. */
  ghost function Left(places: set<Path>, pending: seq<Path>): set<Path> {
    set r | r in places && Covers(pending, r)
  }

  lemma LeftShrinks(places: set<Path>, init: seq<Path>, r: Path, names: seq<Name>)
    requires Incomparable(init + [r]) && r in places
    ensures Left(places, init + Entries(r, names)) < Left(places, init + [r])
  {
    IncomparableInit(init, r);
    forall q: Path
      ensures Covers(init + [r], q) <==> Covers(init, q) || r <= q
      ensures Covers(init + Entries(r, names), q) ==> Covers(init, q) || (r <= q && q != r)
    {
      Uncovered(init, r, q);
      OpenedCovers(init, r, names, q);
    }
    assert r in Left(places, init + [r]) && r !in Left(places, init + Entries(r, names));
  }

  lemma PlacesAreDownwards(fs: FileSystem, source: Path, r: Path, k: nat)
    requires r in Places(fs, source) && k <= |r|
    ensures r[k..] in Places(fs, source)
  {
    if r != [] {
      var p, i :| p in fs && source <= p && |source| <= i <= |p| && p[i..] == r;
      assert p[i + k..] == r[k..];
    }
  }

  lemma StartsWithin(fs: FileSystem, source: Path)
    ensures Within(Places(fs, source), fs, source)
  {
  }

  /** What is made at a destination that is not below the source is never a new place of it. */
  lemma MakeStaysWithin(fs: FileSystem, now: FileSystem, source: Path, dest: Path, r: Path)
    requires !(source < dest) && r in Places(fs, source) && Within(Places(fs, source), now, source)
    requires Make(now, source + r, dest + r).Success?
    ensures Within(Places(fs, source), Make(now, source + r, dest + r).value, source)
  {
    if source <= dest + r {
      PrefixesCompare(source, dest, dest + r);
      assert (dest + r)[|source|..] == r[|source| - |dest|..];
      PlacesAreDownwards(fs, source, r, |source| - |dest|);
    }
  }

  function Pairs(source: Path, dest: Path, pending: seq<Path>): seq<(Path, Path)> {
    seq(|pending|, i requires 0 <= i < |pending| => (source + pending[i], dest + pending[i]))
  }

  lemma ListsOneMore(names: seq<Name>, dir: set<Name>, name: Name)
    requires Lists(names, dir) && name !in dir
    ensures Lists(names + [name], dir + {name})
  {
    var more := names + [name];
    assert more[|names|] == name;
    forall n
      ensures n in dir + {name} <==> exists i :: 0 <= i < |more| && more[i] == n
    {
      if n in dir {
        var i :| 0 <= i < |names| && names[i] == n;
        assert more[i] == n;
      }
      if i :| 0 <= i < |more| && more[i] == n {
        assert i < |names| ==> names[i] == n;
      }
    }
  }

  /** A stack with the entries of a directory on top. */
  ghost predicate Pushed(stack: seq<(Path, Path)>, stack': seq<(Path, Path)>, names: seq<Name>, s: Path, d: Path) {
    && |stack'| == |stack| + |names| && (forall i | 0 <= i < |stack| :: stack'[i] == stack[i])
    && forall i | |stack| <= i < |stack'| :: stack'[i] == (s + [names[i - |stack|]], d + [names[i - |stack|]])
  }

  lemma OneMorePushed(stack: seq<(Path, Path)>, stack': seq<(Path, Path)>, names: seq<Name>, s: Path, d: Path,
                      name: Name)
    requires Pushed(stack, stack', names, s, d)
    ensures Pushed(stack, stack' + [(s + [name], d + [name])], names + [name], s, d)
  {
  }

  /** The entries of a directory, pushed in whatever order they are listed. */
  method PushEntries(stack: seq<(Path, Path)>, names: set<Name>, currentSource: Path, currentDest: Path)
    returns (stack': seq<(Path, Path)>, ghost listed: seq<Name>)
    ensures |stack'| == |stack| + |names| && stack <= stack'
    ensures forall name | name in names :: (currentSource + [name], currentDest + [name]) in stack'[|stack|..]
    ensures Lists(listed, names) && |listed| == |names| && Pushed(stack, stack', listed, currentSource, currentDest)
  {
    stack', listed := stack, [];
    var rest := names;
    while rest != {}
      invariant rest <= names && Lists(listed, names - rest) && |listed| == |names| - |rest|
      invariant Pushed(stack, stack', listed, currentSource, currentDest)
      decreases rest
    {
      var name :| name in rest;
      ghost var seen := names - rest;
      rest := rest - {name};
      ListsOneMore(listed, seen, name);
      OneMorePushed(stack, stack', listed, currentSource, currentDest, name);
      stack', listed := stack' + [(currentSource + [name], currentDest + [name])], listed + [name];
      assert names - rest == seen + {name};
    }
    assert names - rest == names;
    EveryEntryPushed(stack, stack', listed, names, currentSource, currentDest);
  }

  lemma EveryEntryPushed(stack: seq<(Path, Path)>, stack': seq<(Path, Path)>, listed: seq<Name>, names: set<Name>,
                         s: Path, d: Path)
    requires Pushed(stack, stack', listed, s, d) && Lists(listed, names)
    ensures forall name | name in names :: (s + [name], d + [name]) in stack'[|stack|..]
  {
    forall name | name in names
      ensures (s + [name], d + [name]) in stack'[|stack|..]
    {
      var i :| 0 <= i < |listed| && listed[i] == name;
      assert stack'[|stack|..][i] == stack'[|stack| + i];
    }
  }

  /** The same where no links are met.  A file copied onto itself is emptied before it is read. */
  function Make(fs: FileSystem, source: Path, dest: Path): Result<FileSystem, Error> {
    if source !in fs then Success(fs)
    else
      match fs[source]
      case Link(target) => Symlink(fs, target, dest)
      case Dir => if dest in fs then Success(fs) else CreateDir(fs, dest)
      case File(content) => CopyFile(fs, if source == dest then "" else content, dest)
      case Special => Success(fs)
  }

  /** What holds between steps. */
  ghost predicate Consistent(before: FileSystem, now: FileSystem, source: Path, dest: Path, pending: seq<Path>) {
    && UnchangedOutside(before, now, dest) && Disjoint(before, source, pending)
    && Progress(before, now, source, dest, pending)
  }

  lemma StartsConsistent(fs: FileSystem, source: Path, dest: Path)
    requires WellFormed(fs) && Apart(source, dest)
    ensures Consistent(fs, fs, source, dest, [[]])
  {
    forall r: Path
      ensures Covers([[]], r)
    {
      assert [[]][0] <= r;
    }
  }

  /** At a fresh destination an overlay is a copy. */
  lemma EndsAsCopy(before: FileSystem, now: FileSystem, source: Path, dest: Path)
    requires Consistent(before, now, source, dest, []) && FreshDestination(before, source, dest)
    ensures IsArchiveCopy(before, now, source, dest)
  {
    forall r: Path
      ensures SameAt(before, now, source, dest, r)
    {
      assert !Covers([], r);
      NothingBelowDestination(before, source, dest, r);
      assert source + [] == source && dest + [] == dest;
    }
  }

  /** The source side of an entry is still as it was. */
  lemma SourceUnchanged(before: FileSystem, now: FileSystem, source: Path, dest: Path, r: Path)
    requires Apart(source, dest) && UnchangedOutside(before, now, dest)
    ensures source + r in now <==> source + r in before
    ensures source + r in now ==> now[source + r] == before[source + r]
    ensures ReadDir(now, source + r) == ReadDir(before, source + r)
  {
    SourceOutside(source, dest, r);
    forall q | q in before + now && q != [] && Parent(q) == source + r
      ensures q in before <==> q in now
    {
      SourceOutside(source, dest, r + [q[|q| - 1]]);
      assert source + (r + [q[|q| - 1]]) == q;
    }
  }

  lemma MakeIsPlain(follow: Follow, now: FileSystem, s: Path, d: Path)
    requires FollowsLinks(follow) && Direct(now, s) && NoLinkOn(now, d)
    ensures PlaceOf(follow, now, s) == Some(s) && MakeVia(follow, now, s, d) == Make(now, s, d)
  {
    PlaceIsPlain(follow, now, s);
    if d != [] {
      assert forall k | 0 <= k <= |Parent(d)| :: Parent(d)[..k] == d[..k];
    }
    PlaceIsPlain(follow, now, d);
  }

  lemma PlaceIsPlain(follow: Follow, now: FileSystem, p: Path)
    requires FollowsLinks(follow) && Direct(now, p)
    ensures PlaceOf(follow, now, p) == Some(p)
  {
    assert p != [] ==> Parent(p) + [p[|p| - 1]] == p;
  }

  /** What making a node changes: its place only, where directories stay and links are new. */
  lemma MakeEffect(now: FileSystem, s: Path, d: Path)
    requires Make(now, s, d).Success?
    ensures var now' := Make(now, s, d).value;
            && (forall p | p != d :: (p in now <==> p in now') && (p in now ==> now'[p] == now[p]))
            && (d in now ==> d in now' && (now[d] == Dir ==> now'[d] == Dir))
            && (now' == now || CanCreate(now, d) || (d in now && now[d].File? && now'[d].File?))
            && (d in now' && now'[d].Link? ==> (d in now && now[d] == now'[d]) || (s in now && now[s].Link?))
  {
  }

  lemma MakeStaysWellFormed(now: FileSystem, s: Path, d: Path)
    requires WellFormed(now) && Make(now, s, d).Success?
    ensures WellFormed(Make(now, s, d).value)
  {
    MakeEffect(now, s, d);
    var now' := Make(now, s, d).value;
    forall p | p in now' && p != []
      ensures Parent(p) in now' && now'[Parent(p)] == Dir
    {
      if p == d {
        assert CanCreate(now, d) || p in now;
      }
    }
  }

  lemma PreparedMakeSucceeds(now: FileSystem, s: Path, d: Path)
    requires d in now ==> now[d] == Dir && s in now && now[s] == Dir
    requires d !in now ==> CanCreate(now, d)
    ensures Make(now, s, d).Success?
  {
  }

  lemma MakeChangesOnlyBelow(before: FileSystem, now: FileSystem, source: Path, dest: Path, r: Path)
    requires UnchangedOutside(before, now, dest) && Make(now, source + r, dest + r).Success?
    ensures UnchangedOutside(before, Make(now, source + r, dest + r).value, dest)
  {
    assert dest <= dest + r;
  }

  /** Where the directory of an entry is dealt with, whether the entry can be made was decided beforehand. */
  lemma DirectoryIsDecided(before: FileSystem, now: FileSystem, source: Path, dest: Path, init: seq<Path>, r: Path)
    requires WellFormed(before) && Consistent(before, now, source, dest, init + [r]) && source + r in before
    ensures CanCreate(now, dest + r) <==> HasDirectory(before, dest, r)
  {
    var pending := init + [r];
    assert pending[|init|] == r;
    if r == [] {
      assert dest + r == dest;
      assert dest != [] ==> !(dest <= Parent(dest));
    } else {
      assert Parent(source + r) == source + Parent(r) && Parent(dest + r) == dest + Parent(r);
      assert !Covers(pending, Parent(r));
      assert At(now, dest + Parent(r)) == Overlaid(before, source, dest, Parent(r));
    }
  }

  /** A node's calls fail exactly if it is blocked, and otherwise leave its place overlaid. */
  lemma MadeExactly(before: FileSystem, now: FileSystem, source: Path, dest: Path, init: seq<Path>, r: Path)
    requires WellFormed(before) && Apart(source, dest) && Consistent(before, now, source, dest, init + [r])
    ensures var made := Make(now, source + r, dest + r);
            && (made.Failure? <==> Blocked(before, source, dest, r))
            && (made.Success? ==> At(made.value, dest + r) == Overlaid(before, source, dest, r))
  {
    var pending := init + [r];
    assert pending[|init|] == r && Covers(pending, r);
    SourceUnchanged(before, now, source, dest, r);
    SourceOutside(source, dest, r);
    assert dest <= dest + r;
    if source + r in before {
      DirectoryIsDecided(before, now, source, dest, init, r);
    }
  }

  /** Where the source has nothing, nothing is blocked and the destination stays as it was. */
  lemma NothingThere(before: FileSystem, source: Path, dest: Path, q: Path)
    requires source + q !in before
    ensures Overlaid(before, source, dest, q) == At(before, dest + q) && !Blocked(before, source, dest, q)
  {
  }

  /** What a turn deals with besides the entry itself are places where the source has nothing. */
  lemma OnlyEntryUncovered(before: FileSystem, source: Path, init: seq<Path>, r: Path, names: seq<Name>, q: Path)
    requires WellFormed(before) && Disjoint(before, source, init + [r])
    requires if source + r in before && before[source + r] == Dir then Lists(names, ReadDir(before, source + r))
             else names == []
    ensures var covered := Covers(init + Entries(r, names), q);
            && (covered ==> Covers(init + [r], q) && q != r)
            && (Covers(init + [r], q) && !covered && q != r ==> source + q !in before)
  {
    DisjointInit(before, source, init, r);
    if source + r in before && before[source + r] == Dir {
      OpenedUncovers(before, source, init, r, names, q);
    } else {
      Uncovered(init, r, q);
      assert init + Entries(r, names) == init;
      if r <= q && q != r && source + q in before {
        assert source + r <= source + q && source + r != source + q;
        AncestorsAreDirectories(before, source + r, source + q);
      }
    }
  }

  /** A turn overlays one more place of the source. */
  lemma TurnOverlays(before: FileSystem, now: FileSystem, source: Path, dest: Path, init: seq<Path>, r: Path,
                     names: seq<Name>, q: Path)
    requires WellFormed(before) && Apart(source, dest) && Consistent(before, now, source, dest, init + [r])
    requires Make(now, source + r, dest + r).Success?
    requires if source + r in before && before[source + r] == Dir then Lists(names, ReadDir(before, source + r))
             else names == []
    ensures var now', pending := Make(now, source + r, dest + r).value, init + Entries(r, names);
            if Covers(pending, q) then At(now', dest + q) == At(before, dest + q)
            else At(now', dest + q) == Overlaid(before, source, dest, q) && !Blocked(before, source, dest, q)
  {
    MadeExactly(before, now, source, dest, init, r);
    OnlyEntryUncovered(before, source, init, r, names, q);
    if q != r {
      assert (dest + q)[|dest|..] == q && (dest + r)[|dest|..] == r;
      MakeEffect(now, source + r, dest + r);
      assert At(Make(now, source + r, dest + r).value, dest + q) == At(now, dest + q);
      if Covers(init + [r], q) && !Covers(init + Entries(r, names), q) {
        NothingThere(before, source, dest, q);
      }
    }
  }

  /** The system calls for one node; `descend` says that its entries are to be pushed. */
  method Visit(follow: Follow, now: FileSystem, currentSource: Path, currentDest: Path)
    returns (made: Result<FileSystem, Error>, descend: bool)
    ensures made == MakeVia(follow, now, currentSource, currentDest)
    ensures descend <==> NodeAt(follow, now, currentSource) == Some(Dir)
  {
    made, descend := Success(now), false;
    var node := NodeAt(follow, now, currentSource);
    var at, to := PlaceOf(follow, now, currentDest), follow(now, currentDest);
    if node.Some? && node.value.Link? {
      made := if at.None? then Failure(NoParent) else Symlink(now, node.value.target, at.value);
    } else if node.Some? && node.value.Dir? {
      descend := true;
      if !PathExists(follow, now, currentDest) {
        made := if at.None? then Failure(NoParent) else CreateDir(now, at.value);
      }
    } else if node.Some? && node.value.File? {
      var content := if PlaceOf(follow, now, currentSource) == to then "" else node.value.content;
      made := if to.None? then Failure(NoParent) else CopyFile(now, content, to.value);
    }
  }

  /** What the loop works on. */
  datatype Work = Work(fs: FileSystem, stack: seq<(Path, Path)>)

  /** One turn of the loop that does not fail, with the entries of a directory in any order. */
  ghost predicate TurnVia(follow: Follow, a: Work, b: Work) {
    && a.stack != []
    && var (s, d) := a.stack[|a.stack| - 1];
       var rest := a.stack[..|a.stack| - 1];
       && MakeVia(follow, a.fs, s, d) == Success(b.fs)
       && if NodeAt(follow, a.fs, s) == Some(Dir)
          then exists names: seq<Name> :: Lists(names, ReadDir(b.fs, PlaceOf(follow, a.fs, s).value))
                                          && b.stack == rest + EntryPairs(s, d, names)
          else b.stack == rest
  }

  /** The same where no links are met. */
  ghost predicate Turn(a: Work, b: Work) {
    && a.stack != []
    && var (s, d) := a.stack[|a.stack| - 1];
       var rest := a.stack[..|a.stack| - 1];
       && Make(a.fs, s, d) == Success(b.fs)
       && if s in a.fs && a.fs[s] == Dir
          then exists names: seq<Name> :: Lists(names, ReadDir(b.fs, s)) && b.stack == rest + EntryPairs(s, d, names)
          else b.stack == rest
  }

  function EntryPairs(s: Path, d: Path, names: seq<Name>): seq<(Path, Path)> {
    seq(|names|, i requires 0 <= i < |names| => (s + [names[i]], d + [names[i]]))
  }

  lemma TurnIsPlain(follow: Follow, a: Work, b: Work)
    requires FollowsLinks(follow) && a.stack != []
    requires var (s, d) := a.stack[|a.stack| - 1]; Direct(a.fs, s) && NoLinkOn(a.fs, d)
    ensures TurnVia(follow, a, b) <==> Turn(a, b)
  {
    var (s, d) := a.stack[|a.stack| - 1];
    MakeIsPlain(follow, a.fs, s, d);
  }

  lemma DirectoryTurn(follow: Follow, a: Work, b: Work, names: seq<Name>)
    requires a.stack != []
    requires var (s, d) := a.stack[|a.stack| - 1];
             && MakeVia(follow, a.fs, s, d) == Success(b.fs) && NodeAt(follow, a.fs, s) == Some(Dir)
             && Lists(names, ReadDir(b.fs, PlaceOf(follow, a.fs, s).value))
             && Pushed(a.stack[..|a.stack| - 1], b.stack, names, s, d)
    ensures TurnVia(follow, a, b)
  {
    var (s, d) := a.stack[|a.stack| - 1];
    assert b.stack == a.stack[..|a.stack| - 1] + EntryPairs(s, d, names);
  }

  /** One turn of the loop: takes the last entry off the stack and deals with it. */
  method TakeTurn(follow: Follow, now: FileSystem, stack: seq<(Path, Path)>)
    returns (made: Result<FileSystem, Error>, stack': seq<(Path, Path)>)
    requires stack != []
    ensures made == MakeVia(follow, now, stack[|stack| - 1].0, stack[|stack| - 1].1)
    ensures made.Success? ==> TurnVia(follow, Work(now, stack), Work(made.value, stack'))
  {
    var (currentSource, currentDest) := stack[|stack| - 1];
    var descend;
    stack' := stack[..|stack| - 1];
    made, descend := Visit(follow, now, currentSource, currentDest);
    if made.Success? && descend {
      ghost var names;
      var listed := ReadDir(made.value, PlaceOf(follow, now, currentSource).value);
      stack', names := PushEntries(stack', listed, currentSource, currentDest);
      DirectoryTurn(follow, Work(now, stack), Work(made.value, stack'), names);
    }
  }

  lemma ConcatIsPushed(stack: seq<(Path, Path)>, names: seq<Name>, s: Path, d: Path)
    ensures Pushed(stack, stack + EntryPairs(s, d, names), names, s, d)
  {
  }

  lemma LastPair(source: Path, dest: Path, init: seq<Path>, r: Path)
    ensures var pairs := Pairs(source, dest, init + [r]);
            && |pairs| == |init| + 1 && pairs[|init|] == (source + r, dest + r)
            && pairs[..|init|] == Pairs(source, dest, init)
  {
  }

  /** What a turn pushes: the entries of a directory, and of anything else nothing. */
  ghost predicate TurnPushes(a: Work, b: Work, s: Path, names: seq<Name>) {
    if s in a.fs && a.fs[s] == Dir then Lists(names, ReadDir(b.fs, s)) else names == []
  }

  lemma TurnOf(source: Path, dest: Path, init: seq<Path>, r: Path, a: Work, b: Work) returns (names: seq<Name>)
    requires a.stack == Pairs(source, dest, init + [r]) && Turn(a, b)
    ensures Make(a.fs, source + r, dest + r) == Success(b.fs) && TurnPushes(a, b, source + r, names)
    ensures b.stack == Pairs(source, dest, init + Entries(r, names))
  {
    var s, d, rest := source + r, dest + r, Pairs(source, dest, init);
    LastPair(source, dest, init, r);
    if s in a.fs && a.fs[s] == Dir {
      names :| Lists(names, ReadDir(b.fs, s)) && b.stack == rest + EntryPairs(s, d, names);
      ConcatIsPushed(rest, names, s, d);
      PushedPairs(source, dest, init, r, names, rest, b.stack, s, d);
    } else {
      names := [];
      assert init + Entries(r, names) == init;
    }
  }

  /** A turn leaves less to visit, wherever the destination is, unless below the source. */
  lemma TurnIsProgress(fs: FileSystem, source: Path, dest: Path, init: seq<Path>, r: Path, a: Work, b: Work,
                       names: seq<Name>)
    requires !(source < dest) && Within(Places(fs, source), a.fs, source) && Incomparable(init + [r])
    requires forall q | q in init + [r] :: q in Places(fs, source)
    requires Make(a.fs, source + r, dest + r) == Success(b.fs) && TurnPushes(a, b, source + r, names)
    ensures var pending := init + Entries(r, names);
            && Within(Places(fs, source), b.fs, source) && Incomparable(pending)
            && (forall q | q in pending :: q in Places(fs, source))
            && Left(Places(fs, source), pending) < Left(Places(fs, source), init + [r])
  {
    assert (init + [r])[|init|] == r;
    MakeStaysWithin(fs, a.fs, source, dest, r);
    OpenedIncomparable(init, r, names);
    LeftShrinks(Places(fs, source), init, r, names);
    forall q | q in init + Entries(r, names)
      ensures q in Places(fs, source)
    {
      if q in init {
        assert q in init + [r];
      } else {
        var i :| 0 <= i < |names| && q == r + [names[i]];
        ListedExists(b.fs, source, r, names[i]);
        assert (source + q)[|source|..] == q;
      }
    }
  }

  /** A turn deals with the last pending entry. */
  lemma TurnIsConsistent(fs: FileSystem, source: Path, dest: Path, init: seq<Path>, r: Path, a: Work, b: Work,
                         names: seq<Name>)
    requires WellFormed(fs) && Apart(source, dest) && Consistent(fs, a.fs, source, dest, init + [r])
    requires Make(a.fs, source + r, dest + r) == Success(b.fs) && TurnPushes(a, b, source + r, names)
    ensures Consistent(fs, b.fs, source, dest, init + Entries(r, names))
  {
    SourceUnchanged(fs, a.fs, source, dest, r);
    MakeChangesOnlyBelow(fs, a.fs, source, dest, r);
    SourceUnchanged(fs, b.fs, source, dest, r);
    TurnStaysDisjoint(fs, source, init, r, names);
    forall q: Path
      ensures var pending := init + Entries(r, names);
              if Covers(pending, q) then At(b.fs, dest + q) == At(fs, dest + q)
              else At(b.fs, dest + q) == Overlaid(fs, source, dest, q) && !Blocked(fs, source, dest, q)
    {
      TurnOverlays(fs, a.fs, source, dest, init, r, names, q);
    }
  }

  lemma TurnStaysDisjoint(before: FileSystem, source: Path, init: seq<Path>, r: Path, names: seq<Name>)
    requires WellFormed(before) && Disjoint(before, source, init + [r])
    requires if source + r in before && before[source + r] == Dir then Lists(names, ReadDir(before, source + r))
             else names == []
    ensures Disjoint(before, source, init + Entries(r, names))
  {
    if source + r in before && before[source + r] == Dir {
      OpenedDisjoint(before, source, init, r, names);
    } else {
      DisjointInit(before, source, init, r);
      assert init + Entries(r, names) == init;
    }
  }

  /** At or above the source, a destination is only fresh if there is nothing to copy. */
  lemma NothingToCopy(fs: FileSystem, source: Path, dest: Path)
    requires WellFormed(fs) && FreshDestination(fs, source, dest) && dest <= source
    ensures source in fs ==> source == dest && fs[source] == Dir && ReadDir(fs, source) == {}
    ensures Make(fs, source, dest) == Success(fs) && IsArchiveCopy(fs, fs, source, dest)
  {
    forall r: Path
      ensures SameAt(fs, fs, source, dest, r)
    {
      NothingBelowDestination(fs, source, dest, r);
      assert dest <= source + r && dest + [] == dest && source + [] == source;
      if source + r in fs {
        assert source + r == dest;
      }
    }
    assert source in fs ==> dest <= source;
    forall q | q in fs && q != []
      ensures Parent(q) != source
    {
      assert Parent(q) == source ==> dest <= q && |q| > |dest|;
    }
  }

  lemma ListsNothing(names: seq<Name>, dir: set<Name>)
    requires Lists(names, dir)
    ensures names != [] ==> dir != {}
  {
    if names != [] {
      assert names[0] in dir;
    }
  }

  /** What the loop keeps, whatever the destination is. */
  ghost predicate Kept(fs: FileSystem, now: FileSystem, source: Path, dest: Path, pending: seq<Path>) {
    if Apart(source, dest) then Consistent(fs, now, source, dest, pending)
    else UnchangedOutside(fs, now, dest)
         && (FreshDestination(fs, source, dest) ==> now == fs && (pending == [[]] || pending == []))
  }

  lemma TurnKeeps(fs: FileSystem, source: Path, dest: Path, init: seq<Path>, r: Path, a: Work, b: Work,
                  names: seq<Name>)
    requires WellFormed(fs) && !(source < dest) && Kept(fs, a.fs, source, dest, init + [r])
    requires Make(a.fs, source + r, dest + r) == Success(b.fs) && TurnPushes(a, b, source + r, names)
    ensures Kept(fs, b.fs, source, dest, init + Entries(r, names))
  {
    if Apart(source, dest) {
      TurnIsConsistent(fs, source, dest, init, r, a, b, names);
    } else {
      MakeChangesOnlyBelow(fs, a.fs, source, dest, r);
      if FreshDestination(fs, source, dest) {
        NothingToCopy(fs, source, dest);
        assert (init + [r])[|init|] == r && |init| == 0;
        assert source + [] == source && dest + [] == dest;
        if source in fs {
          ListsNothing(names, ReadDir(fs, source));
        }
      }
    }
  }

  lemma StartsKept(fs: FileSystem, source: Path, dest: Path)
    requires WellFormed(fs)
    ensures Kept(fs, fs, source, dest, [[]])
  {
    if Apart(source, dest) {
      StartsConsistent(fs, source, dest);
    }
  }

  lemma EndsKept(fs: FileSystem, now: FileSystem, source: Path, dest: Path)
    requires WellFormed(fs) && !(source < dest) && Kept(fs, now, source, dest, [])
    ensures UnchangedOutside(fs, now, dest)
    ensures FreshDestination(fs, source, dest) ==> IsArchiveCopy(fs, now, source, dest)
  {
    if FreshDestination(fs, source, dest) {
      if Apart(source, dest) {
        EndsAsCopy(fs, now, source, dest);
      } else {
        NothingToCopy(fs, source, dest);
      }
    }
  }

  lemma PushedPairs(source: Path, dest: Path, init: seq<Path>, r: Path, names: seq<Name>,
                    stack: seq<(Path, Path)>, stack': seq<(Path, Path)>, s: Path, d: Path)
    requires stack == Pairs(source, dest, init) && s == source + r && d == dest + r
    requires Pushed(stack, stack', names, s, d)
    ensures stack' == Pairs(source, dest, init + Entries(r, names))
  {
    forall i | 0 <= i < |stack'|
      ensures stack'[i] == Pairs(source, dest, init + Entries(r, names))[i]
    {
      if i >= |stack| {
        var n := names[i - |stack|];
        assert s + [n] == source + (r + [n]) && d + [n] == dest + (r + [n]);
      }
    }
  }
}
