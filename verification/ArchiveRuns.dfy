/** What runs of the copy come to: copies, changes outside through links, and, inside the source, no end. */
module ArchiveRuns {
  import opened ArchiveCopy
  import opened Wrappers

  // ---------- What a finished copy amounts to ----------

  lemma ParentBelow(base: Path, r: Path)
    requires r != []
    ensures Parent(base + r) == base + Parent(r)
  {
  }

  lemma CopiedHasParent(before: FileSystem, after: FileSystem, source: Path, dest: Path, r: Path)
    requires WellFormed(before) && IsArchiveCopy(before, after, source, dest) && r != [] && dest + r in after
    ensures dest + Parent(r) in after && after[dest + Parent(r)] == Dir
  {
    ParentBelow(source, r);
    assert SameAt(before, after, source, dest, r) && SameAt(before, after, source, dest, Parent(r));
  }

  /** A copy leaves a file system in which every path still lies in a directory. */
  lemma CopyStaysWellFormed(before: FileSystem, after: FileSystem, source: Path, dest: Path)
    requires WellFormed(before) && FreshDestination(before, source, dest)
    requires IsArchiveCopy(before, after, source, dest)
    ensures WellFormed(after)
  {
    forall p | p in after && p != []
      ensures Parent(p) in after && after[Parent(p)] == Dir
    {
      if dest <= p && p != dest {
        var r := p[|dest|..];
        assert dest + r == p;
        ParentBelow(dest, r);
        CopiedHasParent(before, after, source, dest, r);
      } else {
        assert dest <= Parent(p) ==> dest <= p;
        assert !(dest <= Parent(p));
      }
    }
  }

  // ---------- A destination inside the source ----------

  ghost predicate IsRun(works: seq<Work>) { works != [] && forall i | 0 < i < |works| :: Turn(works[i - 1], works[i]) }

  /** The first names of the way from the source down to the destination, and on as often as it repeats. */
  function Way(d: Path, n: nat): (way: Path)
    requires d != []
    ensures |way| == n
  {
    if n <= |d| then d[..n] else d + Way(d, n - |d|)
  }

  lemma {:induction false} WayOneMore(d: Path, n: nat)
    requires d != []
    ensures Way(d, n + 1) == Way(d, n) + [Way(d, n + 1)[n]]
  {
    if n >= |d| {
      WayRepeats(d, n - |d|);
      WayRepeats(d, n + 1 - |d|);
      WayOneMore(d, n - |d|);
    }
  }

  /** Going down to the destination first is going on for as long. */
  lemma WayRepeats(d: Path, n: nat)
    requires d != []
    ensures d + Way(d, n) == Way(d, |d| + n)
  {
    assert d[..|d|] == d && d + [] == d;
  }

  /** Whatever lies on the way is a directory. */
  ghost predicate WayIsDirectories(fs: FileSystem, source: Path, d: Path)
    requires d != []
  {
    forall n: nat | source + Way(d, n) in fs :: fs[source + Way(d, n)] == Dir
  }

  ghost predicate OnTheWay(w: Work, source: Path, d: Path, n: nat)
    requires d != []
  {
    && (source + Way(d, n), source + d + Way(d, n)) in w.stack
    && forall i: nat | i < |d| + n :: source + Way(d, i) in w.fs
  }

  /** All entries are of the same place below source and destination. */
  ghost predicate Aligned(stack: seq<(Path, Path)>, source: Path, dest: Path) {
    forall e | e in stack :: source <= e.0 && e.1 == dest + e.0[|source|..]
  }

  /** What a run into the source's own inside keeps. */
  ghost predicate Descending(w: Work, source: Path, d: Path)
    requires d != []
  {
    && WayIsDirectories(w.fs, source, d) && Aligned(w.stack, source, source + d)
    && exists n: nat :: OnTheWay(w, source, d, n)
  }

  lemma MakeKeepsWay(fs: FileSystem, source: Path, d: Path, s: Path, to: Path)
    requires d != [] && WayIsDirectories(fs, source, d) && source <= s && to == source + d + s[|source|..]
    requires Make(fs, s, to).Success?
    ensures WayIsDirectories(Make(fs, s, to).value, source, d)
    ensures forall p | p in fs :: p in Make(fs, s, to).value
  {
    var fs' := Make(fs, s, to).value;
    forall n: nat | source + Way(d, n) in fs'
      ensures fs'[source + Way(d, n)] == Dir
    {
      if source + Way(d, n) == to {
        CopiedFromTheWay(source, d, s, n);
      }
    }
  }

  /** A place on the way is only ever made from one that lies on the way too. */
  lemma CopiedFromTheWay(source: Path, d: Path, s: Path, n: nat)
    requires d != [] && source <= s && source + Way(d, n) == source + d + s[|source|..]
    ensures n >= |d| && s == source + Way(d, n - |d|)
  {
    var r := s[|source|..];
    assert s == source + r;
    assert |Way(d, n)| == |d| + |r|;
    WayRepeats(d, n - |d|);
    assert (source + Way(d, n))[|source|..] == Way(d, n) && (source + d + r)[|source|..] == d + r;
    assert (d + r)[|d|..] == r && (d + Way(d, n - |d|))[|d|..] == Way(d, n - |d|);
  }

  lemma AlignedPush(rest: seq<(Path, Path)>, s: Path, to: Path, names: seq<Name>, source: Path, dest: Path)
    requires Aligned(rest, source, dest) && source <= s && to == dest + s[|source|..]
    ensures Aligned(rest + EntryPairs(s, to, names), source, dest)
  {
    forall e | e in rest + EntryPairs(s, to, names)
      ensures source <= e.0 && e.1 == dest + e.0[|source|..]
    {
      if e !in rest {
        var i :| 0 <= i < |names| && e == EntryPairs(s, to, names)[i];
        assert e.0[|source|..] == s[|source|..] + [names[i]];
        assert to + [names[i]] == dest + (s[|source|..] + [names[i]]);
      }
    }
  }

  /** Opening the directory on the way pushes the next one. */
  lemma {:induction false} NextOnTheWay(a: Work, b: Work, source: Path, d: Path, n: nat)
    requires d != [] && Turn(a, b) && WayIsDirectories(a.fs, source, d) && OnTheWay(a, source, d, n)
    requires a.stack[|a.stack| - 1] == (source + Way(d, n), source + d + Way(d, n))
    ensures OnTheWay(b, source, d, n + 1)
  {
    var s, to := source + Way(d, n), source + d + Way(d, n);
    WayRepeats(d, n);
    assert to == source + Way(d, |d| + n);
    assert s in a.fs && a.fs[s] == Dir;
    var names: seq<Name> :| Lists(names, ReadDir(b.fs, s))
                            && b.stack == a.stack[..|a.stack| - 1] + EntryPairs(s, to, names);
    var name := Way(d, n + 1)[n];
    WayOneMore(d, n);
    assert s + [name] == source + Way(d, n + 1);
    assert forall i: nat | i < |d| + n + 1 :: source + Way(d, i) in b.fs;
    EntryIsRead(b.fs, s, name);
    EntryIsPushed(s, to, names, ReadDir(b.fs, s), name);
    assert s + [name] == source + Way(d, n + 1) && to + [name] == source + d + Way(d, n + 1);
  }

  lemma EntryIsRead(fs: FileSystem, s: Path, name: Name)
    requires s + [name] in fs
    ensures name in ReadDir(fs, s)
  {
    assert Parent(s + [name]) == s && (s + [name])[|s|] == name;
  }

  lemma EntryIsPushed(s: Path, to: Path, names: seq<Name>, listed: set<Name>, name: Name)
    requires Lists(names, listed) && name in listed
    ensures (s + [name], to + [name]) in EntryPairs(s, to, names)
  {
    var k :| 0 <= k < |names| && names[k] == name;
    assert EntryPairs(s, to, names)[k] == (s + [name], to + [name]);
  }

  lemma TurnStaysAligned(a: Work, b: Work, source: Path, dest: Path)
    requires Turn(a, b) && Aligned(a.stack, source, dest)
    ensures Aligned(b.stack, source, dest)
  {
    var (s, to) := a.stack[|a.stack| - 1];
    var rest := a.stack[..|a.stack| - 1];
    assert (s, to) in a.stack && forall e | e in rest :: e in a.stack;
    if s in a.fs && a.fs[s] == Dir {
      var names: seq<Name> :| Lists(names, ReadDir(b.fs, s)) && b.stack == rest + EntryPairs(s, to, names);
      AlignedPush(rest, s, to, names, source, dest);
    }
  }

  lemma TurnKeepsOthers(a: Work, b: Work, e: (Path, Path))
    requires Turn(a, b) && e in a.stack && e != a.stack[|a.stack| - 1]
    ensures e in b.stack
  {
    var (s, to) := a.stack[|a.stack| - 1];
    var rest := a.stack[..|a.stack| - 1];
    assert a.stack == rest + [(s, to)] && e in rest;
    if s in a.fs && a.fs[s] == Dir {
      var names: seq<Name> :| Lists(names, ReadDir(b.fs, s)) && b.stack == rest + EntryPairs(s, to, names);
    }
  }

  lemma TurnDescends(a: Work, b: Work, source: Path, d: Path)
    requires d != [] && Turn(a, b) && Descending(a, source, d)
    ensures Descending(b, source, d)
  {
    var top := a.stack[|a.stack| - 1];
    assert top in a.stack;
    MakeKeepsWay(a.fs, source, d, top.0, top.1);
    TurnStaysAligned(a, b, source, source + d);
    var n: nat :| OnTheWay(a, source, d, n);
    var entry := (source + Way(d, n), source + d + Way(d, n));
    if top == entry {
      NextOnTheWay(a, b, source, d, n);
    } else {
      TurnKeepsOthers(a, b, entry);
      assert OnTheWay(b, source, d, n);
    }
  }

  lemma WayAtStart(fs: FileSystem, source: Path, d: Path, i: nat)
    requires WellFormed(fs) && d != [] && FreshDestination(fs, source, source + d)
    ensures i < |d| ==> source + Way(d, i) in fs && fs[source + Way(d, i)] == Dir
    ensures source + Way(d, i) in fs ==> fs[source + Way(d, i)] == Dir
  {
    if i < |d| {
      var up := Parent(source + d);
      assert up == source + d[..|d| - 1] && source + d[..i] <= up;
      assert up in fs && fs[up] == Dir;
      if source + d[..i] != up {
        AncestorsAreDirectories(fs, source + d[..i], up);
      }
    } else {
      WayRepeats(d, i - |d|);
      assert source + Way(d, i) == source + d + Way(d, i - |d|);
    }
  }

  lemma StartsDescending(fs: FileSystem, source: Path, d: Path)
    requires WellFormed(fs) && d != [] && FreshDestination(fs, source, source + d)
    ensures Descending(Work(fs, [(source, source + d)]), source, d)
  {
    var w := Work(fs, [(source, source + d)]);
    forall i: nat
      ensures i < |d| ==> source + Way(d, i) in fs
      ensures source + Way(d, i) in fs ==> fs[source + Way(d, i)] == Dir
    {
      WayAtStart(fs, source, d, i);
    }
    assert Way(d, 0) == [] && source + [] == source && source + d + [] == source + d;
    assert source[|source|..] == [];
    assert w.stack[0] == (source + Way(d, 0), source + d + Way(d, 0));
    assert OnTheWay(w, source, d, 0);
  }

  lemma {:induction false} RunDescends(fs: FileSystem, source: Path, d: Path, works: seq<Work>)
    requires WellFormed(fs) && d != [] && FreshDestination(fs, source, source + d)
    requires IsRun(works) && works[0] == Work(fs, [(source, source + d)])
    ensures Descending(works[|works| - 1], source, d) && works[|works| - 1].stack != []
    decreases |works|
  {
    if |works| == 1 {
      StartsDescending(fs, source, d);
    } else {
      RunDescends(fs, source, d, works[..|works| - 1]);
      TurnDescends(works[|works| - 2], works[|works| - 1], source, d);
    }
  }

  // ---------- Runs ----------

  ghost predicate IsRunVia(follow: Follow, works: seq<Work>) {
    works != [] && forall i | 0 < i < |works| :: TurnVia(follow, works[i - 1], works[i])
  }

  ghost predicate IsRunFrom(follow: Follow, fs: FileSystem, source: Path, dest: Path, works: seq<Work>) {
    IsRunVia(follow, works) && works[0] == Work(fs, [(source, dest)])
  }

  /** No link lies on the way to source or destination, nor at or below the destination. */
  ghost predicate LinkFree(fs: FileSystem, source: Path, dest: Path) {
    Direct(fs, source) && Direct(fs, dest) && forall p | p in fs && dest <= p :: !fs[p].Link?
  }

  lemma NoLinksAbove(fs: FileSystem, p: Path)
    requires WellFormed(fs) && p in fs
    ensures Direct(fs, p) && (!fs[p].Link? ==> NoLinkOn(fs, p))
  {
    forall k | 0 <= k < |p|
      ensures p[..k] in fs && fs[p[..k]] == Dir
    {
      AncestorsAreDirectories(fs, p[..k], p);
    }
    assert p[..|p|] == p;
    if p != [] {
      assert forall k | 0 <= k <= |Parent(p)| :: Parent(p)[..k] == p[..k];
    }
  }

  lemma FreshIsLinkFree(fs: FileSystem, source: Path, dest: Path)
    requires WellFormed(fs) && FreshDestination(fs, source, dest) && Direct(fs, source)
    ensures LinkFree(fs, source, dest)
  {
    if dest in fs {
      NoLinksAbove(fs, dest);
    } else {
      NoLinksAbove(fs, Parent(dest));
    }
  }

  /** What every run keeps where the destination has no links. */
  ghost predicate Orderly(fs: FileSystem, w: Work, source: Path, dest: Path, pending: seq<Path>) {
    && w.stack == Pairs(source, dest, pending) && Incomparable(pending) && WellFormed(w.fs)
    && (forall i | 0 <= i < |pending| :: if pending[i] == [] then w.fs == fs else source + pending[i] in w.fs)
    && (forall q: Path | Covers(pending, q) :: NoLinkOn(w.fs, dest + q))
    && UnchangedOutside(fs, w.fs, dest)
  }

  lemma BelowHasNoLinks(fs: FileSystem, source: Path, dest: Path, q: Path)
    requires LinkFree(fs, source, dest)
    ensures NoLinkOn(fs, dest + q)
  {
    forall k | 0 <= k <= |dest + q| && (dest + q)[..k] in fs
      ensures !fs[(dest + q)[..k]].Link?
    {
      if k < |dest| {
        assert Parent(dest)[..k] == (dest + q)[..k];
      } else {
        assert dest <= (dest + q)[..k];
      }
    }
  }

  lemma StartsOrderly(fs: FileSystem, source: Path, dest: Path)
    requires WellFormed(fs) && LinkFree(fs, source, dest)
    ensures Orderly(fs, Work(fs, [(source, dest)]), source, dest, [[]])
  {
    assert source + [] == source && dest + [] == dest;
    forall q: Path
      ensures NoLinkOn(fs, dest + q)
    {
      BelowHasNoLinks(fs, source, dest, q);
    }
  }

  lemma TopIsPlain(fs: FileSystem, w: Work, source: Path, dest: Path, init: seq<Path>, r: Path)
    requires LinkFree(fs, source, dest) && Orderly(fs, w, source, dest, init + [r])
    ensures w.stack != [] && w.stack[|w.stack| - 1] == (source + r, dest + r)
    ensures Direct(w.fs, source + r) && NoLinkOn(w.fs, dest + r)
  {
    LastPair(source, dest, init, r);
    assert (init + [r])[|init|] == r;
    assert Covers(init + [r], r);
    if r == [] {
      assert source + r == source;
    } else {
      NoLinksAbove(w.fs, source + r);
    }
  }

  /** What is still covered after a turn is not below a link the turn makes. */
  lemma TurnKeepsLinksAway(a: Work, b: Work, source: Path, dest: Path, init: seq<Path>, r: Path, names: seq<Name>,
                           q: Path)
    requires Incomparable(init + [r]) && NoLinkOn(a.fs, dest + q)
    requires Make(a.fs, source + r, dest + r) == Success(b.fs) && TurnPushes(a, b, source + r, names)
    requires Covers(init + Entries(r, names), q)
    ensures NoLinkOn(b.fs, dest + q)
  {
    MakeEffect(a.fs, source + r, dest + r);
    if source + r in a.fs && a.fs[source + r].Link? {
      IncomparableInit(init, r);
      Uncovered(init, r, q);
      assert init + Entries(r, names) == init;
    }
    forall k | 0 <= k <= |dest + q| && (dest + q)[..k] in b.fs
      ensures !b.fs[(dest + q)[..k]].Link?
    {
      PrefixBelow(dest, q, r, k);
    }
  }

  lemma PrefixBelow(base: Path, q: Path, r: Path, k: nat)
    requires k <= |base + q|
    ensures (base + q)[..k] == base + r ==> r <= q
  {
    if (base + q)[..k] == base + r {
      assert (base + q)[|base|..] == q && (base + q)[|base|..k] == r;
    }
  }

  lemma CoveredBefore(init: seq<Path>, r: Path, names: seq<Name>, q: Path)
    requires Incomparable(init + [r]) && Covers(init + Entries(r, names), q)
    ensures Covers(init + [r], q) && q != r
  {
    IncomparableInit(init, r);
    Uncovered(init, r, q);
    OpenedCovers(init, r, names, q);
  }

  lemma TurnStaysOrderly(fs: FileSystem, source: Path, dest: Path, init: seq<Path>, r: Path, a: Work, b: Work,
                         names: seq<Name>)
    requires Orderly(fs, a, source, dest, init + [r])
    requires Make(a.fs, source + r, dest + r) == Success(b.fs) && TurnPushes(a, b, source + r, names)
    requires b.stack == Pairs(source, dest, init + Entries(r, names))
    ensures Orderly(fs, b, source, dest, init + Entries(r, names))
  {
    var pending := init + Entries(r, names);
    IncomparableInit(init, r);
    OpenedIncomparable(init, r, names);
    MakeStaysWellFormed(a.fs, source + r, dest + r);
    MakeChangesOnlyBelow(fs, a.fs, source, dest, r);
    MakeEffect(a.fs, source + r, dest + r);
    forall i | 0 <= i < |pending|
      ensures pending[i] != [] && source + pending[i] in b.fs
    {
      if i < |init| {
        assert (init + [r])[i] == init[i] == pending[i];
      } else {
        assert pending[i] == r + [names[i - |init|]];
        ListedExists(b.fs, source, r, names[i - |init|]);
      }
    }
    forall q: Path | Covers(pending, q)
      ensures NoLinkOn(b.fs, dest + q)
    {
      CoveredBefore(init, r, names, q);
      TurnKeepsLinksAway(a, b, source, dest, init, r, names, q);
    }
  }

  // ---------- Fresh destinations ----------

  /** At a fresh destination whatever is pending has its place free and its directory made. */
  ghost predicate Prepared(now: FileSystem, source: Path, dest: Path, pending: seq<Path>) {
    && (forall q: Path | Covers(pending, q) && dest + q in now :: q == [] && now[dest + q] == Dir)
    && forall i | 0 <= i < |pending| ::
         if pending[i] == [] then FreshDestination(now, source, dest)
         else dest + Parent(pending[i]) in now && now[dest + Parent(pending[i])] == Dir
  }

  lemma StartsPrepared(fs: FileSystem, source: Path, dest: Path)
    requires FreshDestination(fs, source, dest)
    ensures Prepared(fs, source, dest, [[]])
  {
    forall q: Path | dest + q in fs
      ensures q == [] && fs[dest + q] == Dir
    {
      NothingBelowDestination(fs, source, dest, q);
    }
  }

  /** At a fresh destination no call fails, wherever the destination lies. */
  lemma FreshNeverFails(now: FileSystem, source: Path, dest: Path, init: seq<Path>, r: Path)
    requires Prepared(now, source, dest, init + [r])
    ensures Make(now, source + r, dest + r).Success?
    ensures source + r in now && now[source + r] == Dir ==>
              Make(now, source + r, dest + r).value == now[dest + r := Dir]
  {
    assert (init + [r])[|init|] == r;
    assert Covers(init + [r], r);
    if r == [] {
      assert source + r == source && dest + r == dest;
    } else {
      ParentBelow(dest, r);
    }
    PreparedMakeSucceeds(now, source + r, dest + r);
    assert dest + r in now ==> now[dest + r := Dir] == now;
  }

  lemma RootIsAlone(init: seq<Path>, r: Path)
    requires Incomparable(init + [r])
    ensures Covers(init + [r], []) ==> r == []
  {
    var pending := init + [r];
    assert pending[|init|] == r;
    if Covers(pending, []) {
      var i :| 0 <= i < |pending| && pending[i] <= [];
      assert pending[i] == [] <= r;
    }
  }

  lemma CoveredIsNew(source: Path, dest: Path, init: seq<Path>, r: Path, a: Work, b: Work, names: seq<Name>, q: Path)
    requires Prepared(a.fs, source, dest, init + [r]) && Incomparable(init + [r])
    requires Make(a.fs, source + r, dest + r) == Success(b.fs) && TurnPushes(a, b, source + r, names)
    requires Covers(init + Entries(r, names), q)
    ensures dest + q !in b.fs
  {
    MakeEffect(a.fs, source + r, dest + r);
    RootIsAlone(init, r);
    CoveredBefore(init, r, names, q);
    assert (dest + q)[|dest|..] == q && (dest + r)[|dest|..] == r;
  }

  lemma ParentIsMade(source: Path, dest: Path, init: seq<Path>, r: Path, a: Work, b: Work, names: seq<Name>, i: nat)
    requires Prepared(a.fs, source, dest, init + [r]) && Incomparable(init + [r])
    requires Make(a.fs, source + r, dest + r) == Success(b.fs) && TurnPushes(a, b, source + r, names)
    requires i < |init + Entries(r, names)|
    ensures var p := (init + Entries(r, names))[i];
            p != [] && dest + Parent(p) in b.fs && b.fs[dest + Parent(p)] == Dir
  {
    var p := (init + Entries(r, names))[i];
    if i < |init| {
      IncomparableInit(init, r);
      MakeEffect(a.fs, source + r, dest + r);
      assert (init + [r])[i] == init[i] == p;
    } else {
      FreshNeverFails(a.fs, source, dest, init, r);
      assert p == r + [names[i - |init|]] && Parent(p) == r;
    }
  }

  lemma TurnStaysPrepared(source: Path, dest: Path, init: seq<Path>, r: Path, a: Work, b: Work, names: seq<Name>)
    requires Prepared(a.fs, source, dest, init + [r]) && Incomparable(init + [r])
    requires Make(a.fs, source + r, dest + r) == Success(b.fs) && TurnPushes(a, b, source + r, names)
    ensures Prepared(b.fs, source, dest, init + Entries(r, names))
  {
    var pending := init + Entries(r, names);
    forall q: Path | Covers(pending, q)
      ensures dest + q !in b.fs
    {
      CoveredIsNew(source, dest, init, r, a, b, names, q);
    }
    forall i | 0 <= i < |pending|
      ensures pending[i] != []
      ensures dest + Parent(pending[i]) in b.fs && b.fs[dest + Parent(pending[i])] == Dir
    {
      ParentIsMade(source, dest, init, r, a, b, names, i);
    }
  }

  // ---------- What every run keeps ----------

  /** Every turn has used up a place. */
  ghost predicate Measured(fs: FileSystem, w: Work, source: Path, pending: seq<Path>, turns: nat) {
    && Within(Places(fs, source), w.fs, source) && (forall q | q in pending :: q in Places(fs, source))
    && |Left(Places(fs, source), pending)| + turns <= |Places(fs, source)|
  }

  ghost predicate Sound(fs: FileSystem, w: Work, source: Path, dest: Path, pending: seq<Path>, turns: nat) {
    && Orderly(fs, w, source, dest, pending)
    && (!(source < dest) ==> Measured(fs, w, source, pending, turns) && Kept(fs, w.fs, source, dest, pending))
    && (FreshDestination(fs, source, dest) ==> Prepared(w.fs, source, dest, pending))
  }

  lemma {:induction false} StartsSound(fs: FileSystem, source: Path, dest: Path)
    requires WellFormed(fs) && LinkFree(fs, source, dest)
    ensures Sound(fs, Work(fs, [(source, dest)]), source, dest, [[]], 0)
  {
    StartsOrderly(fs, source, dest);
    StartsWithin(fs, source);
    StartsKept(fs, source, dest);
    LeftIsPart(Places(fs, source), [[]]);
    if FreshDestination(fs, source, dest) {
      StartsPrepared(fs, source, dest);
    }
  }

  lemma SmallerSet<T>(a: set<T>, b: set<T>)
    requires a <= b
    ensures |a| <= |b| && (a != b ==> |a| < |b|)
  {
    assert b == a + (b - a);
    assert a != b ==> b - a != {};
  }

  lemma LeftIsPart(places: set<Path>, pending: seq<Path>)
    ensures |Left(places, pending)| <= |places|
  {
    SmallerSet(Left(places, pending), places);
  }

  lemma {:induction false} TurnStaysSound(follow: Follow, fs: FileSystem, source: Path, dest: Path, init: seq<Path>,
                                          r: Path, a: Work, b: Work, turns: nat) returns (pending: seq<Path>)
    requires WellFormed(fs) && FollowsLinks(follow) && LinkFree(fs, source, dest)
    requires Sound(fs, a, source, dest, init + [r], turns) && TurnVia(follow, a, b)
    ensures Turn(a, b) && Sound(fs, b, source, dest, pending, turns + 1)
  {
    TopIsPlain(fs, a, source, dest, init, r);
    TurnIsPlain(follow, a, b);
    var names := TurnOf(source, dest, init, r, a, b);
    pending := init + Entries(r, names);
    TurnStaysOrderly(fs, source, dest, init, r, a, b, names);
    if !(source < dest) {
      TurnIsProgress(fs, source, dest, init, r, a, b, names);
      SmallerSet(Left(Places(fs, source), pending), Left(Places(fs, source), init + [r]));
      TurnKeeps(fs, source, dest, init, r, a, b, names);
    }
    if FreshDestination(fs, source, dest) {
      TurnStaysPrepared(source, dest, init, r, a, b, names);
    }
  }

  lemma NextIsSound(follow: Follow, fs: FileSystem, source: Path, dest: Path, before: seq<Path>, a: Work, b: Work,
                    turns: nat) returns (pending: seq<Path>)
    requires WellFormed(fs) && FollowsLinks(follow) && LinkFree(fs, source, dest)
    requires Sound(fs, a, source, dest, before, turns) && TurnVia(follow, a, b)
    ensures Turn(a, b) && Sound(fs, b, source, dest, pending, turns + 1)
  {
    assert |a.stack| == |before| && before != [];
    var init, r := before[..|before| - 1], before[|before| - 1];
    assert before == init + [r];
    pending := TurnStaysSound(follow, fs, source, dest, init, r, a, b, turns);
  }

  lemma RunWithoutLast(follow: Follow, works: seq<Work>)
    requires IsRunVia(follow, works) && |works| > 1
    ensures IsRunVia(follow, works[..|works| - 1]) && TurnVia(follow, works[|works| - 2], works[|works| - 1])
  {
    var before := works[..|works| - 1];
    forall i | 0 < i < |before|
      ensures TurnVia(follow, before[i - 1], before[i])
    {
      assert TurnVia(follow, works[i - 1], works[i]);
    }
  }

  lemma {:induction false} RunIsSound(follow: Follow, fs: FileSystem, source: Path, dest: Path, works: seq<Work>)
    returns (pending: seq<Path>)
    requires WellFormed(fs) && FollowsLinks(follow) && LinkFree(fs, source, dest)
    requires IsRunFrom(follow, fs, source, dest, works)
    ensures IsRun(works) && Sound(fs, works[|works| - 1], source, dest, pending, |works| - 1)
    decreases |works|
  {
    if |works| == 1 {
      pending := [[]];
      StartsSound(fs, source, dest);
    } else {
      var n := |works| - 1;
      var before, a, b := works[..n], works[n - 1], works[n];
      RunWithoutLast(follow, works);
      assert before[0] == works[0] && before[n - 1] == a;
      var earlier := RunIsSound(follow, fs, source, dest, before);
      pending := NextIsSound(follow, fs, source, dest, earlier, a, b, n - 1);
      RunOneMore(before, b);
      assert before + [b] == works;
    }
  }

  // ---------- What runs come to ----------

  /** Without links at the destination nothing outside it changes, in whatever order entries are listed. */
  lemma RunsStayInside(follow: Follow, fs: FileSystem, source: Path, dest: Path, works: seq<Work>)
    requires WellFormed(fs) && FollowsLinks(follow) && LinkFree(fs, source, dest)
    requires IsRunFrom(follow, fs, source, dest, works)
    ensures UnchangedOutside(fs, works[|works| - 1].fs, dest)
  {
    var pending := RunIsSound(follow, fs, source, dest, works);
  }

  /** What is written where the destination leads, outside it, when a file is copied. */
  predicate WritesOutside(fs: FileSystem, content: string, dest: Path, to: Path) {
    && !(dest <= to) && CopyFile(fs, content, to).Success?
    && (to in fs ==> fs[to] != File(content))
  }

  lemma StackLeftBeforeEnd(follow: Follow, works: seq<Work>, i: nat)
    requires IsRunVia(follow, works) && i < |works|
    ensures i + 1 < |works| ==> works[i].stack != []
  {
    if i + 1 < |works| {
      assert TurnVia(follow, works[i], works[i + 1]);
    }
  }

  /** With links it may: copying one file changes something outside exactly if the destination leads to such a place. */
  lemma FileStaysInsideExactly(follow: Follow, fs: FileSystem, source: Path, dest: Path)
    requires FollowsLinks(follow) && Direct(fs, source) && source in fs && fs[source].File?
    ensures (forall works: seq<Work> | IsRunFrom(follow, fs, source, dest, works) ::
               UnchangedOutside(fs, works[|works| - 1].fs, dest)) <==>
              var to := follow(fs, dest);
              to.None? || !WritesOutside(fs, if to.value == source then "" else fs[source].content, dest, to.value)
  {
    PlaceIsPlain(follow, fs, source);
    var to, start := follow(fs, dest), Work(fs, [(source, dest)]);
    var made := MakeVia(follow, fs, source, dest);
    forall works: seq<Work> | IsRunFrom(follow, fs, source, dest, works)
      ensures |works| == 1 || (|works| == 2 && made == Success(works[1].fs))
    {
      if |works| > 1 {
        assert TurnVia(follow, works[0], works[1]);
        StackLeftBeforeEnd(follow, works, 1);
      }
    }
    if to.Some? && WritesOutside(fs, if to.value == source then "" else fs[source].content, dest, to.value) {
      var works := [start, Work(made.value, [])];
      assert TurnVia(follow, works[0], works[1]) && IsRunFrom(follow, fs, source, dest, works);
      assert !UnchangedOutside(fs, works[1].fs, dest);
    }
  }

  /** A file goes to where the destination leads, if that is a file or a free place in a directory, and nowhere else. */
  lemma FileLandsWhereDestinationLeads(follow: Follow, fs: FileSystem, source: Path, dest: Path, works: seq<Work>)
    requires FollowsLinks(follow) && Direct(fs, source) && source in fs && fs[source].File?
    requires IsRunFrom(follow, fs, source, dest, works)
    ensures |works| > 1 ==>
              var to := follow(fs, dest);
              && to.Some? && (if to.value in fs then fs[to.value].File? else CanCreate(fs, to.value))
              && works[|works| - 1] ==
                   Work(fs[to.value := if to.value == source then File("") else fs[source]], [])
  {
    PlaceIsPlain(follow, fs, source);
    if |works| > 1 {
      assert TurnVia(follow, works[0], works[1]);
      StackLeftBeforeEnd(follow, works, 1);
    }
  }

  /** Unless the destination is inside the source, a run takes at most one turn for each place. */
  lemma RunsAreBounded(follow: Follow, fs: FileSystem, source: Path, dest: Path, works: seq<Work>)
    requires WellFormed(fs) && FollowsLinks(follow) && LinkFree(fs, source, dest) && !(source < dest)
    requires IsRunFrom(follow, fs, source, dest, works)
    ensures |works| - 1 <= |Places(fs, source)|
    ensures |works| - 1 == |Places(fs, source)| ==> works[|works| - 1].stack == []
  {
    var pending := RunIsSound(follow, fs, source, dest, works);
    if pending != [] {
      var last := pending[|pending| - 1];
      assert last in pending && last in Left(Places(fs, source), pending);
    }
  }

  /** A run to a fresh destination goes on until its stack is empty, and then the destination is a copy. */
  lemma FreshRunGoesOn(follow: Follow, fs: FileSystem, source: Path, dest: Path, works: seq<Work>)
    returns (next: Work)
    requires WellFormed(fs) && FollowsLinks(follow) && FreshDestination(fs, source, dest) && Direct(fs, source)
    requires IsRunFrom(follow, fs, source, dest, works)
    ensures var last := works[|works| - 1];
            if last.stack != [] then TurnVia(follow, last, next)
            else source < dest || IsArchiveCopy(fs, last.fs, source, dest)
  {
    FreshIsLinkFree(fs, source, dest);
    var pending := RunIsSound(follow, fs, source, dest, works);
    next := works[|works| - 1];
    if pending == [] {
      if !(source < dest) {
        EndsKept(fs, next.fs, source, dest);
      }
    } else {
      var init, r := pending[..|pending| - 1], pending[|pending| - 1];
      assert pending == init + [r];
      TopIsPlain(fs, next, source, dest, init, r);
      FreshNeverFails(next.fs, source, dest, init, r);
      var last := next;
      next := NextTurn(last);
      TurnIsPlain(follow, last, next);
    }
  }

  lemma {:induction false} SomeListing(dir: set<Name>) returns (names: seq<Name>)
    ensures Lists(names, dir)
  {
    if dir == {} {
      names := [];
    } else {
      var name :| name in dir;
      names := SomeListing(dir - {name});
      ListsOneMore(names, dir - {name}, name);
      names := names + [name];
      assert dir - {name} + {name} == dir;
    }
  }

  lemma NextTurn(a: Work) returns (b: Work)
    requires a.stack != [] && Make(a.fs, a.stack[|a.stack| - 1].0, a.stack[|a.stack| - 1].1).Success?
    ensures Turn(a, b)
  {
    var (s, d) := a.stack[|a.stack| - 1];
    var fs, rest := Make(a.fs, s, d).value, a.stack[..|a.stack| - 1];
    b := Work(fs, rest);
    if s in a.fs && a.fs[s] == Dir {
      var names := SomeListing(ReadDir(fs, s));
      b := Work(fs, rest + EntryPairs(s, d, names));
    }
  }

  /** Runs to a fresh destination exist at every length, up to the one that empties the stack. */
  lemma {:induction false} RunsOfEveryLength(follow: Follow, fs: FileSystem, source: Path, dest: Path, n: nat)
    returns (works: seq<Work>)
    requires WellFormed(fs) && FollowsLinks(follow) && FreshDestination(fs, source, dest) && Direct(fs, source)
    ensures IsRunFrom(follow, fs, source, dest, works)
    ensures |works| == n + 1 || (|works| <= n && works[|works| - 1].stack == [])
  {
    if n == 0 {
      works := [Work(fs, [(source, dest)])];
    } else {
      works := RunsOfEveryLength(follow, fs, source, dest, n - 1);
      if works[|works| - 1].stack != [] {
        var next := FreshRunGoesOn(follow, fs, source, dest, works);
        RunOneMoreVia(follow, works, next);
        works := works + [next];
      }
    }
  }

  /** A copy to a fresh destination inside the source never completes: there is always something left on the stack. */
  lemma CopyIntoItselfNeverCompletes(follow: Follow, fs: FileSystem, source: Path, dest: Path, works: seq<Work>)
    requires WellFormed(fs) && FollowsLinks(follow) && FreshDestination(fs, source, dest) && Direct(fs, source)
    requires source < dest && IsRunFrom(follow, fs, source, dest, works)
    ensures works[|works| - 1].stack != []
  {
    FreshIsLinkFree(fs, source, dest);
    var pending := RunIsSound(follow, fs, source, dest, works);
    assert source + dest[|source|..] == dest;
    RunDescends(fs, source, dest[|source|..], works);
  }

  /** A copy to a fresh destination can be completed if and only if the destination is not inside the source. */
  lemma CompletesExactly(follow: Follow, fs: FileSystem, source: Path, dest: Path)
    requires WellFormed(fs) && FollowsLinks(follow) && FreshDestination(fs, source, dest) && Direct(fs, source)
    ensures (exists works: seq<Work> :: IsRunFrom(follow, fs, source, dest, works) && works[|works| - 1].stack == [])
       <==> !(source < dest)
  {
    FreshIsLinkFree(fs, source, dest);
    if source < dest {
      forall works: seq<Work> | IsRunFrom(follow, fs, source, dest, works)
        ensures works[|works| - 1].stack != []
      {
        CopyIntoItselfNeverCompletes(follow, fs, source, dest, works);
      }
    } else {
      var works := RunsOfEveryLength(follow, fs, source, dest, |Places(fs, source)|);
      RunsAreBounded(follow, fs, source, dest, works);
    }
  }

  lemma RunOneMore(works: seq<Work>, next: Work)
    requires IsRun(works) && Turn(works[|works| - 1], next)
    ensures IsRun(works + [next])
  {
    var all := works + [next];
    forall i | 0 < i < |all|
      ensures Turn(all[i - 1], all[i])
    {
      if i < |works| {
        assert all[i] == works[i] && all[i - 1] == works[i - 1];
      }
    }
  }

  lemma RunOneMoreVia(follow: Follow, works: seq<Work>, next: Work)
    requires IsRunVia(follow, works) && TurnVia(follow, works[|works| - 1], next)
    ensures IsRunVia(follow, works + [next])
  {
    var all := works + [next];
    forall i | 0 < i < |all|
      ensures TurnVia(follow, all[i - 1], all[i])
    {
      if i < |works| {
        assert all[i] == works[i] && all[i - 1] == works[i - 1];
      }
    }
  }

  datatype End = Done(after: FileSystem) | Failed(error: Error) | Unfinished

  /** How a run has ended: with an empty stack, with a call that fails, or, after so many turns, not yet. */
  ghost predicate EndsAs(follow: Follow, works: seq<Work>, turns: nat, end: End)
    requires works != []
  {
    var last := works[|works| - 1];
    match end
    case Done(after) => last.stack == [] && last.fs == after
    case Failed(error) =>
      last.stack != []
      && MakeVia(follow, last.fs, last.stack[|last.stack| - 1].0, last.stack[|last.stack| - 1].1) == Failure(error)
    case Unfinished => last.stack != [] && |works| == turns + 1
  }

  // ---------- Copies over what is there ----------

  /**
    The source laid over the destination: its files and links are there, its directories where there was nothing, and
    what the destination held elsewhere is still there.  Special files are passed over.
   */
  ghost predicate IsOverlay(before: FileSystem, after: FileSystem, source: Path, dest: Path) {
    && UnchangedOutside(before, after, dest)
    && forall r: Path {:trigger At(before, source + r)} {:trigger At(after, dest + r)} ::
         match At(before, source + r)
         case Some(File(content)) => At(after, dest + r) == Some(File(content))
         case Some(Link(target)) => At(after, dest + r) == Some(Link(target))
         case Some(Dir) => At(after, dest + r) == if dest + r in before then Some(before[dest + r]) else Some(Dir)
         case Some(Special) => At(after, dest + r) == At(before, dest + r)
         case None => At(after, dest + r) == At(before, dest + r)
  }

  /** Every place is as it was or as it will be. */
  ghost predicate IsPartlyOverlaid(before: FileSystem, now: FileSystem, source: Path, dest: Path) {
    forall r: Path {:trigger At(now, dest + r)} ::
      At(now, dest + r) == At(before, dest + r) || At(now, dest + r) == Overlaid(before, source, dest, r)
  }

  lemma ConsistentIsPartlyOverlaid(before: FileSystem, now: FileSystem, source: Path, dest: Path, pending: seq<Path>)
    requires Progress(before, now, source, dest, pending)
    ensures IsPartlyOverlaid(before, now, source, dest)
  {
    forall r: Path
      ensures At(now, dest + r) == At(before, dest + r) || At(now, dest + r) == Overlaid(before, source, dest, r)
    {
      assert Covers(pending, r) || !Covers(pending, r);
    }
  }

  lemma ConsistentIsOverlay(before: FileSystem, now: FileSystem, source: Path, dest: Path)
    requires UnchangedOutside(before, now, dest) && Progress(before, now, source, dest, [])
    ensures IsOverlay(before, now, source, dest) && forall r: Path :: !Blocked(before, source, dest, r)
  {
    forall r: Path
      ensures At(now, dest + r) == Overlaid(before, source, dest, r) && !Blocked(before, source, dest, r)
    {
      assert !Covers([], r);
    }
  }

  lemma RunIsConsistent(follow: Follow, fs: FileSystem, source: Path, dest: Path, works: seq<Work>)
    returns (pending: seq<Path>)
    requires WellFormed(fs) && FollowsLinks(follow) && LinkFree(fs, source, dest) && Apart(source, dest)
    requires IsRunFrom(follow, fs, source, dest, works)
    ensures var last := works[|works| - 1];
            Orderly(fs, last, source, dest, pending) && Consistent(fs, last.fs, source, dest, pending)
  {
    pending := RunIsSound(follow, fs, source, dest, works);
  }

  /** A completed copy lies over the destination, and nothing was in its way; before that it lies over part of it. */
  lemma CompletedRunOverlays(follow: Follow, fs: FileSystem, source: Path, dest: Path, works: seq<Work>)
    requires WellFormed(fs) && FollowsLinks(follow) && LinkFree(fs, source, dest) && Apart(source, dest)
    requires IsRunFrom(follow, fs, source, dest, works)
    ensures IsPartlyOverlaid(fs, works[|works| - 1].fs, source, dest)
    ensures works[|works| - 1].stack == [] ==>
              && IsOverlay(fs, works[|works| - 1].fs, source, dest)
              && forall r: Path :: !Blocked(fs, source, dest, r)
  {
    var pending := RunIsConsistent(follow, fs, source, dest, works);
    ConsistentIsPartlyOverlaid(fs, works[|works| - 1].fs, source, dest, pending);
    if pending == [] {
      ConsistentIsOverlay(fs, works[|works| - 1].fs, source, dest);
    }
  }

  lemma FailingTopIsBlocked(follow: Follow, fs: FileSystem, source: Path, dest: Path, w: Work, pending: seq<Path>)
    requires WellFormed(fs) && FollowsLinks(follow) && LinkFree(fs, source, dest) && Apart(source, dest)
    requires Orderly(fs, w, source, dest, pending) && Consistent(fs, w.fs, source, dest, pending) && w.stack != []
    requires MakeVia(follow, w.fs, w.stack[|w.stack| - 1].0, w.stack[|w.stack| - 1].1).Failure?
    ensures exists r: Path :: Blocked(fs, source, dest, r)
  {
    assert |w.stack| == |pending|;
    var init, r := pending[..|pending| - 1], pending[|pending| - 1];
    assert pending == init + [r];
    TopIsPlain(fs, w, source, dest, init, r);
    MakeIsPlain(follow, w.fs, source + r, dest + r);
    MadeExactly(fs, w.fs, source, dest, init, r);
  }

  /** A copy whose next call fails has met a node that was blocked beforehand. */
  lemma FailingRunIsBlocked(follow: Follow, fs: FileSystem, source: Path, dest: Path, works: seq<Work>, error: Error)
    requires WellFormed(fs) && FollowsLinks(follow) && LinkFree(fs, source, dest) && Apart(source, dest)
    requires IsRunFrom(follow, fs, source, dest, works) && EndsAs(follow, works, |works|, Failed(error))
    ensures exists r: Path :: Blocked(fs, source, dest, r)
  {
    var pending := RunIsConsistent(follow, fs, source, dest, works);
    FailingTopIsBlocked(follow, fs, source, dest, works[|works| - 1], pending);
  }

  /** A source directory is a directory at the destination too, unless something else was in its place. */
  lemma DirectoriesArriveExactly(before: FileSystem, after: FileSystem, source: Path, dest: Path, r: Path)
    requires IsOverlay(before, after, source, dest) && At(before, source + r) == Some(Dir)
    ensures At(after, dest + r) == Some(Dir) <==> dest + r in before ==> before[dest + r] == Dir
  {
    assert At(after, dest + r) == if dest + r in before then Some(before[dest + r]) else Some(Dir);
  }

  /** Such a directory has nothing in it but special files, or the copy is blocked. */
  lemma OnlyEmptyDirectoriesAreLost(fs: FileSystem, source: Path, dest: Path, r: Path, name: Name)
    requires WellFormed(fs) && At(fs, source + r) == Some(Dir) && dest + r in fs && fs[dest + r] != Dir
    requires source + r + [name] in fs && fs[source + r + [name]] != Special
    ensures Blocked(fs, source, dest, r + [name])
  {
    assert source + (r + [name]) == source + r + [name] && Parent(r + [name]) == r;
    assert Parent(dest + (r + [name])) == dest + r;
  }

  // ---------- The whole copy ----------

  lemma {:induction false} EndOfRun(follow: Follow, fs: FileSystem, source: Path, dest: Path, works: seq<Work>,
                                    turns: nat, end: End)
    requires WellFormed(fs) && FollowsLinks(follow)
    requires IsRunFrom(follow, fs, source, dest, works) && EndsAs(follow, works, turns, end)
    ensures LinkFree(fs, source, dest) ==> UnchangedOutside(fs, works[|works| - 1].fs, dest)
    ensures LinkFree(fs, source, dest) && !(source < dest) && turns >= |Places(fs, source)| ==> !end.Unfinished?
    ensures LinkFree(fs, source, dest) && Apart(source, dest) && turns >= |Places(fs, source)| ==>
              if exists r: Path :: Blocked(fs, source, dest, r) then end.Failed?
              else end.Done? && IsOverlay(fs, end.after, source, dest)
    ensures FreshDestination(fs, source, dest) && Direct(fs, source) ==>
              if source < dest then end.Unfinished?
              else turns >= |Places(fs, source)| ==> end.Done? && IsArchiveCopy(fs, end.after, source, dest)
  {
    if LinkFree(fs, source, dest) {
      RunsStayInside(follow, fs, source, dest, works);
      if Apart(source, dest) {
        CompletedRunOverlays(follow, fs, source, dest, works);
        if end.Failed? {
          FailingRunIsBlocked(follow, fs, source, dest, works, end.error);
        }
      }
      if !(source < dest) {
        RunsAreBounded(follow, fs, source, dest, works);
      }
    }
    if FreshDestination(fs, source, dest) && Direct(fs, source) {
      FreshIsLinkFree(fs, source, dest);
      var next := FreshRunGoesOn(follow, fs, source, dest, works);
      if source < dest {
        CopyIntoItselfNeverCompletes(follow, fs, source, dest, works);
      }
    }
  }

  /** The loop, for at most so many turns. */
  method TakeTurns(follow: Follow, fs: FileSystem, source: Path, dest: Path, turns: nat)
    returns (end: End, ghost works: seq<Work>)
    ensures IsRunFrom(follow, fs, source, dest, works) && EndsAs(follow, works, turns, end)
  {
    var now, stack, taken := fs, [(source, dest)], 0;
    works := [Work(now, stack)];
    var failed := None;
    while stack != [] && taken < turns && failed.None?
      invariant IsRunFrom(follow, fs, source, dest, works) && works[|works| - 1] == Work(now, stack)
      invariant |works| == taken + 1 <= turns + 1
      invariant failed.Some? ==>
                  && stack != []
                  && MakeVia(follow, now, stack[|stack| - 1].0, stack[|stack| - 1].1) == Failure(failed.value)
      decreases turns - taken, failed.None?
    {
      var made, stack' := TakeTurn(follow, now, stack);
      if made.Failure? {
        failed := Some(made.error);
      } else {
        RunOneMoreVia(follow, works, Work(made.value, stack'));
        works := works + [Work(made.value, stack')];
        now, stack, taken := made.value, stack', taken + 1;
      }
    }
    end := if failed.Some? then Failed(failed.value) else if stack == [] then Done(now) else Unfinished;
  }

  /**
    The copy, followed for any number of turns.  Without links at the destination nothing outside it changes, and the
    copy ends unless the destination is inside the source.  Apart from the source, it ends with the source laid over the
    destination, or fails where that was blocked beforehand; a fresh destination ends up holding exactly the source's
    links, directories and files.
   */
  method CopyArchive(follow: Follow, fs: FileSystem, source: Path, dest: Path, turns: nat)
    returns (end: End, ghost works: seq<Work>)
    requires WellFormed(fs) && FollowsLinks(follow)
    ensures IsRunFrom(follow, fs, source, dest, works) && EndsAs(follow, works, turns, end)
    ensures LinkFree(fs, source, dest) ==> UnchangedOutside(fs, works[|works| - 1].fs, dest)
    ensures LinkFree(fs, source, dest) && !(source < dest) && turns >= |Places(fs, source)| ==> !end.Unfinished?
    ensures LinkFree(fs, source, dest) && Apart(source, dest) && turns >= |Places(fs, source)| ==>
              if exists r: Path :: Blocked(fs, source, dest, r) then end.Failed?
              else end.Done? && IsOverlay(fs, end.after, source, dest)
    ensures FreshDestination(fs, source, dest) && Direct(fs, source) ==>
              if source < dest then end.Unfinished?
              else turns >= |Places(fs, source)| ==> end.Done? && IsArchiveCopy(fs, end.after, source, dest)
  {
    end, works := TakeTurns(follow, fs, source, dest, turns);
    EndOfRun(follow, fs, source, dest, works, turns, end);
  }
}
