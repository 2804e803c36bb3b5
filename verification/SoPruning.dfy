/**
  Removing from one directory the shared libraries that another directory already holds
  (`_dedup_so_cross_dirs`), except those that a file staying in the directory still needs there.
 */
module SoPruning {
  import opened Options
  import opened Sets

  /** A regular file: whether its name marks it as a shared library, and what its dynamic section says. */
  datatype File = File(isSo: bool, soname: Option<string>, md5: string, needed: set<string>)

  type Directory = map<string, File>

  /** Soname and digest, for the files that are shared libraries and have a soname. */
  predicate HasMeta(f: File) {
    f.isSo && f.soname.Some?
  }

  function Meta(f: File): (string, string)
    requires HasMeta(f)
  {
    (f.soname.value, f.md5)
  }

  predicate InIndex(primary: Directory, meta: (string, string)) {
    exists p :: p in primary && HasMeta(primary[p]) && Meta(primary[p]) == meta
  }

  /** The files of `secondary` with a twin in `primary`. */
  function Candidates(primary: Directory, secondary: Directory): set<string> {
    set f | f in secondary && HasMeta(secondary[f]) && InIndex(primary, Meta(secondary[f]))
  }

  // ------------------------------------------------------------------------------ what may be removed

  ghost predicate NeededBy(dir: Directory, kept: set<string>, soname: string) {
    exists g :: g in kept && g in dir && soname in dir[g].needed
  }

  /** `kept` holds all files that have no twin, and every file that one of `kept` needs. */
  ghost predicate Closed(dir: Directory, candidates: set<string>, kept: set<string>) {
    && dir.Keys - candidates <= kept
    && forall f :: f in candidates && f in dir && HasMeta(dir[f]) ==>
      NeededBy(dir, kept, dir[f].soname.value) ==> f in kept
  }

  ghost predicate Least(dir: Directory, candidates: set<string>, kept: set<string>) {
    && kept <= dir.Keys && Closed(dir, candidates, kept)
    && forall other :: Closed(dir, candidates, other) ==> kept <= other
  }

  /** What stays does not depend on the order in which the candidates are looked at. */
  lemma LeastIsUnique(dir: Directory, candidates: set<string>, a: set<string>, b: set<string>)
    requires Least(dir, candidates, a) && Least(dir, candidates, b)
    ensures a == b
  {
  }

  /** `removed` may go: all of it has twins, and nothing that stays needs any of it. */
  ghost predicate Removable(primary: Directory, secondary: Directory, removed: set<string>) {
    && removed <= Candidates(primary, secondary)
    && forall f, g :: f in removed && g in secondary && g !in removed ==>
      secondary[f].soname.value !in secondary[g].needed
  }

  /** Keeping least is removing most: what the loop removes may go, and includes all else that may go. */
  lemma LeastKeptIsMostRemoved(primary: Directory, secondary: Directory, kept: set<string>, other: set<string>)
    requires Least(secondary, Candidates(primary, secondary), kept)
    ensures Removable(primary, secondary, secondary.Keys - kept)
    ensures Removable(primary, secondary, other) ==> other <= secondary.Keys - kept
  {
    var candidates := Candidates(primary, secondary);
    forall f, g | f in secondary.Keys - kept && g in secondary && g in kept
      ensures secondary[f].soname.value !in secondary[g].needed
    {
      assert f in candidates;
      assert !NeededBy(secondary, kept, secondary[f].soname.value);
    }
    if Removable(primary, secondary, other) {
      assert Closed(secondary, candidates, secondary.Keys - other);
      assert kept <= secondary.Keys - other;
    }
  }

  /** Nothing goes missing: whatever a remaining file needs is where it was, and each soname and content that the
      two directories held between them they still hold. */
  lemma NothingIsLost(primary: Directory, secondary: Directory, kept: set<string>, f: string)
    requires Least(secondary, Candidates(primary, secondary), kept)
    requires f in secondary && HasMeta(secondary[f])
    ensures NeededBy(secondary, kept, secondary[f].soname.value) ==> f in kept
    ensures f in kept || InIndex(primary, Meta(secondary[f]))
  {
  }

  // ------------------------------------------------------------------------------------ the loop

  /** The loop's state: `candidates` still to go, `required` the sonames that the other files need. */
  ghost predicate Inv(dir: Directory, initial: set<string>, candidates: set<string>, required: set<string>) {
    && candidates <= initial
    && (forall s :: s in required <==> NeededBy(dir, dir.Keys - candidates, s))
    && (forall other :: Closed(dir, initial, other) ==> dir.Keys - candidates <= other)
  }

  /** A needed candidate stays, and so its own needs count. */
  lemma StaysNeeded(dir: Directory, initial: set<string>, candidates: set<string>, required: set<string>, f: string)
    requires Inv(dir, initial, candidates, required)
    requires f in candidates && Wanted(dir, f, required)
    ensures Inv(dir, initial, candidates - {f}, required + dir[f].needed)
  {
    forall s ensures s in required + dir[f].needed <==> NeededBy(dir, dir.Keys - (candidates - {f}), s) {
      if NeededBy(dir, dir.Keys - candidates, s) {
        var g :| g in dir.Keys - candidates && s in dir[g].needed;
        assert g in dir.Keys - (candidates - {f});
      }
      if s in dir[f].needed { assert f in dir.Keys - (candidates - {f}); }
    }
    forall other | Closed(dir, initial, other) ensures dir.Keys - (candidates - {f}) <= other {
      NeededByMore(dir, dir.Keys - candidates, other, dir[f].soname.value);
    }
  }

  lemma NeededByMore(dir: Directory, a: set<string>, b: set<string>, s: string)
    requires a <= b && NeededBy(dir, a, s)
    ensures NeededBy(dir, b, s)
  {
  }

  lemma StableIsLeast(dir: Directory, initial: set<string>, candidates: set<string>, required: set<string>)
    requires initial <= dir.Keys && Inv(dir, initial, candidates, required)
    requires forall f :: f in candidates ==> !Wanted(dir, f, required)
    ensures Least(dir, initial, dir.Keys - candidates)
  {
  }

  /** The members of a set, each once, in some order. */
  method ListOf(s: set<string>) returns (l: seq<string>)
    ensures forall x :: x in l <==> x in s
    ensures forall i, j :: 0 <= i < j < |l| ==> l[i] != l[j]
  {
    l := [];
    var rest := s;
    while rest != {}
      invariant rest <= s && forall x :: x in s <==> x in l || x in rest
      invariant forall x :: x in l ==> x !in rest
      invariant forall i, j :: 0 <= i < j < |l| ==> l[i] != l[j]
    {
      var x :| x in rest;
      l, rest := l + [x], rest - {x};
    }
  }

  /** The sonames needed by the files that are not candidates. */
  method RequiredSonames(dir: Directory, candidates: set<string>) returns (required: set<string>)
    ensures forall s :: s in required <==> NeededBy(dir, dir.Keys - candidates, s)
  {
    var files := ListOf(dir.Keys);
    required := {};
    for i := 0 to |files|
      invariant forall s :: s in required <==>
        exists k :: 0 <= k < i && files[k] !in candidates && s in dir[files[k]].needed
    {
      if files[i] !in candidates {
        required := required + dir[files[i]].needed;
      }
    }
  }

  predicate Wanted(dir: Directory, f: string, required: set<string>) {
    f in dir && HasMeta(dir[f]) && dir[f].soname.value in required
  }

  /** One pass over the candidates; each wanted one stays. */
  method Pass(dir: Directory, initial: set<string>, candidates: set<string>, required: set<string>)
    returns (candidates': set<string>, required': set<string>, changed: bool)
    requires initial <= dir.Keys && (forall f :: f in initial ==> HasMeta(dir[f]))
    requires Inv(dir, initial, candidates, required)
    ensures Inv(dir, initial, candidates', required') && candidates' <= candidates
    ensures changed <==> candidates' != candidates
    ensures !changed ==> forall f :: f in candidates' ==> !Wanted(dir, f, required')
  {
    candidates', required', changed := candidates, required, false;
    var files := ListOf(candidates);
    for i := 0 to |files|
      invariant Inv(dir, initial, candidates', required') && candidates' <= candidates
      invariant forall k :: i <= k < |files| ==> files[k] in candidates'
      invariant changed ==> candidates' != candidates
      invariant !changed ==> candidates' == candidates
      invariant !changed ==> forall k :: 0 <= k < i ==> !Wanted(dir, files[k], required')
    {
      var f := files[i];
      if dir[f].soname.value in required' {
        StaysNeeded(dir, initial, candidates', required', f);
        candidates', required', changed := candidates' - {f}, required' + dir[f].needed, true;
      }
    }
  }

  method DedupCrossDirs(primary: Directory, secondary: Directory) returns (remaining: Directory, removed: nat)
    ensures Least(secondary, Candidates(primary, secondary), remaining.Keys)
    ensures forall f :: f in remaining ==> f in secondary && remaining[f] == secondary[f]
    ensures removed == |secondary.Keys - remaining.Keys|
  {
    var initial := Candidates(primary, secondary);
    var candidates, changed := initial, true;
    var required := RequiredSonames(secondary, candidates);
    while changed
      invariant Inv(secondary, initial, candidates, required)
      invariant !changed ==> forall f :: f in candidates ==> !Wanted(secondary, f, required)
      decreases |candidates|, if changed then 1 else 0
    {
      ghost var before := candidates;
      candidates, required, changed := Pass(secondary, initial, candidates, required);
      if changed { SmallerSet(candidates, before); }
    }
    StableIsLeast(secondary, initial, candidates, required);
    remaining, removed := secondary - candidates, |candidates|;
    assert secondary.Keys - remaining.Keys == candidates;
  }
}
