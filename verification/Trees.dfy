/** Flat file trees: the content of a commit, of the index and of the working tree.
    A tree maps each path to its entry (blob and mode, compared as one value). */
module Trees {
  import opened Basics

  type Path = string
  type Entry = string
  type Tree = map<Path, Entry>

  /** What a tree holds at a path; a missing file is a value like any other. */
  function At(t: Tree, p: Path): Option<Entry> {
    if p in t then Some(t[p]) else None
  }

  /** The paths that differ between two trees (object.DiffTree without rename detection). */
  function Diff(a: Tree, b: Tree): set<Path> {
    set p | p in a.Keys + b.Keys && At(a, p) != At(b, p)
  }

  /** `current` after replaying the change base -> source, where a deletion of a path in `kept` has no effect. */
  function OverlayKeeping(current: Tree, base: Tree, source: Tree, kept: set<Path>): Tree {
    map p | p in current.Keys + source.Keys
            && (if p in Diff(base, source) && (p in source || p !in kept) then p in source else p in current)
         :: if p in Diff(base, source) && (p in source || p !in kept) then source[p] else current[p]
  }

  /** `current` after replaying the change base -> source. */
  function Overlay(current: Tree, base: Tree, source: Tree): Tree {
    OverlayKeeping(current, base, source, {})
  }

  lemma DiffAt(a: Tree, b: Tree, p: Path)
    ensures p in Diff(a, b) <==> At(a, p) != At(b, p)
  {
  }

  lemma OverlayKeepingAt(current: Tree, base: Tree, source: Tree, kept: set<Path>, p: Path)
    ensures At(OverlayKeeping(current, base, source, kept), p)
            == if At(base, p) != At(source, p) && (p in source || p !in kept) then At(source, p) else At(current, p)
  {
  }

  lemma OverlayAt(current: Tree, base: Tree, source: Tree, p: Path)
    ensures At(Overlay(current, base, source), p)
            == if At(base, p) != At(source, p) then At(source, p) else At(current, p)
  {
  }

  lemma SameTree(a: Tree, b: Tree)
    requires forall p: Path :: At(a, p) == At(b, p)
    ensures a == b
  {
    assert forall p: Path :: p in a <==> At(a, p).Some?;
    assert forall p: Path :: p in b <==> At(b, p).Some?;
    forall p | p in a ensures a[p] == b[p] {
      assert At(a, p) == At(b, p);
    }
  }

  /** Replaying a change on the very tree it starts from gives the tree it leads to. */
  lemma OverlayOfBase(base: Tree, source: Tree)
    ensures Overlay(base, base, source) == source
  {
  }

  /** Two changes of one base that touch no common path can be replayed in either order. */
  lemma OverlayCommutes(base: Tree, left: Tree, right: Tree)
    requires Diff(base, left) * Diff(base, right) == {}
    ensures Overlay(left, base, right) == Overlay(right, base, left)
  {
  }
}
