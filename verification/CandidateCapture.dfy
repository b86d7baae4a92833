/** Capturing and validating a candidate (src/trainer/parameter.py:86-140): whatever the proposer did with its
    worktree, its history and its index, the candidate is one commit on top of the baseline. */
module CandidateCapture {
  import opened EnvSteps

  type Tree = map<string, string>

  /** A commit with the tree it records. */
  datatype Snapshot = RootSnapshot(tree: Tree) | ChildSnapshot(parent: Snapshot, tree: Tree)

  predicate Differs(from: Tree, to: Tree, p: string) {
    (p in from) != (p in to) || (p in from && p in to && from[p] != to[p])
  }

  /** What `git diff --name-only` lists. */
  function ChangedPaths(from: Tree, to: Tree): set<string> {
    set p | p in from.Keys + to.Keys && Differs(from, to, p)
  }

  lemma NothingChanged(from: Tree, to: Tree)
    ensures ChangedPaths(from, to) == {} <==> from == to
    ensures forall p :: p in ChangedPaths(from, to) <==> Differs(from, to, p)
  {
    if ChangedPaths(from, to) == {} {
      forall p ensures p in from <==> p in to { assert p !in ChangedPaths(from, to); }
      forall p | p in from ensures from[p] == to[p] { assert p !in ChangedPaths(from, to); }
      assert from.Keys == to.Keys;
    }
  }

  /** Fixed for one worktree: ignored paths, and paths that its sparse checkout hides. */
  datatype Layout = Layout(ignored: string -> bool, hidden: string -> bool)

  /** The index after `git add --all`: hidden entries stay; of the rest, what is in the worktree and tracked or
      not ignored. */
  function Staged(l: Layout, index: Tree, files: Tree): Tree {
    (map p | p in index && l.hidden(p) :: index[p])
    + (map p | p in files && !l.hidden(p) && (p in index || !l.ignored(p)) :: files[p])
  }

  /** The path has the same content in both trees, or is in neither. */
  predicate Unchanged(from: Tree, to: Tree, p: string) {
    if p in from then p in to && to[p] == from[p] else p !in to
  }

  /** Path by path: what a hidden path had in the index; of the others what the worktree has, unless the path is
      ignored and the index does not know it. */
  ghost predicate IsStaged(l: Layout, index: Tree, files: Tree, tree: Tree) {
    forall p ::
      if l.hidden(p) then Unchanged(index, tree, p)
      else if p !in index && l.ignored(p) then p !in tree
      else Unchanged(files, tree, p)
  }

  lemma StagedIff(l: Layout, index: Tree, files: Tree, tree: Tree)
    ensures IsStaged(l, index, files, tree) <==> tree == Staged(l, index, files)
  {
    var staged := Staged(l, index, files);
    if IsStaged(l, index, files, tree) {
      forall p ensures p in tree <==> p in staged { }
      forall p | p in tree ensures tree[p] == staged[p] { }
      assert tree.Keys == staged.Keys;
    }
  }

  datatype Verdict = Accepted | NotAChild | OutsidePatch(paths: set<string>) | SurfaceUntouched

  class Worktree {
    const layout: Layout
    var head: Snapshot
    var index: Tree
    var files: Tree
    var candidates: set<Snapshot>

    constructor (layout: Layout, base: Snapshot)
      ensures this.layout == layout && head == base && index == base.tree && candidates == {}
    {
      this.layout, head, index, candidates := layout, base, base.tree, {};
      files := map p | p in base.tree && !layout.hidden(p) :: base.tree[p];
    }

    /** The proposer's turn: commits, resets, staging, edits and deletions of any kind. */
    method Propose()
      modifies this`head, this`index, this`files
    {
      head, index, files := *, *, *;
    }

    /** `capture_candidate`: None when nothing is staged. */
    method Capture(base: Snapshot) returns (candidate: Option<Snapshot>)
      modifies this`head, this`index, this`candidates
      ensures candidate == None <==> Staged(layout, old(index), files) == base.tree
      ensures candidate.Some? ==>
        && candidate.value == ChildSnapshot(base, Staged(layout, old(index), files))
        && head == candidate.value && candidates == old(candidates) + {candidate.value}
      ensures candidate == None ==> head == base && candidates == old(candidates)
      ensures IsStaged(layout, old(index), files, if candidate == None then base.tree else candidate.value.tree)
    {
      StagedIff(layout, index, files, Staged(layout, index, files));
      head := base;
      index := Staged(layout, index, files);
      NothingChanged(base.tree, index);
      if ChangedPaths(base.tree, index) == {} { return None; }
      head := ChildSnapshot(head, index);
      candidates := candidates + {head};
      candidate := Some(head);
    }
  }

  /** `validate_candidate`. */
  method Validate(candidate: Snapshot, base: Snapshot, surface: string, patchPaths: set<string>) returns (v: Verdict)
    ensures v.Accepted? <==>
      && candidate.ChildSnapshot? && candidate.parent == base
      && ChangedPaths(base.tree, candidate.tree) <= patchPaths && Differs(base.tree, candidate.tree, surface)
    ensures v.NotAChild? <==> !(candidate.ChildSnapshot? && candidate.parent == base)
    ensures v.Accepted? ==>
      && !Unchanged(base.tree, candidate.tree, surface)
      && forall p :: p !in patchPaths ==> Unchanged(base.tree, candidate.tree, p)
    ensures v.OutsidePatch? ==>
      && v.paths != {}
      && forall p :: p in v.paths <==> p !in patchPaths && !Unchanged(base.tree, candidate.tree, p)
    ensures v.SurfaceUntouched? ==> Unchanged(base.tree, candidate.tree, surface)
  {
    assert forall p :: Differs(base.tree, candidate.tree, p) <==> !Unchanged(base.tree, candidate.tree, p);
    if !(candidate.ChildSnapshot? && candidate.parent == base) { return NotAChild; }
    var changed := ChangedPaths(base.tree, candidate.tree);
    NothingChanged(base.tree, candidate.tree);
    var disallowed := changed - patchPaths;
    assert disallowed == {} <==> forall p :: p in changed ==> p in patchPaths by {
      forall p | p in changed && disallowed == {} ensures p in patchPaths { assert p !in disallowed; }
    }
    if disallowed != {} { return OutsidePatch(disallowed); }
    v := if surface in changed then Accepted else SurfaceUntouched;
  }

  /** A whole turn, whatever the proposer does: a captured candidate is always a direct child of the baseline
      with a tree of its own, staged from what the proposer left in its index and its worktree; it is accepted
      exactly when that changes the surface and nothing outside the patch paths; untracked ignored files and hidden
      paths of the worktree are never part of it. */
  method ProposeAndCapture(w: Worktree, base: Snapshot, surface: string, patchPaths: set<string>)
    returns (candidate: Option<Snapshot>, v: Verdict, ghost staged: Tree, ghost left: Tree)
    modifies w
    ensures IsStaged(w.layout, left, w.files, staged)
    ensures candidate == None <==> staged == base.tree
    ensures candidate.Some? ==>
      && candidate.value == ChildSnapshot(base, staged) && candidate.value.tree != base.tree && w.head == candidate.value
      && !v.NotAChild?
      && (v.Accepted? <==>
            !Unchanged(base.tree, staged, surface) && forall p :: !Unchanged(base.tree, staged, p) ==> p in patchPaths)
  {
    w.Propose();
    left := w.index;
    StagedIff(w.layout, w.index, w.files, Staged(w.layout, w.index, w.files));
    staged := Staged(w.layout, w.index, w.files);
    candidate := w.Capture(base);
    v := SurfaceUntouched;
    if candidate.Some? {
      v := Validate(candidate.value, base, surface, patchPaths);
      NothingChanged(base.tree, staged);
    }
  }
}
