/** A local repository and the steps that merge, rebase, resume and abort take on it. */
module Repository {
  import opened Basics
  import opened Trees
  import opened History

  /** The files under .git/rebase-merge. */
  datatype RebaseFiles = RebaseFiles(origHead: nat, onto: nat, headName: string, end: nat, msgnum: Option<nat>)

  datatype Snapshot = Snapshot(store: Store, refs: map<string, nat>, head: string, index: Tree, work: Tree,
                               rebase: Option<RebaseFiles>)

  datatype Outcome =
    | Done | BranchNotFound | NotFastForward | NoCommonAncestor | MergeConflict | ApplyFailed | EmptyCommit
    | NoParent | NoRebaseInProgress | StateFileMissing | RefNotMoved | ResetFailed | IndexOutOfRange

  datatype MergeOptions = MergeOptions(ffOnly: bool, allowUnrelated: bool, noCommit: bool, squash: bool, message: string)

  /** What the disk does to one changed path: the file cannot be written (leaving some content behind) or removed,
      or the file changes but the index does not. */
  datatype Fault = WriteFails(left: Entry) | StageFails

  /** The faulty paths of one application of a change. */
  type IO = map<Path, Fault>

  /** The faults met at each replay step. */
  type Script = nat -> IO

  /** No faults at any step. */
  const FAULTLESS: Script := i => map[]

  /** Whether moving the branch ref, or the hard reset after it, fails. */
  datatype Setup = SetupWorks | RefFails | ResetFails

  /** Every ref, HEAD's among them, and the recorded rebase name stored commits. */
  type Repo = r: Snapshot | ValidRepo(r)
    witness Snapshot([Commit([], map[], "", "")], map["HEAD" := 0], "HEAD", map[], map[], None)

  predicate ValidRepo(r: Snapshot) {
    && r.head in r.refs
    && (forall n :: n in r.refs ==> r.refs[n] < |r.store|)
    && (r.rebase.Some? ==> r.rebase.value.origHead < |r.store| && r.rebase.value.onto < |r.store|)
  }

  function Tip(r: Repo): nat
  {
    r.refs[r.head]
  }

  function HeadTree(r: Repo): Tree
  {
    r.store[Tip(r)].tree
  }

  // ---------------------------------------------------------------- applying a change

  predicate ApplyFails(base: Tree, source: Tree, io: IO) {
    exists p :: p in Diff(base, source) && p in source && p in io
  }

  function StagedIndex(index: Tree, base: Tree, source: Tree, io: IO): Tree {
    OverlayKeeping(index, base, source, io.Keys)
  }

  function StagedWork(work: Tree, base: Tree, source: Tree, io: IO): Tree {
    OverlayKeeping(work, base, source, set p | p in io && io[p].WriteFails?)
  }

  /** A failed application leaves each path as it was or as the change wants it. */
  ghost predicate PartlyStaged(before: Tree, after: Tree, base: Tree, source: Tree) {
    forall p: Path :: At(after, p) == At(before, p) || (At(base, p) != At(source, p) && At(after, p) == At(source, p))
  }

  // ---------------------------------------------------------------- commits

  function Committed(r: Repo, parents: seq<nat>, message: string, author: string): (c: Repo)
    requires InStore(r.store, parents)
    ensures r.store <= c.store && HeadTree(c) == r.index
  {
    r.(store := r.store + [Commit(parents, r.index, message, author)], refs := r.refs[r.head := |r.store|])
  }

  // ---------------------------------------------------------------- merge

  datatype Verdict = UpToDate | FastForward(target: nat) | Refused(why: Outcome) | ThreeWay(base: Tree, other: nat)

  function BranchRef(branch: string): string {
    "refs/heads/" + branch
  }

  /** The tree both sides are compared with: the merge base's, or the empty tree for unrelated histories. */
  function ChosenBase(s: Store, a: nat, b: nat): Tree
    requires a < |s| && b < |s|
  {
    match MergeBase(s, a, b)
    case Some(m) => (CommonBelowIsNewest(s, a, b, a + 1); s[m].tree)
    case None => map[]
  }

  function MergeVerdict(r: Repo, branch: string, opts: MergeOptions): Verdict
  {
    if BranchRef(branch) !in r.refs then Refused(BranchNotFound)
    else
      var h, b := Tip(r), r.refs[BranchRef(branch)];
      if h == b then UpToDate
      else if IsAncestor(r.store, h, b) then FastForward(b)
      else if opts.ffOnly then Refused(NotFastForward)
      else if MergeBase(r.store, h, b).None? && !opts.allowUnrelated then Refused(NoCommonAncestor)
      else
        var base := ChosenBase(r.store, h, b);
        if Diff(base, r.store[h].tree) * Diff(base, r.store[b].tree) != {} then Refused(MergeConflict)
        else ThreeWay(base, b)
  }

  function MergeMessage(branch: string, opts: MergeOptions): string {
    if opts.message == "" then "Merge branch '" + branch + "'" else opts.message
  }

  /** One Merge call: `out` and `after` are what it reports and leaves behind. */
  ghost predicate MergeStep(r: Repo, branch: string, opts: MergeOptions, io: IO, me: string, out: Outcome, after: Repo)
  {
    match MergeVerdict(r, branch, opts)
    case UpToDate => out == Done && after == r
    case FastForward(b) => out == Done && after == r.(refs := r.refs[r.head := b])
    case Refused(why) => out == why && after == r
    case ThreeWay(base, b) =>
      var source := r.store[b].tree;
      if ApplyFails(base, source, io) then
        out == ApplyFailed && after == r.(index := after.index, work := after.work)
        && PartlyStaged(r.index, after.index, base, source)
      else
        var s := r.(index := StagedIndex(r.index, base, source, io), work := StagedWork(r.work, base, source, io));
        if opts.noCommit then out == Done && after == s
        else if s.index == HeadTree(s) then out == EmptyCommit && after == s
        else
          var parents := if opts.squash then [Tip(r)] else [Tip(r), b];
          out == Done && after == Committed(s, parents, MergeMessage(branch, opts), me)
  }

  // ---------------------------------------------------------------- rebase

  /** The commits a rebase replays, in replay order; None without a merge base. */
  function Plan(s: Store, head: nat, onto: nat): Option<seq<nat>>
    requires head < |s| && onto < |s|
  {
    match MergeBase(s, head, onto)
    case None => None
    case Some(base) => Some(Between(s, base, head))
  }

  function AtMessage(r: Repo, i: nat): Repo
    requires r.rebase.Some?
  {
    r.(rebase := Some(r.rebase.value.(msgnum := Some(i))))
  }

  function ParentTree(s: Store, c: nat): Tree
    requires c < |s| && s[c].parents != []
  {
    s[s[c].parents[0]].tree
  }

  function ReplayStaged(r: Repo, c: nat, io: IO): Repo
    requires c < |r.store| && r.store[c].parents != []
  {
    var base, source := ParentTree(r.store, c), r.store[c].tree;
    r.(index := StagedIndex(r.index, base, source, io), work := StagedWork(r.work, base, source, io))
  }

  /** Replaying `c` does not end in a new commit. */
  predicate ReplayStops(r: Repo, c: nat, io: IO)
    requires c < |r.store|
  {
    || r.store[c].parents == []
    || ApplyFails(ParentTree(r.store, c), r.store[c].tree, io)
    || ReplayStaged(r, c, io).index == HeadTree(r)
  }

  ghost predicate StoppedReplay(r: Repo, c: nat, io: IO, out: Outcome, after: Repo)
    requires c < |r.store| && ReplayStops(r, c, io)
  {
    if r.store[c].parents == [] then out == NoParent && after == r
    else if ApplyFails(ParentTree(r.store, c), r.store[c].tree, io) then
      out == MergeConflict && after == r.(index := after.index, work := after.work)
      && PartlyStaged(r.index, after.index, ParentTree(r.store, c), r.store[c].tree)
    else out == EmptyCommit && after == ReplayStaged(r, c, io)
  }

  function Replayed(r: Repo, c: nat, io: IO): (after: Repo)
    requires c < |r.store| && !ReplayStops(r, c, io)
  {
    Committed(ReplayStaged(r, c, io), [Tip(r)], r.store[c].message, r.store[c].author)
  }

  /** The replay loop from position `i` up to position `end` or the first step that stops. A position past the list is
      an index out of range. */
  ghost predicate Replays(r: Repo, plan: seq<nat>, end: nat, i: nat, ios: Script, out: Outcome, after: Repo)
    decreases end - i
  {
    InStore(r.store, plan) && r.rebase.Some? &&
    if i >= end then out == Done && after == r.(rebase := None)
    else
      var m := AtMessage(r, i);
      if i >= |plan| then out == IndexOutOfRange && after == m
      else if ReplayStops(m, plan[i], ios(i)) then StoppedReplay(m, plan[i], ios(i), out, after)
      else Replays(Replayed(m, plan[i], ios(i)), plan, end, i + 1, ios, out, after)
  }

  /** The state files written before the replay starts; an old `msgnum` is not cleared. */
  function RebaseRecorded(r: Repo, onto: nat, planned: nat): Repo
    requires onto < |r.store|
  {
    var stale := if r.rebase.Some? then r.rebase.value.msgnum else None;
    r.(rebase := Some(RebaseFiles(Tip(r), onto, r.head, planned, stale)))
  }

  function ResetTo(r: Repo, c: nat): Repo
    requires c < |r.store|
  {
    r.(refs := r.refs[r.head := c], index := r.store[c].tree, work := r.store[c].tree)
  }

  /** One Rebase call; `onto` is None when the revision resolves to nothing. */
  ghost predicate RebaseStep(r: Repo, onto: Option<nat>, setup: Setup, ios: Script, out: Outcome, after: Repo)
    requires (onto.Some? ==> onto.value < |r.store|)
  {
    if onto.None? then out == BranchNotFound && after == r
    else if Tip(r) == onto.value then out == Done && after == r
    else
      match Plan(r.store, Tip(r), onto.value)
      case None => out == NoCommonAncestor && after == r
      case Some(plan) =>
        BetweenInStore(r.store, MergeBase(r.store, Tip(r), onto.value).value, Tip(r));
        if plan == [] then out == Done && after == r
        else
          var s := RebaseRecorded(r, onto.value, |plan|);
          match setup
          case RefFails => out == RefNotMoved && after == s
          case ResetFails =>
            out == ResetFailed && after == s.(refs := s.refs[s.head := onto.value], index := after.index, work := after.work)
          case SetupWorks => Replays(ResetTo(s, onto.value), plan, |plan|, 0, ios, out, after)
  }

  predicate Dirty(r: Repo)
  {
    !(r.index == r.work && r.index == HeadTree(r))
  }

  /** One RebaseContinue call. */
  ghost predicate ContinueStep(r: Repo, ios: Script, out: Outcome, after: Repo) {
    if r.rebase.None? then out == NoRebaseInProgress && after == r
    else if r.rebase.value.msgnum.None? then out == StateFileMissing && after == r
    else
      var f := r.rebase.value;
      match Plan(r.store, f.origHead, f.onto)
      case None => out == NoCommonAncestor && after == r
      case Some(commits) =>
        BetweenInStore(r.store, MergeBase(r.store, f.origHead, f.onto).value, f.origHead);
        var k := f.msgnum.value;
        if Dirty(r) && k < |commits| then
          if r.index == HeadTree(r) then out == EmptyCommit && after == r
          else
            var c := r.store[commits[k]];
            Replays(Committed(r, [Tip(r)], c.message, c.author), commits, f.end, k + 1, ios, out, after)
        else
          Replays(r, commits, f.end, k + 1, ios, out, after)
  }

  /** One RebaseAbort call. */
  ghost predicate AbortStep(r: Repo, setup: Setup, out: Outcome, after: Repo)
  {
    if r.rebase.None? then out == NoRebaseInProgress && after == r
    else
      var f := r.rebase.value;
      match setup
      case RefFails => out == RefNotMoved && after == r
      case ResetFails =>
        out == ResetFailed
        && after == r.(refs := r.refs[f.headName := f.origHead][r.head := f.origHead], index := after.index, work := after.work)
      case SetupWorks =>
        out == Done && after == ResetTo(r.(refs := r.refs[f.headName := f.origHead], rebase := None), f.origHead)
  }
}
