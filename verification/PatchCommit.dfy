/** Applying a whole patch to the workspace, or leaving it unchanged (agent/tools/apply_patch.py,
    apply_patch, over the snapshot operations of agent/tools/filesystem.py). */
module PatchCommit {
  import opened Common
  import opened TextLines
  import opened PatchHunks
  import opened PatchText

  type Path = string
  /** An effective file: patch paths that go through links may share one. */
  type Target(==,!new) = string

  datatype Operation =
    | AddFile(path: Path, body: seq<string>)
    | UpdateFile(path: Path, hunks: seq<Hunk>)
    | DeleteFile(path: Path)

  datatype PatchError = TargetExists | NotFound | HunkMismatch | CommitFailed
  datatype Outcome<T> = Done(value: T) | Failed(error: PatchError)

  /** An operation with its target, the file before the patch, and the content it wants (None deletes). */
  datatype Prepared = Prepared(target: Target, before: Option<string>, final: Option<string>)

  type Files = map<Target, string>

  function Lookup(files: Files, target: Target): Option<string> {
    if target in files then Some(files[target]) else None
  }

  function Store(files: Files, target: Target, content: Option<string>): Files {
    match content
    case Some(text) => files[target := text]
    case None => files - {target}
  }

  /** What preparing an operation against the files must produce. */
  ghost predicate PreparesTo(op: Operation, resolve: Path -> Target, files: Files, p: Prepared) {
    && p.target == resolve(op.path)
    && p.before == Lookup(files, p.target)
    && match op
       case AddFile(_, body) => p.before.None? && p.final == Some(Text(body, true))
       case DeleteFile(_) => p.before.Some? && p.final.None?
       case UpdateFile(_, hunks) =>
         && p.before.Some?
         && exists lines :: && AppliesTo(SplitLines(p.before.value), 0, hunks, lines)
                            && p.final == Some(Text(lines, EndsInNewline(p.before.value)))
  }

  ghost predicate Unpreparable(op: Operation, resolve: Path -> Target, files: Files) {
    forall p :: !PreparesTo(op, resolve, files, p)
  }

  /** The operation cannot be prepared, and this is why. */
  ghost predicate FailsWith(op: Operation, resolve: Path -> Target, files: Files, error: PatchError) {
    && Unpreparable(op, resolve, files)
    && match op
       case AddFile(_, _) => error == TargetExists && resolve(op.path) in files
       case DeleteFile(_) => error == NotFound && resolve(op.path) !in files
       case UpdateFile(_, _) => error == if resolve(op.path) in files then HunkMismatch else NotFound
  }

  /** The first operation that cannot be prepared decides. */
  ghost predicate FirstFails(ops: seq<Operation>, resolve: Path -> Target, files: Files, error: PatchError) {
    exists i :: 0 <= i < |ops| && FailsWith(ops[i], resolve, files, error)
      && forall j :: 0 <= j < i ==> !Unpreparable(ops[j], resolve, files)
  }

  ghost predicate AllPrepared(ops: seq<Operation>, resolve: Path -> Target, files: Files, prepared: seq<Prepared>) {
    |prepared| == |ops| && forall i :: 0 <= i < |ops| ==> PreparesTo(ops[i], resolve, files, prepared[i])
  }

  /** A removal needs the file to be there; any other step fails only when the system refuses it. */
  predicate StepPossible(files: Files, p: Prepared, refused: bool) {
    !refused && (p.final.None? ==> p.target in files)
  }

  /** The files after every step in order. */
  function Run(files: Files, prepared: seq<Prepared>): Files {
    if prepared == [] then files
    else
      var last := prepared[|prepared| - 1];
      Store(Run(files, prepared[..|prepared| - 1]), last.target, last.final)
  }

  /** No step of the commit fails; `refused` tells which steps the system refuses. */
  predicate CommitPossible(files: Files, prepared: seq<Prepared>, refused: seq<bool>)
    requires |refused| == |prepared|
  {
    forall i :: 0 <= i < |prepared| ==> PossibleAt(files, prepared, refused, i)
  }

  /** The i-th step can be carried out after the ones before it. */
  predicate PossibleAt(files: Files, prepared: seq<Prepared>, refused: seq<bool>, i: nat)
    requires |refused| == |prepared| && i < |prepared|
  {
    StepPossible(Run(files, prepared[..i]), prepared[i], refused[i])
  }

  class Workspace {
    const resolve: Path -> Target
    var files: Files

    constructor (resolve: Path -> Target, files: Files)
      ensures this.resolve == resolve && this.files == files
    {
      this.resolve, this.files := resolve, files;
    }

    /** Snapshots and final contents of all operations, before anything is written. */
    method Prepare(ops: seq<Operation>) returns (r: Outcome<seq<Prepared>>)
      ensures r.Done? ==> AllPrepared(ops, resolve, files, r.value)
      ensures r.Failed? ==> FirstFails(ops, resolve, files, r.error)
    {
      var prepared: seq<Prepared> := [];
      while |prepared| < |ops|
        invariant |prepared| <= |ops|
        invariant forall i :: 0 <= i < |prepared| ==> PreparesTo(ops[i], resolve, files, prepared[i])
      {
        var one := PrepareOne(ops[|prepared|]);
        if one.Failed? {
          return Failed(one.error);
        }
        prepared := prepared + [one.value];
      }
      return Done(prepared);
    }

    method PrepareOne(op: Operation) returns (r: Outcome<Prepared>)
      ensures r.Done? ==> PreparesTo(op, resolve, files, r.value)
      ensures r.Failed? ==> FailsWith(op, resolve, files, r.error)
    {
      var target := resolve(op.path);
      var before := Lookup(files, target);
      match op {
        case AddFile(_, body) =>
          r := if before.Some? then Failed(TargetExists) else Done(Prepared(target, before, Some(Text(body, true))));
        case UpdateFile(_, hunks) =>
          if before.None? {
            return Failed(NotFound);
          }
          var final := UpdateText(before.value, hunks);
          r := if final.None? then Failed(HunkMismatch) else Done(Prepared(target, before, final));
        case DeleteFile(_) =>
          r := if before.None? then Failed(NotFound) else Done(Prepared(target, before, None));
      }
    }

    method RestoreSnapshot(target: Target, before: Option<string>)
      modifies this`files
      ensures files == Store(old(files), target, before)
    {
      match before {
        case None => files := files - {target};
        case Some(content) => files := files[target := content];
      }
    }

    /** Writes and removes in order; at the first failure everything committed so far is restored. */
    method Commit(prepared: seq<Prepared>, refused: seq<bool>) returns (ok: bool)
      requires |refused| == |prepared|
      requires forall i :: 0 <= i < |prepared| ==> prepared[i].before == Lookup(files, prepared[i].target)
      modifies this`files
      ensures ok == CommitPossible(old(files), prepared, refused)
      ensures files == if ok then Run(old(files), prepared) else old(files)
    {
      ghost var original := files;
      var committed := 0;
      while committed < |prepared|
        invariant 0 <= committed <= |prepared|
        invariant files == Run(original, prepared[..committed])
        invariant forall i :: 0 <= i < committed ==> PossibleAt(original, prepared, refused, i)
      {
        RunNext(original, prepared, committed);
        var done := WriteOrRemove(prepared[committed], refused[committed]);
        if !done {
          assert !PossibleAt(original, prepared, refused, committed);
          Rollback(prepared[..committed], original);
          return false;
        }
        committed := committed + 1;
      }
      assert prepared[..committed] == prepared;
      return true;
    }

    /** One step of the commit; a step that fails leaves its target alone. */
    method WriteOrRemove(step: Prepared, refused: bool) returns (done: bool)
      modifies this`files
      ensures done == StepPossible(old(files), step, refused)
      ensures files == if done then Store(old(files), step.target, step.final) else old(files)
    {
      done := !refused && (step.final.None? ==> step.target in files);
      if !done {
        return;
      }
      match step.final {
        case None => files := files - {step.target};
        case Some(text) => files := files[step.target := text];
      }
    }

    /** Restores the committed targets, last first. */
    method Rollback(committed: seq<Prepared>, ghost original: Files)
      requires files == Run(original, committed)
      requires forall i :: 0 <= i < |committed| ==> committed[i].before == Lookup(original, committed[i].target)
      modifies this`files
      ensures files == original
    {
      RunTouchesOnlyTargets(original, committed);
      var left := |committed|;
      while left > 0
        invariant 0 <= left <= |committed|
        invariant forall t :: Lookup(files, t) != Lookup(original, t) ==> exists i :: 0 <= i < left && committed[i].target == t
      {
        left := left - 1;
        ghost var before := files;
        RestoreSnapshot(committed[left].target, committed[left].before);
        forall t | Lookup(files, t) != Lookup(original, t)
          ensures exists i :: 0 <= i < left && committed[i].target == t
        {
          assert t != committed[left].target;
          assert Lookup(files, t) == Lookup(before, t);
        }
      }
      SameLookupsSameFiles(files, original);
    }

    /** The patch is applied completely or the workspace is unchanged. */
    method ApplyPatch(ops: seq<Operation>, refused: seq<bool>) returns (r: Outcome<seq<Prepared>>)
      requires |refused| == |ops|
      modifies this`files
      ensures r.Failed? ==> files == old(files)
      ensures r.Done? ==> AllPrepared(ops, resolve, old(files), r.value) && files == Run(old(files), r.value)
      ensures r.Done? <==> exists prepared ::
        AllPrepared(ops, resolve, old(files), prepared) && CommitPossible(old(files), prepared, refused)
      ensures r.Failed? && r.error != CommitFailed ==> FirstFails(ops, resolve, old(files), r.error)
      ensures r == Failed(CommitFailed) ==> exists prepared ::
        AllPrepared(ops, resolve, old(files), prepared) && !CommitPossible(old(files), prepared, refused)
    {
      r := Prepare(ops);
      if r.Done? {
        PreparationIsUnique(ops, r.value);
        var ok := Commit(r.value, refused);
        if !ok {
          r := Failed(CommitFailed);
        }
      } else {
        forall prepared ensures !AllPrepared(ops, resolve, files, prepared) {
          var i :| 0 <= i < |ops| && FailsWith(ops[i], resolve, files, r.error);
          if |prepared| == |ops| {
            assert !PreparesTo(ops[i], resolve, files, prepared[i]);
          }
        }
      }
    }

    lemma PreparationIsUnique(ops: seq<Operation>, prepared: seq<Prepared>)
      requires AllPrepared(ops, resolve, files, prepared)
      ensures forall other :: AllPrepared(ops, resolve, files, other) ==> other == prepared
    {
      forall other | AllPrepared(ops, resolve, files, other) ensures other == prepared {
        forall i | 0 <= i < |ops| ensures other[i] == prepared[i] {
          PreparedIsUnique(ops[i], other[i], prepared[i]);
        }
      }
    }

    lemma PreparedIsUnique(op: Operation, a: Prepared, b: Prepared)
      requires PreparesTo(op, resolve, files, a) && PreparesTo(op, resolve, files, b)
      ensures a == b
    {
      if op.UpdateFile? {
        var lines := SplitLines(a.before.value);
        var x :| AppliesTo(lines, 0, op.hunks, x) && a.final == Some(Text(x, EndsInNewline(a.before.value)));
        var y :| AppliesTo(lines, 0, op.hunks, y) && b.final == Some(Text(y, EndsInNewline(a.before.value)));
        ResultIsUnique(lines, 0, op.hunks, x, y);
      }
    }
  }

  lemma RunNext(files: Files, prepared: seq<Prepared>, n: nat)
    requires n < |prepared|
    ensures Run(files, prepared[..n + 1]) == Store(Run(files, prepared[..n]), prepared[n].target, prepared[n].final)
  {
    assert prepared[..n + 1][..n] == prepared[..n];
  }

  lemma SameLookupsSameFiles(a: Files, b: Files)
    requires forall t :: Lookup(a, t) == Lookup(b, t)
    ensures a == b
  {
    forall t ensures t in a <==> t in b {
      assert Lookup(a, t) == Lookup(b, t);
    }
    forall t | t in a ensures a[t] == b[t] {
      assert Lookup(a, t) == Lookup(b, t);
    }
  }

  lemma {:induction false} RunTouchesOnlyTargets(files: Files, prepared: seq<Prepared>)
    ensures forall t :: Lookup(Run(files, prepared), t) != Lookup(files, t) ==>
      exists i :: 0 <= i < |prepared| && prepared[i].target == t
  {
    if prepared != [] {
      var n := |prepared| - 1;
      RunTouchesOnlyTargets(files, prepared[..n]);
      forall t | Lookup(Run(files, prepared), t) != Lookup(files, t)
        ensures exists i :: 0 <= i < |prepared| && prepared[i].target == t
      {
        if prepared[n].target != t {
          assert Lookup(Run(files, prepared[..n]), t) != Lookup(files, t);
          var i :| 0 <= i < n && prepared[..n][i].target == t;
          assert prepared[i].target == t;
        }
      }
    }
  }

  /** With distinct targets a committed patch leaves exactly the prepared contents. */
  lemma {:induction false} DistinctTargetsGetTheirContents(files: Files, prepared: seq<Prepared>)
    requires forall i, j :: 0 <= i < j < |prepared| ==> prepared[i].target != prepared[j].target
    ensures forall i :: 0 <= i < |prepared| ==> Lookup(Run(files, prepared), prepared[i].target) == prepared[i].final
    ensures forall t :: (forall i :: 0 <= i < |prepared| ==> prepared[i].target != t) ==>
      Lookup(Run(files, prepared), t) == Lookup(files, t)
  {
    if prepared != [] {
      var n := |prepared| - 1;
      DistinctTargetsGetTheirContents(files, prepared[..n]);
      forall i | 0 <= i < |prepared| ensures Lookup(Run(files, prepared), prepared[i].target) == prepared[i].final {
        if i < n {
          assert prepared[..n][i] == prepared[i];
        }
      }
    }
    RunTouchesOnlyTargets(files, prepared);
  }

  /** Distinct targets never make a step fail by themselves: only a refusal can. */
  lemma DistinctTargetsFailOnlyByRefusal(ops: seq<Operation>, resolve: Path -> Target, files: Files,
                                         prepared: seq<Prepared>, refused: seq<bool>)
    requires AllPrepared(ops, resolve, files, prepared) && |refused| == |prepared|
    requires forall i, j :: 0 <= i < j < |prepared| ==> prepared[i].target != prepared[j].target
    ensures CommitPossible(files, prepared, refused) <==> forall i :: 0 <= i < |refused| ==> !refused[i]
  {
    forall i | 0 <= i < |prepared|
      ensures PossibleAt(files, prepared, refused, i) <==> !refused[i]
    {
      DistinctTargetsGetTheirContents(files, prepared[..i]);
      assert PreparesTo(ops[i], resolve, files, prepared[i]);
      assert Lookup(Run(files, prepared[..i]), prepared[i].target) == Lookup(files, prepared[i].target);
    }
  }
}
