/** Publishing a diagnostic snapshot as a Git branch, over local and remote refs. */
module SnapshotRefs {
  import opened Common
  import opened Handoff

  /** What becomes of one Git command; a push may take effect and still report a failure. */
  datatype Fate = Works | Fails | AppliedButFails

  /** The local and remote branches of one worktree, and the fates of the commands to come. */
  class GitRepository {
    var local: map<string, string>
    var remote: map<string, string>
    var fates: seq<Fate>

    constructor (local: map<string, string>, remote: map<string, string>, fates: seq<Fate>)
      ensures this.local == local && this.remote == remote && this.fates == fates
    {
      this.local, this.remote, this.fates := local, remote, fates;
    }

    method NextFate() returns (fate: Fate)
      modifies this`fates
      ensures old(fates) == [] ==> fate == Fails && fates == []
      ensures old(fates) != [] ==> fate == old(fates)[0] && fates == old(fates)[1..]
    {
      if fates == [] {
        return Fails;
      }
      fate := fates[0];
      fates := fates[1..];
    }

    /** `git ls-remote --heads origin <ref>`; a failure is an error of the caller. */
    method RemoteHead(ref: string) returns (r: Result<Option<string>, ()>)
      modifies this`fates
      ensures if old(fates) != [] && old(fates)[0].Works?
              then r == Success(if ref in remote then Some(remote[ref]) else None)
              else r.Failure?
      ensures fates == if old(fates) == [] then [] else old(fates)[1..]
    {
      var fate := NextFate();
      r := if fate.Works? then Success(if ref in remote then Some(remote[ref]) else None) else Failure(());
    }

    /** `git rev-parse --verify <ref>^{commit}` through `optionalGit`: any failure reads as absent. */
    method OptionalLocalHead(ref: string) returns (r: Option<string>)
      modifies this`fates
      ensures r == if old(fates) != [] && old(fates)[0].Works? && ref in local then Some(local[ref]) else None
      ensures fates == if old(fates) == [] then [] else old(fates)[1..]
    {
      var fate := NextFate();
      r := if fate.Works? && ref in local then Some(local[ref]) else None;
    }

    /** `git branch <name> <revision>`: refuses a branch that exists. */
    method CreateBranch(ref: string, revision: string) returns (ok: bool)
      modifies this`fates, this`local
      ensures fates == if old(fates) == [] then [] else old(fates)[1..]
      ensures ok <==> old(fates) != [] && old(fates)[0].Works? && ref !in old(local)
      ensures local == old(local) || (ref !in old(local) && local == old(local)[ref := revision])
      ensures ok ==> local == old(local)[ref := revision]
    {
      var fate := NextFate();
      if fate.Fails? || ref in local {
        return false;
      }
      local := local[ref := revision];
      ok := fate.Works?;
    }

    /** `git push origin <ref>:<ref>` without force, while nobody else writes the remote branch. */
    method Push(ref: string) returns (ok: bool)
      modifies this`fates, this`remote
      ensures fates == if old(fates) == [] then [] else old(fates)[1..]
      ensures ok <==> old(fates) != [] && old(fates)[0].Works? && ref in local && (ref !in old(remote) || old(remote)[ref] == local[ref])
      ensures remote == old(remote) || (ref in local && ref !in old(remote) && remote == old(remote)[ref := local[ref]])
      ensures ok ==> ref in remote && remote[ref] == local[ref]
    {
      var fate := NextFate();
      if fate.Fails? || ref !in local || (ref in remote && remote[ref] != local[ref]) {
        return false;
      }
      remote := remote[ref := local[ref]];
      ok := fate.Works?;
    }
  }

  /** Refs before and after: nothing changes but that `ref` may newly appear at `head`. */
  predicate OnlyAdds(before: map<string, string>, after: map<string, string>, ref: string, head: string) {
    after == before || (ref !in before && after == before[ref := head])
  }

  predicate AtOrAbsent(refs: map<string, string>, ref: string, head: string) {
    ref in refs ==> refs[ref] == head
  }

  datatype FinalizeError = NotClean | NoIssueUrl | GitFailed | RemoteDiffers | LocalDiffers

  function RefOf(reference: Reference, slug: string): string {
    "refs/heads/" + BranchName(reference.issueNumber, slug)
  }

  /** The durable snapshot that finalization records. */
  function SnapshotOf(encode: string -> string, reference: Reference, slug: string, head: string): Snapshot {
    var branch := BranchName(reference.issueNumber, slug);
    Snapshot(branch, head, "refs/heads/" + branch, BranchUrl(encode, reference.issueUrl, reference.issueNumber, branch))
  }

  /**
   * `finalize` once the worktree was inspected at its recorded head. It never moves a ref, adds
   * at most the snapshot branch at that head, and succeeds only with both refs there. From refs
   * that are absent or already right it succeeds whenever the commands work.
   */
  method FinalizeSnapshot(git: GitRepository, clean: bool, encode: string -> string, reference: Reference, slug: string, head: string)
    returns (r: Result<Snapshot, FinalizeError>)
    modifies git
    ensures OnlyAdds(old(git.local), git.local, RefOf(reference, slug), head)
    ensures OnlyAdds(old(git.remote), git.remote, RefOf(reference, slug), head)
    ensures r.Success? ==>
              var ref := RefOf(reference, slug);
              && ref in git.local && git.local[ref] == head && ref in git.remote && git.remote[ref] == head
              && r.value == SnapshotOf(encode, reference, slug, head)
    ensures var ref := RefOf(reference, slug);
            |old(git.fates)| >= 5 && (forall i :: 0 <= i < 5 ==> old(git.fates)[i].Works?) ==>
              (r.Success? <==>
                 && clean && EndsWith(reference.issueUrl, IssueSuffix(reference.issueNumber))
                 && AtOrAbsent(old(git.local), ref, head) && AtOrAbsent(old(git.remote), ref, head))
    ensures r == Failure(NotClean) <==> !clean
    ensures r == Failure(NotClean) || r == Failure(RemoteDiffers) ==> git.local == old(git.local) && git.remote == old(git.remote)
    ensures var ref := RefOf(reference, slug);
            |old(git.fates)| >= 5 && (forall i :: 0 <= i < 5 ==> old(git.fates)[i].Works?) && clean ==>
              && (r == Failure(RemoteDiffers) <==> !AtOrAbsent(old(git.remote), ref, head))
              && (r == Failure(LocalDiffers) <==> AtOrAbsent(old(git.remote), ref, head) && !AtOrAbsent(old(git.local), ref, head))
              && r != Failure(GitFailed)
  {
    if !clean {
      return Failure(NotClean);
    }
    var ref := RefOf(reference, slug);
    var remoteHead := git.RemoteHead(ref);
    if remoteHead.Failure? {
      return Failure(GitFailed);
    }
    if remoteHead.value.Some? && remoteHead.value.value != head {
      return Failure(RemoteDiffers);
    }
    var existing := git.OptionalLocalHead(ref);
    if existing.Some? {
      if existing.value != head {
        return Failure(LocalDiffers);
      }
    } else {
      var created := git.CreateBranch(ref, head);
      if !created {
        return Failure(GitFailed);
      }
    }
    var pushed := git.Push(ref);
    if !pushed {
      return Failure(GitFailed);
    }
    var pushedHead := git.RemoteHead(ref);
    if pushedHead.Failure? || pushedHead.value != Some(head) {
      return Failure(GitFailed);
    }
    if !EndsWith(reference.issueUrl, IssueSuffix(reference.issueNumber)) {
      return Failure(NoIssueUrl);
    }
    r := Success(SnapshotOf(encode, reference, slug, head));
  }

  /** However a run ends, the refs it leaves let the next run finish at the same branch and head. */
  lemma InterruptedRunCanFinish(before: map<string, string>, after: map<string, string>, ref: string, head: string)
    requires AtOrAbsent(before, ref, head) && OnlyAdds(before, after, ref, head)
    ensures AtOrAbsent(after, ref, head)
  {
  }

  /** A crash after any command, then a rerun whose commands work: the snapshot is published as planned. */
  method FinalizeAgain(git: GitRepository, encode: string -> string, reference: Reference, slug: string, head: string, retried: seq<Fate>)
    returns (first: Result<Snapshot, FinalizeError>, second: Result<Snapshot, FinalizeError>)
    requires AtOrAbsent(git.local, RefOf(reference, slug), head) && AtOrAbsent(git.remote, RefOf(reference, slug), head)
    requires EndsWith(reference.issueUrl, IssueSuffix(reference.issueNumber))
    requires |retried| >= 5 && forall i :: 0 <= i < 5 ==> retried[i].Works?
    modifies git
    ensures second == Success(SnapshotOf(encode, reference, slug, head))
    ensures git.local == old(git.local)[RefOf(reference, slug) := head]
    ensures git.remote == old(git.remote)[RefOf(reference, slug) := head]
  {
    first := FinalizeSnapshot(git, true, encode, reference, slug, head);
    InterruptedRunCanFinish(old(git.local), git.local, RefOf(reference, slug), head);
    InterruptedRunCanFinish(old(git.remote), git.remote, RefOf(reference, slug), head);
    git.fates := retried;
    second := FinalizeSnapshot(git, true, encode, reference, slug, head);
  }

  // ---------------------------------------------------------------- agreement with the handoff

  /** The session that finalization records for a base revision as Git prints it. */
  function FinalizedSession(encode: string -> string, reference: Reference, target: string, slug: string, head: string): FinishedSession {
    FinishedSession(true, Lower(target), head, slug, Some(SnapshotOf(encode, reference, slug, head)))
  }

  /**
   * What finalization writes passes every snapshot check of the handoff exactly if the report
   * names its target in lower case, as Git does: the worktree compares revisions without case,
   * the handoff does not.
   */
  lemma FinalizedSnapshotPasses(encode: string -> string, r: ReadyReport, slug: string, head: string)
    requires r.ready && EndsWith(r.reference.issueUrl, IssueSuffix(r.reference.issueNumber))
    requires r.session == Some(FinalizedSession(encode, r.reference, r.targetRevision, slug, head))
    requires |r.completions| > 0 && forall c :: c in r.completions ==> c.head == head
    requires |SortedUnique(r.evidence + CompletionEvidence(r.completions))| > 0
    ensures SnapshotBelongs(encode, r.reference, slug, r.session.value.snapshot.value)
    ensures Problem(encode, r)
         == if ReferenceProblem(r.reference, r.targetRepository).Some? then ReferenceProblem(r.reference, r.targetRepository)
            else if r.targetRevision == Lower(r.targetRevision) then None else Some(OtherBase)
  {
    hide SortedUnique, BranchUrl, BranchName;
  }
}
