/** The script `sync` runs on the VM to install an archive
    (`_build_sync_extract_script`, src/colab_cli/commands/sync.py). */
module SyncInstall {
  import opened Options
  import opened SyncPaths
  import opened SyncLinks

  /** The stage directory's payload entry while the script runs. */
  datatype Payload = Absent | Partial | Whole(tree: Tree)

  /** How the script ended: it reported success, raised, or was killed. */
  datatype End = Reported(warnings: nat) | Raised | Killed

  datatype Cleanup = CloseStage | RemoveStage | UnlinkArchive | CloseParent | CloseRoot

  /** Which of its resources the script had acquired. */
  datatype Held = Held(root: bool, parent: bool, stage: bool)

  /** The items of the finally clause that have something to act on. */
  function DueItems(held: Held): seq<Cleanup> {
    (if held.stage then [CloseStage] else [])
    + (if held.parent then [RemoveStage] else [])
    + (if held.root then [UnlinkArchive] else [])
    + (if held.parent then [CloseParent] else [])
    + (if held.root then [CloseRoot] else [])
  }

  /** A step that may raise, or find the process killed. */
  datatype Step = Fine | Raises | Dies {
    predicate IsFailure() {
      !Fine?
    }
  }

  method Try() returns (s: Step)
  {
    s := *;
  }

  class InstallScript {
    /** The tree the archive holds, where its root is staged, and what the VM's
        names refer to. */
    const archived: Tree
    const stagedAt: Path
    var destination: Option<Tree>
    var payload: Payload
    var held: Held
    var committed: bool
    ghost const before: Option<Tree>
    ghost var attempted: seq<Cleanup>

    constructor (archived: Tree, stagedAt: Path, destination: Option<Tree>, leftover: Payload)
      ensures this.archived == archived && this.stagedAt == stagedAt
      ensures this.destination == destination && before == destination
      ensures held == Held(false, false, false) && !committed && attempted == [] && payload == leftover
    {
      this.archived, this.stagedAt, this.destination, payload := archived, stagedAt, destination, leftover;
      held, committed := Held(false, false, false), false;
      before, attempted := destination, [];
    }

    /** The destination name refers to the complete old tree, or to the
        complete new one with its links checked where it was staged. */
    ghost predicate Intact()
      reads this
    {
      destination == before || (destination == Some(archived) && LinksInside(archived, stagedAt))
    }

    /** The steps of the try, up to the exchange. */
    method Stage() returns (s: Step)
      requires destination == before && !committed && held == Held(false, false, false)
      modifies this`payload, this`held
      ensures s.Fine? ==> payload == Whole(archived) && LinksInside(archived, stagedAt)
      ensures held.stage ==> held.parent && held.root
      ensures held.parent ==> held.root
    {
      // The destination and the archive name are below /content.
      s := Try();
      if s.IsFailure() {
        return;
      }
      held := held.(root := true);
      s := Try();
      if s.IsFailure() {
        return;
      }
      held := held.(parent := true);
      // A stage left by an earlier run of the same operation goes first.
      s := Try();
      if s.IsFailure() {
        return;
      }
      payload := Absent;
      s := Try();
      if s.IsFailure() {
        return;
      }
      held := held.(stage := true);
      s := Try();
      if s.IsFailure() {
        return;
      }
      payload := Partial;
      s := Try();
      if s.IsFailure() {
        return;
      }
      payload := Whole(archived);
      var accepted := ValidateLinks(archived, stagedAt);
      if !accepted {
        return Raises;
      }
      s := Try();
    }

    /** Exchange with what is there, or rename where nothing is; either is
        one step for whoever reads the name. */
    method Commit() returns (s: Step)
      requires destination == before && !committed && payload == Whole(archived)
      modifies this`destination, this`payload, this`committed
      ensures committed <==> s.Fine?
      ensures committed ==> destination == Some(archived)
      ensures destination == before || destination == Some(archived)
      ensures destination != before && before.Some? ==> payload == Whole(before.value)
    {
      s := Try();
      if s.IsFailure() {
        return;
      }
      if destination.Some? {
        payload, destination := Whole(destination.value), Some(archived);
      } else {
        payload, destination := Absent, Some(archived);
      }
      s := Try();
      if s.IsFailure() {
        return;
      }
      committed := true;
      return Fine;
    }

    /** The finally clause: every item with something to act on is attempted,
        in order, whatever the ones before it did. After the commit an
        ordinary error only warns; `interrupted` is an error that is not. */
    method CleanUp(failed: bool) returns (killed: bool, failed': bool, warnings: nat)
      requires attempted == []
      modifies this`payload, this`attempted
      ensures attempted <= DueItems(held)
      ensures !killed ==> attempted == DueItems(held)
      ensures failed ==> failed'
      ensures !killed && !failed' && !committed ==> warnings == 0
    {
      killed, failed', warnings := false, failed, 0;
      var items := DueItems(held);
      for i := 0 to |items|
        invariant attempted == items[..i] && (failed ==> failed') && (!committed ==> warnings == 0)
      {
        var raised, interrupted, dies: bool := *, *, *;
        if dies {
          killed := true;
          return;
        }
        attempted := attempted + [items[i]];
        if items[i].RemoveStage? {
          payload := if raised then (if payload.Absent? then Absent else Partial) else Absent;
        }
        if raised {
          if committed && !interrupted {
            warnings := warnings + 1;
          } else {
            failed' := true;
          }
        }
      }
    }

    /** The whole script. In every end, failures and a kill included, the
        destination is the whole old tree or the whole checked new one; it
        reports success only with the new one in place; every cleanup item
        is attempted unless the script is killed. A new tree whose links never
        leave it has them inside wherever it is read from. */
    method Run() returns (end: End)
      requires destination == before && !committed && held == Held(false, false, false) && attempted == []
      modifies this
      ensures Intact()
      ensures end.Reported? ==> destination == Some(archived) && LinksInside(archived, stagedAt) && committed
      ensures !committed && !end.Killed? ==> end.Raised?
      ensures !end.Killed? ==> attempted == DueItems(held)
      ensures !LinksInside(archived, stagedAt) ==> destination == before
      ensures NeverLeaves(archived) ==>
                destination == before || forall root: Path :: LinksInside(destination.value, root)
    {
      InsideEverywhereIff(archived);
      var s := Stage();
      if s.Fine? {
        s := Commit();
      }
      if s.Dies? {
        return Killed;
      }
      var killed, failed, warnings := CleanUp(s.Raises?);
      if killed {
        return Killed;
      }
      end := if failed then Raised else Reported(warnings);
    }
  }
}
