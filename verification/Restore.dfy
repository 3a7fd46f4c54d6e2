/** No-overwrite restore of a database copy. Any one system call may fail, and so
    may the second close that the clean-up makes after a failed first one. The
    unlinks of the clean-up are taken to succeed. */
module Restore {
  import opened Text

  datatype Outcome<+T> = Done(value: T) | Raised

  /** The system calls of one restore that can fail. */
  datatype Operation =
    | CreateTemporary | CloseTemporary | CopyDatabase | SyncTemporary
    | LinkDestination | UnlinkTemporary | SyncDirectory

  /** What the outside does during a restore: the call that fails, if any; whether
      closing a second time fails as well; what a failed copy leaves behind; a
      file that another process puts at the destination just before the link. */
  datatype World = World(failing: Option<Operation>, closesTwice: bool, partial: string, intruder: Option<string>)

  /** `verify_backup`: the schema revision of a sound database. */
  type Revisions = string -> Option<string>

  /** The destination path and the temporary beside it. */
  class Site {
    var destination: Option<string>
    var temporary: Option<string>

    constructor ()
      ensures destination.None? && temporary.None?
    {
      destination, temporary := None, None;
    }

    /** Both paths are free and their directory exists. */
    ghost predicate Clear(parentExists: bool)
      reads this
    {
      destination.None? && temporary.None? && parentExists
    }

    /** The verified temporary is there to be linked. */
    ghost predicate ReachesLink(source: string, parentExists: bool, revisionOf: Revisions, w: World)
      reads this
    {
      && Clear(parentExists) && revisionOf(source).Some?
      && w.failing !in {Some(CreateTemporary), Some(CloseTemporary), Some(CopyDatabase), Some(SyncTemporary)}
    }

    /** Everything had to go right. */
    ghost predicate Succeeds(source: string, parentExists: bool, revisionOf: Revisions, w: World)
      reads this
    {
      ReachesLink(source, parentExists, revisionOf, w) && w.failing.None? && w.intruder.None?
    }

    /** The first close failed and the second raises out of the clean-up. */
    ghost predicate Strands(parentExists: bool, w: World)
      reads this
    {
      Clear(parentExists) && w.failing == Some(CloseTemporary) && !w.closesTwice
    }

    /** All or nothing at the destination: a verified copy of the source, or what
        was found or put there by others. The temporary is left behind exactly
        when closing it failed twice. */
    method RestoreWithoutOverwrite(source: string, parentExists: bool, revisionOf: Revisions, w: World)
      returns (r: Outcome<string>)
      modifies this
      ensures r.Done? <==> old(Succeeds(source, parentExists, revisionOf, w))
      ensures r.Done? ==> revisionOf(source) == Some(r.value)
      ensures temporary == if old(Strands(parentExists, w)) then Some("") else old(temporary)
      ensures destination ==
              if r.Done? then Some(source)
              else if w.intruder.Some? && old(ReachesLink(source, parentExists, revisionOf, w)) then w.intruder
              else old(destination)
    {
      r := Raised;
      if destination.Some? || !parentExists { return; }
      var open, createdTemporary, linkedDestination, published := false, false, false, false;
      var running := true;
      if temporary.Some? || w.failing == Some(CreateTemporary) {
        running := false;
      } else {
        temporary := Some("");
        open, createdTemporary := true, true;
      }
      if running {
        if w.failing == Some(CloseTemporary) { running := false; } else { open := false; }
      }
      if running {
        if w.failing == Some(CopyDatabase) {
          temporary := Some(w.partial);
          running := false;
        } else {
          temporary := Some(source);
        }
      }
      var revision := "";
      if running {
        var verified := revisionOf(temporary.value);
        if verified.None? { running := false; } else { revision := verified.value; }
      }
      if running && w.failing == Some(SyncTemporary) { running := false; }
      if running {
        destination := w.intruder;
        if destination.Some? || w.failing == Some(LinkDestination) {
          running := false;
        } else {
          destination := temporary;
          linkedDestination := true;
        }
      }
      if running {
        if w.failing == Some(UnlinkTemporary) { running := false; } else { temporary := None; }
      }
      if running && w.failing == Some(SyncDirectory) { running := false; }
      if running {
        NothingFailed(w.failing);
        published := true;
        r := Done(revision);
      }
      if open && !w.closesTwice { return; }
      if createdTemporary { temporary := None; }
      if linkedDestination && !published { destination := None; }
    }

    /** The backup is the one the heartbeat names, and what was copied from it
        restores with the revision recorded. */
    ghost predicate Restores(record: Heartbeat, backup: BackupReads, parentExists: bool, revisionOf: Revisions,
                             sha: string -> string, w: World)
      reads this
    {
      && Named(record, backup, revisionOf, sha) && Succeeds(backup.copied, parentExists, revisionOf, w)
      && revisionOf(backup.copied) == Some(record.revision)
    }

    /** Restore the backup a heartbeat names. A mismatch found afterwards takes the
        copy away again; a backup that can no longer be read does not: the call
        raises and the copy stays. */
    method RestoreFromHeartbeat(record: Heartbeat, backup: BackupReads, parentExists: bool, revisionOf: Revisions,
                                sha: string -> string, w: World)
      returns (r: Outcome<string>)
      modifies this
      ensures r.Done? <==>
                && old(Restores(record, backup, parentExists, revisionOf, sha, w))
                && backup.after.Some? && sha(backup.after.value) == record.sha256
      ensures r.Done? ==> r.value == record.revision
      ensures temporary ==
              if Named(record, backup, revisionOf, sha) && old(Strands(parentExists, w)) then Some("")
              else old(temporary)
      ensures destination ==
              if r.Done? || (backup.after.None? && old(Restores(record, backup, parentExists, revisionOf, sha, w)))
              then Some(backup.copied)
              else if Named(record, backup, revisionOf, sha) && w.intruder.Some? &&
                      old(ReachesLink(backup.copied, parentExists, revisionOf, w)) then w.intruder
              else old(destination)
    {
      if backup.before.None? || |backup.before.value| != record.size || sha(backup.before.value) != record.sha256 ||
         revisionOf(backup.before.value) != Some(record.revision) {
        return Raised;
      }
      r := RestoreWithoutOverwrite(backup.copied, parentExists, revisionOf, w);
      if r.Raised? { return; }
      if r.value != record.revision {
        destination := None;
        return Raised;
      }
      if backup.after.None? { return Raised; }
      if sha(backup.after.value) != record.sha256 {
        destination := None;
        return Raised;
      }
    }
  }

  /** A failing call is one of those tried. */
  lemma NothingFailed(failing: Option<Operation>)
    requires failing !in {Some(CreateTemporary), Some(CloseTemporary), Some(CopyDatabase), Some(SyncTemporary),
                          Some(LinkDestination), Some(UnlinkTemporary), Some(SyncDirectory)}
    ensures failing.None?
  {
    match failing
    case None =>
    case Some(o) =>
      match o
      case CreateTemporary =>
      case CloseTemporary =>
      case CopyDatabase =>
      case SyncTemporary =>
      case LinkDestination =>
      case UnlinkTemporary =>
      case SyncDirectory =>
  }

  datatype Heartbeat = Heartbeat(size: nat, sha256: string, revision: string)

  /** The backup as the checks before the restore, the copy and the digest after
      it find it; absent when it cannot be read. */
  datatype BackupReads = BackupReads(before: Option<string>, copied: string, after: Option<string>)

  /** The backup checked first has the recorded size, digest and revision. */
  predicate Named(record: Heartbeat, backup: BackupReads, revisionOf: Revisions, sha: string -> string) {
    && backup.before.Some? && |backup.before.value| == record.size && sha(backup.before.value) == record.sha256
    && revisionOf(backup.before.value) == Some(record.revision)
  }

  /** The input that leaves a temporary: both closes fail. Whatever the outside
      does afterwards, a later restore to the same destination raises. */
  method FailedCloseBlocksLaterRestores(source: string, revisionOf: Revisions, w: World)
    returns (site: Site, later: Outcome<string>)
    ensures later.Raised? && site.destination.None? && site.temporary == Some("")
  {
    site := new Site();
    var _ := site.RestoreWithoutOverwrite(source, true, revisionOf, World(Some(CloseTemporary), false, "", None));
    later := site.RestoreWithoutOverwrite(source, true, revisionOf, w);
  }

  /** The input that leaves a copy: the backup is pruned after it was copied. */
  method PrunedBackupLeavesCopy(content: string, revisionOf: Revisions, sha: string -> string)
    returns (site: Site, r: Outcome<string>)
    requires revisionOf(content).Some?
    ensures r.Raised? && site.destination == Some(content) && site.temporary.None?
  {
    site := new Site();
    var record := Heartbeat(|content|, sha(content), revisionOf(content).value);
    r := site.RestoreFromHeartbeat(record, BackupReads(Some(content), content, None), true, revisionOf, sha,
                                   World(None, true, "", None));
  }

  datatype Health = Health(backupSha: string, revision: string)

  /** How publishing the success record can end. */
  datatype Publication = Published | NotPublished | PublishedThenRaised

  class Drill {
    const site: Site
    var status: Option<Health>

    constructor (s: Site)
      ensures site == s && status.None?
    {
      site, status := s, None;
    }

    /** A drill never leaves a copy behind once it has started, not even when the
        backup disappears, and changes the health record only after a completed
        restore of the named backup. A file that already had the drill's random
        name would be removed with it: the destination is left as found exactly
        when the name was free. A temporary stays exactly when closing it failed
        twice. */
    method Run(record: Heartbeat, backup: BackupReads, directoriesExist: bool, revisionOf: Revisions,
               sha: string -> string, w: World, unlinkFails: bool, publication: Publication)
      returns (r: Outcome<string>)
      modifies this, site
      ensures directoriesExist ==> site.destination.None?
      ensures site.destination == old(site.destination) <==> !directoriesExist || old(site.destination).None?
      ensures site.temporary ==
              if directoriesExist && Named(record, backup, revisionOf, sha) && old(site.Strands(true, w)) then Some("")
              else old(site.temporary)
      ensures var restores := && directoriesExist && !unlinkFails
                              && old(site.Restores(record, backup, true, revisionOf, sha, w))
                              && backup.after.Some? && sha(backup.after.value) == record.sha256;
              && (r.Done? <==> restores && publication == Published) && (r.Done? ==> r.value == record.revision)
              && status == if restores && publication != NotPublished then Some(Health(record.sha256, record.revision))
                           else old(status)
    {
      if !directoriesExist { return Raised; }
      r := site.RestoreFromHeartbeat(record, backup, true, revisionOf, sha, w);
      if r.Done? {
        if unlinkFails {
          r := Raised;
        } else {
          site.destination := None;
          if publication != NotPublished { status := Some(Health(record.sha256, record.revision)); }
          if publication != Published { r := Raised; }
        }
      }
      site.destination := None;
    }
  }
}
