/**
 * The outbound operations that delete, create and replace placeholders.
 * Each is a decision tree over what the disk and the driver report; it
 * returns the Result, the UpdateFailureCause, the disk afterwards and the
 * list of filesystem and driver calls it made, or the exception it threw.
 */
module Placeholders {
  import opened Types

  /** What is on disk at a path relative to the virtualization root. */
  datatype Kind = Directory | RegularFile | SymLink | Special

  /** The driver's answer to a projection-state query. */
  datatype StateReply = StateReply(result: Result, state: ProjectionState)

  /** What File.Delete or Directory.Delete did: removed the entry or threw. */
  datatype Removal =
    | Removed
    | DirectoryNotFound        // DirectoryNotFoundException
    | FileNotFound             // FileNotFoundException
    | IOError(hresult: int)    // any other IOException, with its HResult
    | UnauthorizedAccess       // UnauthorizedAccessException
    | OtherFailure             // any other exception

  /** The octal mode 777 that placeholder directories are created with. */
  const DirectoryMode: nat := 511

  /**
   * The state and oracles the helpers consult: the disk, whether a session
   * is held (projfs is not null), and the replies of the driver and the
   * filesystem calls. `dirExists` answers Directory.Exists, which follows
   * symbolic links, so it is true for a link to a directory as well.
   */
  datatype Host = Host(
    disk: map<string, Kind>,
    session: bool,
    dirExists: string -> bool,
    native: Native,
    projState: string -> StateReply,
    remove: (string, bool) -> Removal,
    createFile: (string, nat, nat, seq<byte>, seq<byte>) -> Result,
    createDir: (string, nat) -> Result,
    createSymlink: (string, string) -> Result)

  /** A filesystem or driver call made by a helper. */
  datatype HostCall =
    | DirectoryExists(path: string)
    | GetProjState(path: string)
    | Delete(path: string, isDirectory: bool)
    | CreateProjFile(path: string, fileSize: nat, fileMode: nat, providerId: seq<byte>, contentId: seq<byte>)
    | CreateProjDir(path: string, fileMode: nat)
    | CreateProjSymlink(path: string, target: string)

  /** The Result and UpdateFailureCause a helper hands back when it returns. */
  datatype Answer = Answer(result: Result, cause: UpdateFailureCause)

  /** What a helper did: returned or threw, the disk afterwards, and the calls it made. */
  datatype Effect = Effect(outcome: Outcome<Answer>, disk: map<string, Kind>, calls: seq<HostCall>)

  /** Full content, or a failed query of unknown state, may hold data the provider does not track. */
  predicate Dirty(q: StateReply)
  {
    (q.result == Success && q.state == Full) || (q.result == Invalid && q.state == Unknown)
  }

  predicate Removes(calls: seq<HostCall>, path: string)
  {
    exists d :: Delete(path, d) in calls
  }

  predicate Creates(calls: seq<HostCall>)
  {
    exists i :: 0 <= i < |calls| && (calls[i].CreateProjFile? || calls[i].CreateProjDir? || calls[i].CreateProjSymlink?)
  }

  /** The exception-to-Result mapping of RemoveFileOrDirectory, first catch clause first. */
  function RemoveFileOrDirectory(removal: Removal, enotempty: int): (r: Result)
    ensures r == Success <==> removal == Removed
    ensures r == EPathNotFound <==> removal == DirectoryNotFound
    ensures r == EFileNotFound <==> removal == FileNotFound
    ensures r == EDirectoryNotEmpty <==> removal.IOError? && removal.hresult == enotempty
    ensures r == EIOError <==> removal.IOError? && removal.hresult != enotempty
    ensures r == EAccessDenied <==> removal == UnauthorizedAccess
    ensures r == Invalid <==> removal == OtherFailure
  {
    match removal
    case Removed => Success
    case DirectoryNotFound => EPathNotFound
    case FileNotFound => EFileNotFound
    case IOError(h) => if h == enotempty then EDirectoryNotEmpty else EIOError
    case UnauthorizedAccess => EAccessDenied
    case OtherFailure => Invalid
  }

  /** The last step of DeleteFile: not-found is success, access denied means read-only. */
  function Settle(result: Result): Answer
  {
    if result == EAccessDenied then Answer(EAccessDenied, ReadOnly)
    else if result == EFileNotFound || result == EPathNotFound then Answer(Success, NoFailure)
    else Answer(result, NoFailure)
  }

  /** Deletes the file or directory at `path`, refusing to destroy dirty data. */
  function DeleteFile(h: Host, path: string): (e: Effect)
    // the virtualization root itself is never deleted, and nothing is asked of anyone
    ensures path == "" ==> e == Effect(Returned(Answer(EDirectoryNotEmpty, NoFailure)), h.disk, [])
    // only a driver query without a session can throw, before anything changes
    ensures e.outcome.Threw? <==> path != "" && !h.dirExists(path) && !h.session
    ensures e.outcome.Threw? ==> e == Effect(Threw(NullReference), h.disk, [DirectoryExists(path)])
    // not found is success; read-only exactly when access was denied
    ensures e.outcome.Returned? ==>
      var a := e.outcome.value;
      a.result != EFileNotFound && a.result != EPathNotFound && (a.cause == ReadOnly <==> a.result == EAccessDenied)
    // exactly this path leaves the disk when it was removed, and otherwise the disk is unchanged; nothing is created
    ensures e.disk == if Removes(e.calls, path) && h.remove(path, h.dirExists(path)) == Removed
                      then h.disk - {path} else h.disk
    ensures !Creates(e.calls)
    // dirty data is refused and left in place
    ensures path != "" && !h.dirExists(path) && h.session && Dirty(h.projState(path)) ==>
      e == Effect(Returned(Answer(EVirtualizationInvalidOperation, DirtyData)), h.disk,
                  [DirectoryExists(path), GetProjState(path)])
    // removal is attempted exactly for directories and for clean files whose state query succeeded
    ensures Removes(e.calls, path) <==>
      path != "" && (h.dirExists(path) ||
                     (h.session && h.projState(path).result == Success && h.projState(path).state != Full))
    // a failed state query that is not dirty is passed on, after the not-found and access-denied rules
    ensures path != "" && !h.dirExists(path) && h.session && !Dirty(h.projState(path)) &&
            h.projState(path).result != Success ==>
      e == Effect(Returned(Settle(h.projState(path).result)), h.disk, [DirectoryExists(path), GetProjState(path)])
    // otherwise the removal's own outcome decides the answer
    ensures Removes(e.calls, path) ==>
      var removal := h.remove(path, h.dirExists(path));
      e.outcome == Returned(Answer(
        if removal == FileNotFound || removal == DirectoryNotFound then Success
        else RemoveFileOrDirectory(removal, h.native.enotempty),
        if removal == UnauthorizedAccess then ReadOnly else NoFailure))
  {
    if path == "" then Effect(Returned(Answer(EDirectoryNotEmpty, NoFailure)), h.disk, [])
    else
      var isDirectory := h.dirExists(path);
      if !isDirectory && !h.session then Effect(Threw(NullReference), h.disk, [DirectoryExists(path)])
      else
        var queried := if isDirectory then [DirectoryExists(path)] else [DirectoryExists(path), GetProjState(path)];
        if !isDirectory && Dirty(h.projState(path)) then
          Effect(Returned(Answer(EVirtualizationInvalidOperation, DirtyData)), h.disk, queried)
        else
          var result := if isDirectory then Success else h.projState(path).result;
          if result == Success then
            var removal := h.remove(path, isDirectory);
            var calls := queried + [Delete(path, isDirectory)];
            assert calls[|calls| - 1] == Delete(path, isDirectory);
            var disk := if removal == Removed then h.disk - {path} else h.disk;
            Effect(Returned(Settle(RemoveFileOrDirectory(removal, h.native.enotempty))), disk, calls)
          else
            Effect(Returned(Settle(result)), h.disk, queried)
  }

  /** Creates a placeholder file; both identifiers must be PlaceholderIdLength bytes long. */
  function WritePlaceholderFile(h: Host, path: string, providerId: seq<byte>, contentId: seq<byte>,
                                fileSize: nat, fileMode: nat): (e: Effect)
    // a wrong-sized identifier is rejected before any call
    ensures |providerId| != PlaceholderIdLength || |contentId| != PlaceholderIdLength ==>
      e == Effect(Threw(ArgumentException), h.disk, [])
    ensures |providerId| == PlaceholderIdLength && |contentId| == PlaceholderIdLength && !h.session ==>
      e == Effect(Threw(NullReference), h.disk, [])
    // otherwise the driver creates the placeholder and its Result is returned
    ensures |providerId| == PlaceholderIdLength && |contentId| == PlaceholderIdLength && h.session ==>
      var r := h.createFile(path, fileSize, fileMode, providerId, contentId);
      && e.outcome == Returned(Answer(r, NoFailure))
      && e.calls == [CreateProjFile(path, fileSize, fileMode, providerId, contentId)]
      && (r == Success ==> e.disk == h.disk[path := RegularFile])
      && (r != Success ==> e.disk == h.disk)
  {
    if |providerId| != PlaceholderIdLength || |contentId| != PlaceholderIdLength then
      Effect(Threw(ArgumentException), h.disk, [])
    else if !h.session then Effect(Threw(NullReference), h.disk, [])
    else
      var r := h.createFile(path, fileSize, fileMode, providerId, contentId);
      Effect(Returned(Answer(r, NoFailure)), if r == Success then h.disk[path := RegularFile] else h.disk,
             [CreateProjFile(path, fileSize, fileMode, providerId, contentId)])
  }

  /** Creates a placeholder directory with mode 777. */
  function WritePlaceholderDirectory(h: Host, path: string): (e: Effect)
    ensures !h.session ==> e == Effect(Threw(NullReference), h.disk, [])
    ensures h.session ==>
      && e.outcome == Returned(Answer(h.createDir(path, DirectoryMode), NoFailure))
      && e.calls == [CreateProjDir(path, DirectoryMode)]
      && (h.createDir(path, DirectoryMode) == Success ==> e.disk == h.disk[path := Directory])
      && (h.createDir(path, DirectoryMode) != Success ==> e.disk == h.disk)
  {
    if !h.session then Effect(Threw(NullReference), h.disk, [])
    else
      var r := h.createDir(path, DirectoryMode);
      Effect(Returned(Answer(r, NoFailure)), if r == Success then h.disk[path := Directory] else h.disk,
             [CreateProjDir(path, DirectoryMode)])
  }

  /** Creates a symbolic link tracked by the driver. */
  function WriteSymLink(h: Host, path: string, target: string): (e: Effect)
    ensures !h.session ==> e == Effect(Threw(NullReference), h.disk, [])
    ensures h.session ==>
      && e.outcome == Returned(Answer(h.createSymlink(path, target), NoFailure))
      && e.calls == [CreateProjSymlink(path, target)]
      && (h.createSymlink(path, target) == Success ==> e.disk == h.disk[path := SymLink])
      && (h.createSymlink(path, target) != Success ==> e.disk == h.disk)
  {
    if !h.session then Effect(Threw(NullReference), h.disk, [])
    else
      var r := h.createSymlink(path, target);
      Effect(Returned(Answer(r, NoFailure)), if r == Success then h.disk[path := SymLink] else h.disk,
             [CreateProjSymlink(path, target)])
  }

  /** True when DeleteFile returned Success. */
  predicate Deleted(d: Effect)
  {
    d.outcome.Returned? && d.outcome.value.result == Success
  }

  /** Replaces a placeholder by deleting it and writing a new one with the given identifiers. */
  function UpdatePlaceholderIfNeeded(h: Host, path: string, providerId: seq<byte>, contentId: seq<byte>,
                                     fileSize: nat, fileMode: nat): (e: Effect)
    // identifiers are checked before anything else happens
    ensures |providerId| != PlaceholderIdLength || |contentId| != PlaceholderIdLength ==>
      e == Effect(Threw(ArgumentException), h.disk, [])
    // a failed delete is handed back as it is, cause included, and nothing is written
    ensures |providerId| == PlaceholderIdLength && |contentId| == PlaceholderIdLength && !Deleted(DeleteFile(h, path)) ==>
      e == DeleteFile(h, path)
    // after a successful delete the cause is reset and the write primitive decides the result
    ensures |providerId| == PlaceholderIdLength && |contentId| == PlaceholderIdLength && Deleted(DeleteFile(h, path)) ==>
      var d := DeleteFile(h, path);
      var w := WritePlaceholderFile(h.(disk := d.disk), path, providerId, contentId, fileSize, fileMode);
      e == Effect(w.outcome, w.disk, d.calls + w.calls) &&
      (h.session ==> e.outcome == Returned(Answer(h.createFile(path, fileSize, fileMode, providerId, contentId), NoFailure)))
  {
    if |providerId| != PlaceholderIdLength || |contentId| != PlaceholderIdLength then
      Effect(Threw(ArgumentException), h.disk, [])
    else
      var d := DeleteFile(h, path);
      if !Deleted(d) then d
      else
        var w := WritePlaceholderFile(h.(disk := d.disk), path, providerId, contentId, fileSize, fileMode);
        Effect(w.outcome, w.disk, d.calls + w.calls)
  }

  /** Replaces a placeholder file by a symbolic link: delete, then create the link. */
  function ReplacePlaceholderFileWithSymLink(h: Host, path: string, target: string): (e: Effect)
    // a failed delete is handed back as it is, cause included, and nothing is written
    ensures !Deleted(DeleteFile(h, path)) ==> e == DeleteFile(h, path)
    // after a successful delete the cause is reset and the link primitive decides the result
    ensures Deleted(DeleteFile(h, path)) ==>
      var d := DeleteFile(h, path);
      var w := WriteSymLink(h.(disk := d.disk), path, target);
      e == Effect(w.outcome, w.disk, d.calls + w.calls) &&
      (h.session ==> e.outcome == Returned(Answer(h.createSymlink(path, target), NoFailure)))
  {
    var d := DeleteFile(h, path);
    if !Deleted(d) then d
    else
      var w := WriteSymLink(h.(disk := d.disk), path, target);
      Effect(w.outcome, w.disk, d.calls + w.calls)
  }

  /**
   * Updating a path whose content is dirty fails exactly as deleting it
   * does, leaves the disk as it was and writes nothing.
   */
  lemma UpdateKeepsDirtyData(h: Host, path: string, providerId: seq<byte>, contentId: seq<byte>,
                             fileSize: nat, fileMode: nat)
    requires |providerId| == PlaceholderIdLength && |contentId| == PlaceholderIdLength
    requires path != "" && !h.dirExists(path) && h.session && Dirty(h.projState(path))
    ensures var e := UpdatePlaceholderIfNeeded(h, path, providerId, contentId, fileSize, fileMode);
      e.outcome == Returned(Answer(EVirtualizationInvalidOperation, DirtyData)) &&
      e.disk == h.disk && !Creates(e.calls) && e == DeleteFile(h, path)
  {
  }

  /** Replacing a dirty file by a symbolic link is refused the same way. */
  lemma ReplaceKeepsDirtyData(h: Host, path: string, target: string)
    requires path != "" && !h.dirExists(path) && h.session && Dirty(h.projState(path))
    ensures var e := ReplacePlaceholderFileWithSymLink(h, path, target);
      e.outcome == Returned(Answer(EVirtualizationInvalidOperation, DirtyData)) &&
      e.disk == h.disk && !Creates(e.calls)
  {
  }

  /**
   * The directory test follows symbolic links: a link to a directory is
   * deleted as a directory, with no projection-state query and no dirty check.
   */
  lemma LinkToDirectoryDeletedAsDirectory(h: Host, path: string)
    requires path != "" && path in h.disk && h.disk[path] == SymLink && h.dirExists(path)
    ensures var e := DeleteFile(h, path);
      && e.outcome.Returned?
      && GetProjState(path) !in e.calls
      && Delete(path, true) in e.calls
      && e.outcome.value.cause != DirtyData
  {
  }
}
