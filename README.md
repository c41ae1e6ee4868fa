# Linux virtualization instance of the projected filesystem

This project models the Linux user-space side of VFS for Git's projected
filesystem, the *virtualization instance*, together with the GVFS
virtualizer that drives it. The instance does three things:

- It turns each event from the ProjFS driver into at most one provider
  callback and one integer return code. Events from the instance's own
  process are ignored. A directory event asks for an enumeration and a file
  event asks for a content fill. Notification and permission events are
  classified by a fixed priority over the mask bits. The provider's `Result`
  becomes a negative errno, or ALLOW/DENY for permission events.
- It deletes, creates, updates and replaces placeholders. It never deletes
  the virtualization root, or a file whose state query reports Full, or
  fails with Invalid and reports Unknown (dirty data).
  A missing entry counts as deleted, and an access-denied failure is
  reported as read-only.
- It owns the mount session, the nullable `projfs` handle. Start refuses a
  second session. The newer `LinuxVirtualizationInstance` also checks that
  the root can be statted, and reports success only after the root's device
  id changes within a 30 s budget of 200 ms polls.

There are two copies of the instance logic:

- `LinuxVirtualizationInstance`, the newer one;
- `VirtualizationInstance`, the older one. It has no stat check, no mount
  wait, and no session check before a content-fill event.

One event dispatcher (`Dispatch`, parameterised by `Variant`) and one set of
placeholder helpers (`Placeholders`) serve both copies. Each copy's session
lifecycle is its own class in `Instances`.

Modules:

- `Types`: the `Result` taxonomy, projection states, failure causes, and
  thrown exceptions (`Outcome.Threw`). It also holds the native constants
  (`Native`: the Result-to-errno mapping, EPERM, ENOTEMPTY, ALLOW, DENY),
  kept abstract except that Success maps to 0 (`SuccessIsZero`) where a
  property needs it.
- `Dispatch`: `HandleProjEvent`, `HandleNonProjEvent`, `OnNotifyOperation`,
  the priority classification and the process-name lookup. All are pure
  functions over an `Env` of oracles: provider callbacks, the driver's
  attribute query and `/proc/<pid>/cmdline`.
- `Placeholders`: `DeleteFile`, `RemoveFileOrDirectory`, the three write
  primitives, `UpdatePlaceholderIfNeeded` and
  `ReplacePlaceholderFileWithSymLink`. They are functions over a `Host`: the
  disk as a map from path to kind, whether a session is held, the answer of
  `Directory.Exists` (which follows symbolic links), and the
  driver and filesystem oracles. Each one returns the outcome, the disk
  afterwards and the calls it made.
- `FileWriter`: the short-write loop `TryWrite` over a `write` oracle, and
  `WriteFileContents`.
- `Instances`: both instance classes (fields `projfs`, `virtualizationRoot`,
  the three delegate fields and the nine callback slots), the mount-wait loop
  and `IsUninitializedMount`.
- `GvfsLinux`: `LinuxFileSystemVirtualizer` (constructor, `TryStart`,
  `Stop`), `ConvertDotPath` and the enumeration callback.

External effects are modelled as oracles or inputs:

- the native ProjFS library: `New`, `Start` and `Stop` are recorded in a
  ghost call log; the state, attribute and create queries are functions;
- `stat` and the device ids seen while polling;
- `File.Delete`/`Directory.Delete` outcomes;
- the `write` system call;
- the contents of `/proc`.

Passing time is a tick counter.

## Model

| member | source | states |
|---|---|---|
| Dispatch.HandleProjEvent | ProjFS.Linux/PrjFSLib.Linux.Managed/LinuxVirtualizationInstance.cs:368-430 | The instance's own events get 0 and no callback. With no session, the Linux variant returns -errno(EDriverNotLoaded). A directory event calls only OnEnumerateDirectory (command id 0, path, pid, process name) and returns -errno of its Result. A file event calls OnGetFileStream exactly when the attribute query succeeds, with the two 128-byte identifiers that query filled in, and otherwise returns -errno of the query's failure. |
| Dispatch.VariantsAgreeWithSession | ProjFS.Linux/PrjFSLib.Linux.Managed/VirtualizationInstance.cs:312-357 | The older copy has no session check: with a session both variants answer every event alike. Without one the newer variant answers EDriverNotLoaded, while the older one dereferences the null handle and crashes exactly on file events. |
| Dispatch.HandleNonProjEvent | ProjFS.Linux/PrjFSLib.Linux.Managed/LinuxVirtualizationInstance.cs:432-505 | Own events get ALLOW (perm) or 0. No callback happens iff no notification kind matches the mask, and then the code is 0. Otherwise the first matching kind's callback runs on the target path (rename, hard link) or the source path, with isDirectory equal to the ONDIR bit. For perm events 0 becomes ALLOW, -EPERM becomes DENY, and any other value passes through. |
| Dispatch.Classify | ProjFS.Linux/PrjFSLib.Linux.Managed/LinuxVirtualizationInstance.cs:440-470 | The if-chain equals the first match in the priority order DELETE_PERM, CLOSE_WRITE, CREATE without ONLINK, MOVE, CREATE with ONLINK, OPEN_PERM. It yields nothing iff no kind matches. |
| Dispatch.FirstMatchingIsFirst | ProjFS.Linux/PrjFSLib.Linux.Managed/LinuxVirtualizationInstance.cs:440-470 | The reference first-match search returns k iff some position holds k, k matches there, and no earlier kind matches. |
| Dispatch.FirstMatchingNone | ProjFS.Linux/PrjFSLib.Linux.Managed/LinuxVirtualizationInstance.cs:440-470 | The reference search finds nothing iff no kind in the order matches. |
| Dispatch.ClassifyIsFirstMatch | ProjFS.Linux/PrjFSLib.Linux.Managed/LinuxVirtualizationInstance.cs:440-470 | Classify yields the kind at position i of the priority order iff that kind matches the mask and every earlier kind does not. |
| Dispatch.PriorityListsEveryKindOnce | ProjFS.Linux/PrjFSLib.Linux.Managed/LinuxVirtualizationInstance.cs:440-470 | The if-chain tests each of the six notification kinds, each exactly once. |
| Dispatch.PermissionAllowedUnlessRefused | ProjFS.Linux/PrjFSLib.Linux.Managed/LinuxVirtualizationInstance.cs:490-548 | With Success mapped to errno 0, a classified permission event gets the explicit ALLOW whenever its kind cannot refuse or its callback answered Success. A notification event of a fire-and-forget kind gets 0. |
| Dispatch.RenameReportsTarget | ProjFS.Linux/PrjFSLib.Linux.Managed/LinuxVirtualizationInstance.cs:472-488 | Renames and hard links are reported with the event's target path, never the source path. |
| Dispatch.OnNotifyOperation | ProjFS.Linux/PrjFSLib.Linux.Managed/LinuxVirtualizationInstance.cs:517-548 | The callback invoked matches the kind, with the given path and directory flag. Pre-delete and pre-convert-to-full return the callback's Result. Modified, created, renamed and hard-link kinds return Success whatever the callback answers. |
| Dispatch.GetProcCmdline | ProjFS.Linux/PrjFSLib.Linux.Managed/VirtualizationInstance.cs:284-299 | The process name is the prefix of the cmdline contents before the first NUL, or the whole text if it has no NUL. It is the empty string when the read fails. |
| Dispatch.FirstField | ProjFS.Linux/PrjFSLib.Linux.Managed/LinuxVirtualizationInstance.cs:345-360 | The first field is a NUL-free prefix. When it is shorter than the text, a NUL follows it. |
| Placeholders.RemoveFileOrDirectory | ProjFS.Linux/PrjFSLib.Linux.Managed/LinuxVirtualizationInstance.cs:302-343 | Each exception maps to one Result and back, in both directions: DirectoryNotFound to EPathNotFound, FileNotFound to EFileNotFound, an IOException with HResult ENOTEMPTY to EDirectoryNotEmpty, any other IOException to EIOError, UnauthorizedAccess to EAccessDenied, anything else to Invalid, no exception to Success. |
| Placeholders.DeleteFile | ProjFS.Linux/PrjFSLib.Linux.Managed/LinuxVirtualizationInstance.cs:146-196 | The root returns EDirectoryNotEmpty with no call. A dirty file returns EVirtualizationInvalidOperation/DirtyData and is kept. Removal is attempted exactly for paths where Directory.Exists holds (which includes links to directories) and for clean files whose state query succeeded. Any other failed query is returned. Not-found never escapes. ReadOnly is set iff the result is EAccessDenied. Exactly the removed path leaves the disk when its removal succeeded; otherwise the disk is unchanged. Nothing is created. Without a session, a file path throws NullReference. The older copy (VirtualizationInstance.cs:97-147) has the same decision tree and is modelled by the same function. |
| Placeholders.WritePlaceholderFile | ProjFS.Linux/PrjFSLib.Linux.Managed/LinuxVirtualizationInstance.cs:204-223 | Identifiers that are not exactly 128 bytes throw ArgumentException before any call. Otherwise the driver's create Result is returned, and if the driver call succeeded the disk gains exactly that file entry, with every other entry unchanged; otherwise the disk is unchanged. |
| Placeholders.WritePlaceholderDirectory | ProjFS.Linux/PrjFSLib.Linux.Managed/LinuxVirtualizationInstance.cs:198-202 | Creates the directory with mode 777. Returns the driver's Result. If the driver call succeeded the disk gains exactly that directory entry, with every other entry unchanged; otherwise the disk is unchanged. |
| Placeholders.WriteSymLink | ProjFS.Linux/PrjFSLib.Linux.Managed/LinuxVirtualizationInstance.cs:225-232 | Creates the link with the given target. Returns the driver's Result. If the driver call succeeded the disk gains exactly that link entry, with every other entry unchanged; otherwise the disk is unchanged. |
| Placeholders.UpdatePlaceholderIfNeeded | ProjFS.Linux/PrjFSLib.Linux.Managed/LinuxVirtualizationInstance.cs:234-258 | Identifiers are checked first. A failed delete is returned as it is, cause included, with nothing written. After a successful delete the cause is NoFailure and the result is the create primitive's. |
| Placeholders.ReplacePlaceholderFileWithSymLink | ProjFS.Linux/PrjFSLib.Linux.Managed/LinuxVirtualizationInstance.cs:260-275 | A failed delete is returned unchanged with nothing written. After a successful delete the result is the symlink primitive's, with NoFailure. |
| Placeholders.UpdateKeepsDirtyData | ProjFS.Linux/PrjFSLib.Linux.Managed/VirtualizationInstance.cs:185-209 | Updating a dirty file fails with DirtyData, leaves the disk unchanged and creates nothing. |
| Placeholders.LinkToDirectoryDeletedAsDirectory | ProjFS.Linux/PrjFSLib.Linux.Managed/LinuxVirtualizationInstance.cs:163-185 | A symbolic link to a directory passes the Directory.Exists test. It is deleted as a directory, with no projection-state query, and is never refused as dirty. |
| Placeholders.ReplaceKeepsDirtyData | ProjFS.Linux/PrjFSLib.Linux.Managed/VirtualizationInstance.cs:211-226 | Replacing a dirty file by a link fails the same way, with the disk unchanged. |
| FileWriter.TryWrite | ProjFS.Linux/PrjFSLib.Linux.Managed/LinuxVirtualizationInstance.cs:552-572 | Given a write that returns -1 or 1..count, it returns true iff every successive partial write succeeds until the count reaches 0. The bytes sent are then exactly the first byteCount. On failure, a strict prefix has been sent. |
| FileWriter.WriteFileContents | ProjFS.Linux/PrjFSLib.Linux.Managed/VirtualizationInstance.cs:84-95 | The result is Success iff the whole buffer drains, and EIOError otherwise. |
| Instances.WaitForMount | ProjFS.Linux/PrjFSLib.Linux.Managed/LinuxVirtualizationInstance.cs:93-113 | Mounted iff some poll among the 151 within the 30 s budget sees a device id different from the pre-mount one. It stops at the first such poll. On timeout, all 151 polls were made. |
| Instances.IsUninitializedMount | ProjFS.Linux/PrjFSLib.Linux.Managed/LinuxVirtualizationInstance.cs:277-300 | True iff every entry name is ".git" or ".gitattributes" and both are present. |
| Instances.LinuxVirtualizationInstance.constructor | ProjFS.Linux/PrjFSLib.Linux.Managed/LinuxVirtualizationInstance.cs:17-24 | A new instance holds no session, no root and no delegates. |
| Instances.LinuxVirtualizationInstance.StartVirtualizationInstance | ProjFS.Linux/PrjFSLib.Linux.Managed/LinuxVirtualizationInstance.cs:26-118 | A second start throws and changes nothing. A stat failure returns Invalid before delegates are registered. A null handle returns Invalid, but the root is still recorded. A failed native start, or a mount that never appears, stops the handle and returns Invalid with no session. Success, with the session stored, happens iff the device id changed within the budget. |
| Instances.LinuxVirtualizationInstance.StopVirtualizationInstance | ProjFS.Linux/PrjFSLib.Linux.Managed/LinuxVirtualizationInstance.cs:120-129 | With no session it does nothing. Otherwise it stops the handle and always clears the session. |
| Instances.VirtualizationInstance.constructor | ProjFS.Linux/PrjFSLib.Linux.Managed/VirtualizationInstance.cs:14-33 | A new older-style instance holds no session, no root, no delegates and no bound callbacks. |
| Instances.VirtualizationInstance.StartVirtualizationInstance | ProjFS.Linux/PrjFSLib.Linux.Managed/VirtualizationInstance.cs:35-71 | A second start throws. A null handle, or a failed native start (which is stopped again), returns Invalid with no session and the root unchanged. On success the session and the root are stored. |
| Instances.VirtualizationInstance.StopVirtualizationInstance | ProjFS.Linux/PrjFSLib.Linux.Managed/VirtualizationInstance.cs:73-82 | With no session it does nothing. Otherwise it stops the handle and clears the session. |
| GvfsLinux.ConvertDotPath | GVFS/GVFS.Platform.Linux/LinuxFileSystemVirtualizer.cs:62-70 | "." becomes the empty path, and every other path is unchanged. The result is never ".". |
| GvfsLinux.ConvertDotPathIdempotent | GVFS/GVFS.Platform.Linux/LinuxFileSystemVirtualizer.cs:62-70 | Converting twice is the same as converting once. |
| GvfsLinux.OnEnumerateDirectory | GVFS/GVFS.Platform.Linux/LinuxFileSystemVirtualizer.cs:72-79 | Forwards the command id, process id and process name unchanged. Only the path goes through ConvertDotPath. |
| GvfsLinux.RootEnumerationReachesEmptyPath | GVFS/GVFS.Platform.Linux/LinuxFileSystemVirtualizer.cs:72-79 | A directory event on "." that the instance dispatches reaches the platform-neutral virtualizer as the empty path, with command id 0. |
| GvfsLinux.ThreadCount | GVFS/GVFS.Platform.Linux/LinuxFileSystemVirtualizer.cs:42 | The pool size is twice the processor count as an unsigned 32-bit value, and exactly twice it below 2^31. |
| GvfsLinux.StartError | GVFS/GVFS.Platform.Linux/LinuxFileSystemVirtualizer.cs:54 | The error message is a non-empty text that starts with the fixed prefix and holds the Result's name in parentheses. |
| GvfsLinux.LinuxFileSystemVirtualizer.constructor | GVFS/GVFS.Platform.Linux/LinuxFileSystemVirtualizer.cs:12-19 | Uses the supplied instance, or a fresh LinuxVirtualizationInstance with no session when given null. |
| GvfsLinux.LinuxFileSystemVirtualizer.TryStart | GVFS/GVFS.Platform.Linux/LinuxFileSystemVirtualizer.cs:27-60 | All nine callback slots are bound before Start is called, with twice the processor count. A second start's exception propagates, leaving the session, root, delegates and native calls as they were. Otherwise the method returns true with an empty error iff the root could be statted, ProjFS.New gave a handle, the handle started and the mount appeared within the budget; then the session is that handle. It returns false with the Invalid error message otherwise. The native calls made are exactly Start's. Once the root is statted, the handlers are registered and the working root is recorded. |
| GvfsLinux.LinuxFileSystemVirtualizer.Stop | GVFS/GVFS.Platform.Linux/LinuxFileSystemVirtualizer.cs:21-25 | Stops the instance, which then holds no session. |
| Types.ResultName | GVFS/GVFS.Platform.Linux/LinuxFileSystemVirtualizer.cs:54 | Every Result has a non-empty enum name, used in the start error. |

## Left out

- Native ProjFS interop (`ProjFS.New`, `Start`, `Stop`, `GetProjState`, `GetProjAttrs`, `CreateProjFile`/`Dir`/`Symlink`): the library is not part of this model. Its calls are oracles, or entries in a ghost call log.
- `Result.ToErrno`, the errno constants and the ProjFS mask bit values are defined outside these files. They are abstract fields of `Native` and distinct `Flag` values, and no errno round-trip is claimed.
- Pointer and marshalling code (`PtrToStringUTF8`, `Marshal.PtrToStructure`, `unsafe` buffers): paths are strings and the file handle is an int, so the `IntPtr` versus `int` fd difference disappears.
- `Path.Combine` with the virtualization root: paths stay relative, so the root's value and a null root before Start are not modelled.
- Real time: `Thread.Sleep` and the `Stopwatch` are replaced by a tick counter that advances 200 ms per sleep. Time spent inside `stat` is not counted.
- Concurrency: the worker pool and the hydration races between a state query and a delete. Each helper is modelled as one sequential step, and the oracles do not change while it runs.
- The mount arguments: the DEBUG override always passes "-o initial", so the call to `IsUninitializedMount` inside Start affects nothing and is not modelled there. `IsUninitializedMount` is modelled on its own, over the entries' file names. An exception from enumerating a missing storage root is not modelled.
- `Path.GetFileName` is not modelled: the entry names are given directly.
- `CompleteCommand` and `ConvertDirectoryToPlaceholder` in the older copy and in the POSIX base class only throw NotImplementedException.
- The `UpdateType updateFlags` parameter of `DeleteFile`, `UpdatePlaceholderIfNeeded` and `ReplacePlaceholderFileWithSymLink` (LinuxVirtualizationInstance.cs:148, 240, 263; VirtualizationInstance.cs:99, 191, 214) is dropped: the source passes it along but never reads it, so no flag can permit deleting dirty data.
- The `ENotYetImplemented` default branch of `OnNotifyOperation` cannot be reached with the six closed notification kinds.
- `HandleNotifyEvent`/`HandlePermEvent` are the `perm` = false/true arguments of `HandleNonProjEvent`.
- The `OnLogError` callback and Tracer logging in the virtualizer: they have no effect on any returned value.
- The platform-neutral virtualizer (`POSIXFileSystemVirtualizer`) that the callbacks forward to is not part of this model. A forwarded enumeration is a `PosixCall` value.
- `LinuxPlatform.Shared.cs`: an environment lookup delegating to code not part of this model.
- GvfsLinux.LinuxFileSystemVirtualizer: its instance field is typed as the Linux instance class, whereas the source accepts any POSIX `VirtualizationInstance`.
- FileWriter.TryWrite: it requires every `write` to return -1 or 1..count (`WriteProgresses`) and byteCount to be at most the buffer length. These are assumptions for termination and bounds, not guarantees: the source guards none of them. A 0 return makes its loop spin forever, an oversized return wraps the unsigned byteCount and runs the pointer past the buffer, and byteCount is never compared with the buffer length. The model does not cover those inputs.
