/**
 * The GVFS side of the Linux projection: LinuxFileSystemVirtualizer wires
 * its callbacks into a virtualization instance, starts it, and rewrites
 * the driver's "." (the virtualization root itself) into the empty
 * relative path that the platform-neutral virtualizer expects.
 */
module GvfsLinux {
  import opened Types
  import Dispatch
  import Instances

  /** The root directory as the driver names it, and as GVFS names it. */
  function ConvertDotPath(path: string): (r: string)
    ensures path == "." ==> r == ""
    ensures path != "." ==> r == path
    ensures r != "."
  {
    if path == "." then "" else path
  }

  lemma ConvertDotPathIdempotent(path: string)
    ensures ConvertDotPath(ConvertDotPath(path)) == ConvertDotPath(path)
  {
  }

  /** A call into the platform-neutral virtualizer's OnEnumerateDirectory. */
  datatype PosixCall = PosixEnumerateDirectory(
    commandId: nat,
    relativePath: string,
    triggeringProcessId: int,
    triggeringProcessName: string)

  /** The enumeration callback: forwards everything, converting only the path. */
  function OnEnumerateDirectory(commandId: nat, relativePath: string, triggeringProcessId: int,
                                triggeringProcessName: string): (call: PosixCall)
    ensures call.commandId == commandId
    ensures call.triggeringProcessId == triggeringProcessId
    ensures call.triggeringProcessName == triggeringProcessName
    ensures relativePath == "." ==> call.relativePath == ""
    ensures relativePath != "." ==> call.relativePath == relativePath
  {
    PosixEnumerateDirectory(commandId, ConvertDotPath(relativePath), triggeringProcessId, triggeringProcessName)
  }

  /**
   * An enumeration of the virtualization root that the instance dispatches
   * reaches the platform-neutral virtualizer as the empty path, with
   * command id 0 and the triggering process unchanged.
   */
  lemma RootEnumerationReachesEmptyPath(v: Dispatch.Variant, self: int, session: bool, ev: Dispatch.Event,
                                        env: Dispatch.Env)
    requires ev.pid != self && (session || v == Dispatch.LegacyInstance)
    requires Dispatch.OnDir in ev.mask && ev.path == "."
    ensures var r := Dispatch.HandleProjEvent(v, self, session, ev, env);
      && r.Reply? && r.callback.Some? && r.callback.value.OnEnumerateDirectory?
      && var c := r.callback.value;
         OnEnumerateDirectory(c.commandId, c.path, c.triggeringProcessId, c.triggeringProcessName) ==
         PosixEnumerateDirectory(0, "", ev.pid, Dispatch.GetProcCmdline(env.cmdline(ev.pid)))
  {
  }

  /** The virtualizer method each callback slot is bound to by TryStart. */
  const VirtualizerCallbacks: map<Instances.Slot, string> := map[
    Instances.EnumerateDirectorySlot := "OnEnumerateDirectory",
    Instances.GetFileStreamSlot := "OnGetFileStream",
    Instances.LogErrorSlot := "OnLogError",
    Instances.FileModifiedSlot := "OnFileModified",
    Instances.PreDeleteSlot := "OnPreDelete",
    Instances.NewFileCreatedSlot := "OnNewFileCreated",
    Instances.FileRenamedSlot := "OnFileRenamed",
    Instances.HardLinkCreatedSlot := "OnHardLinkCreated",
    Instances.FilePreConvertToFullSlot := "NotifyFilePreConvertToFull"
  ]

  /** Binding the nine callbacks one by one overrides whatever was bound before. */
  lemma BindingEverySlot(m: map<Instances.Slot, string>)
    ensures m[Instances.EnumerateDirectorySlot := "OnEnumerateDirectory"]
             [Instances.GetFileStreamSlot := "OnGetFileStream"]
             [Instances.LogErrorSlot := "OnLogError"]
             [Instances.FileModifiedSlot := "OnFileModified"]
             [Instances.PreDeleteSlot := "OnPreDelete"]
             [Instances.NewFileCreatedSlot := "OnNewFileCreated"]
             [Instances.FileRenamedSlot := "OnFileRenamed"]
             [Instances.HardLinkCreatedSlot := "OnHardLinkCreated"]
             [Instances.FilePreConvertToFullSlot := "NotifyFilePreConvertToFull"] == VirtualizerCallbacks
  {
    var b := m[Instances.EnumerateDirectorySlot := "OnEnumerateDirectory"]
              [Instances.GetFileStreamSlot := "OnGetFileStream"]
              [Instances.LogErrorSlot := "OnLogError"]
              [Instances.FileModifiedSlot := "OnFileModified"]
              [Instances.PreDeleteSlot := "OnPreDelete"]
              [Instances.NewFileCreatedSlot := "OnNewFileCreated"]
              [Instances.FileRenamedSlot := "OnFileRenamed"]
              [Instances.HardLinkCreatedSlot := "OnHardLinkCreated"]
              [Instances.FilePreConvertToFullSlot := "NotifyFilePreConvertToFull"];
    forall s: Instances.Slot
      ensures s in b && s in VirtualizerCallbacks && b[s] == VirtualizerCallbacks[s]
    {
      match s
      case EnumerateDirectorySlot =>
      case GetFileStreamSlot =>
      case LogErrorSlot =>
      case FileModifiedSlot =>
      case FilePreConvertToFullSlot =>
      case PreDeleteSlot =>
      case NewFileCreatedSlot =>
      case FileRenamedSlot =>
      case HardLinkCreatedSlot =>
    }
    assert b.Keys == VirtualizerCallbacks.Keys;
  }

  /** The unsigned 32-bit thread count `(uint)processorCount * 2`, wrapping as uint multiplication does. */
  function ThreadCount(processorCount: nat): (n: nat)
    ensures n < 0x1_0000_0000
    ensures processorCount < 0x8000_0000 ==> n == 2 * processorCount
  {
    (processorCount % 0x1_0000_0000) * 2 % 0x1_0000_0000
  }

  const StartErrorPrefix: string := "Failed to start virtualization instance ("

  /** The error TryStart reports for a Start result other than Success: the result's name in parentheses. */
  function StartError(r: Result): (e: string)
    ensures StartErrorPrefix < e
    ensures e[|e| - 1] == ')'
    ensures e[|StartErrorPrefix|..|e| - 1] == ResultName(r)
  {
    StartErrorPrefix + ResultName(r) + ")"
  }

  class LinuxFileSystemVirtualizer {
    const instance: Instances.LinuxVirtualizationInstance

    /** Uses the supplied instance, or a new Linux instance for this process when given null. */
    constructor(given: Instances.LinuxVirtualizationInstance?, currentProcessId: int)
      ensures given != null ==> instance == given
      ensures given == null ==> fresh(instance) && instance.currentProcessId == currentProcessId &&
                                instance.projfs == None && instance.slots == map[]
    {
      if given != null {
        instance := given;
      } else {
        instance := new Instances.LinuxVirtualizationInstance(currentProcessId);
      }
    }

    method Stop()
      modifies instance`projfs, instance`native
      ensures instance.projfs == None
      ensures old(instance.projfs).None? ==> instance.native == old(instance.native)
      ensures old(instance.projfs).Some? ==>
        instance.native == old(instance.native) + [Instances.StopFs(old(instance.projfs).value)]
    {
      instance.StopVirtualizationInstance();
    }

    /**
     * Binds all nine callbacks, then starts the instance on the enlistment's
     * backing and working roots with twice the processor count as pool size.
     */
    method TryStart(backingRoot: string, workingRoot: string, processorCount: nat, host: Instances.MountHost)
      returns (o: Outcome<bool>, error: string)
      modifies instance
      ensures instance.slots == VirtualizerCallbacks
      // Start sees every slot bound
      ensures instance.startRequests == old(instance.startRequests) +
        [Instances.StartRequest(backingRoot, workingRoot, ThreadCount(processorCount), VirtualizerCallbacks)]
      // a second start propagates the exception
      ensures o.Threw? <==> old(instance.projfs).Some?
      ensures o.Threw? ==>
        && o.exception == InvalidOperation
        && instance.projfs == old(instance.projfs)
        && instance.native == old(instance.native)
        && instance.virtualizationRoot == old(instance.virtualizationRoot)
        && instance.preventGCOnProjEventDelegate == old(instance.preventGCOnProjEventDelegate)
        && instance.preventGCOnNotifyEventDelegate == old(instance.preventGCOnNotifyEventDelegate)
        && instance.preventGCOnPermEventDelegate == old(instance.preventGCOnPermEventDelegate)
      // true exactly when the root was found, the handle started and the mount appeared
      ensures o.Returned? ==> (o.value <==> Instances.StartSucceeds(host))
      ensures o.Returned? ==> (o.value <==> instance.projfs.Some?)
      ensures o.Returned? && o.value ==> instance.projfs == host.created
      ensures o.Returned? ==> instance.native == old(instance.native) + Instances.StartLog(backingRoot, workingRoot, host)
      // the handlers are registered and the root recorded once the root could be statted
      ensures o.Returned? && host.rootDev.Some? ==>
        instance.DelegatesHeld() && instance.virtualizationRoot == Some(workingRoot)
      ensures o.Returned? && host.rootDev.None? ==>
        && instance.virtualizationRoot == old(instance.virtualizationRoot)
        && instance.preventGCOnProjEventDelegate == old(instance.preventGCOnProjEventDelegate)
        && instance.preventGCOnNotifyEventDelegate == old(instance.preventGCOnNotifyEventDelegate)
        && instance.preventGCOnPermEventDelegate == old(instance.preventGCOnPermEventDelegate)
      // the error is empty on success and otherwise reports Start's Invalid
      ensures o.Returned? && o.value ==> error == ""
      ensures o.Returned? && !o.value ==> error == StartError(Invalid)
    {
      error := "";
      BindingEverySlot(instance.slots);
      instance.slots := instance.slots[Instances.EnumerateDirectorySlot := "OnEnumerateDirectory"];
      instance.slots := instance.slots[Instances.GetFileStreamSlot := "OnGetFileStream"];
      instance.slots := instance.slots[Instances.LogErrorSlot := "OnLogError"];
      instance.slots := instance.slots[Instances.FileModifiedSlot := "OnFileModified"];
      instance.slots := instance.slots[Instances.PreDeleteSlot := "OnPreDelete"];
      instance.slots := instance.slots[Instances.NewFileCreatedSlot := "OnNewFileCreated"];
      instance.slots := instance.slots[Instances.FileRenamedSlot := "OnFileRenamed"];
      instance.slots := instance.slots[Instances.HardLinkCreatedSlot := "OnHardLinkCreated"];
      instance.slots := instance.slots[Instances.FilePreConvertToFullSlot := "NotifyFilePreConvertToFull"];
      assert instance.slots == VirtualizerCallbacks;
      var threadCount := ThreadCount(processorCount);
      var result := instance.StartVirtualizationInstance(backingRoot, workingRoot, threadCount, host);
      if result.Threw? {
        return Threw(result.exception), error;
      }
      if result.value != Success {
        error := StartError(result.value);
        return Returned(false), error;
      }
      return Returned(true), error;
    }
  }
}
