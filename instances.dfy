/**
 * The session half of the virtualization instance: starting and stopping
 * the native ProjFS session, held in the nullable `projfs` field.
 * LinuxVirtualizationInstance stats the virtualization root and waits for
 * the mount to show up as a new device id; the older
 * VirtualizationInstance starts without either.
 */
module Instances {
  import opened Types

  /** The instance method a delegate field keeps alive for the driver. */
  datatype EventHandler = HandleProjEvent | HandleNotifyEvent | HandlePermEvent

  /** The nine provider callback properties of an instance. */
  datatype Slot =
    | EnumerateDirectorySlot
    | GetFileStreamSlot
    | LogErrorSlot
    | FileModifiedSlot
    | FilePreConvertToFullSlot
    | PreDeleteSlot
    | NewFileCreatedSlot
    | FileRenamedSlot
    | HardLinkCreatedSlot

  /** A call into the native ProjFS library; a session is named by its handle. */
  datatype NativeCall =
    | New(storageRoot: string, virtualizationRoot: string)
    | StartFs(fs: nat)
    | StopFs(fs: nat)

  /** A call of StartVirtualizationInstance, with the callback slots as they were at that moment. */
  datatype StartRequest = StartRequest(
    storageRoot: string,
    virtualizationRoot: string,
    poolThreadCount: nat,
    slots: map<Slot, string>)

  /**
   * What the host reports while a session starts: the device id of the
   * virtualization root before mounting (None when stat fails), the handle
   * ProjFS.New returns (None for null), the status of fs.Start(), and the
   * device id that the k-th poll of the mount wait sees.
   */
  datatype MountHost = MountHost(rootDev: Option<nat>, created: Option<nat>, startCode: int, devAt: nat -> nat)

  const MountWaitTickMs: nat := 200
  const MountWaitTotalMs: nat := 30000

  /** The index of the last poll before the wait gives up: polls 0..LastPoll are made. */
  const LastPoll: nat := MountWaitTotalMs / MountWaitTickMs

  /** Some poll within the time budget sees the root on a new device. */
  ghost predicate MountSeen(priorDev: nat, devAt: nat -> nat)
  {
    exists k :: 0 <= k <= LastPoll && devAt(k) != priorDev
  }

  /** A start that finds the root, gets a handle, starts it and sees the mount appear. */
  ghost predicate StartSucceeds(host: MountHost)
  {
    host.rootDev.Some? && host.created.Some? && host.startCode == 0 && MountSeen(host.rootDev.value, host.devAt)
  }

  /** The native calls a start without a held session makes, given what the host reports. */
  ghost function StartLog(storageRoot: string, root: string, host: MountHost): seq<NativeCall>
  {
    if host.rootDev.None? then []
    else if host.created.None? then [New(storageRoot, root)]
    else if StartSucceeds(host) then [New(storageRoot, root), StartFs(host.created.value)]
    else [New(storageRoot, root), StartFs(host.created.value), StopFs(host.created.value)]
  }

  /**
   * The mount wait of LinuxVirtualizationInstance: stat the root, stop when
   * its device id has changed, otherwise sleep one tick and give up once
   * more than the total budget has elapsed. Time is a simulated tick count.
   */
  method WaitForMount(priorDev: nat, devAt: nat -> nat) returns (mounted: bool, polls: nat)
    ensures mounted <==> MountSeen(priorDev, devAt)
    ensures 1 <= polls <= LastPoll + 1
    ensures forall k :: 0 <= k < polls - 1 ==> devAt(k) == priorDev
    ensures mounted ==> devAt(polls - 1) != priorDev
    ensures !mounted ==> polls == LastPoll + 1
  {
    var elapsed: nat := 0;
    polls := 0;
    while true
      invariant polls <= LastPoll
      invariant elapsed == polls * MountWaitTickMs
      invariant forall k :: 0 <= k < polls ==> devAt(k) == priorDev
      decreases LastPoll - polls
    {
      var dev := devAt(polls);
      polls := polls + 1;
      if priorDev != dev {
        return true, polls;
      }
      elapsed := elapsed + MountWaitTickMs;
      if elapsed > MountWaitTotalMs {
        return false, polls;
      }
    }
  }

  /** The names of a storage root's entries are exactly ".git" and ".gitattributes". */
  predicate OnlyGitMetadata(names: seq<string>)
  {
    && (forall i :: 0 <= i < |names| ==> names[i] == ".git" || names[i] == ".gitattributes")
    && ".git" in names
    && ".gitattributes" in names
  }

  /** IsUninitializedMount, over the file names of the directory's entries. */
  method IsUninitializedMount(names: seq<string>) returns (r: bool)
    ensures r == OnlyGitMetadata(names)
  {
    var foundDotGit, foundDotGitattributes := false, false;
    for i := 0 to |names|
      invariant forall j :: 0 <= j < i ==> names[j] == ".git" || names[j] == ".gitattributes"
      invariant foundDotGit <==> ".git" in names[..i]
      invariant foundDotGitattributes <==> ".gitattributes" in names[..i]
    {
      var file := names[i];
      assert names[..i + 1] == names[..i] + [file];
      if file == ".git" {
        foundDotGit := true;
      } else if file == ".gitattributes" {
        foundDotGitattributes := true;
      } else {
        return false;
      }
    }
    assert names[..|names|] == names;
    return foundDotGit && foundDotGitattributes;
  }

  /** The instance with stat check and mount wait. */
  class LinuxVirtualizationInstance {
    const currentProcessId: int
    var projfs: Option<nat>
    var virtualizationRoot: Option<string>
    var preventGCOnProjEventDelegate: Option<EventHandler>
    var preventGCOnNotifyEventDelegate: Option<EventHandler>
    var preventGCOnPermEventDelegate: Option<EventHandler>
    var slots: map<Slot, string>
    ghost var native: seq<NativeCall>
    ghost var startRequests: seq<StartRequest>

    constructor(currentProcessId: int)
      ensures this.currentProcessId == currentProcessId
      ensures projfs == None && virtualizationRoot == None && slots == map[]
      ensures preventGCOnProjEventDelegate == None && preventGCOnNotifyEventDelegate == None &&
              preventGCOnPermEventDelegate == None
      ensures native == [] && startRequests == []
    {
      this.currentProcessId := currentProcessId;
      projfs := None;
      virtualizationRoot := None;
      preventGCOnProjEventDelegate := None;
      preventGCOnNotifyEventDelegate := None;
      preventGCOnPermEventDelegate := None;
      slots := map[];
      native := [];
      startRequests := [];
    }

    /** The three event handlers are registered and kept alive. */
    predicate DelegatesHeld()
      reads this
    {
      && preventGCOnProjEventDelegate == Some(HandleProjEvent)
      && preventGCOnNotifyEventDelegate == Some(HandleNotifyEvent)
      && preventGCOnPermEventDelegate == Some(HandlePermEvent)
    }

    method StartVirtualizationInstance(storageRoot: string, root: string, poolThreadCount: nat, host: MountHost)
      returns (o: Outcome<Result>)
      modifies this
      ensures startRequests == old(startRequests) + [StartRequest(storageRoot, root, poolThreadCount, old(slots))]
      ensures slots == old(slots)
      // a second start throws and changes nothing else
      ensures old(projfs).Some? ==>
        && o == Threw(InvalidOperation)
        && projfs == old(projfs) && native == old(native) && virtualizationRoot == old(virtualizationRoot)
        && preventGCOnProjEventDelegate == old(preventGCOnProjEventDelegate)
        && preventGCOnNotifyEventDelegate == old(preventGCOnNotifyEventDelegate)
        && preventGCOnPermEventDelegate == old(preventGCOnPermEventDelegate)
      // otherwise a session is held afterwards exactly when Start returned Success
      ensures old(projfs).None? ==> o.Returned? && (o.value == Success <==> projfs.Some?)
      ensures old(projfs).None? ==> o.value == Success || o.value == Invalid
      ensures old(projfs).None? ==> (o.value == Success <==> StartSucceeds(host))
      ensures old(projfs).None? ==> native == old(native) + StartLog(storageRoot, root, host)
      ensures old(projfs).None? && o.value == Success ==> projfs == host.created
      // a root that cannot be statted fails before anything is registered
      ensures old(projfs).None? && host.rootDev.None? ==>
        && o == Returned(Invalid) && projfs == None && native == old(native)
        && virtualizationRoot == old(virtualizationRoot)
        && preventGCOnProjEventDelegate == old(preventGCOnProjEventDelegate)
        && preventGCOnNotifyEventDelegate == old(preventGCOnNotifyEventDelegate)
        && preventGCOnPermEventDelegate == old(preventGCOnPermEventDelegate)
      ensures old(projfs).None? && host.rootDev.Some? ==> DelegatesHeld() && virtualizationRoot == Some(root)
      // ProjFS.New returning null fails
      ensures old(projfs).None? && host.rootDev.Some? && host.created.None? ==>
        o == Returned(Invalid) && projfs == None && native == old(native) + [New(storageRoot, root)]
      // a failed native start is stopped again
      ensures old(projfs).None? && host.rootDev.Some? && host.created.Some? && host.startCode != 0 ==>
        var fs := host.created.value;
        o == Returned(Invalid) && projfs == None &&
        native == old(native) + [New(storageRoot, root), StartFs(fs), StopFs(fs)]
      // success only once the root's device id has changed within the budget; a timeout stops the session
      ensures old(projfs).None? && host.rootDev.Some? && host.created.Some? && host.startCode == 0 ==>
        var fs := host.created.value;
        if MountSeen(host.rootDev.value, host.devAt) then
          o == Returned(Success) && projfs == Some(fs) && native == old(native) + [New(storageRoot, root), StartFs(fs)]
        else
          o == Returned(Invalid) && projfs == None &&
          native == old(native) + [New(storageRoot, root), StartFs(fs), StopFs(fs)]
    {
      startRequests := startRequests + [StartRequest(storageRoot, root, poolThreadCount, slots)];
      if projfs.Some? {
        return Threw(InvalidOperation);
      }
      if host.rootDev.None? {
        return Returned(Invalid);
      }
      var priorDev := host.rootDev.value;
      preventGCOnProjEventDelegate := Some(HandleProjEvent);
      preventGCOnNotifyEventDelegate := Some(HandleNotifyEvent);
      preventGCOnPermEventDelegate := Some(HandlePermEvent);
      native := native + [New(storageRoot, root)];
      var fs := host.created;
      virtualizationRoot := Some(root);
      if fs.None? {
        return Returned(Invalid);
      }
      native := native + [StartFs(fs.value)];
      if host.startCode != 0 {
        native := native + [StopFs(fs.value)];
        projfs := None;
        return Returned(Invalid);
      }
      var mounted, _ := WaitForMount(priorDev, host.devAt);
      if !mounted {
        native := native + [StopFs(fs.value)];
        projfs := None;
        return Returned(Invalid);
      }
      projfs := fs;
      return Returned(Success);
    }

    method StopVirtualizationInstance()
      modifies this`projfs, this`native
      ensures projfs == None
      ensures old(projfs).None? ==> native == old(native)
      ensures old(projfs).Some? ==> native == old(native) + [StopFs(old(projfs).value)]
    {
      if projfs.None? {
        return;
      }
      native := native + [StopFs(projfs.value)];
      projfs := None;
    }
  }

  /** The older instance: no stat check and no mount wait. */
  class VirtualizationInstance {
    const currentProcessId: int
    var projfs: Option<nat>
    var virtualizationRoot: Option<string>
    var preventGCOnProjEventDelegate: Option<EventHandler>
    var preventGCOnNotifyEventDelegate: Option<EventHandler>
    var preventGCOnPermEventDelegate: Option<EventHandler>
    var slots: map<Slot, string>
    ghost var native: seq<NativeCall>

    constructor(currentProcessId: int)
      ensures this.currentProcessId == currentProcessId
      ensures projfs == None && virtualizationRoot == None && slots == map[]
      ensures preventGCOnProjEventDelegate == None && preventGCOnNotifyEventDelegate == None &&
              preventGCOnPermEventDelegate == None
      ensures native == []
    {
      this.currentProcessId := currentProcessId;
      projfs := None;
      virtualizationRoot := None;
      preventGCOnProjEventDelegate := None;
      preventGCOnNotifyEventDelegate := None;
      preventGCOnPermEventDelegate := None;
      slots := map[];
      native := [];
    }

    predicate DelegatesHeld()
      reads this
    {
      && preventGCOnProjEventDelegate == Some(HandleProjEvent)
      && preventGCOnNotifyEventDelegate == Some(HandleNotifyEvent)
      && preventGCOnPermEventDelegate == Some(HandlePermEvent)
    }

    /** `created` is what ProjFS.New returns (None for null) and `startCode` the status of fs.Start(). */
    method StartVirtualizationInstance(storageRoot: string, root: string, poolThreadCount: nat,
                                       created: Option<nat>, startCode: int)
      returns (o: Outcome<Result>)
      modifies this
      ensures slots == old(slots)
      // a second start throws and changes nothing
      ensures old(projfs).Some? ==>
        && o == Threw(InvalidOperation)
        && projfs == old(projfs) && native == old(native) && virtualizationRoot == old(virtualizationRoot)
        && preventGCOnProjEventDelegate == old(preventGCOnProjEventDelegate)
        && preventGCOnNotifyEventDelegate == old(preventGCOnNotifyEventDelegate)
        && preventGCOnPermEventDelegate == old(preventGCOnPermEventDelegate)
      ensures old(projfs).None? ==> DelegatesHeld()
      // ProjFS.New returning null fails, and no session is held
      ensures old(projfs).None? && created.None? ==>
        o == Returned(Invalid) && projfs == None && virtualizationRoot == old(virtualizationRoot) &&
        native == old(native) + [New(storageRoot, root)]
      // a failed native start is stopped again, and no session is held
      ensures old(projfs).None? && created.Some? && startCode != 0 ==>
        o == Returned(Invalid) && projfs == None && virtualizationRoot == old(virtualizationRoot) &&
        native == old(native) + [New(storageRoot, root), StartFs(created.value), StopFs(created.value)]
      // on success the session and the root are stored
      ensures old(projfs).None? && created.Some? && startCode == 0 ==>
        o == Returned(Success) && projfs == created && virtualizationRoot == Some(root) &&
        native == old(native) + [New(storageRoot, root), StartFs(created.value)]
    {
      if projfs.Some? {
        return Threw(InvalidOperation);
      }
      preventGCOnProjEventDelegate := Some(HandleProjEvent);
      preventGCOnNotifyEventDelegate := Some(HandleNotifyEvent);
      preventGCOnPermEventDelegate := Some(HandlePermEvent);
      native := native + [New(storageRoot, root)];
      if created.None? {
        return Returned(Invalid);
      }
      native := native + [StartFs(created.value)];
      if startCode != 0 {
        native := native + [StopFs(created.value)];
        return Returned(Invalid);
      }
      projfs := created;
      virtualizationRoot := Some(root);
      return Returned(Success);
    }

    method StopVirtualizationInstance()
      modifies this`projfs, this`native
      ensures projfs == None
      ensures old(projfs).None? ==> native == old(native)
      ensures old(projfs).Some? ==> native == old(native) + [StopFs(old(projfs).value)]
    {
      if projfs.None? {
        return;
      }
      native := native + [StopFs(projfs.value)];
      projfs := None;
    }
  }
}
