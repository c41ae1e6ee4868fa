/**
 * The event dispatcher of the virtualization instance: it turns one driver
 * event into at most one provider callback and an int for the driver.
 * One dispatcher serves both instance variants; `Variant` names the one
 * place where they differ (the session check in HandleProjEvent).
 */
module Dispatch {
  import opened Types

  /** The event-mask bits the dispatcher tests, as distinct abstract flags. */
  datatype Flag = OnDir | OnLink | DeletePerm | CloseWrite | Create | Move | OpenPerm

  /** One notification from the driver. */
  datatype Event = Event(pid: int, mask: set<Flag>, path: string, targetPath: string, fd: int)

  datatype NotificationType =
    | PreDelete
    | FileModified
    | NewFileCreated
    | FileRenamed
    | HardLinkCreated
    | PreConvertToFull

  /** A provider callback together with the arguments it was invoked with. */
  datatype Callback =
    | OnEnumerateDirectory(commandId: nat, path: string, triggeringProcessId: int, triggeringProcessName: string)
    | OnGetFileStream(commandId: nat, path: string, providerId: seq<byte>, contentId: seq<byte>,
                      triggeringProcessId: int, triggeringProcessName: string, fd: int)
    | OnPreDelete(path: string, isDirectory: bool)
    | OnFileModified(path: string)
    | OnNewFileCreated(path: string, isDirectory: bool)
    | OnFileRenamed(path: string, isDirectory: bool)
    | OnHardLinkCreated(path: string)
    | OnFilePreConvertToFull(path: string)

  /**
   * The driver's answer to a placeholder attribute query: its Result and the
   * contents of the two PlaceholderIdLength-byte buffers the handler
   * allocated for it to fill.
   */
  datatype AttrsReply = AttrsReply(result: Result, providerId: PlaceholderId, contentId: PlaceholderId)

  /**
   * Everything outside the dispatcher that it consults: native constants,
   * the provider's answer to each callback, the driver's attribute query and
   * the contents of /proc/<pid>/cmdline (None when reading it throws).
   */
  datatype Env = Env(
    native: Native,
    provider: Callback -> Result,
    attrs: string -> AttrsReply,
    cmdline: int -> Option<string>)

  /** LinuxInstance checks for a live session in HandleProjEvent; LegacyInstance does not. */
  datatype Variant = LinuxInstance | LegacyInstance

  /** What handling an event did: the callback it made, if any, and the int returned to the driver. */
  datatype Reply =
    | Reply(callback: Option<Callback>, code: int)
    | Crashed(exception: Exception)

  // ---------------------------------------------------------------------------
  // Process name

  /** The text before the first NUL character (all of it when there is none). */
  function FirstField(s: string): (r: string)
    ensures r <= s
    ensures '\0' !in r
    ensures |r| < |s| ==> s[|r|] == '\0'
  {
    if s == [] || s[0] == '\0' then [] else [s[0]] + FirstField(s[1..])
  }

  /** The triggering process's name: the first field of its cmdline, or "" when it cannot be read. */
  function GetProcCmdline(contents: Option<string>): (name: string)
    ensures contents.None? ==> name == ""
    ensures contents.Some? ==> name <= contents.value && '\0' !in name
    ensures contents.Some? && '\0' !in contents.value ==> name == contents.value
    ensures contents.Some? && '\0' in contents.value ==> |name| < |contents.value| && contents.value[|name|] == '\0'
  {
    match contents
    case None => ""
    case Some(text) => FirstField(text)
  }

  // ---------------------------------------------------------------------------
  // Classification of notification and permission events

  /** The mask condition under which an event is of kind `k`, taken on its own. */
  predicate Matches(k: NotificationType, mask: set<Flag>)
  {
    match k
    case PreDelete => DeletePerm in mask
    case FileModified => CloseWrite in mask
    case NewFileCreated => Create in mask && OnLink !in mask
    case FileRenamed => Move in mask
    case HardLinkCreated => Create in mask && OnLink in mask
    case PreConvertToFull => OpenPerm in mask
  }

  /** The order in which the kinds are tried. */
  const Priority: seq<NotificationType> :=
    [PreDelete, FileModified, NewFileCreated, FileRenamed, HardLinkCreated, PreConvertToFull]

  /** Reference definition: the first kind of `order` whose condition the mask meets. */
  function FirstMatching(order: seq<NotificationType>, mask: set<Flag>): Option<NotificationType>
  {
    if order == [] then None
    else if Matches(order[0], mask) then Some(order[0])
    else FirstMatching(order[1..], mask)
  }

  lemma {:induction false} FirstMatchingIsFirst(order: seq<NotificationType>, mask: set<Flag>, k: NotificationType)
    ensures FirstMatching(order, mask) == Some(k) <==>
      exists i :: 0 <= i < |order| && order[i] == k && Matches(k, mask) &&
        forall j :: 0 <= j < i ==> !Matches(order[j], mask)
  {
    if order != [] {
      FirstMatchingIsFirst(order[1..], mask, k);
      if FirstMatching(order, mask) == Some(k) && !Matches(order[0], mask) {
        var i :| 0 <= i < |order[1..]| && order[1..][i] == k && Matches(k, mask) &&
          forall j :: 0 <= j < i ==> !Matches(order[1..][j], mask);
        assert order[i + 1] == k;
        assert forall j :: 0 <= j < i + 1 ==> !Matches(order[j], mask) by {
          forall j | 0 <= j < i + 1 ensures !Matches(order[j], mask) {
            if j > 0 { assert order[j] == order[1..][j - 1]; }
          }
        }
      }
      if exists i :: 0 <= i < |order| && order[i] == k && Matches(k, mask) &&
          forall j :: 0 <= j < i ==> !Matches(order[j], mask) {
        var i :| 0 <= i < |order| && order[i] == k && Matches(k, mask) &&
          forall j :: 0 <= j < i ==> !Matches(order[j], mask);
        if i > 0 {
          assert !Matches(order[0], mask);
          assert order[1..][i - 1] == k;
          assert forall j :: 0 <= j < i - 1 ==> !Matches(order[1..][j], mask) by {
            forall j | 0 <= j < i - 1 ensures !Matches(order[1..][j], mask) {
              assert order[1..][j] == order[j + 1];
            }
          }
        }
      }
    }
  }

  lemma {:induction false} FirstMatchingNone(order: seq<NotificationType>, mask: set<Flag>)
    ensures FirstMatching(order, mask).None? <==> forall i :: 0 <= i < |order| ==> !Matches(order[i], mask)
  {
    if order != [] {
      FirstMatchingNone(order[1..], mask);
      assert forall i :: 1 <= i < |order| ==> order[i] == order[1..][i - 1];
    }
  }

  lemma PriorityUnrolled(mask: set<Flag>)
    ensures FirstMatching(Priority, mask) ==
      if Matches(PreDelete, mask) then Some(PreDelete)
      else if Matches(FileModified, mask) then Some(FileModified)
      else if Matches(NewFileCreated, mask) then Some(NewFileCreated)
      else if Matches(FileRenamed, mask) then Some(FileRenamed)
      else if Matches(HardLinkCreated, mask) then Some(HardLinkCreated)
      else if Matches(PreConvertToFull, mask) then Some(PreConvertToFull)
      else None
  {
    var s5 := [PreConvertToFull];
    var s4 := [HardLinkCreated] + s5;
    var s3 := [FileRenamed] + s4;
    var s2 := [NewFileCreated] + s3;
    var s1 := [FileModified] + s2;
    assert Priority == [PreDelete] + s1;
    assert s5[1..] == [] && s4[1..] == s5 && s3[1..] == s4 && s2[1..] == s3 && s1[1..] == s2;
    assert FirstMatching(s5, mask) == if Matches(PreConvertToFull, mask) then Some(PreConvertToFull) else None;
    assert FirstMatching(s4, mask) == if Matches(HardLinkCreated, mask) then Some(HardLinkCreated) else FirstMatching(s5, mask);
    assert FirstMatching(s3, mask) == if Matches(FileRenamed, mask) then Some(FileRenamed) else FirstMatching(s4, mask);
    assert FirstMatching(s2, mask) == if Matches(NewFileCreated, mask) then Some(NewFileCreated) else FirstMatching(s3, mask);
    assert FirstMatching(s1, mask) == if Matches(FileModified, mask) then Some(FileModified) else FirstMatching(s2, mask);
    assert ([PreDelete] + s1)[1..] == s1;
  }

  /** The if-chain of HandleNonProjEvent: the kind of a notification or permission event. */
  function Classify(mask: set<Flag>): (r: Option<NotificationType>)
    ensures r == FirstMatching(Priority, mask)
    ensures r.Some? ==> Matches(r.value, mask)
    ensures r.None? <==> forall k :: !Matches(k, mask)
  {
    PriorityUnrolled(mask);
    if DeletePerm in mask then Some(PreDelete)
    else if CloseWrite in mask then Some(FileModified)
    else if Create in mask && OnLink !in mask then Some(NewFileCreated)
    else if Move in mask then Some(FileRenamed)
    else if Create in mask && OnLink in mask then Some(HardLinkCreated)
    else if OpenPerm in mask then Some(PreConvertToFull)
    else None
  }

  /** Every kind appears in the priority order, exactly once. */
  lemma PriorityListsEveryKindOnce(k: NotificationType)
    ensures k in Priority
    ensures forall i, j :: 0 <= i < j < |Priority| ==> Priority[i] != Priority[j]
  {
  }

  /** Classification picks the kind at position i of the order exactly when it matches and no earlier kind does. */
  lemma ClassifyIsFirstMatch(mask: set<Flag>, i: nat)
    requires i < |Priority|
    ensures Classify(mask) == Some(Priority[i]) <==>
      Matches(Priority[i], mask) && forall j :: 0 <= j < i ==> !Matches(Priority[j], mask)
  {
    FirstMatchingIsFirst(Priority, mask, Priority[i]);
    PriorityListsEveryKindOnce(Priority[i]);
  }

  /** The path a notification kind is reported with: the target for renames and hard links. */
  function ReportedPath(k: NotificationType, ev: Event): string
  {
    if k == FileRenamed || k == HardLinkCreated then ev.targetPath else ev.path
  }

  /** The callback a notification kind invokes, with the arguments it forwards. */
  function NotifyCallback(k: NotificationType, path: string, isDirectory: bool): Callback
  {
    match k
    case PreDelete => OnPreDelete(path, isDirectory)
    case FileModified => OnFileModified(path)
    case NewFileCreated => OnNewFileCreated(path, isDirectory)
    case FileRenamed => OnFileRenamed(path, isDirectory)
    case HardLinkCreated => OnHardLinkCreated(path)
    case PreConvertToFull => OnFilePreConvertToFull(path)
  }

  /** True of the two kinds whose callback can refuse the operation. */
  predicate CanDeny(k: NotificationType)
  {
    k == PreDelete || k == PreConvertToFull
  }

  /** Runs the callback of kind `k`; fire-and-forget kinds report Success whatever the callback does. */
  function OnNotifyOperation(provider: Callback -> Result, path: string, isDirectory: bool, k: NotificationType)
    : (r: (Callback, Result))
    ensures r.0 == NotifyCallback(k, path, isDirectory)
    ensures r.0.path == path
    ensures CanDeny(k) ==> r.1 == provider(r.0)
    ensures !CanDeny(k) ==> r.1 == Success
  {
    var c := NotifyCallback(k, path, isDirectory);
    match k
    case PreDelete => (c, provider(c))
    case FileModified => (c, Success)
    case NewFileCreated => (c, Success)
    case FileRenamed => (c, Success)
    case HardLinkCreated => (c, Success)
    case PreConvertToFull => (c, provider(c))
  }

  /** On a permission event, 0 becomes the explicit allow and -EPERM the explicit deny. */
  function PermReply(n: Native, ret: int): int
  {
    if ret == 0 then n.projfsAllow
    else if ret == -n.eperm then n.projfsDeny
    else ret
  }

  // ---------------------------------------------------------------------------
  // The two handlers

  /** Handles a directory-enumeration or content-fill event. */
  function HandleProjEvent(v: Variant, self: int, session: bool, ev: Event, env: Env): (r: Reply)
    // events of the instance's own process are ignored
    ensures ev.pid == self ==> r == Reply(None, 0)
    ensures ev.pid != self && v == LinuxInstance && !session ==>
      r == Reply(None, -env.native.toErrno(EDriverNotLoaded))
    // a directory event enumerates, forwarding path and process unchanged
    ensures ev.pid != self && (session || v == LegacyInstance) && OnDir in ev.mask ==>
      var name := GetProcCmdline(env.cmdline(ev.pid));
      var c := OnEnumerateDirectory(0, ev.path, ev.pid, name);
      r == Reply(Some(c), -env.native.toErrno(env.provider(c)))
    // a content event asks the provider for the stream only if the attribute query succeeded
    ensures ev.pid != self && session && OnDir !in ev.mask ==>
      var a := env.attrs(ev.path);
      r.Reply? && (r.callback.Some? <==> a.result == Success) &&
      (a.result != Success ==> r.code == -env.native.toErrno(a.result)) &&
      (a.result == Success ==>
        r.callback.value == OnGetFileStream(0, ev.path, a.providerId, a.contentId, ev.pid,
                                            GetProcCmdline(env.cmdline(ev.pid)), ev.fd) &&
        |r.callback.value.providerId| == PlaceholderIdLength &&
        |r.callback.value.contentId| == PlaceholderIdLength &&
        r.code == -env.native.toErrno(env.provider(r.callback.value)))
    // only the legacy variant can reach the driver without a session
    ensures r.Crashed? <==> ev.pid != self && v == LegacyInstance && !session && OnDir !in ev.mask
  {
    if ev.pid == self then Reply(None, 0)
    else if v == LinuxInstance && !session then Reply(None, -env.native.toErrno(EDriverNotLoaded))
    else
      var name := GetProcCmdline(env.cmdline(ev.pid));
      if OnDir in ev.mask then
        var c := OnEnumerateDirectory(0, ev.path, ev.pid, name);
        Reply(Some(c), -env.native.toErrno(env.provider(c)))
      else if !session then assert v == LegacyInstance; Crashed(NullReference)
      else
        var a := env.attrs(ev.path);
        if a.result == Success then
          var c := OnGetFileStream(0, ev.path, a.providerId, a.contentId, ev.pid, name, ev.fd);
          Reply(Some(c), -env.native.toErrno(env.provider(c)))
        else Reply(None, -env.native.toErrno(a.result))
  }

  /** Handles a notification (`perm` false) or permission (`perm` true) event. */
  function HandleNonProjEvent(self: int, ev: Event, perm: bool, env: Env): (r: Reply)
    ensures r.Reply?
    // events of the instance's own process are allowed without a callback
    ensures ev.pid == self ==> r == Reply(None, if perm then env.native.projfsAllow else 0)
    // an unrecognised mask is a no-op
    ensures ev.pid != self ==> (r.callback.None? <==> forall k :: !Matches(k, ev.mask))
    ensures ev.pid != self && r.callback.None? ==> r.code == 0
    // otherwise exactly the callback of the first matching kind runs
    ensures ev.pid != self && r.callback.Some? ==>
      var k := Classify(ev.mask).value;
      r.callback.value == NotifyCallback(k, ReportedPath(k, ev), OnDir in ev.mask) &&
      var ret := if CanDeny(k) then -env.native.toErrno(env.provider(r.callback.value))
                 else -env.native.toErrno(Success);
      r.code == if perm then PermReply(env.native, ret) else ret
  {
    if ev.pid == self then Reply(None, if perm then env.native.projfsAllow else 0)
    else match Classify(ev.mask)
      case None => Reply(None, 0)
      case Some(k) =>
        var isDirectory := OnDir in ev.mask;
        var (c, result) := OnNotifyOperation(env.provider, ReportedPath(k, ev), isDirectory, k);
        var ret := -env.native.toErrno(result);
        Reply(Some(c), if perm then PermReply(env.native, ret) else ret)
  }

  /** Renames and hard links are reported with the event's target path, never its source path. */
  lemma RenameReportsTarget(self: int, ev: Event, perm: bool, env: Env)
    requires ev.pid != self
    requires Classify(ev.mask) == Some(FileRenamed) || Classify(ev.mask) == Some(HardLinkCreated)
    ensures var r := HandleNonProjEvent(self, ev, perm, env);
      r.Reply? && r.callback.Some? && r.callback.value.path == ev.targetPath
  {
  }

  /**
   * The two variants differ only while no session is held: with a session
   * they answer every event alike, and without one the newer variant
   * answers EDriverNotLoaded where the older one crashes or enumerates.
   */
  lemma VariantsAgreeWithSession(self: int, ev: Event, env: Env)
    ensures HandleProjEvent(LinuxInstance, self, true, ev, env) == HandleProjEvent(LegacyInstance, self, true, ev, env)
    ensures ev.pid != self ==>
      HandleProjEvent(LinuxInstance, self, false, ev, env) == Reply(None, -env.native.toErrno(EDriverNotLoaded)) &&
      (HandleProjEvent(LegacyInstance, self, false, ev, env).Crashed? <==> OnDir !in ev.mask)
  {
  }

  /**
   * With Success mapped to 0, a permission event is allowed whenever the
   * provider does not object: a fire-and-forget kind always, and a kind
   * that can refuse when its callback answers Success. A notification event
   * of a fire-and-forget kind answers 0.
   */
  lemma PermissionAllowedUnlessRefused(self: int, ev: Event, env: Env)
    requires SuccessIsZero(env.native)
    requires ev.pid != self && Classify(ev.mask).Some?
    ensures var k := Classify(ev.mask).value;
      var r := HandleNonProjEvent(self, ev, true, env);
      r.callback.Some? &&
      (!CanDeny(k) || env.provider(r.callback.value) == Success ==> r.code == env.native.projfsAllow)
    ensures !CanDeny(Classify(ev.mask).value) ==> HandleNonProjEvent(self, ev, false, env).code == 0
  {
  }
}
