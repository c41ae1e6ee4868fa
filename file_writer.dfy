/**
 * Writing a content-fill buffer to the file descriptor the driver handed
 * over. One `write` may transfer fewer bytes than asked for, so the writer
 * loops until every byte is out or a write fails.
 */
module FileWriter {
  import opened Types

  /**
   * What the loop relies on to terminate and stay inside the buffer: for a
   * non-empty request `write` fails with -1 or transfers between 1 and the
   * requested number of bytes. The loop itself checks neither a 0 return
   * nor an oversized one. `write(fd, offset, count)` is the return value of
   * writing `count` bytes starting at `offset` of the buffer.
   */
  ghost predicate WriteProgresses(write: (int, nat, nat) -> int, fd: int)
  {
    forall offset: nat, count: nat :: count > 0 ==>
      write(fd, offset, count) == -1 || 1 <= write(fd, offset, count) <= count
  }

  /** Reference definition: every write from `offset` on, until `remaining` reaches 0, succeeds. */
  ghost function Drains(write: (int, nat, nat) -> int, fd: int, offset: nat, remaining: nat): bool
    requires WriteProgresses(write, fd)
    decreases remaining
  {
    if remaining == 0 then true
    else
      var n := write(fd, offset, remaining);
      if n == -1 then false else Drains(write, fd, offset + n, remaining - n)
  }

  /**
   * NativeFileWriter.TryWrite: writes the first `byteCount` bytes of
   * `bytes`; `sent` is what reached the file descriptor.
   */
  method TryWrite(fd: int, bytes: seq<byte>, byteCount: nat, write: (int, nat, nat) -> int)
    returns (ok: bool, sent: seq<byte>)
    requires byteCount <= |bytes|
    requires WriteProgresses(write, fd)
    ensures ok == Drains(write, fd, 0, byteCount)
    ensures ok ==> sent == bytes[..byteCount]
    ensures !ok ==> |sent| < byteCount && sent == bytes[..|sent|]
  {
    var index: nat := 0;
    var count: nat := byteCount;
    sent := [];
    while count > 0
      invariant index + count == byteCount
      invariant sent == bytes[..index]
      invariant Drains(write, fd, index, count) == Drains(write, fd, 0, byteCount)
      decreases count
    {
      var res := write(fd, index, count);
      if res == -1 {
        return false, sent;
      }
      sent := sent + bytes[index..index + res];
      index := index + res;
      count := count - res;
    }
    ok := true;
  }

  /** WriteFileContents: a failed write becomes EIOError. */
  method WriteFileContents(fd: int, bytes: seq<byte>, byteCount: nat, write: (int, nat, nat) -> int)
    returns (r: Result)
    requires byteCount <= |bytes|
    requires WriteProgresses(write, fd)
    ensures r == Success || r == EIOError
    ensures r == Success <==> Drains(write, fd, 0, byteCount)
  {
    var ok, _ := TryWrite(fd, bytes, byteCount, write);
    r := if ok then Success else EIOError;
  }
}
