/**
 One open file descriptor.  FileX opens a file either for reading or for
 writing, so the descriptor closes and reopens it when the direction changes.
 Every FileX call may fail, and then changes nothing.  Every operation is proved to
 act on a plain (contents, position) file or, if it fails, not at all, unless one
 of its calls fails silently, or one that restores the position or writes zeros
 fails.
 */
module DescriptorIO {
  import opened Arithmetic
  import opened Errors
  import opened Wrappers
  import opened Filex

  type Byte = bv8

  // ----- The plain file

  datatype Flags = Flags(readable: bool, writable: bool, append: bool, limit: nat)

  datatype Plain = Plain(contents: seq<Byte>, position: nat)

  datatype Origin = SeekSet | SeekCur | SeekEnd | OtherOrigin

  datatype Op =
    | Read(length: int)
    | Write(data: seq<Byte>)
    | Seek(offset: int, origin: Origin)
    | Truncate(length: int)

  datatype Reply =
    | Failed(errno: Errno)
    | Data(data: seq<Byte>)
    | Count(n: nat)
    | Done

  function Zeros(n: nat): seq<Byte> { seq(n, _ => 0) }

  /** contents with data laid over it from position at on. */
  function Overlay(contents: seq<Byte>, at: nat, data: seq<Byte>): seq<Byte>
    requires at <= |contents|
  {
    contents[..at] + data + (if at + |data| < |contents| then contents[at + |data|..] else [])
  }

  /** Where a seek leads, or why it is refused. */
  function Target(f: Plain, limit: nat, offset: int, origin: Origin): (Errno, nat) {
    if origin.OtherOrigin? then (EINVAL, 0)
    else
      var base := match origin
                  case SeekSet => 0
                  case SeekCur => f.position
                  case _ => |f.contents|;
      if base > limit then (EOVERFLOW, 0)
      else if offset >= 0 then
        if offset > limit - base then (EOVERFLOW, 0) else (EOK, base + offset)
      else if -offset > base then (EINVAL, 0)
      else (EOK, base + offset)
  }

  /** Seeks stay within the file. */
  predicate InFile(f: Plain, flags: Flags, op: Op) {
    op.Seek? ==> Target(f, flags.limit, op.offset, op.origin).1 <= |f.contents|
  }

  function Spec(f: Plain, flags: Flags, op: Op): (Plain, Reply)
    requires f.position <= |f.contents|
  {
    match op
    case Read(length) =>
      if length < 0 then (f, Failed(EINVAL))
      else if !flags.readable then (f, Failed(EBADF))
      else
        var next := Min(f.position + length, |f.contents|);
        (f.(position := next), Data(f.contents[f.position..next]))
    case Write(data) =>
      if !flags.writable then (f, Failed(EBADF))
      else if data == [] then (f, Count(0))
      else
        var at := if flags.append then |f.contents| else f.position;
        (Plain(Overlay(f.contents, at, data), at + |data|), Count(|data|))
    case Seek(offset, origin) =>
      var (error, target) := Target(f, flags.limit, offset, origin);
      if error != EOK then (f, Failed(error)) else (f.(position := target), Count(target))
    case Truncate(length) =>
      if length < 0 then (f, Failed(EINVAL))
      else if !flags.writable then (f, Failed(EBADF))
      else
        var contents := if length <= |f.contents| then f.contents[..length]
                        else f.contents + Zeros(length - |f.contents|);
        (Plain(contents, Min(f.position, length)), Done)
  }

  /** The plain file never has its position beyond its end. */
  lemma SpecStaysInFile(f: Plain, flags: Flags, op: Op)
    requires f.position <= |f.contents| && InFile(f, flags, op)
    ensures Spec(f, flags, op).0.position <= |Spec(f, flags, op).0.contents|
  {
  }

  predicate RunInFile(f: Plain, flags: Flags, ops: seq<Op>)
    requires f.position <= |f.contents|
    decreases |ops|
  {
    ops == [] ||
    (InFile(f, flags, ops[0]) &&
     (SpecStaysInFile(f, flags, ops[0]); RunInFile(Spec(f, flags, ops[0]).0, flags, ops[1..])))
  }

  function SpecRun(f: Plain, flags: Flags, ops: seq<Op>): (Plain, seq<Reply>)
    requires f.position <= |f.contents| && RunInFile(f, flags, ops)
    decreases |ops|
  {
    if ops == [] then (f, [])
    else
      SpecStaysInFile(f, flags, ops[0]);
      var (g, reply) := Spec(f, flags, ops[0]);
      var (h, replies) := SpecRun(g, flags, ops[1..]);
      (h, [reply] + replies)
  }

  /** One operation on a file that may fail: it then changes nothing, but a failed
      append may leave the position at the end. */
  predicate StepMay(f: Plain, flags: Flags, op: Op, g: Plain, reply: Reply) {
    && f.position <= |f.contents|
    && (|| (g, reply) == Spec(f, flags, op)
        || (reply.Failed? && (g == f || (op.Write? && flags.append && g == f.(position := |f.contents|)))))
  }

  /** The files between the operations of a run with failures, up to the first seek
      beyond the end of the file. */
  ghost predicate Refines(files: seq<Plain>, flags: Flags, ops: seq<Op>, replies: seq<Reply>)
    decreases |ops|
  {
    && |files| == |ops| + 1 && |replies| == |ops|
    && (ops != [] && InFile(files[0], flags, ops[0]) ==>
          StepMay(files[0], flags, ops[0], files[1], replies[0]) && Refines(files[1..], flags, ops[1..], replies[1..]))
  }

  /** There is no such seek. */
  predicate StaysInFile(files: seq<Plain>, flags: Flags, ops: seq<Op>)
    requires |files| == |ops| + 1
    decreases |ops|
  {
    ops == [] || (InFile(files[0], flags, ops[0]) && StaysInFile(files[1..], flags, ops[1..]))
  }

  // ----- Laws of the plain file

  /** A read delivers as many bytes as it was asked for, or all that are left, from the
      position on, and moves the position behind them. */
  lemma ReadLaw(f: Plain, flags: Flags, length: int)
    requires f.position <= |f.contents|
    ensures length < 0 ==> Spec(f, flags, Read(length)) == (f, Failed(EINVAL))
    ensures length >= 0 && !flags.readable ==> Spec(f, flags, Read(length)) == (f, Failed(EBADF))
    ensures length >= 0 && flags.readable ==>
      var (g, reply) := Spec(f, flags, Read(length));
      && reply.Data? && |reply.data| <= length && f.position + |reply.data| <= |f.contents|
      && (|reply.data| == length || f.position + |reply.data| == |f.contents|)
      && (forall k :: 0 <= k < |reply.data| ==> reply.data[k] == f.contents[f.position + k])
      && g == f.(position := f.position + |reply.data|)
  {
  }

  /** A write of nothing does nothing. */
  lemma WriteLaw(f: Plain, flags: Flags, data: seq<Byte>)
    requires f.position <= |f.contents|
    ensures !flags.writable ==> Spec(f, flags, Write(data)) == (f, Failed(EBADF))
    ensures flags.writable && data == [] ==> Spec(f, flags, Write(data)) == (f, Count(0))
    ensures flags.writable && data != [] ==>
      var (g, reply) := Spec(f, flags, Write(data));
      var at := if flags.append then |f.contents| else f.position;
      && reply == Count(|data|) && g.position == at + |data|
      && |g.contents| == (if at + |data| > |f.contents| then at + |data| else |f.contents|)
      && forall k :: 0 <= k < |g.contents| ==>
           g.contents[k] == if at <= k < at + |data| then data[k - at] else f.contents[k]
  {
  }

  /** A truncation keeps what is left of the contents, fills up with zeros, and moves
      the position back to the end if it was beyond. */
  lemma TruncateLaw(f: Plain, flags: Flags, length: int)
    requires f.position <= |f.contents|
    ensures length < 0 ==> Spec(f, flags, Truncate(length)) == (f, Failed(EINVAL))
    ensures length >= 0 && !flags.writable ==> Spec(f, flags, Truncate(length)) == (f, Failed(EBADF))
    ensures length >= 0 && flags.writable ==>
      var (g, reply) := Spec(f, flags, Truncate(length));
      && reply == Done && |g.contents| == length
      && (forall k :: 0 <= k < length ==> g.contents[k] == if k < |f.contents| then f.contents[k] else 0)
      && g.position == if f.position > length then length else f.position
  {
  }

  /** What a seek from this base answers. */
  predicate Lands(base: nat, offset: int, limit: nat, reply: Reply) {
    if base > limit || base + offset > limit then reply == Failed(EOVERFLOW)
    else if base + offset < 0 then reply == Failed(EINVAL)
    else reply == Count(base + offset)
  }

  /** A seek goes to the offset, to the position plus the offset or to the end plus the
      offset, if that is neither negative nor beyond the limit. */
  lemma SeekLaw(f: Plain, flags: Flags, offset: int, origin: Origin)
    requires f.position <= |f.contents|
    ensures var (g, reply) := Spec(f, flags, Op.Seek(offset, origin));
      && (origin.SeekSet? ==> Lands(0, offset, flags.limit, reply))
      && (origin.SeekCur? ==> Lands(f.position, offset, flags.limit, reply))
      && (origin.SeekEnd? ==> Lands(|f.contents|, offset, flags.limit, reply))
      && (origin.OtherOrigin? ==> reply == Failed(EINVAL))
      && g.contents == f.contents && g.position == if reply.Count? then reply.n else f.position
  {
  }

  /** What was written is read back, and nothing else changes. */
  lemma WriteThenRead(f: Plain, flags: Flags, data: seq<Byte>)
    requires f.position <= |f.contents| && flags.readable && flags.writable && data != []
    ensures var at := if flags.append then |f.contents| else f.position;
      var g := Spec(f, flags, Write(data)).0;
      && g.position == at + |data|
      && Spec(g.(position := at), flags, Read(|data|)).1 == Data(data)
      && g.contents[..at] == f.contents[..at]
      && (forall k :: at + |data| <= k < |f.contents| ==> k < |g.contents| && g.contents[k] == f.contents[k])
      && |g.contents| == (if at + |data| <= |f.contents| then |f.contents| else at + |data|)
  {
    var at := if flags.append then |f.contents| else f.position;
    var g := Spec(f, flags, Write(data)).0;
    assert g.contents[at..at + |data|] == data;
    assert g.contents[..at] == f.contents[..at];
  }

  // ----- The descriptor over FileX

  datatype Mode = Closed | ForRead | ForWrite

  /** The FileX calls of a descriptor.  The last four restore a position or extend
      the file. */
  datatype Call =
    | Close | Open | ReadCall | WriteCall | SeekCall | CutCall | EndSeek
    | Reseek | AppendSeek | FinalSeek | ZeroWrite

  predicate Critical(c: Call) { c.Reseek? || c.AppendSeek? || c.FinalSeek? || c.ZeroWrite? }

  function Failing(fault: Option<Failure>): nat { if fault.Some? then 1 else 0 }

  /** A failure does harm if it is silent or the call is critical. */
  function Harming(c: Call, fault: Option<Failure>): nat {
    if fault.Some? && (Silent(fault) || Critical(c)) then 1 else 0
  }

  /** What is counted: every failure, and as harm every silent one and those of the seeks
      that restore a position and of the writes of zeros. */
  lemma CountsAre(c: Call, fault: Option<Failure>)
    ensures Failing(fault) == 0 <==> fault.None?
    ensures Harming(c, fault) == 0 <==>
      fault.None? || (fault != Some(FX_END_OF_FILE) && fault != Some(FX_NO_MORE_ENTRIES) &&
                      !c.Reseek? && !c.AppendSeek? && !c.FinalSeek? && !c.ZeroWrite?)
  {
  }

  lemma ZerosAdd(n: nat, m: nat)
    ensures Zeros(n) + Zeros(m) == Zeros(n + m)
  {
  }

  /** Writing on where the last write ended. */
  lemma OverlayTwice(contents: seq<Byte>, at: nat, a: seq<Byte>, b: seq<Byte>)
    requires at <= |contents|
    ensures Overlay(Overlay(contents, at, a), at + |a|, b) == Overlay(contents, at, a + b)
  {
  }

  lemma OverlayNothing(contents: seq<Byte>, at: nat)
    requires at <= |contents|
    ensures Overlay(contents, at, Zeros(0)) == contents
  {
  }

  lemma OverlayAtEnd(contents: seq<Byte>, data: seq<Byte>)
    ensures Overlay(contents, |contents|, data) == contents + data
  {
  }

  class Descriptor {
    const flags: Flags
    /** The n-th FileX call, if it is a call c, fails with faults(n, c). */
    const faults: (nat, Call) -> Option<Failure>
    /** Where the n-th call leads if it is a seek beyond the end of the file. */
    const beyond: nat -> nat
    var calls: nat
    /** The file on the medium. */
    var contents: seq<Byte>
    /** fx_file_current_file_offset and fx_file_current_file_size. */
    var offset: nat
    var size: nat
    /** The fields of FileDescriptor. */
    var position: nat
    var mode: Mode
    /** History: how many calls have failed, and how many of them did harm. */
    ghost var failed: nat
    ghost var harmed: nat

    /** Holds whatever fails. */
    ghost predicate Valid()
      reads this
    {
      offset <= |contents| && size <= |contents| && (mode != Closed ==> size == |contents|)
    }

    /** The position is in the file, and FileX stands there. */
    ghost predicate Synced()
      reads this
    {
      position <= |contents| && (mode != Closed ==> offset == position)
    }

    function File(): Plain
      reads this
    {
      Plain(contents, position)
    }

    /** The history has gone on from these numbers. */
    ghost predicate Since(failed0: nat, harmed0: nat)
      reads this
    {
      0 <= harmed - harmed0 <= failed - failed0
    }

    /** The seek back in a switch of mode that starts with call n. */
    function SeekBack(n: nat, mode': Mode): nat { if mode' == Closed then n + 1 else n + 2 }

    /** From call n on, the switch closes the file, if it is open, and opens it, but the
        seek back to the position fails. */
    ghost predicate Lost(n: nat, mode': Mode, requested: Mode) {
      && requested != mode' && (mode' != Closed ==> faults(n, Close).None?)
      && faults(SeekBack(n, mode') - 1, Open).None? && faults(SeekBack(n, mode'), Reseek).Some?
    }

    /** It fails with an error. */
    ghost predicate LostLoudly(n: nat, mode': Mode, requested: Mode) {
      Lost(n, mode', requested) && !Silent(faults(SeekBack(n, mode'), Reseek))
    }

    /** _open of an existing or just created file, without failures. */
    constructor (contents: seq<Byte>, flags: Flags, truncate: bool, faults: (nat, Call) -> Option<Failure>,
      beyond: nat -> nat)
      ensures Valid() && Synced() && this.flags == flags && this.faults == faults && this.beyond == beyond
      ensures calls == failed == harmed == 0
      ensures File() == if truncate && flags.writable then Plain([], 0)
                        else Plain(contents, if flags.append then |contents| else 0)
      ensures mode == if flags.writable then ForWrite else ForRead
    {
      this.flags, this.faults, this.beyond, calls := flags, faults, beyond, 0;
      this.contents := if truncate && flags.writable then [] else contents;
      position := if flags.append && !(truncate && flags.writable) then |contents| else 0;
      offset := if flags.append && !(truncate && flags.writable) then |contents| else 0;
      size := if truncate && flags.writable then 0 else |contents|;
      mode := if flags.writable then ForWrite else ForRead;
      failed, harmed := 0, 0;
    }

    /** Call n, a call c, has been added to the history. */
    ghost predicate Counted(c: Call, n: nat, failed0: nat, harmed0: nat)
      reads this
    {
      failed == failed0 + Failing(faults(n, c)) && harmed == harmed0 + Harming(c, faults(n, c))
    }

    /** Whether the next call, a call c, fails. */
    method Ask(c: Call) returns (status: FxStatus)
      modifies this`calls, this`failed, this`harmed
      ensures calls == old(calls) + 1 && Counted(c, old(calls), old(failed), old(harmed))
      ensures status.FX_SUCCESS? <==> faults(old(calls), c).None?
      ensures !status.FX_SUCCESS? ==> faults(old(calls), c) == Some(status)
    {
      var fault := faults(calls, c);
      calls, failed, harmed := calls + 1, failed + Failing(fault), harmed + Harming(c, fault);
      status := if fault.Some? then fault.value else FX_SUCCESS;
    }

    // ----- FileX

    method FxClose() returns (status: FxStatus)
      modifies this`calls, this`failed, this`harmed
      ensures calls == old(calls) + 1 && Counted(Close, old(calls), old(failed), old(harmed))
      ensures status.FX_SUCCESS? <==> faults(old(calls), Close).None?
      ensures !status.FX_SUCCESS? ==> faults(old(calls), Close) == Some(status)
    {
      status := Ask(Close);
    }

    method FxOpen() returns (status: FxStatus)
      modifies this`calls, this`failed, this`harmed, this`offset, this`size
      ensures calls == old(calls) + 1 && Counted(Open, old(calls), old(failed), old(harmed)) && offset == 0 &&
        size == if status.FX_SUCCESS? then |contents| else 0
      ensures status.FX_SUCCESS? <==> faults(old(calls), Open).None?
      ensures !status.FX_SUCCESS? ==> faults(old(calls), Open) == Some(status)
    {
      offset, size := 0, 0;            // the control block is cleared first
      status := Ask(Open);
      if status.FX_SUCCESS? {
        size := |contents|;
      }
    }

    method FxSeek(c: Call, target: nat) returns (status: FxStatus)
      requires Valid()
      modifies this`calls, this`failed, this`harmed, this`offset
      ensures Valid() && calls == old(calls) + 1 && Counted(c, old(calls), old(failed), old(harmed))
      ensures status.FX_SUCCESS? ==>
        mode != Closed && faults(old(calls), c).None? && (target <= |contents| ==> offset == target)
      ensures !status.FX_SUCCESS? ==> offset == old(offset)
      ensures faults(old(calls), c).Some? ==> faults(old(calls), c) == Some(status)
      ensures faults(old(calls), c).None? ==> status == if mode == Closed then FX_NOT_OPEN else FX_SUCCESS
    {
      status := Ask(c);
      if status.FX_SUCCESS? {
        if mode == Closed {
          return FX_NOT_OPEN;
        }
        offset := if target <= size then target else Min(beyond(calls - 1), size);
      }
    }

    /** Short at the end of the file, and empty with FX_END_OF_FILE beyond it. */
    method FxRead(length: nat) returns (status: FxStatus, data: seq<Byte>)
      requires offset <= |contents|
      modifies this`calls, this`failed, this`harmed, this`offset
      ensures calls == old(calls) + 1 && Counted(ReadCall, old(calls), old(failed), old(harmed)) && offset <= |contents|
      ensures status.FX_SUCCESS? ==>
        mode == ForRead && offset == Min(old(offset) + length, |contents|) && data == contents[old(offset)..offset]
      ensures !status.FX_SUCCESS? ==> offset == old(offset) && data == []
      ensures mode == ForRead ==> (status.FX_SUCCESS? <==> faults(old(calls), ReadCall).None?)
      ensures mode == ForRead && !status.FX_SUCCESS? ==> faults(old(calls), ReadCall) == Some(status)
    {
      data := [];
      status := Ask(ReadCall);
      if status.FX_SUCCESS? {
        if mode != ForRead {
          return FX_NOT_OPEN, [];
        }
        var next := Min(offset + length, |contents|);
        data := contents[offset..next];
        offset := next;
      }
    }

    method FxWrite(c: Call, data: seq<Byte>) returns (status: FxStatus)
      requires Valid()
      modifies this`calls, this`failed, this`harmed, this`contents, this`offset, this`size
      ensures calls == old(calls) + 1 && Counted(c, old(calls), old(failed), old(harmed)) && Valid()
      ensures status.FX_SUCCESS? ==>
        && mode == ForWrite && contents == Overlay(old(contents), old(offset), data)
        && offset == old(offset) + |data| && size == |contents|
      ensures !status.FX_SUCCESS? ==> contents == old(contents) && offset == old(offset) && size == old(size)
      ensures mode == ForWrite ==> (status.FX_SUCCESS? <==> faults(old(calls), c).None?)
      ensures mode == ForWrite && !status.FX_SUCCESS? ==> faults(old(calls), c) == Some(status)
    {
      status := Ask(c);
      if status.FX_SUCCESS? {
        if mode != ForWrite {
          return FX_NOT_OPEN;
        }
        contents := Overlay(contents, offset, data);
        offset := offset + |data|;
        size := |contents|;
      }
    }

    /** A truncation moves an offset beyond the new end to it. */
    method FxTruncate(length: nat) returns (status: FxStatus)
      requires Valid() && length <= |contents|
      modifies this`calls, this`failed, this`harmed, this`contents, this`offset, this`size
      ensures calls == old(calls) + 1 && Counted(CutCall, old(calls), old(failed), old(harmed)) && Valid()
      ensures status.FX_SUCCESS? ==>
        mode == ForWrite && contents == old(contents)[..length] && size == length && offset == Min(old(offset), length)
      ensures !status.FX_SUCCESS? ==> contents == old(contents) && offset == old(offset) && size == old(size)
      ensures mode == ForWrite ==> (status.FX_SUCCESS? <==> faults(old(calls), CutCall).None?)
      ensures mode == ForWrite && !status.FX_SUCCESS? ==> faults(old(calls), CutCall) == Some(status)
    {
      status := Ask(CutCall);
      if status.FX_SUCCESS? {
        if mode != ForWrite {
          return FX_NOT_OPEN;
        }
        contents := contents[..length];
        offset := Min(offset, length);
        size := length;
      }
    }

    // ----- The operations

    /** switch_mode.  Closing and reopening in the other direction is invisible, and if
        the closing or the opening fails the file is closed, at the same position.  FileX
        loses the position exactly if the seek back fails, and then it is at the start
        of the file. */
    method SwitchMode(requested: Mode) returns (error: Errno)
      requires Valid() && requested != Closed
      modifies this`calls, this`failed, this`harmed, this`offset, this`size, this`position, this`mode
      ensures Valid() && Since(old(failed), old(harmed))
      ensures position == if old(mode) == Closed || old(mode) == requested then old(position) else old(offset)
      ensures old(Synced()) ==>
        position == old(position) && (Synced() <==> !Lost(old(calls), old(mode), requested) || position == 0)
      ensures mode == requested || mode == Closed
      ensures error == EOK && harmed == old(harmed) ==> mode == requested
      ensures harmed == old(harmed) && old(Synced()) ==> Synced()
      ensures failed == old(failed) ==> error == EOK && mode == requested && (old(Synced()) ==> Synced())
      ensures old(mode) == requested ==>
        error == EOK && mode == requested && calls == old(calls) && offset == old(offset)
      ensures Lost(old(calls), old(mode), requested) ==>
        && calls == SeekBack(old(calls), old(mode)) + 1 && harmed > old(harmed) && mode == requested && offset == 0
        && error == FilexErrno(faults(SeekBack(old(calls), old(mode)), Reseek).value)
    {
      if mode == requested {
        return EOK;
      }
      var status;
      if mode != Closed {
        position := offset;
        status := FxClose();
        mode := Closed;
        if !status.FX_SUCCESS? {
          return FilexErrno(status);
        }
      }
      status := FxOpen();
      if !status.FX_SUCCESS? {
        return FilexErrno(status);
      }
      mode := requested;
      status := FxSeek(Reseek, position);
      error := FilexErrno(status);
    }

    /** The read after its checks. */
    method ReadOn(length: nat) returns (reply: Reply)
      requires Valid() && length > 0 && flags.readable
      modifies this`calls, this`failed, this`harmed, this`offset, this`size, this`position, this`mode
      ensures Valid() && Since(old(failed), old(harmed))
      ensures harmed == old(harmed) && old(Synced()) ==> StepMay(old(File()), flags, Op.Read(length), File(), reply)
      ensures failed == old(failed) && old(Synced()) ==> (File(), reply) == Spec(old(File()), flags, Op.Read(length))
      ensures old(Synced()) ==> (Synced() <==> !LostLoudly(old(calls), old(mode), ForRead) || position == 0)
      ensures harmed == old(harmed) ==> !LostLoudly(old(calls), old(mode), ForRead)
      ensures old(mode) == ForRead && faults(old(calls), ReadCall).None? ==>
        reply == Data(contents[old(offset)..Min(old(offset) + length, |contents|)])
      ensures Lost(old(calls), old(mode), ForRead) ==>
        var n := SeekBack(old(calls), old(mode));
        if Silent(faults(n, Reseek)) then
          faults(n + 1, ReadCall).None? ==> reply == Data(contents[..Min(length, |contents|)])
        else
          reply == Failed(FilexErrno(faults(n, Reseek).value)) && calls == n + 1 && mode == ForRead && offset == 0
    {
      var error := SwitchMode(ForRead);
      if error != EOK {
        return Failed(error);
      }
      var status, data := FxRead(length);
      position := offset;
      if !status.FX_SUCCESS? && !status.FX_END_OF_FILE? {
        return Failed(FilexErrno(status));
      }
      reply := Data(data);
    }

    /** _read.  FileX is afterwards not at the position exactly if a switch has lost it
        and reported that. */
    method Read(length: int) returns (reply: Reply)
      requires Valid()
      modifies this
      ensures Valid() && Since(old(failed), old(harmed)) && contents == old(contents)
      ensures harmed == old(harmed) && old(Synced()) ==>
        Synced() && StepMay(old(File()), flags, Op.Read(length), File(), reply)
      ensures failed == old(failed) && old(Synced()) ==>
        Synced() && (File(), reply) == Spec(old(File()), flags, Op.Read(length))
      ensures length > 0 && flags.readable && old(Synced()) ==>
        (Synced() <==> !LostLoudly(old(calls), old(mode), ForRead) || position == 0)
      // what is read without switching comes from where FileX stands
      ensures length > 0 && flags.readable && old(mode) == ForRead && faults(old(calls), ReadCall).None? ==>
        reply == Data(contents[old(offset)..Min(old(offset) + length, |contents|)])
      // a lost seek is reported once, unless it is silent
      ensures length > 0 && flags.readable && Lost(old(calls), old(mode), ForRead) ==>
        var n := SeekBack(old(calls), old(mode));
        if Silent(faults(n, Reseek)) then
          faults(n + 1, ReadCall).None? ==> reply == Data(contents[..Min(length, |contents|)])
        else
          reply == Failed(FilexErrno(faults(n, Reseek).value)) && calls == n + 1 && mode == ForRead && offset == 0
    {
      if length < 0 {
        return Failed(EINVAL);
      }
      if !flags.readable {
        return Failed(EBADF);
      }
      if length == 0 {
        assert position <= |contents| ==> contents[position..position] == [];
        return Data([]);
      }
      reply := ReadOn(length);
    }

    /** The seek of an append. */
    method SeekToEnd() returns (error: Errno)
      requires Valid()
      modifies this`calls, this`failed, this`harmed, this`offset, this`position
      ensures Valid() && calls == old(calls) + 1 && Counted(AppendSeek, old(calls), old(failed), old(harmed))
      ensures position == size
      ensures faults(old(calls), AppendSeek).None? && mode != Closed ==> error == EOK && offset == position
      ensures faults(old(calls), AppendSeek).Some? ==>
        error == FilexErrno(faults(old(calls), AppendSeek).value) && offset == old(offset)
    {
      position := size;
      var status := FxSeek(AppendSeek, position);
      error := FilexErrno(status);
    }

    /** The write itself. */
    method WriteHere(data: seq<Byte>) returns (reply: Reply)
      requires Valid()
      modifies this`calls, this`failed, this`harmed, this`contents, this`offset, this`size, this`position
      ensures Valid() && calls == old(calls) + 1 && Counted(WriteCall, old(calls), old(failed), old(harmed))
      ensures position == offset
      ensures mode == ForWrite && faults(old(calls), WriteCall).None? ==>
        contents == Overlay(old(contents), old(offset), data) && offset == old(offset) + |data| &&
          reply == Count(|data|)
      ensures faults(old(calls), WriteCall).Some? || mode != ForWrite ==>
        contents == old(contents) && offset == old(offset) && reply.Failed?
    {
      var status := FxWrite(WriteCall, data);
      position := offset;
      if !status.FX_SUCCESS? {
        return Failed(FilexErrno(status));
      }
      reply := Count(|data|);
    }

    /** The write after its checks. */
    method WriteOn(data: seq<Byte>) returns (reply: Reply)
      requires Valid() && data != [] && flags.writable
      modifies this`calls, this`failed, this`harmed, this`contents, this`offset, this`size, this`position, this`mode
      ensures Valid() && Since(old(failed), old(harmed))
      ensures harmed == old(harmed) && old(Synced()) ==>
        Synced() && StepMay(old(File()), flags, Op.Write(data), File(), reply)
      ensures failed == old(failed) && old(Synced()) ==>
        Synced() && (File(), reply) == Spec(old(File()), flags, Op.Write(data))
      ensures !flags.append && old(mode) == ForWrite && faults(old(calls), WriteCall).None? ==>
        && contents == Overlay(old(contents), old(offset), data) && position == offset == old(offset) + |data|
        && mode == ForWrite && calls == old(calls) + 1 && reply == Count(|data|)
      ensures flags.append && old(mode) == ForWrite ==>
        var fault := faults(old(calls), AppendSeek);
        && (fault.Some? && !Silent(fault) ==>
              && contents == old(contents) && position == |contents| && offset == old(offset) && mode == ForWrite
              && reply == Failed(FilexErrno(fault.value)))
        && (Silent(fault) && faults(old(calls) + 1, WriteCall).None? ==>
              && contents == Overlay(old(contents), old(offset), data) && position == offset == old(offset) + |data|
              && reply == Count(|data|))
    {
      var error := SwitchMode(ForWrite);
      if error == EOK && flags.append {
        error := SeekToEnd();
      }
      if error != EOK {
        return Failed(error);
      }
      reply := WriteHere(data);
    }

    /** _write. */
    method Write(data: seq<Byte>) returns (reply: Reply)
      requires Valid()
      modifies this
      ensures Valid() && Since(old(failed), old(harmed))
      ensures harmed == old(harmed) && old(Synced()) ==>
        Synced() && StepMay(old(File()), flags, Op.Write(data), File(), reply)
      ensures failed == old(failed) && old(Synced()) ==>
        Synced() && (File(), reply) == Spec(old(File()), flags, Op.Write(data))
      // writing on without switching is one call
      ensures flags.writable && data != [] && !flags.append && old(mode) == ForWrite ==>
        faults(old(calls), WriteCall).None? ==>
        && contents == Overlay(old(contents), old(offset), data) && position == offset == old(offset) + |data|
        && mode == ForWrite && calls == old(calls) + 1 && reply == Count(|data|)
      // an append that cannot seek moves the position only, or writes where FileX stands
      ensures flags.writable && data != [] && flags.append && old(mode) == ForWrite ==>
        var fault := faults(old(calls), AppendSeek);
        && (fault.Some? && !Silent(fault) ==>
              && contents == old(contents) && position == |contents| && offset == old(offset) && mode == ForWrite
              && reply == Failed(FilexErrno(fault.value)))
        && (Silent(fault) && faults(old(calls) + 1, WriteCall).None? ==>
              && contents == Overlay(old(contents), old(offset), data) && position == offset == old(offset) + |data|
              && reply == Count(|data|))
    {
      if !flags.writable {
        return Failed(EBADF);
      }
      if data == [] {
        return Count(0);
      }
      reply := WriteOn(data);
    }

    /** Where a seek leads, with the range checks. */
    method FindTarget(offset': int, origin: Origin) returns (error: Errno, target: nat)
      requires Valid()
      ensures mode != Closed ==> (error, target) == Target(File(), flags.limit, offset', origin)
    {
      var base := 0;
      match origin {
        case SeekSet =>
        case SeekCur => base := position;
        case SeekEnd => base := size;
        case OtherOrigin => return EINVAL, 0;
      }
      if base > flags.limit {
        return EOVERFLOW, 0;
      }
      if offset' >= 0 {
        if offset' > flags.limit - base {
          return EOVERFLOW, 0;
        }
        return EOK, base + offset';
      }
      var magnitude := -(offset' + 1) + 1;
      if magnitude > base {
        return EINVAL, 0;
      }
      return EOK, base - magnitude;
    }

    /** The seek itself.  In an open file it is one call of FileX, and the position
        becomes the target even if that is beyond the end. */
    method SeekOn(offset': int, origin: Origin) returns (reply: Reply)
      requires Valid()
      modifies this`calls, this`failed, this`harmed, this`offset, this`position
      ensures Valid() && Since(old(failed), old(harmed))
      ensures mode == Closed ==> reply.Failed? && position == old(position)
      ensures mode != Closed ==>
        var (error, target) := Target(old(File()), flags.limit, offset', origin);
        if error != EOK then
          && reply == Failed(error) && position == old(position) && offset == old(offset)
          && calls == old(calls) && failed == old(failed) && harmed == old(harmed)
        else
          && calls == old(calls) + 1 && Counted(SeekCall, old(calls), old(failed), old(harmed))
          && if faults(old(calls), SeekCall).None? then
               reply == Count(target) && position == target && (target <= |contents| ==> offset == target)
             else reply.Failed? && position == old(position) && offset == old(offset)
    {
      var error, target := FindTarget(offset', origin);
      if error != EOK {
        return Failed(error);
      }
      var status := FxSeek(SeekCall, target);
      if !status.FX_SUCCESS? {
        return Failed(FilexErrno(status));
      }
      position := target;
      reply := Count(target);
    }

    /** _lseek. */
    method Seek(offset': int, origin: Origin) returns (reply: Reply)
      requires Valid()
      modifies this
      ensures Valid() && Since(old(failed), old(harmed)) && contents == old(contents)
      ensures harmed == old(harmed) && old(Synced()) && InFile(old(File()), flags, Op.Seek(offset', origin)) ==>
        Synced() && StepMay(old(File()), flags, Op.Seek(offset', origin), File(), reply)
      ensures failed == old(failed) && old(Synced()) ==>
        && (File(), reply) == Spec(old(File()), flags, Op.Seek(offset', origin))
        && (Synced() <==> InFile(old(File()), flags, Op.Seek(offset', origin)))
      ensures failed == old(failed) && old(Synced()) ==>
        && (origin.SeekSet? ==> Lands(0, offset', flags.limit, reply))
        && (origin.SeekCur? ==> Lands(old(position), offset', flags.limit, reply))
        && (origin.SeekEnd? ==> Lands(|old(contents)|, offset', flags.limit, reply))
        && (origin.OtherOrigin? ==> reply == Failed(EINVAL))
        && position == if reply.Count? then reply.n else old(position)
      // a closed file is opened for reading if its flags allow that
      ensures reply.Count? ==>
        mode == if old(mode) != Closed then old(mode) else if flags.readable then ForRead else ForWrite
      // seeking in an open file is one call
      ensures old(mode) != Closed && faults(old(calls), SeekCall).None? ==>
        var (error, target) := Target(old(File()), flags.limit, offset', origin);
        error == EOK ==>
          && position == target && mode == old(mode) && calls == old(calls) + 1 && reply == Count(target)
          && (target <= |contents| ==> offset == target)
    {
      if position <= |contents| {
        SeekLaw(File(), flags, offset', origin);
      }
      if mode == Closed {
        var error := SwitchMode(if flags.readable then ForRead else ForWrite);
        if error != EOK {
          return Failed(error);
        }
      }
      reply := SeekOn(offset', origin);
    }

    /** Where the zeros of an extension go: to the end, or if the seek there has failed
        to where FileX stands. */
    ghost function ZerosAt(n: nat, end: nat, offset': nat): nat {
      if faults(n, EndSeek).None? then end else offset'
    }

    /** From `at` to where FileX stands there are zeros, and the rest is as it was. */
    ghost predicate Zeroed(contents': seq<Byte>, at: nat)
      reads this
    {
      at <= |contents'| && at <= offset && contents == Overlay(contents', at, Zeros(offset - at))
    }

    /** One chunk from the array of 64 zeros. */
    method WriteZeros(chunk: nat, ghost contents': seq<Byte>, ghost at: nat) returns (error: Errno)
      requires chunk <= 64 && Valid() && mode != ForRead && (mode == ForWrite ==> Zeroed(contents', at))
      modifies this`calls, this`failed, this`harmed, this`contents, this`offset, this`size
      ensures Valid() && Counted(ZeroWrite, old(calls), old(failed), old(harmed))
      ensures mode == Closed ==> contents == old(contents)
      ensures mode == ForWrite ==>
        var fault := faults(old(calls), ZeroWrite);
        && Zeroed(contents', at) && offset == old(offset) + (if fault.None? then chunk else 0)
        && (error == EOK <==> fault.None? || Silent(fault))
    {
      if mode == ForWrite {
        OverlayTwice(contents', at, Zeros(offset - at), Zeros(chunk));
        ZerosAdd(offset - at, chunk);
      }
      var status := FxWrite(ZeroWrite, Zeros(chunk));
      error := FilexErrno(status);
    }

    /** The extension loop of _ftruncate: zeros in chunks of at most 64 bytes.  Whatever
        fails, what is written is zeros in one piece, and if a chunk fails loudly it is
        whole chunks. */
    method Extend(length: nat) returns (error: Errno)
      requires Valid() && mode != ForRead && length >= size
      modifies this`calls, this`failed, this`harmed, this`contents, this`offset, this`size
      ensures Valid() && Since(old(failed), old(harmed))
      ensures mode == ForWrite ==>
        var at := ZerosAt(old(calls), |old(contents)|, old(offset));
        && Zeroed(old(contents), at) && offset - at <= length - |old(contents)|
        && (error != EOK ==> (offset - at) % 64 == 0)
        && (harmed == old(harmed) ==> offset - at == if error == EOK then length - |old(contents)| else 0)
        && (harmed == old(harmed) && error == EOK ==> at == |old(contents)|)
        && (harmed == old(harmed) && error != EOK ==> at == old(offset))
      ensures mode == ForWrite && failed == old(failed) ==> error == EOK
      ensures mode == Closed ==> contents == old(contents)
    {
      var status := FxSeek(EndSeek, size);
      error := FilexErrno(status);
      var remaining := length - size;
      ghost var at := offset;
      ghost var sought, before := error == EOK, harmed;
      OverlayNothing(contents, at);
      while error == EOK && remaining > 0
        invariant 0 <= remaining && Valid() && Since(old(failed), old(harmed)) && before <= harmed
        invariant mode == Closed ==> contents == old(contents)
        invariant mode == ForWrite ==> Zeroed(old(contents), at) && offset - at <= length - |old(contents)| - remaining
        invariant mode == ForWrite && (remaining > 0 || error != EOK) ==> (offset - at) % 64 == 0
        invariant mode == ForWrite && harmed == old(harmed) ==>
          offset - at == if error == EOK then length - |old(contents)| - remaining else 0
        invariant mode == ForWrite && harmed == old(harmed) ==> (error == EOK <==> sought)
        invariant mode == ForWrite && failed == old(failed) ==> error == EOK
      {
        var chunk := if remaining <= 64 then remaining else 64;
        error := WriteZeros(chunk, old(contents), at);
        if error == EOK {
          remaining := remaining - chunk;
        }
      }
    }

    /** The cut or extension of _ftruncate. */
    method Resize(length: nat) returns (error: Errno)
      requires Valid() && mode != ForRead
      modifies this`calls, this`failed, this`harmed, this`contents, this`offset, this`size
      ensures Valid() && Since(old(failed), old(harmed))
      ensures mode == ForWrite && harmed == old(harmed) ==>
        contents == if error != EOK then old(contents)
                    else if length <= |old(contents)| then old(contents)[..length]
                    else old(contents) + Zeros(length - |old(contents)|)
      ensures mode == ForWrite && error != EOK && harmed == old(harmed) && old(Synced()) ==> Synced()
      ensures mode == ForWrite && failed == old(failed) ==> error == EOK
      ensures mode == ForWrite && length > |old(contents)| && faults(old(calls), EndSeek).None? ==>
        ExtendedTo(old(contents), length)
    {
      var status;
      if length < size {
        status := FxTruncate(length);
        error := FilexErrno(status);
      } else if length > size {
        error := Extend(length);
        OverlayNothing(old(contents), old(offset));
        if mode == ForWrite {
          OverlayAtEnd(old(contents), Zeros(offset - ZerosAt(old(calls), |old(contents)|, old(offset))));
        }
      } else {
        assert mode == ForWrite ==> contents[..length] == contents;
        error := EOK;
      }
    }

    /** The file has grown by zeros, to at most this length, and FileX stands at its end. */
    ghost predicate ExtendedTo(contents': seq<Byte>, length: nat)
      reads this
    {
      && |contents'| <= |contents| <= length && offset == |contents|
      && contents == contents' + Zeros(|contents| - |contents'|)
    }

    /** The end of _ftruncate: the position is clamped and sought. */
    method Reposition(length: nat) returns (error: Errno)
      requires Valid()
      modifies this`calls, this`failed, this`harmed, this`offset, this`position
      ensures Valid() && calls == old(calls) + 1 && Counted(FinalSeek, old(calls), old(failed), old(harmed))
      ensures position == Min(old(position), length)
      ensures faults(old(calls), FinalSeek).None? && mode != Closed ==>
        error == EOK && (position <= |contents| ==> offset == position)
      ensures faults(old(calls), FinalSeek).Some? ==>
        error == FilexErrno(faults(old(calls), FinalSeek).value) && offset == old(offset)
    {
      position := Min(position, length);
      var status := FxSeek(FinalSeek, position);
      error := FilexErrno(status);
    }

    /** _ftruncate. */
    method Truncate(length: int) returns (reply: Reply)
      requires Valid()
      modifies this
      ensures Valid() && Since(old(failed), old(harmed))
      ensures harmed == old(harmed) && old(Synced()) ==>
        Synced() && StepMay(old(File()), flags, Op.Truncate(length), File(), reply)
      ensures failed == old(failed) && old(Synced()) ==>
        Synced() && (File(), reply) == Spec(old(File()), flags, Op.Truncate(length))
      // an extension without switching leaves a prefix of it, and if it is complete but
      // fails, only FileX is not back at the position
      ensures flags.writable && length > |old(contents)| && old(mode) == ForWrite ==>
        faults(old(calls), EndSeek).None? ==>
        && |old(contents)| <= |contents| <= length && contents == old(contents) + Zeros(|contents| - |old(contents)|)
        && (old(position) <= length ==> position == old(position))
        && (reply.Failed? ==> offset == |contents|)
    {
      if length < 0 {
        return Failed(EINVAL);
      }
      if !flags.writable {
        return Failed(EBADF);
      }
      var error := SwitchMode(ForWrite);
      if error == EOK {
        error := Resize(length);
      }
      if error != EOK {
        return Failed(error);
      }
      error := Reposition(length);
      if error != EOK {
        return Failed(error);
      }
      reply := Done;
    }

    method Perform(op: Op) returns (reply: Reply)
      requires Valid()
      modifies this
      ensures Valid() && Since(old(failed), old(harmed))
      ensures harmed == old(harmed) && old(Synced()) && InFile(old(File()), flags, op) ==>
        Synced() && StepMay(old(File()), flags, op, File(), reply)
      ensures failed == old(failed) && old(Synced()) && InFile(old(File()), flags, op) ==>
        Synced() && (File(), reply) == Spec(old(File()), flags, op)
    {
      match op
      case Read(length) => reply := Read(length);
      case Write(data) => reply := Write(data);
      case Seek(offset', origin) => reply := Seek(offset', origin);
      case Truncate(length) => reply := Truncate(length);
    }

    /** Any sequence of operations.  Up to the first seek beyond the end of the file it
        is, if no failure does harm, indistinguishable from a plain file on which
        operations may fail, and if nothing fails from one on which none does. */
    method Run(ops: seq<Op>) returns (replies: seq<Reply>, ghost files: seq<Plain>)
      requires Valid()
      modifies this
      ensures Valid() && Since(old(failed), old(harmed))
      ensures |replies| == |ops| && |files| == |ops| + 1 && files[0] == old(File()) && files[|ops|] == File()
      ensures harmed == old(harmed) && old(Synced()) ==>
        Refines(files, flags, ops, replies) && (StaysInFile(files, flags, ops) ==> Synced())
      ensures failed == old(failed) && old(Synced()) && RunInFile(old(File()), flags, ops) ==>
        Synced() && (File(), replies) == SpecRun(old(File()), flags, ops)
      decreases |ops|
    {
      files := [File()];
      if ops == [] {
        return [], files;
      }
      ghost var first := File();
      var reply := Perform(ops[0]);
      ghost var rest;
      replies, rest := Run(ops[1..]);
      files := [first] + rest;
      replies := [reply] + replies;
      assert files[1..] == rest && replies[1..] == replies[1..];
    }
  }

  // ----- A critical failure

  /** The fourth call fails if it is the seek of a switch. */
  function LostSeek(n: nat, c: Call): Option<Failure> { if n == 3 && c.Reseek? then Some(FX_OTHER) else None }

  method WriteOnly(data: seq<Byte>) returns (d: Descriptor)
    requires data != []
    ensures fresh(d) && d.Valid() && d.contents == data && d.offset == |data| && d.calls == 1 && d.mode == ForWrite
    ensures d.faults == LostSeek && d.flags.readable
  {
    d := new Descriptor([], Flags(true, true, false, 0x7FFF_FFFF), false, LostSeek, n => n);
    var reply := d.Write(data);
    assert Overlay([], 0, data) == data;
  }

  method FailToRead(d: Descriptor) returns (reply: Reply)
    requires d.Valid() && d.contents != [] && d.calls == 1 && d.mode == ForWrite && d.faults == LostSeek &&
      d.flags.readable
    modifies d
    ensures d.Valid() && reply == Failed(EIO) && d.contents == old(d.contents) && d.calls == 4 && d.mode == ForRead &&
      d.offset == 0
  {
    assert d.Lost(1, ForWrite, ForRead);
    reply := d.Read(|d.contents|);
  }

  /** A file open for reading and writing stands at the end of what was written.  The
      switch to reading reopens it, but the seek back fails, and the read reports the
      error.  The next read succeeds and delivers the first bytes of the file, where
      there was nothing left to read. */
  method ReadAfterLostSeek(data: seq<Byte>) returns (first: Reply, second: Reply)
    requires data != []
    ensures first == Failed(EIO) && second == Data(data)
  {
    var d := WriteOnly(data);
    first := FailToRead(d);
    second := d.Read(|data|);
    assert data[0..|data|] == data;
  }

  /** The second call fails silently if it is the seek of an append. */
  function LostAppend(n: nat, c: Call): Option<Failure> {
    if n == 1 && c.AppendSeek? then Some(FX_END_OF_FILE) else None
  }

  /** A file open for appending is at its start.  The seek of an append fails silently,
      and the file is overwritten. */
  method SilentAppendOverwrites(contents: seq<Byte>, data: seq<Byte>) returns (d: Descriptor, reply: Reply)
    requires |data| == |contents| > 0
    ensures fresh(d) && reply == Count(|data|) && d.contents == data
  {
    d := new Descriptor(contents, Flags(true, true, true, 0x7FFF_FFFF), false, LostAppend, n => n);
    reply := d.Seek(0, SeekSet);
    reply := d.Write(data);
    assert Overlay(contents, 0, data) == data;
  }
}
