/**
 * The console-command channel of the engine: a POSIX FIFO or a Windows named
 * pipe that another process writes newline-separated console commands into.
 * Once per frame `Update` rounds what is pending, cuts it into lines and hands
 * every line to the console with the channel's origin flag and client id -1.
 *
 * The operating system is not modelled: what `stat`, `open`, `read`,
 * `CreateNamedPipeW`, `ConnectNamedPipe`, `PeekNamedPipe` and `ReadFile`
 * report is passed in, and the calls the channel makes are recorded in a
 * syscall log. The console is an append-only log of executed lines.
 */
module Fifo {


  import opened FifoLines
  import opened CStrings

  /** `char aBuf[8192]` of the POSIX branch; one read asks for one byte less. */
  const POSIX_BUF_SIZE: nat := 8192

  /** `(HANDLE)-1`, the value that marks a disabled Windows channel. */
  const INVALID_HANDLE: int := -1

  /** Windows error codes the connect and peek steps test for. */
  const ERROR_BAD_PIPE: int := 230
  const ERROR_NO_DATA: int := 232
  const ERROR_PIPE_CONNECTED: int := 535
  const ERROR_PIPE_LISTENING: int := 536

  /** `\\.\pipe\`, the namespace every Windows pipe name is put under. */
  const PIPE_PREFIX: seq<byte> := [92, 92, 46, 92, 112, 105, 112, 101, 92]

  // ---------------------------------------------------------------------------
  // The channel and the calls it makes to the operating system
  // ---------------------------------------------------------------------------

  /** A system call the channel made, in the order it made them. */
  datatype Syscall =
    | MakeFifo(path: seq<byte>)
    | RemoveFile(path: seq<byte>)
    | OpenFifo(path: seq<byte>)
    | CloseFile(fd: int)
    | CreatePipe(name: seq<byte>)
    | DisconnectPipe(handle: int)
    | ClosePipe(handle: int)

  /** The lines dispatched for a series of successful rounds, in read order. */
  function DrainedExecutions(rounds: seq<seq<byte>>, flag: int): (r: seq<Execution>)
    ensures rounds == [] ==> r == []
  {
    if rounds == [] then []
    else DrainedExecutions(rounds[..|rounds| - 1], flag) + Executions(SplitLines(rounds[|rounds| - 1]), flag)
  }

  function Min(a: int, b: int): int
  {
    if a < b then a else b
  }

  /**
   * The POSIX branch of `CFifo`. `file` is the descriptor, negative while the
   * channel is disabled. The contents of the FIFO and what `read` returned
   * are passed to `Update`, and what it leaves unread is returned: a read
   * takes bytes from the front, up to one byte less than the buffer.
   */
  class PosixFifo {
    var console: Console
    var file: int
    var flag: int
    var filename: seq<byte>
    var syscalls: seq<Syscall>
    /** The size of the filename buffer. */
    const filenameSize: nat

    /** A channel that was never initialised: disabled. */
    constructor (console: Console, filenameSize: nat)
      requires filenameSize >= 1
      ensures this.console == console && this.filenameSize == filenameSize && file < 0 && syscalls == []
    {
      this.console := console;
      this.filenameSize := filenameSize;
      file := -1;
      flag := 0;
      filename := [];
      syscalls := [];
    }

    /**
     * `firstIsFifo` and `retryIsFifo` are what `stat` reports after the first
     * `mkfifo` and after the remove-and-recreate attempt; `openResult` is what
     * `open` returns.
     */
    method Init(console: Console, path: seq<byte>, flag: int, firstIsFifo: bool, retryIsFifo: bool, openResult: int)
      requires filenameSize >= 1
      modifies this
      ensures this.console == console
      ensures path == [] ==> file == -1 && this.flag == old(this.flag) && filename == old(filename) && syscalls == old(syscalls)
      ensures path != [] ==> this.flag == flag && filename == StrCopy(path, filenameSize)
      ensures path != [] && firstIsFifo ==>
        syscalls == old(syscalls) + [MakeFifo(filename), OpenFifo(filename)] && file == openResult
      ensures path != [] && !firstIsFifo && retryIsFifo ==>
        syscalls == old(syscalls) + [MakeFifo(filename), RemoveFile(filename), MakeFifo(filename), OpenFifo(filename)] && file == openResult
      ensures path != [] && !firstIsFifo && !retryIsFifo ==>
        syscalls == old(syscalls) + [MakeFifo(filename), RemoveFile(filename), MakeFifo(filename)] && file == -1
      ensures file >= 0 <==> path != [] && (firstIsFifo || retryIsFifo) && openResult >= 0
    {
      file := -1;
      this.console := console;
      if path == [] {
        return;
      }
      filename := StrCopy(path, filenameSize);
      this.flag := flag;
      syscalls := syscalls + [MakeFifo(filename)];
      if !firstIsFifo {
        syscalls := syscalls + [RemoveFile(filename), MakeFifo(filename)];
        if !retryIsFifo {
          return;
        }
      }
      syscalls := syscalls + [OpenFifo(filename)];
      file := openResult;
    }

    /**
     * Closes the descriptor and removes the FIFO, but leaves `file` as it was:
     * a second call closes and removes again.
     */
    method Shutdown()
      modifies this
      ensures file == old(file) && flag == old(flag) && filename == old(filename) && console == old(console)
      ensures old(file) < 0 ==> syscalls == old(syscalls)
      ensures old(file) >= 0 ==> syscalls == old(syscalls) + [CloseFile(file), RemoveFile(filename)]
    {
      if file < 0 {
        return;
      }
      syscalls := syscalls + [CloseFile(file), RemoveFile(filename)];
    }

    /**
     * One poll: a single read of at most `POSIX_BUF_SIZE - 1` bytes of `pipe`,
     * then the lines of what was read go to the console. `readLength` is
     * what `read` returns: the number of bytes it took from the front of
     * `pipe`, or 0 or less when it read nothing or failed.
     */
    method Update(pipe: seq<byte>, readLength: int) returns (unread: seq<byte>)
      requires readLength <= Min(|pipe|, POSIX_BUF_SIZE - 1)
      modifies console
      ensures file < 0 || readLength <= 0 ==> unread == pipe && console.log == old(console.log)
      ensures file >= 0 && readLength > 0 ==>
        unread == pipe[readLength..] &&
        console.log == old(console.log) + Executions(SplitLines(pipe[..readLength]), flag)
    {
      if file < 0 {
        return pipe;
      }
      var buf := new byte[POSIX_BUF_SIZE];
      var length := readLength;
      if length <= 0 {
        return pipe;
      }
      forall k | 0 <= k < length {
        buf[k] := pipe[k];
      }
      buf[length] := NUL;
      assert buf[..length] == pipe[..length];
      DispatchLines(buf, length, console, flag);
      unread := pipe[length..];
    }
  }

  /** What `ConnectNamedPipe` reported. */
  datatype ConnectResult = Connected | ConnectFailed(error: int)

  /** One round of the drain loop: the peek reported `available` bytes and `ReadFile` read `data`. */
  datatype PipeRead = PipeRead(available: nat, data: seq<byte>)

  /** The round that ends the drain loop. */
  datatype DrainEnd = PeekFailed(error: int) | PeekEmpty | ReadFailed(available: nat, error: int)

  /** What the pipe can report: a read never returns more than was asked for, which is what the peek saw. */
  predicate PipeReadsPossible(rounds: seq<PipeRead>)
  {
    forall k :: 0 <= k < |rounds| ==> 0 < rounds[k].available && |rounds[k].data| <= rounds[k].available
  }

  function ReadData(rounds: seq<PipeRead>): (r: seq<seq<byte>>)
    ensures |r| == |rounds| && forall k :: 0 <= k < |r| ==> r[k] == rounds[k].data
  {
    if rounds == [] then [] else ReadData(rounds[..|rounds| - 1]) + [rounds[|rounds| - 1].data]
  }

  /**
   * One round of the drain loop after a successful read: a buffer one byte
   * longer than the peek reported, the bytes read, a NUL after them, and
   * the lines dispatched.
   */
  method DispatchRound(round: PipeRead, console: Console, flag: int)
    requires 0 < round.available && |round.data| <= round.available
    modifies console
    ensures console.log == old(console.log) + Executions(SplitLines(round.data), flag)
  {
    var buf := new byte[round.available + 1];
    var length := |round.data|;
    forall k | 0 <= k < length {
      buf[k] := round.data[k];
    }
    buf[length] := NUL;
    assert buf[..length] == round.data;
    DispatchLines(buf, length, console, flag);
  }

  /** The drain loop: every round that got data is dispatched, in order. */
  method DrainRounds(rounds: seq<PipeRead>, console: Console, flag: int)
    requires PipeReadsPossible(rounds)
    modifies console
    ensures console.log == old(console.log) + DrainedExecutions(ReadData(rounds), flag)
  {
    ghost var log0 := console.log;
    var j := 0;
    while j < |rounds|
      invariant 0 <= j <= |rounds|
      invariant console.log == log0 + DrainedExecutions(ReadData(rounds[..j]), flag)
    {
      DispatchRound(rounds[j], console, flag);
      DrainedStep(log0, rounds, j, flag);
      j := j + 1;
    }
    TakeAll(rounds);
  }

  lemma TakeAll(rounds: seq<PipeRead>)
    ensures rounds[..|rounds|] == rounds
  {
  }

  lemma DrainedStep(log0: seq<Execution>, rounds: seq<PipeRead>, j: nat, flag: int)
    requires j < |rounds|
    ensures log0 + DrainedExecutions(ReadData(rounds[..j + 1]), flag)
         == (log0 + DrainedExecutions(ReadData(rounds[..j]), flag)) + Executions(SplitLines(rounds[j].data), flag)
  {
    ReadDataStep(rounds, j);
  }

  lemma ReadDataStep(rounds: seq<PipeRead>, j: nat)
    requires j < |rounds|
    ensures ReadData(rounds[..j + 1]) == ReadData(rounds[..j]) + [rounds[j].data]
  {
    assert rounds[..j + 1][..j] == rounds[..j];
  }

  /** Whether a connect outcome lets `Update` go on to read. */
  predicate ConnectLetsRead(connect: ConnectResult)
  {
    connect.Connected? || connect.error == ERROR_PIPE_CONNECTED
  }

  /**
   * The Windows branch of `CFifo`: a message-mode named pipe. `pipe` is the
   * handle, `INVALID_HANDLE` while disabled.
   */
  class WindowsFifo {
    var console: Console
    var pipe: int
    var flag: int
    var filename: seq<byte>
    var syscalls: seq<Syscall>
    /** The size of the filename buffer; it holds at least the pipe prefix. */
    const filenameSize: nat

    constructor (console: Console, filenameSize: nat)
      requires filenameSize > |PIPE_PREFIX|
      ensures this.console == console && this.filenameSize == filenameSize && pipe == INVALID_HANDLE && syscalls == []
    {
      this.console := console;
      this.filenameSize := filenameSize;
      pipe := INVALID_HANDLE;
      flag := 0;
      filename := [];
      syscalls := [];
    }

    /** `created` is the handle `CreateNamedPipeW` returns. */
    method Init(console: Console, path: seq<byte>, flag: int, created: int)
      requires filenameSize > |PIPE_PREFIX|
      modifies this
      ensures this.console == console
      ensures path == [] ==> pipe == INVALID_HANDLE && this.flag == old(this.flag) && filename == old(filename) && syscalls == old(syscalls)
      ensures path != [] ==> this.flag == flag && filename == StrAppend(PIPE_PREFIX, path, filenameSize) && pipe == created
      ensures path != [] ==> syscalls == old(syscalls) + [CreatePipe(filename)]
    {
      this.console := console;
      if path == [] {
        pipe := INVALID_HANDLE;
        return;
      }
      filename := StrAppend(PIPE_PREFIX, path, filenameSize);
      this.flag := flag;
      syscalls := syscalls + [CreatePipe(filename)];
      pipe := created;
    }

    /** Disconnects and closes the pipe and marks the channel disabled; a second call does nothing. */
    method Shutdown()
      modifies this
      ensures pipe == INVALID_HANDLE
      ensures flag == old(flag) && filename == old(filename) && console == old(console)
      ensures old(pipe) == INVALID_HANDLE ==> syscalls == old(syscalls)
      ensures old(pipe) != INVALID_HANDLE ==> syscalls == old(syscalls) + [DisconnectPipe(old(pipe)), ClosePipe(old(pipe))]
    {
      if pipe == INVALID_HANDLE {
        return;
      }
      syscalls := syscalls + [DisconnectPipe(pipe), ClosePipe(pipe)];
      pipe := INVALID_HANDLE;
    }

    /**
     * One poll: connect, then read until a peek reports nothing or something
     * fails. `rounds` are the rounds that got data, `end` the round that stopped
     * the loop.
     */
    method Update(connect: ConnectResult, rounds: seq<PipeRead>, end: DrainEnd)
      requires PipeReadsPossible(rounds)
      modifies this`syscalls, console
      ensures pipe == INVALID_HANDLE || !ConnectLetsRead(connect) ==> console.log == old(console.log)
      ensures pipe != INVALID_HANDLE && ConnectLetsRead(connect) ==>
        console.log == old(console.log) + DrainedExecutions(ReadData(rounds), flag)
      ensures syscalls ==
        if pipe != INVALID_HANDLE && connect == ConnectFailed(ERROR_NO_DATA)
        then old(syscalls) + [DisconnectPipe(pipe)]
        else old(syscalls)
    {
      if pipe == INVALID_HANDLE {
        return;
      }
      if connect.ConnectFailed? {
        var lastError := connect.error;
        if lastError == ERROR_PIPE_LISTENING {
          // no client yet
          return;
        }
        if lastError == ERROR_NO_DATA {
          // the client went away: disconnect so that the next one can connect
          syscalls := syscalls + [DisconnectPipe(pipe)];
          return;
        }
        if lastError != ERROR_PIPE_CONNECTED {
          return;
        }
      }
      DrainRounds(rounds, console, flag);
      // `end` stops the loop: a failed peek, an empty pipe or a failed read
    }
  }
}
