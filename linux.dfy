/**
 * The slice of the Linux kernel that TUN allocation talks to, as an oracle.
 * The kernel keeps the set of open descriptors (with their status flags),
 * errno, and a trace of the system calls it served.  What `open` and the
 * TUNSETIFF ioctl answer is fixed when the oracle is built (`openReply`,
 * `ioctlReply`); `close` may overwrite errno with `closeErrno`, as POSIX
 * allows even of a successful call.
 */
module Linux {
  import opened Bytes
  import opened Wrappers

  /** Size of ifr_name in struct ifreq, terminator included. */
  const IFNAMSIZ: nat := 16

  const IFF_TUN: bv16 := 0x0001
  const IFF_NO_PI: bv16 := 0x1000

  const O_RDWR: bv32 := 0x2
  const O_NONBLOCK: bv32 := 0x800
  const O_CLOEXEC: bv32 := 0x80000

  const EBADF: nat := 9

  /** The clone device every TUN allocation opens. */
  const DEV_NET_TUN: string := "/dev/net/tun"

  /** The `_IOW(type, nr, size)` request-code encoding of asm-generic/ioctl.h. */
  function Iow(kind: nat, nr: nat, size: nat): (code: nat)
    requires kind < 256 && nr < 256 && size < 0x4000
    ensures code / 0x4000_0000 == 1
    ensures code % 256 == nr && code / 256 % 256 == kind && code / 0x1_0000 % 0x4000 == size
  {
    0x4000_0000 + size * 0x1_0000 + kind * 0x100 + nr
  }

  /** TUNSETIFF is `_IOW('T', 202, int)` with a 4-byte int. */
  const TUNSETIFF: nat := Iow('T' as nat, 202, 4)

  datatype Syscall =
    | OpenCall(path: string, flags: bv32)
    | IoctlCall(fd: int, request: nat, name: seq<byte>, ifrFlags: bv16)
    | CloseCall(fd: int)
    | GetFlCall(fd: int)
    | SetFlCall(fd: int, flags: bv32)

  datatype OpenReply = Opened(fd: nat) | OpenFailed(errno: nat)

  /** A successful TUNSETIFF may write the assigned name back into ifr_name. */
  datatype IoctlReply = IoctlOk(written: Option<seq<byte>>) | IoctlFailed(errno: nat)

  /** Linux interface names are shorter than IFNAMSIZ, so a name the kernel writes back is NUL-terminated. */
  ghost predicate KernelName(w: seq<byte>)
  {
    |w| == IFNAMSIZ && 0 in w
  }

  /** ifr_name after a successful TUNSETIFF on a request whose name field was `requested`. */
  function ReplyName(reply: IoctlReply, requested: seq<byte>): seq<byte>
    requires reply.IoctlOk?
  {
    if reply.written.Some? then reply.written.value else requested
  }

  class Kernel {
    var openFds: set<int>
    var fdFlags: map<int, bv32>
    var errno: int
    var trace: seq<Syscall>
    const openReply: OpenReply
    const ioctlReply: IoctlReply
    const closeErrno: int

    ghost predicate Valid()
      reads this
    {
      && fdFlags.Keys == openFds
      && (ioctlReply.IoctlOk? && ioctlReply.written.Some? ==> KernelName(ioctlReply.written.value))
    }

    constructor (fds: set<nat>, openReply: OpenReply, ioctlReply: IoctlReply, closeErrno: int)
      requires openReply.Opened? ==> openReply.fd !in fds
      requires ioctlReply.IoctlOk? && ioctlReply.written.Some? ==> KernelName(ioctlReply.written.value)
      ensures Valid() && CanOpen()
      ensures openFds == fds && errno == 0 && trace == []
      ensures this.openReply == openReply && this.ioctlReply == ioctlReply && this.closeErrno == closeErrno
    {
      this.openFds := fds;
      this.fdFlags := map fd | fd in fds :: O_RDWR;
      this.errno := 0;
      this.trace := [];
      this.openReply := openReply;
      this.ioctlReply := ioctlReply;
      this.closeErrno := closeErrno;
    }

    /** The descriptor the next open would hand out is not in use. */
    ghost predicate CanOpen()
      reads this
    {
      openReply.Opened? ==> openReply.fd !in openFds
    }

    /** open(2): a fresh descriptor, or -1 with errno set. O_CLOEXEC is a descriptor flag, not a status flag. */
    method Open(path: string, flags: bv32) returns (fd: int)
      requires Valid() && CanOpen()
      modifies this
      ensures Valid()
      ensures trace == old(trace) + [OpenCall(path, flags)]
      ensures openReply.Opened? ==>
        && fd == openReply.fd && fd !in old(openFds)
        && fdFlags == old(fdFlags)[fd := flags & !O_CLOEXEC] && errno == old(errno)
      ensures openReply.OpenFailed? ==>
        fd == -1 && fdFlags == old(fdFlags) && errno == openReply.errno
    {
      trace := trace + [OpenCall(path, flags)];
      match openReply
      case Opened(newFd) =>
        fd := newFd;
        fdFlags := fdFlags[fd := flags & !O_CLOEXEC];
        openFds := openFds + {fd};
      case OpenFailed(e) =>
        fd := -1;
        errno := e;
    }

    /** ioctl(fd, TUNSETIFF, &ifr): 0 (with the name possibly rewritten), or -1 with errno set. */
    method TunSetIff(fd: int, ifrName: array<byte>, ifrFlags: bv16) returns (rc: int)
      requires Valid() && ifrName.Length == IFNAMSIZ
      modifies this, ifrName
      ensures Valid()
      ensures trace == old(trace) + [IoctlCall(fd, TUNSETIFF, old(ifrName[..]), ifrFlags)]
      ensures openFds == old(openFds) && fdFlags == old(fdFlags)
      ensures rc == 0 <==> fd in openFds && ioctlReply.IoctlOk?
      ensures rc == 0 ==> errno == old(errno)
      ensures rc == 0 ==> ifrName[..] == (if ioctlReply.written.Some? then ioctlReply.written.value else old(ifrName[..]))
      ensures rc != 0 ==>
        && rc == -1 && ifrName[..] == old(ifrName[..])
        && errno == (if fd !in openFds then EBADF else ioctlReply.errno)
    {
      trace := trace + [IoctlCall(fd, TUNSETIFF, ifrName[..], ifrFlags)];
      if fd !in openFds {
        rc := -1;
        errno := EBADF;
      } else if ioctlReply.IoctlFailed? {
        rc := -1;
        errno := ioctlReply.errno;
      } else {
        rc := 0;
        if ioctlReply.written.Some? {
          var w := ioctlReply.written.value;
          forall i | 0 <= i < IFNAMSIZ {
            ifrName[i] := w[i];
          }
        }
      }
    }

    /** close(2): the descriptor is released; errno is left as `closeErrno`. */
    method Close(fd: int) returns (rc: int)
      requires Valid()
      modifies this
      ensures Valid()
      ensures trace == old(trace) + [CloseCall(fd)]
      ensures openFds == old(openFds) - {fd} && fdFlags == old(fdFlags) - {fd}
      ensures rc == 0 <==> fd in old(openFds)
      ensures errno == (if fd in old(openFds) then closeErrno else EBADF)
    {
      trace := trace + [CloseCall(fd)];
      if fd in openFds {
        rc := 0;
        errno := closeErrno;
      } else {
        rc := -1;
        errno := EBADF;
      }
      openFds := openFds - {fd};
      fdFlags := fdFlags - {fd};
    }

    /** fcntl(fd, F_GETFL): the status flags, or EBADF. */
    method GetFl(fd: int) returns (r: Result<bv32, nat>)
      requires Valid()
      modifies this`trace
      ensures trace == old(trace) + [GetFlCall(fd)]
      ensures fd in fdFlags ==> r == Ok(fdFlags[fd])
      ensures fd !in fdFlags ==> r == Err(EBADF)
    {
      trace := trace + [GetFlCall(fd)];
      r := if fd in fdFlags then Ok(fdFlags[fd]) else Err(EBADF);
    }

    /** fcntl(fd, F_SETFL, flags): replaces the status flags, or EBADF. */
    method SetFl(fd: int, flags: bv32) returns (r: Result<(), nat>)
      requires Valid()
      modifies this`trace, this`fdFlags
      ensures Valid()
      ensures trace == old(trace) + [SetFlCall(fd, flags)]
      ensures fd in old(fdFlags) ==> r == Ok(()) && fdFlags == old(fdFlags)[fd := flags]
      ensures fd !in old(fdFlags) ==> r == Err(EBADF) && fdFlags == old(fdFlags)
    {
      trace := trace + [SetFlCall(fd, flags)];
      if fd in fdFlags {
        fdFlags := fdFlags[fd := flags];
        r := Ok(());
      } else {
        r := Err(EBADF);
      }
    }
  }

  /** The request code and the TUN mode flags have the values of linux/if_tun.h. */
  lemma TunConstants()
    ensures TUNSETIFF == 0x400454CA
    ensures IFF_TUN | IFF_NO_PI == 0x1001
  {
  }
}
