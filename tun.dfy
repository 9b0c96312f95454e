/**
 * The Rust `Tun` handle: `Tun::create` validates the requested name, opens
 * the clone device with O_RDWR | O_CLOEXEC, fills a zeroed `ifreq` with the
 * NUL-terminated name and IFF_TUN | IFF_NO_PI, issues TUNSETIFF and decodes
 * the name the kernel left in ifr.name up to its first NUL.  The handle owns
 * the descriptor: `Drop` closes it, `into_raw_fd` hands it out instead.
 */
module Tun {
  import opened Bytes
  import opened Wrappers
  import opened Linux

  /** std::io::Error as this code produces it. */
  datatype IoError = InvalidInput | Os(errno: nat)

  /**
   * The name step of `create`: over 15 bytes is refused before anything is
   * opened, an interior NUL is refused by CString::new, and an absent name is
   * the empty string.  Success yields the bytes followed by their NUL.
   */
  function EncodeName(name: Option<seq<byte>>): (r: Result<seq<byte>, IoError>)
    ensures r.Ok? <==> name.None? || (|name.value| < IFNAMSIZ && 0 !in name.value)
    ensures r.Err? ==> r.error == InvalidInput
    ensures r.Ok? ==>
      && 1 <= |r.value| <= IFNAMSIZ && r.value[|r.value| - 1] == 0
      && CStr(r.value) == (if name.Some? then name.value else [])
  {
    if name.Some? && |name.value| > 15 then Err(InvalidInput)
    else
      var bytes := if name.Some? then name.value else [];
      if 0 in bytes then Err(InvalidInput) else Ok(bytes + [0])
  }

  /** `ifreq.name` after `[0; 16]` and `ifr.name[..len].copy_from_slice(name)`. */
  function RequestName(encoded: seq<byte>): (r: seq<byte>)
    requires |encoded| <= IFNAMSIZ
    ensures |r| == IFNAMSIZ && r[..|encoded|] == encoded
  {
    encoded + Zeros(IFNAMSIZ - |encoded|)
  }

  /**
   * The request carries the name, a NUL and zero padding, so decoding it up
   * to the first NUL gives the requested name back: a kernel that leaves the
   * buffer unchanged makes `create` report the name it was asked for.
   */
  lemma RequestDecodesToName(name: Option<seq<byte>>)
    requires EncodeName(name).Ok?
    ensures var request := RequestName(EncodeName(name).value);
      && CStr(request) == (if name.Some? then name.value else [])
      && forall i :: |CStr(request)| <= i < IFNAMSIZ ==> request[i] == 0
  {
    var encoded := EncodeName(name).value;
    var request := RequestName(encoded);
    var bytes := if name.Some? then name.value else [];
    assert encoded == bytes + [0];
    assert request[..|bytes|] == bytes && request[|bytes|] == 0;
    assert forall j :: 0 <= j < |bytes| ==> request[j] != 0 by {
      forall j | 0 <= j < |bytes| ensures request[j] != 0 {
        assert request[j] == bytes[j];
      }
    }
    assert FirstNul(request) == |bytes|;
  }

  /** `set_nonblocking`'s arithmetic: O_NONBLOCK set or cleared, every other bit kept. */
  function WithNonblock(flags: bv32, nb: bool): (r: bv32)
    ensures (r & O_NONBLOCK != 0) == nb
    ensures r & !O_NONBLOCK == flags & !O_NONBLOCK
  {
    if nb then flags | O_NONBLOCK else flags & !O_NONBLOCK
  }

  /** `ifr.name.iter().position(|x| *x == 0)`. */
  method PositionOfNul(a: array<byte>) returns (p: Option<nat>)
    ensures p.Some? <==> 0 in a[..]
    ensures p.Some? ==> p.value == FirstNul(a[..]) && a[..p.value] == CStr(a[..])
  {
    var i := 0;
    while i < a.Length
      invariant 0 <= i <= a.Length
      invariant forall j :: 0 <= j < i ==> a[j] != 0
    {
      if a[i] == 0 {
        assert FirstNul(a[..]) == i;
        return Some(i);
      }
      i := i + 1;
    }
    assert a[..] == a[..i];
    return None;
  }

  /** A Linux TUN device handle; `owned` stays true until it is dropped or turned into a raw fd. */
  class Tun {
    const fd: int
    const name: seq<byte>
    var owned: bool

    constructor (fd: int, name: seq<byte>)
      ensures this.fd == fd && this.name == name && owned
    {
      this.fd := fd;
      this.name := name;
      owned := true;
    }

    /** `Drop`: close the descriptor, ignoring the result. */
    method Drop(k: Kernel)
      requires owned && k.Valid()
      modifies this, k
      ensures k.Valid() && !owned
      ensures k.openFds == old(k.openFds) - {fd}
      ensures k.trace == old(k.trace) + [CloseCall(fd)]
    {
      var _ := k.Close(fd);
      owned := false;
    }

    /** `into_raw_fd`: hand the descriptor out; `mem::forget` means Drop will not close it. */
    method IntoRawFd() returns (raw: int)
      requires owned
      modifies this
      ensures raw == fd && !owned
    {
      raw := fd;
      owned := false;
    }

    /** `set_nonblocking(nb)`: F_GETFL, flip O_NONBLOCK, F_SETFL; either fcntl may fail. */
    method SetNonblocking(k: Kernel, nb: bool) returns (r: Result<(), IoError>)
      requires k.Valid()
      modifies k`trace, k`fdFlags
      ensures k.Valid()
      ensures fd in old(k.fdFlags) ==>
        && r == Ok(())
        && k.fdFlags == old(k.fdFlags)[fd := WithNonblock(old(k.fdFlags)[fd], nb)]
        && k.trace == old(k.trace) + [GetFlCall(fd), SetFlCall(fd, WithNonblock(old(k.fdFlags)[fd], nb))]
      ensures fd !in old(k.fdFlags) ==>
        && r == Err(Os(EBADF)) && k.fdFlags == old(k.fdFlags)
        && k.trace == old(k.trace) + [GetFlCall(fd)]
    {
      var got := k.GetFl(fd);
      if got.Err? {
        return Err(Os(got.error));
      }
      var flags := WithNonblock(got.value, nb);
      var stored := k.SetFl(fd, flags);
      match stored {
        case Err(e) => r := Err(Os(e));
        case Ok(_) => r := Ok(());
      }
    }
  }

  /** The steps `create` shares between the as-written and the corrected variant, up to the ioctl. */
  method OpenAndConfigure(k: Kernel, encoded: seq<byte>) returns (fd: int, ifrName: array<byte>, rc: int)
    requires k.Valid() && k.CanOpen()
    requires |encoded| <= IFNAMSIZ
    modifies k
    ensures k.Valid() && fresh(ifrName) && ifrName.Length == IFNAMSIZ
    ensures k.openReply.OpenFailed? ==>
      && fd < 0 && k.errno == k.openReply.errno && k.openFds == old(k.openFds)
      && k.trace == old(k.trace) + [OpenCall(DEV_NET_TUN, O_RDWR | O_CLOEXEC)]
    ensures k.openReply.Opened? ==>
      && fd == k.openReply.fd && fd !in old(k.openFds) && k.openFds == old(k.openFds) + {fd}
      && k.trace == old(k.trace) + [OpenCall(DEV_NET_TUN, O_RDWR | O_CLOEXEC),
                                    IoctlCall(fd, TUNSETIFF, RequestName(encoded), IFF_TUN | IFF_NO_PI)]
      && (rc == 0 || rc == -1) && (rc == 0 <==> k.ioctlReply.IoctlOk?)
      && (rc == 0 ==> ifrName[..] == ReplyName(k.ioctlReply, RequestName(encoded)))
      && (rc != 0 ==> k.errno == k.ioctlReply.errno)
  {
    fd := k.Open(DEV_NET_TUN, O_RDWR | O_CLOEXEC);
    ifrName := new byte[IFNAMSIZ](_ => 0);
    if fd < 0 {
      rc := -1;
      return;
    }
    forall i | 0 <= i < |encoded| {
      ifrName[i] := encoded[i];
    }
    assert ifrName[..] == RequestName(encoded);
    rc := k.TunSetIff(fd, ifrName, IFF_TUN | IFF_NO_PI);
  }

  /** Decoding the kernel's answer: the bytes of ifr.name before its first NUL. */
  method DecodeName(ifrName: array<byte>) returns (name: seq<byte>)
    requires 0 in ifrName[..]
    ensures name == CStr(ifrName[..])
  {
    var p := PositionOfNul(ifrName);
    name := ifrName[..p.value];
  }

  /**
   * `Tun::create` as written: when the ioctl fails, the `?` returns before a
   * `Tun` owns the descriptor, so it stays open.
   */
  method CreateAsWritten(k: Kernel, name: Option<seq<byte>>) returns (r: Result<Tun, IoError>)
    requires k.Valid() && k.CanOpen()
    modifies k
    ensures k.Valid()
    ensures EncodeName(name).Err? ==>
      r == Err(InvalidInput) && k.trace == old(k.trace) && k.openFds == old(k.openFds)
    ensures EncodeName(name).Ok? && k.openReply.Opened? && k.ioctlReply.IoctlFailed? ==>
      r == Err(Os(k.ioctlReply.errno)) && k.openFds == old(k.openFds) + {k.openReply.fd}
  {
    var encoded := EncodeName(name);
    if encoded.Err? {
      return Err(encoded.error);
    }
    var fd, ifrName, rc := OpenAndConfigure(k, encoded.value);
    if fd < 0 {
      return Err(Os(k.errno));
    }
    if rc < 0 {
      return Err(Os(k.errno));
    }
    assert 0 in ifrName[..] by {
      if k.ioctlReply.written.None? {
        assert ifrName[|encoded.value| - 1] == 0;
      }
    }
    var decoded := DecodeName(ifrName);
    var t := new Tun(fd, decoded);
    r := Ok(t);
  }

  /**
   * `Tun::create` with the descriptor closed when the ioctl fails: every
   * failure leaves the open descriptors as they were, and success hands the
   * caller exactly one new owned descriptor and the kernel's name for it.
   */
  method Create(k: Kernel, name: Option<seq<byte>>) returns (r: Result<Tun, IoError>)
    requires k.Valid() && k.CanOpen()
    modifies k
    ensures k.Valid()
    ensures EncodeName(name).Err? ==>
      r == Err(InvalidInput) && k.trace == old(k.trace) && k.openFds == old(k.openFds)
    ensures EncodeName(name).Ok? && k.openReply.OpenFailed? ==>
      && r == Err(Os(k.openReply.errno)) && k.openFds == old(k.openFds)
      && k.trace == old(k.trace) + [OpenCall(DEV_NET_TUN, O_RDWR | O_CLOEXEC)]
    ensures EncodeName(name).Ok? && k.openReply.Opened? ==> (
      var request := IoctlCall(k.openReply.fd, TUNSETIFF, RequestName(EncodeName(name).value), IFF_TUN | IFF_NO_PI);
      if k.ioctlReply.IoctlFailed? then
        && r == Err(Os(k.ioctlReply.errno)) && k.openFds == old(k.openFds)
        && k.trace == old(k.trace) + [OpenCall(DEV_NET_TUN, O_RDWR | O_CLOEXEC), request, CloseCall(k.openReply.fd)]
      else
        && r.Ok? && fresh(r.value) && r.value.owned
        && r.value.fd == k.openReply.fd && k.openFds == old(k.openFds) + {r.value.fd}
        && r.value.name == CStr(ReplyName(k.ioctlReply, RequestName(EncodeName(name).value)))
        && k.trace == old(k.trace) + [OpenCall(DEV_NET_TUN, O_RDWR | O_CLOEXEC), request])
    ensures r.Err? ==> k.openFds == old(k.openFds)
  {
    var encoded := EncodeName(name);
    if encoded.Err? {
      return Err(encoded.error);
    }
    var fd, ifrName, rc := OpenAndConfigure(k, encoded.value);
    if fd < 0 {
      return Err(Os(k.errno));
    }
    if rc < 0 {
      var errnoSave := k.errno;
      var _ := k.Close(fd);
      return Err(Os(errnoSave));
    }
    assert 0 in ifrName[..] by {
      if k.ioctlReply.written.None? {
        assert ifrName[|encoded.value| - 1] == 0;
      }
    }
    var decoded := DecodeName(ifrName);
    var t := new Tun(fd, decoded);
    r := Ok(t);
  }

  /**
   * A concrete run: the kernel opens descriptor 3 and refuses TUNSETIFF with
   * EBUSY (16).  As written, descriptor 3 is still open afterwards; corrected,
   * nothing is.
   */
  method LeakWitness() returns (asWritten: set<int>, corrected: set<int>)
    ensures asWritten == {3} && corrected == {}
  {
    var tun0: seq<byte> := [0x74, 0x75, 0x6e, 0x30];
    var k1 := new Kernel({}, Opened(3), IoctlFailed(16), 0);
    var r1 := CreateAsWritten(k1, Some(tun0));
    asWritten := k1.openFds;
    var k2 := new Kernel({}, Opened(3), IoctlFailed(16), 0);
    var r2 := Create(k2, Some(tun0));
    corrected := k2.openFds;
  }
}
