/**
 * The C primitive `alloc_tun(name, name_out, name_len)`: open the TUN clone
 * device, zero a `struct ifreq`, set IFF_TUN | IFF_NO_PI, strncpy the wanted
 * name into the 16-byte ifr_name, issue TUNSETIFF, close the descriptor (with
 * errno saved and restored) if that fails, and otherwise strncpy the name the
 * kernel assigned into the caller's buffer and return the descriptor.
 */
module AllocTun {
  import opened Bytes
  import opened Wrappers
  import opened Linux

  /**
   * What strncpy(dst, src, n) leaves in dst[0..n]: the C string at src,
   * cut at n bytes, then zero padding up to n.  Nothing is terminated when
   * the string has n or more bytes.
   */
  function StrNCpy(src: seq<byte>, n: nat): (r: seq<byte>)
    ensures |r| == n
  {
    var s := CStr(src);
    if |s| >= n then s[..n] else s + Zeros(n - |s|)
  }

  /**
   * strncpy copies the first min(strlen, n) bytes, zero-fills the rest, and
   * leaves a terminator in dst[0..n] exactly when strlen < n.
   */
  lemma StrNCpyShape(src: seq<byte>, n: nat)
    ensures var s, r := CStr(src), StrNCpy(src, n);
      && (forall i :: 0 <= i < n && i < |s| ==> r[i] == src[i])
      && (forall i :: |s| <= i < n ==> r[i] == 0)
      && ((0 in r) <==> |s| < n)
  {
    var s, r := CStr(src), StrNCpy(src, n);
    if |s| < n {
      assert r[|s|] == 0;
    } else {
      assert r == s[..n];
      assert 0 !in s;
    }
  }

  /** A `struct ifreq` on the stack: the 16-byte name and the flags member of the union. */
  class IfReq {
    const name: array<byte>
    var flags: bv16

    /** Stack memory: the contents are indeterminate until zeroed. */
    constructor ()
      ensures fresh(name) && name.Length == IFNAMSIZ
    {
      assert |Zeros(IFNAMSIZ)| == IFNAMSIZ;
      var junk: seq<byte> :| |junk| == IFNAMSIZ;
      name := new byte[IFNAMSIZ](i requires 0 <= i < IFNAMSIZ reads {} => junk[i]);
      var junkFlags: bv16 :| true;
      flags := junkFlags;
    }

    /** memset(&ifr, 0, sizeof(ifr)). */
    method Zero()
      modifies this, name
      ensures name[..] == Zeros(name.Length) && flags == 0
    {
      var i := 0;
      while i < name.Length
        invariant 0 <= i <= name.Length
        invariant forall j :: 0 <= j < i ==> name[j] == 0
      {
        name[i] := 0;
        i := i + 1;
      }
      flags := 0;
    }
  }

  /** strncpy(dst, src, n) on a buffer of at least n bytes: only dst[0..n] changes. */
  method StrNCpyInto(dst: array<byte>, src: seq<byte>, n: nat)
    requires n <= dst.Length
    modifies dst
    ensures dst[..n] == StrNCpy(src, n)
    ensures dst[n..] == old(dst[n..])
  {
    var i := 0;
    while i < n && i < |src| && src[i] != 0
      invariant 0 <= i <= n && i <= |src|
      invariant forall j :: 0 <= j < i ==> src[j] != 0 && dst[j] == src[j]
      invariant forall j :: n <= j < dst.Length ==> dst[j] == old(dst[j])
    {
      dst[i] := src[i];
      i := i + 1;
    }
    ghost var copied := i;
    assert copied == n || copied == FirstNul(src);
    while i < n
      invariant copied <= i <= n
      invariant forall j :: 0 <= j < copied ==> dst[j] == src[j]
      invariant forall j :: copied <= j < i ==> dst[j] == 0
      invariant forall j :: n <= j < dst.Length ==> dst[j] == old(dst[j])
    {
      dst[i] := 0;
      i := i + 1;
    }
    var expected := StrNCpy(src, n);
    forall j | 0 <= j < n
      ensures dst[j] == expected[j]
    {
      StrNCpyShape(src, n);
    }
    assert dst[..n] == expected;
  }

  /**
   * alloc_tun: returns the open TUN descriptor, or -1 with errno set and no
   * descriptor left open.  `name` holds a NUL-terminated C string and
   * `name_out` has room for `name_len` bytes.
   */
  method AllocTunDevice(k: Kernel, name: seq<byte>, nameOut: array<byte>, nameLen: nat) returns (fd: int)
    requires k.Valid() && k.CanOpen()
    requires 0 in name
    requires nameLen <= nameOut.Length
    modifies k, nameOut
    ensures k.Valid()
    // Open failed: nothing else was attempted.
    ensures k.openReply.OpenFailed? ==>
      && fd == -1 && k.errno == k.openReply.errno
      && k.trace == old(k.trace) + [OpenCall(DEV_NET_TUN, O_RDWR | O_CLOEXEC)]
      && k.openFds == old(k.openFds) && nameOut[..] == old(nameOut[..])
    // Open succeeded: one TUNSETIFF with the zeroed, strncpy'd request.
    ensures k.openReply.Opened? ==> (
      var newFd := k.openReply.fd;
      var request := IoctlCall(newFd, TUNSETIFF, StrNCpy(name, IFNAMSIZ), IFF_TUN | IFF_NO_PI);
      if k.ioctlReply.IoctlFailed? then
        && fd == -1 && k.errno == k.ioctlReply.errno
        && k.trace == old(k.trace) + [OpenCall(DEV_NET_TUN, O_RDWR | O_CLOEXEC), request, CloseCall(newFd)]
        && k.openFds == old(k.openFds) && nameOut[..] == old(nameOut[..])
      else
        && fd == newFd && fd in k.openFds && k.errno == old(k.errno)
        && k.trace == old(k.trace) + [OpenCall(DEV_NET_TUN, O_RDWR | O_CLOEXEC), request]
        && nameOut[..nameLen] == StrNCpy(ReplyName(k.ioctlReply, StrNCpy(name, IFNAMSIZ)), nameLen)
        && nameOut[nameLen..] == old(nameOut[nameLen..]))
    // Exactly one outcome: the caller owns one new descriptor, or none was left open.
    ensures || (fd >= 0 && fd !in old(k.openFds) && k.openFds == old(k.openFds) + {fd})
            || (fd == -1 && k.openFds == old(k.openFds))
  {
    fd := k.Open(DEV_NET_TUN, O_RDWR | O_CLOEXEC);
    if fd < 0 {
      return -1;
    }

    var ifr := new IfReq();
    ifr.Zero();
    ifr.flags := IFF_TUN | IFF_NO_PI;
    StrNCpyInto(ifr.name, name, IFNAMSIZ);
    assert ifr.name[..] == StrNCpy(name, IFNAMSIZ);

    var rc := k.TunSetIff(fd, ifr.name, ifr.flags);
    if rc < 0 {
      var errnoSave := k.errno;
      var _ := k.Close(fd);
      k.errno := errnoSave;
      return -1;
    }

    StrNCpyInto(nameOut, ifr.name[..], nameLen);
  }
}
