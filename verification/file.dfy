/** fileread and filewrite of file.c; a long write is cut into transactions of at most MAXOPBLOCKS blocks. */
module OpenFiles {
  import opened Blocks
  import opened FsFormat
  import opened BlockOwners
  import opened FileContent
  import opened FileSystems
  import LogRecovery

  datatype FileResult = Count(n: nat) | Failed | Device

  class File {
    const fs: FileSystem
    const ip: nat
    const readable: bool
    const writable: bool
    var off: Word

    constructor (fs: FileSystem, ip: nat, readable: bool, writable: bool)
      ensures this.fs == fs && this.ip == ip && this.readable == readable && this.writable == writable && off == 0
    {
      this.fs, this.ip, this.readable, this.writable, off := fs, ip, readable, writable, 0;
    }

    /** A read at the file's offset, which moves on by what was read; no byte of the file changes. */
    method Read(n: Word) returns (ok: bool, r: ReadResult)
      requires fs.Valid() && ip in fs.icache
      modifies this, fs
      ensures ok ==> fs.Valid() && ip in fs.icache && ip < |fs.ino| && SameFile(old(fs.View()), fs.View(), ip)
      ensures ip < |old(fs.ino)| && (ok && readable ==> Reads(old(fs.View()), ip, old(off), n, r))
      ensures ok && !readable ==> r == Bad
      ensures ok ==> off == old(off) + if r.Data? then |r.bytes| else 0
    {
      hide Own, Bits, Content, Cached, Full, WholeRange;
      CacheHit(fs.sb, fs.View(), fs.icache, ip);
      if !readable { return true, Bad; }
      ok, r := fs.Readi(ip, off, n);
      if ok && r.Data? { off := off + |r.bytes|; }
    }

    /**
      cat's loop: reads of n bytes until one gives nothing.  Together they give the
      file from the offset on; they end well exactly if the file can be read, the
      offset is not past its end and its end is not within n of 2^32.
     */
    method ReadAll(n: Word) returns (ok: bool, good: bool, out: seq<Byte>)
      requires fs.Valid() && ip in fs.icache && n > 0
      modifies this, fs
      ensures ok ==> fs.Valid() && ip in fs.icache && ip < |fs.ino| && SameFile(old(fs.View()), fs.View(), ip)
      ensures ip < |old(fs.ino)|
      ensures var d := old(fs.ino)[ip];
        ok ==> (good <==> readable && d.kind != T_DEV && old(off) <= d.size && d.size + n < 0x1_0000_0000)
      ensures ok ==> off == old(off) + |out|
      ensures ok && old(off) <= old(fs.ino)[ip].size ==> out <= Content(old(fs.View()), ip)[old(off)..]
      ensures ok && good ==> out == Content(old(fs.View()), ip)[old(off)..]
    {
      hide Own, Bits, Content, Cached, Full;
      ghost var s := fs.View();
      CacheHit(fs.sb, s, fs.icache, ip);
      good, out := false, [];
      while true
        invariant fs.Valid() && ip in fs.icache && ip < |fs.ino| && SameFile(s, fs.View(), ip)
        invariant off == old(off) + |out|
        invariant |out| > 0 ==> readable && s.ino[ip].kind != T_DEV && off <= s.ino[ip].size
        invariant old(off) <= s.ino[ip].size ==> out <= Content(s, ip)[old(off)..]
        decreases s.ino[ip].size - off
      {
        var r;
        ok, r := Read(n);
        if !ok { return; }
        if r.Data? { ReadsMore(s, ip, old(off), out, r.bytes); }
        if !r.Data? || r.bytes == [] { return true, r.Data?, out; }
        out := out + r.bytes;
      }
    }

    /**
      The file gets a prefix of the data, all of it exactly if it fits.  trail has the
      state at the call and after each begin_op ... end_op, bytes how many bytes had
      been written by then; both also when the kernel stops on a full disk.
     */
    method Write(src: seq<Byte>) returns (ok: bool, r: FileResult, ghost trail: seq<Fs>, ghost bytes: seq<nat>)
      requires fs.Valid() && ip in fs.icache && |src| < 0x8000_0000 && LogRecovery.MAXOPBLOCKS >= 6
      modifies this, fs
      ensures ok ==> fs.Valid()
      ensures !ok ==> OnDisk(fs.sb, fs.disk) && Full(fs.sb, fs.disk)
      ensures ok ==> Outcome(fs.sb, old(fs.View()), fs.View(), ip, old(off), off, src, writable, r)
      ensures Trail(fs.sb, trail, bytes, ip, old(off), src) && trail[0] == old(fs.View())
      ensures ok ==> trail[|trail|-1] == fs.View() && bytes[|bytes|-1] == off - old(off)
    {
      hide Own, Bits, HoleFree, Content, Cached, Full, Overwritten, TrailAt, TrailStep;
      ghost var s := fs.View();
      trail, bytes := [s], [0];
      CacheHit(fs.sb, s, fs.icache, ip);
      FileStart(fs.sb, s, ip, off, src);
      if !writable { return true, Failed, trail, bytes; }
      var max := (LogRecovery.MAXOPBLOCKS - 1 - 1 - 2) / 2 * 512;
      var i := 0;
      while i < |src|
        invariant 0 <= i <= |src| && fs.Valid() && ip in fs.icache && off == old(off) + i
        invariant Trail(fs.sb, trail, bytes, ip, old(off), src) && trail[0] == s
        invariant trail[|trail|-1] == fs.View() && bytes[|bytes|-1] == i
        decreases |src| - i
      {
        var n1 := if |src| - i > max then max else |src| - i;
        var res;
        ok, res := WriteChunk(src, i, n1, old(off), s);
        if !ok { return false, Failed, trail, bytes; }
        TrailNext(fs.sb, trail, bytes, ip, old(off), src, fs.View(), off - old(off));
        trail, bytes := trail + [fs.View()], bytes + [off - old(off)];
        TrailEnd(fs.sb, trail, bytes, ip, old(off), src);
        match res
        case ToDevice => return true, Device, trail, bytes;
        case Refused => return true, Failed, trail, bytes;
        case Accepted(n) =>
          if n != n1 { return false, Failed, trail, bytes; }
          i := i + n;
      }
      TrailEnd(fs.sb, trail, bytes, ip, old(off), src);
      return true, Count(|src|), trail, bytes;
    }

    /** The body of filewrite's loop, from begin_op to end_op. */
    method WriteChunk(src: seq<Byte>, i: nat, n1: nat, ghost off0: nat, ghost s: Fs)
      returns (ok: bool, res: WriteResult)
      requires fs.Valid() && ip in fs.icache && 0 < n1 && i + n1 <= |src| < 0x8000_0000
      requires LogRecovery.MAXOPBLOCKS >= 6 && n1 <= (LogRecovery.MAXOPBLOCKS - 4) / 2 * BSIZE
      requires TrailAt(fs.sb, s, fs.View(), ip, off0, src, i) && off == off0 + i
      modifies this, fs
      ensures !ok ==> OnDisk(fs.sb, fs.disk) && Full(fs.sb, fs.disk)
      ensures ok ==> fs.Valid() && ip in fs.icache && ip < |s.ino|
      ensures ok ==> TrailStep(fs.sb, s, old(fs.View()), fs.View(), ip)
      ensures ok && res.Accepted? ==> res.n == n1 && off == old(off) + n1
      ensures ok && !res.Accepted? ==> off == old(off)
      ensures ok ==> TrailAt(fs.sb, s, fs.View(), ip, off0, src, off - off0)
      ensures ok && res == ToDevice ==> s.ino[ip].kind == T_DEV
      ensures ok && res == Refused ==>
        s.ino[ip].kind != T_DEV && !(off0 <= s.ino[ip].size && off0 + |src| <= MAXBYTES)
    {
      hide Own, Bits, Wrote, HoleFree, Content, Cached, Full, Refuses, TrailAt, TrailStep, Sofar, Covered;
      ghost var s0 := fs.View();
      fs.BeginOp();
      ghost var t := fs.View();
      CacheHit(fs.sb, t, fs.icache, ip);
      TrailLogged(fs.sb, s, s0, t, ip, off0, src, i);
      ok, res := fs.Writei(ip, src[i..i+n1], off);
      if !ok { return; }
      FileNext(fs.sb, s, t, fs.View(), ip, off0, off, src, i, n1, res);
      StepNext(fs.sb, s, s0, fs.View(), ip);
      if res.Accepted? { off := off + res.n; }
    }
  }

  /** The file has the same kind and the same bytes. */
  ghost predicate SameFile(s: Fs, t: Fs, ip: nat) {
    ip < |s.ino| && ip < |t.ino| && t.ino[ip].kind == s.ino[ip].kind && Content(t, ip) == Content(s, ip)
  }

  lemma ReadsMore(s: Fs, ip: nat, off: nat, out: seq<Byte>, more: seq<Byte>)
    requires ip < |s.ino| && off + |out| + |more| <= s.ino[ip].size && out <= Content(s, ip)[off..]
    requires forall k :: 0 <= k < |more| ==> more[k] == Content(s, ip)[off + |out| + k]
    ensures out + more <= Content(s, ip)[off..]
  {
    hide Content;
    var c := Content(s, ip)[off..];
    forall k | 0 <= k < |out + more| ensures (out + more)[k] == c[k] {
      assert k < |out| ==> out[k] == c[k];
    }
  }

  /** What was written is what a read of the same range gives. */
  lemma ReadBack(s: Fs, t: Fs, ip: nat, off: Word, src: seq<Byte>, r: ReadResult)
    requires ip < |s.ino| == |t.ino| && off <= s.ino[ip].size && off + |src| < 0x1_0000_0000
    requires Content(t, ip) == Overwritten(Content(s, ip), off, src) && t.ino[ip].kind != T_DEV
    requires Reads(t, ip, off, |src|, r)
    ensures r == Data(src)
  {
    hide Content;
    assert |Overwritten(Content(s, ip), off, src)| >= off + |src|;
    assert forall k :: 0 <= k < |src| ==> Overwritten(Content(s, ip), off, src)[off + k] == src[k];
  }

  // ---- the states between the transactions ----

  ghost predicate StoredAll(sb: Super, s: Fs) {
    OnDisk(sb, s.disk) && |s.ino| == sb.ninodes && forall i: nat :: i < sb.ninodes ==> Stored(sb, s.disk, i) == s.ino[i]
  }

  /** After i bytes: the file has them, other files are as before, and the inodes on disk are current if they were. */
  ghost predicate TrailAt(sb: Super, s: Fs, t: Fs, ip: nat, off0: nat, src: seq<Byte>, i: nat) {
    && Conserved(sb, t) && Sofar(sb, s, t, ip, off0, off0 + i, src, i)
    && (forall j: nat :: j < |s.ino| && j != ip ==> Content(t, j) == Content(s, j))
    && (HoleFree(s, ip) && StoredAll(sb, s) ==> StoredAll(sb, t))
  }

  /** The transaction from t to u has logged every block it changed, and on a file without holes not too many. */
  ghost predicate TrailStep(sb: Super, s: Fs, t: Fs, u: Fs, ip: nat) {
    && Covered(sb, t.disk, u.disk, u.logged)
    && ip < |s.ino| && (HoleFree(s, ip) ==> |u.logged| <= LogRecovery.MAXOPBLOCKS)
  }

  ghost predicate Trail(sb: Super, trail: seq<Fs>, bytes: seq<nat>, ip: nat, off0: nat, src: seq<Byte>) {
    && |trail| == |bytes| > 0 && bytes[0] == 0
    && (forall j :: 0 <= j < |trail| ==> TrailAt(sb, trail[0], trail[j], ip, off0, src, bytes[j]))
    && (forall j :: 0 < j < |trail| ==> TrailStep(sb, trail[0], trail[j-1], trail[j], ip))
  }

  lemma TrailNext(sb: Super, trail: seq<Fs>, bytes: seq<nat>, ip: nat, off0: nat, src: seq<Byte>, u: Fs, i: nat)
    requires Trail(sb, trail, bytes, ip, off0, src) && TrailAt(sb, trail[0], u, ip, off0, src, i)
    requires TrailStep(sb, trail[0], trail[|trail|-1], u, ip)
    ensures Trail(sb, trail + [u], bytes + [i], ip, off0, src)
  {
    hide TrailAt, TrailStep;
  }

  lemma TrailEnd(sb: Super, trail: seq<Fs>, bytes: seq<nat>, ip: nat, off0: nat, src: seq<Byte>)
    requires Trail(sb, trail, bytes, ip, off0, src)
    ensures var n := |trail| - 1; Sofar(sb, trail[0], trail[n], ip, off0, off0 + bytes[n], src, bytes[n])
  {
    hide TrailStep;
    assert TrailAt(sb, trail[0], trail[|trail|-1], ip, off0, src, bytes[|trail|-1]);
  }

  lemma StepNext(sb: Super, s: Fs, t: Fs, u: Fs, ip: nat)
    requires Covered(sb, t.disk, u.disk, u.logged) && ip < |s.ino|
    requires HoleFree(s, ip) ==> |u.logged| <= LogRecovery.MAXOPBLOCKS
    ensures TrailStep(sb, s, t, u, ip)
  {
  }

  /** The first i bytes of src have been written, in whole chunks. */
  ghost predicate Sofar(sb: Super, s: Fs, t: Fs, ip: nat, off0: nat, off: nat, src: seq<Byte>, i: nat) {
    && ip < |s.ino| == |t.ino| && i <= |src| && off == off0 + i
    && t.ino[ip].kind == s.ino[ip].kind
    && (i > 0 ==> off0 <= s.ino[ip].size && off0 + i <= MAXBYTES && s.ino[ip].kind != T_DEV)
    && t.ino[ip].size == (if i > 0 && off > s.ino[ip].size then off else s.ino[ip].size)
    && (off0 <= s.ino[ip].size ==> Content(t, ip) == Overwritten(Content(s, ip), off0, src[..i]))
    && (off0 > s.ino[ip].size ==> Content(t, ip) == Content(s, ip))
    && (HoleFree(s, ip) ==> HoleFree(t, ip))
  }

  ghost predicate Outcome(sb: Super, s: Fs, t: Fs, ip: nat, off0: nat, off: nat, src: seq<Byte>, writable: bool,
    r: FileResult) {
    && ip < |s.ino| && off0 <= off && Sofar(sb, s, t, ip, off0, off, src, off - off0)
    && (r == Count(|src|) || r == Failed || r == Device)
    && (r == Count(|src|) ==> off == off0 + |src|)
    && (r == Count(|src|) <==>
          writable && (|src| == 0 || (s.ino[ip].kind != T_DEV && off0 <= s.ino[ip].size && off0 + |src| <= MAXBYTES)))
    && (r == Device <==> writable && |src| > 0 && s.ino[ip].kind == T_DEV)
  }

  lemma FileStart(sb: Super, s: Fs, ip: nat, off: nat, src: seq<Byte>)
    requires Conserved(sb, s) && ip < |s.ino|
    ensures TrailAt(sb, s, s, ip, off, src, 0) && Sofar(sb, s, s, ip, off, off, src, 0)
  {
    hide HoleFree, Content, Own, Bits;
    assert off <= s.ino[ip].size ==> Overwritten(Content(s, ip), off, src[..0]) == Content(s, ip);
  }

  /** begin_op changes no content. */
  lemma TrailLogged(sb: Super, s: Fs, t: Fs, u: Fs, ip: nat, off0: nat, src: seq<Byte>, i: nat)
    requires TrailAt(sb, s, t, ip, off0, src, i) && u.disk == t.disk && u.ino == t.ino && Conserved(sb, u)
    ensures TrailAt(sb, s, u, ip, off0, src, i)
  {
    hide Addr, Overwritten, Conserved, Stored;
    forall j: nat | j < |t.ino| ensures Content(u, j) == Content(t, j) && (HoleFree(t, j) ==> HoleFree(u, j)) {
      assert forall p: nat :: BlockOf(u, j, p) == BlockOf(t, j, p) && ByteAt(u, j, p) == ByteAt(t, j, p);
    }
  }

  ghost predicate Answer(sb: Super, t: Fs, u: Fs, ip: nat, off: Word, data: seq<Byte>, res: WriteResult) {
    && ip < |t.ino|
    && if t.ino[ip].kind == T_DEV then res == ToDevice && u == t
       else if Refuses(t.ino[ip], off, |data|) then res == Refused && u == t
       else res == Accepted(|data|) && Wrote(sb, t, u, ip, off, data)
  }

  /** One chunk. */
  lemma FileNext(sb: Super, s: Fs, t: Fs, u: Fs, ip: nat, off0: nat, off: Word, src: seq<Byte>, i: nat, n1: nat,
                 res: WriteResult)
    requires TrailAt(sb, s, t, ip, off0, src, i) && off == off0 + i && i + n1 <= |src| && t.logged == {} && n1 > 0
    requires n1 <= (LogRecovery.MAXOPBLOCKS - 4) / 2 * BSIZE && LogRecovery.MAXOPBLOCKS >= 6
    requires Answer(sb, t, u, ip, off, src[i..i+n1], res)
    ensures res.Accepted? ==> res.n == n1 && off + n1 <= MAXBYTES
    ensures TrailAt(sb, s, u, ip, off0, src, if res.Accepted? then i + n1 else i)
    ensures ip < |s.ino| && (res == ToDevice ==> s.ino[ip].kind == T_DEV)
    ensures res == Refused ==> s.ino[ip].kind != T_DEV && !(off0 <= s.ino[ip].size && off0 + |src| <= MAXBYTES)
    ensures HoleFree(s, ip) ==> |u.logged| <= LogRecovery.MAXOPBLOCKS
  {
    hide HoleFree, Content, Own, Bits, Written, OthersKept, Overwritten, WriteCost, Stored;
    if res.Accepted? {
      assert !Refuses(t.ino[ip], off, n1) && off <= t.ino[ip].size;
      assert off0 <= s.ino[ip].size;
      ChunkFits(off, n1, (LogRecovery.MAXOPBLOCKS - 4) / 2);
      WriteRefines(sb, t, u, ip, off, src[i..i+n1]);
      assert src[..i+n1] == src[..i] + src[i..i+n1];
      OverwrittenTwice(Content(s, ip), off0, src[..i], src[i..i+n1]);
      forall j: nat | j < |s.ino| && j != ip ensures Content(u, j) == Content(s, j) { OthersContent(sb, t, u, ip, j); }
      if HoleFree(s, ip) && StoredAll(sb, s) { StoredNext(sb, t, u, ip, off, src[i..i+n1]); }
    }
  }

  lemma StoredNext(sb: Super, t: Fs, u: Fs, ip: nat, off: nat, data: seq<Byte>)
    requires Wrote(sb, t, u, ip, off, data) && HoleFree(t, ip) && StoredAll(sb, t)
    ensures StoredAll(sb, u)
  {
    hide Stored, Own, Bits, Written, HoleFree;
  }
}
