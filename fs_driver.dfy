/** lv_fs_driver.cpp: the LVGL drive `S:` backed by stdio on the SD card.

    The stdio calls are foreign: what `fopen`, `fread`, `fseek` and `ftell`
    return is passed in, and each callback returns the call it makes
    together with what it reports to LVGL. */
module FsDriver {
  import opened Wrappers

  type Ptr = nat
  const Null: Ptr := 0
  const Word: int := 0x1_0000_0000
  type U32 = x: int | 0 <= x < 0x1_0000_0000

  const MountPoint := "/sdcard"
  const DriveLetter := 'S'
  const CacheSize: nat := 0

  /** LVGL's `lv_fs_mode_t` flags. */
  type Mode = bv8
  const ModeWr: Mode := 0x01
  const ModeRd: Mode := 0x02

  /** LVGL's `lv_fs_whence_t` and stdio's `SEEK_*`. */
  datatype LvWhence = LvSeekSet | LvSeekCur | LvSeekEnd | LvSeekOther(code: nat)
  datatype StdWhence = SeekSet | SeekCur | SeekEnd

  datatype FsRes = ResOk | ResUnknown

  /** What `init` hands to `lv_fs_drv_register`. */
  datatype Registration = Registration(letter: char, cacheSize: nat, callbacks: seq<string>)

  const Callbacks := ["fs_open_cb", "fs_close_cb", "fs_read_cb", "fs_seek_cb", "fs_tell_cb"]

  /** `init`. */
  function Init(): (r: Registration)
    ensures r.letter == DriveLetter && r.cacheSize == 0
    ensures r.callbacks == ["fs_open_cb", "fs_close_cb", "fs_read_cb", "fs_seek_cb", "fs_tell_cb"]
    ensures forall i, j :: 0 <= i < j < |r.callbacks| ==> r.callbacks[i] != r.callbacks[j]
  {
    Registration(DriveLetter, CacheSize, Callbacks)
  }

  /** `S:/path` maps to `/sdcard/path`. */
  function FullPath(path: string): (r: string)
    ensures |r| == |MountPoint| + 1 + |path|
  {
    MountPoint + "/" + path
  }

  /** Every mapped path lies under the mount point, and the drive path is
      recovered from it, so distinct drive paths open distinct files. */
  lemma FullPathRoundTrip(path: string)
    ensures FullPath(path)[..|MountPoint| + 1] == "/sdcard/"
    ensures FullPath(path)[|MountPoint| + 1..] == path
  {
  }

  lemma FullPathInjective(p: string, q: string)
    ensures FullPath(p) == FullPath(q) <==> p == q
  {
    if FullPath(p) == FullPath(q) {
      FullPathRoundTrip(p);
      FullPathRoundTrip(q);
    }
  }

  /** The open-mode test as written: `mode == LV_FS_MODE_RD | LV_FS_MODE_WR`
      parses as `(mode == LV_FS_MODE_RD) | LV_FS_MODE_WR`. */
  predicate ReadWriteTestAsWritten(mode: Mode) {
    ((if mode == ModeRd then 1 else 0) as Mode | ModeWr) != 0
  }

  function OpenModeAsWritten(mode: Mode): string {
    if mode == ModeWr then "wb" else if ReadWriteTestAsWritten(mode) then "r+b" else "rb"
  }

  /** As written the read-write test always holds, so plain reading opens
      with "r+b" and the "rb" default is never chosen. */
  lemma OpenModeAsWrittenNeverReadOnly(mode: Mode)
    ensures ReadWriteTestAsWritten(mode)
    ensures OpenModeAsWritten(mode) != "rb"
    ensures OpenModeAsWritten(ModeRd) == "r+b"
  {
    assert ModeWr != 0;
  }

  /** The open mode with the intended test `mode == (RD | WR)`. */
  function OpenMode(mode: Mode): string {
    if mode == ModeWr then "wb" else if mode == (ModeRd | ModeWr) then "r+b" else "rb"
  }

  /** Write-only truncates, read-write updates in place, and reading (or any
      other mode) opens read-only. */
  lemma OpenModeIntended(mode: Mode)
    ensures OpenMode(ModeWr) == "wb"
    ensures OpenMode(ModeRd) == "rb"
    ensures OpenMode(ModeRd | ModeWr) == "r+b"
    ensures OpenMode(mode) == "rb" <==> mode != ModeWr && mode != (ModeRd | ModeWr)
    ensures OpenMode(mode) != OpenModeAsWritten(mode) <==> mode != ModeWr && mode != (ModeRd | ModeWr)
  {
    assert (ModeRd | ModeWr) == 0x03;
    OpenModeAsWrittenNeverReadOnly(mode);
  }

  /** `fs_open_cb`: the `fopen` call it makes (full path and mode) and the
      handle it gives LVGL, `fopenResult` being what `fopen` returned. */
  method OpenCb(path: string, mode: Mode, fopenResult: Ptr) returns (call: (string, string), file: Ptr)
    ensures call.0 == FullPath(path) && call.1 == OpenMode(mode)
    ensures file == fopenResult
    ensures call.1 in {"rb", "wb", "r+b"}
  {
    var fullPath := MountPoint + "/" + path;
    var modeStr := "rb";
    if mode == ModeWr {
      modeStr := "wb";
    } else if mode == (ModeRd | ModeWr) {
      modeStr := "r+b";
    }
    call := (fullPath, modeStr);
    if fopenResult == Null {
      return call, Null;
    }
    file := fopenResult;
  }

  /** `fs_close_cb`: closes a non-null handle and always succeeds. */
  method CloseCb(file: Ptr) returns (closes: bool, res: FsRes)
    ensures closes <==> file != Null
    ensures res == ResOk
  {
    closes := false;
    if file != Null {
      closes := true;
    }
    res := ResOk;
  }

  /** `fs_read_cb` with `freadResult` the count `fread` returned. */
  method ReadCb(file: Ptr, btr: U32, freadResult: nat) returns (res: FsRes, br: U32)
    requires freadResult <= btr
    ensures file == Null ==> res == ResUnknown && br == 0
    ensures file != Null ==> res == ResOk && br == freadResult
  {
    if file == Null {
      br := 0;
      return ResUnknown, br;
    }
    br := freadResult;
    res := if br == btr then ResOk else ResOk;
  }

  /** `fs_seek_cb`'s whence translation. */
  function Whence(w: LvWhence): (r: StdWhence)
    ensures r == SeekCur <==> w == LvSeekCur
    ensures r == SeekEnd <==> w == LvSeekEnd
    ensures r == SeekSet <==> !(w == LvSeekCur || w == LvSeekEnd)
  {
    if w == LvSeekCur then SeekCur else if w == LvSeekEnd then SeekEnd else SeekSet
  }

  /** `fs_seek_cb`: the `fseek` call it makes, if any, and its report. */
  method SeekCb(file: Ptr, pos: U32, whence: LvWhence, fseekResult: int) returns (call: Option<(U32, StdWhence)>, res: FsRes)
    ensures file == Null <==> call.None?
    ensures call.Some? ==> call.value == (pos, Whence(whence))
    ensures res == ResOk <==> file != Null && fseekResult == 0
  {
    if file == Null {
      return None, ResUnknown;
    }
    var whenceStd := SeekSet;
    if whence == LvSeekCur {
      whenceStd := SeekCur;
    } else if whence == LvSeekEnd {
      whenceStd := SeekEnd;
    }
    call := Some((pos, whenceStd));
    res := if fseekResult == 0 then ResOk else ResUnknown;
  }

  /** `ftell`'s `long` result stored into a `uint32_t`. */
  function TellPosition(ftellResult: int): (p: U32)
    ensures 0 <= ftellResult < Word ==> p == ftellResult
  {
    ftellResult % Word
  }

  /** `fs_tell_cb` with `ftellResult` what `ftell` returned. */
  method TellCb(file: Ptr, ftellResult: int) returns (res: FsRes, pos: U32)
    ensures file == Null ==> res == ResUnknown && pos == 0
    ensures file != Null ==> res == ResOk && pos == TellPosition(ftellResult)
  {
    if file == Null {
      pos := 0;
      return ResUnknown, pos;
    }
    pos := ftellResult % Word;
    res := ResOk;
  }

  /** An `ftell` failure (-1) is not reported: the position reads as
      0xFFFFFFFF and the result is OK. */
  lemma TellErrorUnreported()
    ensures TellPosition(-1) == 0xFFFF_FFFF
  {
  }
}
