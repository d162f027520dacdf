/** spdlog's `rotating_file_sink` over a map of the files, for renames and writes that
    succeed. */
module RotatingFileSink {
  import opened Filenames
  import opened CircularQueue

  type Files = map<string, string>

  class FileSystem {
    var files: Files

    constructor (files: Files)
      ensures this.files == files
    {
      this.files := files;
    }

    method Remove(path: string)
      modifies this
      ensures files == old(files) - {path}
    {
      files := files - {path};
    }

    method Rename(source: string, target: string)
      requires source in files && source != target
      modifies this
      ensures files == old(files)[target := old(files)[source]] - {source}
    {
      files := files[target := files[source]] - {source};
    }
  }

  /** `file_helper`: a file open for appending. */
  class FileHelper {
    const fs: FileSystem
    var filename: string
    var isOpen: bool

    constructor (fs: FileSystem)
      ensures this.fs == fs && !isOpen && filename == ""
    {
      this.fs := fs;
      filename, isOpen := "", false;
    }

    ghost predicate Valid()
      reads this, fs
    {
      isOpen ==> filename != "" && filename in fs.files
    }

    /** `open`; no file has the empty name. */
    method Open(path: string, truncate: bool) returns (ok: bool)
      modifies this, fs
      ensures Valid() && filename == path && (ok <==> path != "") && isOpen == ok
      ensures fs.files == if !ok || (!truncate && path in old(fs.files)) then old(fs.files)
                          else old(fs.files)[path := ""]
    {
      Close();
      filename := path;
      if path == "" {
        return false;
      }
      if truncate || path !in fs.files {
        fs.files := fs.files[path := ""];
      }
      isOpen := true;
      return true;
    }

    method Close()
      modifies this`isOpen
      ensures !isOpen
    {
      isOpen := false;
    }

    method Write(buf: string)
      requires Valid()
      modifies fs
      ensures Valid()
      ensures fs.files == if isOpen then old(fs.files)[filename := old(fs.files)[filename] + buf] else old(fs.files)
    {
      if !isOpen {
        return;
      }
      fs.files := fs.files[filename := fs.files[filename] + buf];
    }

    method Size() returns (n: nat)
      requires Valid() && isOpen
      ensures n == |fs.files[filename]|
    {
      n := |fs.files[filename]|;
    }
  }

  datatype Slot = Missing | File(text: string)

  function Text(slot: Slot): string {
    if slot.File? then slot.text else ""
  }

  function SlotAt(files: Files, path: string): Slot {
    if path in files then File(files[path]) else Missing
  }

  /** The files of a log, by index. */
  ghost function Slots(files: Files, base: string, n: nat): (s: seq<Slot>)
    ensures |s| == n
  {
    seq(n, j requires 0 <= j => SlotAt(files, CalcFilename(base, j)))
  }

  /** The log, oldest part first: the files from the highest index down to 0. */
  ghost function Joined(s: seq<Slot>): string {
    if s == [] then "" else Text(s[|s| - 1]) + Joined(s[..|s| - 1])
  }

  predicate IsSuffix(s: string, t: string) {
    |s| <= |t| && t[|t| - |s|..] == s
  }

  /** A rotation: every file moves up by one index, and so does a gap; the last one gives way
      if there is one to replace it; the first one is empty. */
  ghost function Rotated(s: seq<Slot>): seq<Slot>
    requires |s| > 0
  {
    seq(|s|, j requires 0 <= j < |s| =>
      if j == 0 then File("") else if j < |s| - 1 || s[j - 1].File? then s[j - 1] else s[j])
  }

  /** What a rotation deletes. */
  ghost function Deleted(s: seq<Slot>): string
    requires |s| > 0
  {
    if |s| == 1 || s[|s| - 2].File? then Text(s[|s| - 1]) else ""
  }

  lemma {:induction false} JoinedShift(s: seq<Slot>, t: seq<Slot>)
    requires |t| == |s| + 1 && t[0] == File("")
    requires forall j :: 0 <= j < |s| ==> t[j + 1] == s[j]
    ensures Joined(t) == Joined(s)
  {
    if |s| > 0 {
      JoinedShift(s[..|s| - 1], t[..|s|]);
    } else {
      assert t[..0] == [];
    }
  }

  lemma JoinedLast(s: seq<Slot>, k: nat)
    requires |s| == k + 1
    ensures Joined(s) == Text(s[k]) + Joined(s[..k])
  {
  }

  lemma LastReplaced(s: seq<Slot>)
    requires |s| > 1 && s[|s| - 2].File?
    ensures Joined(Rotated(s)) == Joined(s[..|s| - 1])
  {
    JoinedShift(s[..|s| - 1], Rotated(s));
  }

  lemma LastStays(s: seq<Slot>)
    requires |s| > 1 && s[|s| - 2].Missing?
    ensures Joined(Rotated(s)) == Joined(s)
  {
    hide Joined;
    var n, t := |s|, Rotated(s);
    JoinedShift(s[..n - 2], t[..n - 1]);
    JoinedLast(t, n - 1);
    JoinedLast(s, n - 1);
    JoinedLast(s[..n - 1], n - 2);
    assert s[..n - 1][..n - 2] == s[..n - 2];
  }

  /** Rotation deletes the oldest part of the log, or nothing. */
  lemma RotationDeletesOldest(s: seq<Slot>)
    requires |s| > 0
    ensures Joined(s) == Deleted(s) + Joined(Rotated(s))
  {
    hide Joined;
    var n := |s|;
    if n == 1 {
      JoinedLast(s, 0);
      JoinedLast(Rotated(s), 0);
      assert s[..0] == Rotated(s)[..0];
      JoinedNone(s[..0]);
    } else if s[n - 2].File? {
      LastReplaced(s);
      JoinedLast(s, n - 1);
    } else {
      LastStays(s);
    }
  }

  lemma JoinedNone(s: seq<Slot>)
    requires s == []
    ensures Joined(s) == ""
  {
  }

  /** A file that is none of the log's. */
  ghost predicate Foreign(base: string, n: nat, path: string) {
    forall j: nat :: j < n ==> path != CalcFilename(base, j)
  }

  ghost predicate ForeignKept(files: Files, files2: Files, base: string, n: nat) {
    forall path :: Foreign(base, n, path) ==> SlotAt(files2, path) == SlotAt(files, path)
  }

  lemma DistinctFiles(base: string, i: nat)
    ensures forall j: nat :: CalcFilename(base, j) == CalcFilename(base, i) ==> j == i
  {
    forall j: nat | CalcFilename(base, j) == CalcFilename(base, i) ensures j == i {
      CalcFilenameInjective(base, j, i);
    }
  }

  lemma SlotsAfterMove(files: Files, files2: Files, base: string, n: nat, i: nat)
    requires 0 < i < n && CalcFilename(base, i - 1) in files
    requires var target, src := CalcFilename(base, i), CalcFilename(base, i - 1);
             files2 == (files - {target})[target := files[src]] - {src}
    ensures Slots(files2, base, n) == Slots(files, base, n)[i := Slots(files, base, n)[i - 1]][i - 1 := Missing]
  {
    hide CalcFilename, Slots;
    var s, s2 := Slots(files, base, n), Slots(files2, base, n);
    var moved := s[i := s[i - 1]][i - 1 := Missing];
    forall j: nat | j < n
      ensures s2[j] == moved[j]
    {
      SlotIs(files, base, n, j);
      SlotIs(files2, base, n, j);
      SlotIs(files, base, n, i - 1);
      if j != i {
        OtherFile(base, j, i);
      }
      if j != i - 1 {
        OtherFile(base, j, i - 1);
      }
    }
  }

  lemma SlotIs(files: Files, base: string, n: nat, j: nat)
    requires j < n
    ensures Slots(files, base, n)[j] == SlotAt(files, CalcFilename(base, j))
  {
  }

  lemma OtherFile(base: string, i: nat, j: nat)
    requires i != j
    ensures CalcFilename(base, i) != CalcFilename(base, j)
  {
    if CalcFilename(base, i) == CalcFilename(base, j) {
      CalcFilenameInjective(base, i, j);
    }
  }

  lemma ForeignAfterMove(files: Files, files2: Files, base: string, n: nat, i: nat)
    requires 0 < i < n && CalcFilename(base, i - 1) in files
    requires var target, src := CalcFilename(base, i), CalcFilename(base, i - 1);
             files2 == (files - {target})[target := files[src]] - {src}
    ensures ForeignKept(files, files2, base, n)
  {
    hide CalcFilename;
  }

  lemma SlotsAfterWrite(files: Files, base: string, n: nat, text: string)
    requires n > 0
    ensures Slots(files[base := text], base, n) == Slots(files, base, n)[0 := File(text)]
    ensures ForeignKept(files, files[base := text], base, n)
  {
    assert CalcFilename(base, 0) == base;
    forall j: nat | j < n ensures CalcFilename(base, j) == base ==> j == 0 {
      if CalcFilename(base, j) == base {
        CalcFilenameInjective(base, j, 0);
      }
    }
  }

  lemma {:induction false} JoinedAppend(s: seq<Slot>, text: string)
    requires |s| > 0
    ensures Joined(s[0 := File(Text(s[0]) + text)]) == Joined(s) + text
  {
    var t, k := s[0 := File(Text(s[0]) + text)], |s| - 1;
    if k > 0 {
      JoinedAppend(s[..k], text);
      assert t[..k] == s[..k][0 := File(Text(s[0]) + text)];
    } else {
      assert t[..0] == [] == s[..0];
    }
  }

  /** Text added to the active file is added to the log. */
  lemma LogAfterWrite(files: Files, base: string, n: nat, text: string)
    requires n > 0
    ensures Joined(Slots(files[base := Text(SlotAt(files, base)) + text], base, n))
         == Joined(Slots(files, base, n)) + text
    ensures ForeignKept(files, files[base := Text(SlotAt(files, base)) + text], base, n)
  {
    hide Joined;
    SlotsAfterWrite(files, base, n, Text(SlotAt(files, base)) + text);
    FirstSlot(files, base, n);
    JoinedAppend(Slots(files, base, n), text);
  }

  lemma LogAfterOpen(files: Files, base: string, n: nat)
    requires n > 0
    ensures Joined(Slots(if base in files then files else files[base := ""], base, n)) == Joined(Slots(files, base, n))
  {
    hide Joined, Slots;
    LogAfterWrite(files, base, n, "");
    assert Text(SlotAt(files, base)) + "" == Text(SlotAt(files, base));
    assert base in files ==> files[base := files[base]] == files;
  }

  lemma EndsWith(s: string, t: string)
    ensures IsSuffix(t, s + t) && (s == "" ==> s + t == t)
  {
  }

  lemma SuffixOfItself(s: string)
    ensures IsSuffix(s, s)
  {
  }

  lemma FirstSlot(files: Files, base: string, n: nat)
    requires n > 0
    ensures Slots(files, base, n)[0] == SlotAt(files, base)
  {
    assert CalcFilename(base, 0) == base;
  }

  lemma SuffixAfterDelete(deleted: string, log: string, written: string)
    requires IsSuffix(deleted + log, written)
    ensures IsSuffix(log, written)
  {
    assert written[|written| - |log|..] == written[|written| - |deleted + log|..][|deleted|..];
  }

  lemma SuffixAfterAppend(log: string, written: string, text: string)
    requires IsSuffix(log, written)
    ensures IsSuffix(log + text, written + text)
  {
    assert (written + text)[|written + text| - |log + text|..] == written[|written| - |log|..] + text;
  }

  lemma ForeignKeptTwice(a: Files, b: Files, c: Files, base: string, n: nat)
    requires ForeignKept(a, b, base, n) && ForeignKept(b, c, base, n)
    ensures ForeignKept(a, c, base, n)
  {
  }

  /** The slots when the loop of `rotate_` has done the indices above `i`. */
  ghost predicate Moved(s: seq<Slot>, t: seq<Slot>, i: nat)
    requires |s| == |t| && i < |s|
  {
    && (forall j :: 0 <= j < i ==> t[j] == s[j])
    && (t[i] == if i == |s| - 1 then s[i] else Missing)
    && (forall j :: i < j < |s| ==> t[j] == if j < |s| - 1 || s[j - 1].File? then s[j - 1] else s[j])
  }

  lemma MoveOne(s: seq<Slot>, t: seq<Slot>, u: seq<Slot>, i: nat)
    requires |s| == |t| && 0 < i < |s| && Moved(s, t, i)
    requires u == if t[i - 1].File? then t[i := t[i - 1]][i - 1 := Missing] else t
    ensures Moved(s, u, i - 1)
  {
  }

  /** The files of a log once it has been opened: the active file exists, and there has been a
      rotation exactly if one is asked for and the active file was not empty. */
  ghost function FirstOpened(s: seq<Slot>, rotateOnOpen: bool): seq<Slot>
    requires |s| > 0
  {
    if rotateOnOpen && Text(s[0]) != "" then Rotated(s)
    else if s[0].Missing? then s[0 := File("")]
    else s
  }

  datatype Opened = Sink(sink: RotatingFileSink) | Invalid

  method Open(fs: FileSystem, base: string, maxSize: nat, maxFiles: nat, rotateOnOpen: bool) returns (r: Opened)
    requires forall path :: path in fs.files ==> |fs.files[path]| < SIZE_LIMIT
    modifies fs
    ensures r.Invalid? <==> maxSize == 0 || maxFiles > 200000 || base == ""
    ensures r.Invalid? ==> fs.files == old(fs.files)
    ensures r.Sink? ==> r.sink.Valid() && r.sink.Covers() && r.sink.helper.fs == fs && fresh(r.sink)
    ensures r.Sink? ==> r.sink.base == base && r.sink.maxSize == maxSize && r.sink.maxFiles == maxFiles
                        && r.sink.currentSize == |fs.files[base]|
    ensures r.Sink? ==>
              Slots(fs.files, base, maxFiles + 1)
              == FirstOpened(Slots(old(fs.files), base, maxFiles + 1), rotateOnOpen)
    ensures r.Sink? ==>
              IsSuffix(Joined(Slots(fs.files, base, maxFiles + 1)), Joined(Slots(old(fs.files), base, maxFiles + 1)))
  {
    if maxSize == 0 || maxFiles > 200000 {
      return Invalid;
    }
    var sink := new RotatingFileSink(fs, base, maxSize, maxFiles);
    var ok := sink.OpenFirst(rotateOnOpen);
    if !ok {
      return Invalid;
    }
    return Sink(sink);
  }

  class RotatingFileSink {
    const base: string
    const maxSize: nat
    const maxFiles: nat
    const helper: FileHelper
    var currentSize: nat
    /** The log as it was when the sink was opened, and every byte written since. */
    ghost var written: string

    constructor (fs: FileSystem, base: string, maxSize: nat, maxFiles: nat)
      ensures this.base == base && this.maxSize == maxSize && this.maxFiles == maxFiles
      ensures helper.fs == fs && fresh(helper) && !helper.isOpen
      ensures written == Joined(Slots(fs.files, base, maxFiles + 1))
    {
      this.base, this.maxSize, this.maxFiles := base, maxSize, maxFiles;
      helper := new FileHelper(fs);
      currentSize := 0;
      written := Joined(Slots(fs.files, base, maxFiles + 1));
    }

    /** The files of the log hold the end of everything written, in order. */
    ghost predicate Valid()
      reads this, helper, helper.fs
    {
      && helper.isOpen && helper.filename == base && helper.Valid() && currentSize < SIZE_LIMIT
      && IsSuffix(Log(), written)
    }

    ghost function Log(): string
      reads this, helper, helper.fs
    {
      Joined(Slots(helper.fs.files, base, maxFiles + 1))
    }

    /** The estimate of the active file's size is no underestimate. */
    ghost predicate Covers()
      requires Valid()
      reads this, helper, helper.fs
    {
      |helper.fs.files[base]| <= currentSize
    }

    /** `rotate_`. */
    method Rotate()
      requires helper.filename == base != ""
      modifies helper, helper.fs
      ensures helper.isOpen && helper.filename == base && helper.Valid()
      ensures Slots(helper.fs.files, base, maxFiles + 1) == Rotated(old(Slots(helper.fs.files, base, maxFiles + 1)))
      ensures ForeignKept(old(helper.fs.files), helper.fs.files, base, maxFiles + 1)
      ensures old(Log()) == Deleted(old(Slots(helper.fs.files, base, maxFiles + 1))) + Log()
      ensures helper.fs.files[base] == ""
    {
      hide CalcFilename, Slots, Joined;
      helper.Close();
      var i := maxFiles;
      ghost var n, files := maxFiles + 1, helper.fs.files;
      while i > 0
        invariant 0 <= i <= maxFiles && helper.filename == base
        invariant Moved(Slots(files, base, n), Slots(helper.fs.files, base, n), i)
        invariant ForeignKept(files, helper.fs.files, base, n)
      {
        ghost var now := helper.fs.files;
        var source := CalcFilename(base, i - 1);
        if source in helper.fs.files {
          var target := CalcFilename(base, i);
          DistinctFiles(base, i);
          helper.fs.Remove(target);
          helper.fs.Rename(source, target);
          SlotsAfterMove(now, helper.fs.files, base, n, i);
          ForeignAfterMove(now, helper.fs.files, base, n, i);
        }
        SlotOf(now, base, n, i - 1);
        MoveOne(Slots(files, base, n), Slots(now, base, n), Slots(helper.fs.files, base, n), i);
        i := i - 1;
      }
      SlotsAfterWrite(helper.fs.files, base, n, "");
      var _ := helper.Open(base, true);
      RotationDeletesOldest(Slots(files, base, n));
    }

    /** The rest of the constructor. */
    method OpenFirst(rotateOnOpen: bool) returns (ok: bool)
      requires !helper.isOpen && written == Log() && maxSize > 0
      requires forall path :: path in helper.fs.files ==> |helper.fs.files[path]| < SIZE_LIMIT
      modifies this`currentSize, helper, helper.fs
      ensures ok <==> base != ""
      ensures !ok ==> helper.fs.files == old(helper.fs.files)
      ensures ok ==> Valid() && Covers() && currentSize == |helper.fs.files[base]|
      ensures ok ==>
                Slots(helper.fs.files, base, maxFiles + 1)
                == FirstOpened(old(Slots(helper.fs.files, base, maxFiles + 1)), rotateOnOpen)
    {
      hide Joined, Slots, Rotated, Deleted, ForeignKept;
      LogAfterOpen(helper.fs.files, base, maxFiles + 1);
      SlotsAfterWrite(helper.fs.files, base, maxFiles + 1, "");
      FirstSlot(helper.fs.files, base, maxFiles + 1);
      ok := helper.Open(base, false);
      if !ok {
        return;
      }
      SuffixOfItself(Log());
      currentSize := helper.Size();
      if rotateOnOpen && currentSize > 0 {
        ghost var deleted := Deleted(Slots(helper.fs.files, base, maxFiles + 1));
        Rotate();
        SuffixAfterDelete(deleted, Log(), written);
        currentSize := 0;
      }
    }

    method RotateNow()
      requires Valid()
      modifies helper, helper.fs
      ensures Valid() && written == old(written) && (old(Covers()) ==> Covers())
      ensures Slots(helper.fs.files, base, maxFiles + 1) == Rotated(old(Slots(helper.fs.files, base, maxFiles + 1)))
      ensures ForeignKept(old(helper.fs.files), helper.fs.files, base, maxFiles + 1)
      ensures helper.fs.files[base] == "" && currentSize == old(currentSize)
    {
      hide Joined, Slots, Rotated, Deleted, ForeignKept, IsSuffix;
      ghost var deleted := Deleted(Slots(helper.fs.files, base, maxFiles + 1));
      Rotate();
      SuffixAfterDelete(deleted, Log(), written);
    }

    /** Writing to the active file. */
    method Append(formatted: string)
      requires Valid()
      modifies this`written, helper.fs
      ensures Valid() && written == old(written) + formatted
      ensures helper.fs.files[base] == old(helper.fs.files[base]) + formatted
      ensures Slots(helper.fs.files, base, maxFiles + 1)
           == old(Slots(helper.fs.files, base, maxFiles + 1))[0 := File(old(helper.fs.files[base]) + formatted)]
      ensures ForeignKept(old(helper.fs.files), helper.fs.files, base, maxFiles + 1)
    {
      hide Joined, Slots, ForeignKept, IsSuffix;
      LogAfterWrite(helper.fs.files, base, maxFiles + 1, formatted);
      SlotsAfterWrite(helper.fs.files, base, maxFiles + 1, helper.fs.files[base] + formatted);
      SuffixAfterAppend(Log(), written, formatted);
      helper.Write(formatted);
      written := written + formatted;
    }

    /** `sink_it_` for a formatted message. Every message is written, whatever rotations it
        takes; the active file outgrows the limit only for a message that is too long for any
        file, and then that message is all it holds. */
    method SinkIt(formatted: string)
      requires Valid() && |formatted| < SIZE_LIMIT
      modifies this`currentSize, this`written, helper, helper.fs
      ensures Valid() && written == old(written) + formatted
      ensures IsSuffix(formatted, helper.fs.files[base])
      ensures var total := (old(currentSize) + |formatted|) % SIZE_LIMIT;
              var s, t := old(Slots(helper.fs.files, base, maxFiles + 1)), Slots(helper.fs.files, base, maxFiles + 1);
              var active := old(helper.fs.files[base]);
              if total <= maxSize || active == "" then
                t == s[0 := File(active + formatted)] && currentSize == total
              else
                t == Rotated(s)[0 := File(formatted)] && currentSize == |formatted|
      ensures ForeignKept(old(helper.fs.files), helper.fs.files, base, maxFiles + 1)
      ensures old(Covers()) && old(currentSize) + |formatted| < SIZE_LIMIT ==>
        && Covers() && currentSize <= old(currentSize) + |formatted|
        && (|helper.fs.files[base]| <= maxSize || helper.fs.files[base] == formatted)
    {
      hide Joined, Slots, Rotated, Deleted, ForeignKept, IsSuffix;
      ghost var files := helper.fs.files;
      ForeignSame(files, base, maxFiles + 1);
      var newSize := (currentSize + |formatted|) % SIZE_LIMIT;
      if newSize > maxSize {
        var size := helper.Size();
        if size > 0 {
          RotateNow();
          newSize := |formatted|;
        }
      }
      ghost var files2 := helper.fs.files;
      Append(formatted);
      ForeignKeptTwice(files, files2, helper.fs.files, base, maxFiles + 1);
      EndsWith(files2[base], formatted);
      currentSize := newSize;
    }
  }

  /** A call by a client of the sink. */
  datatype Call = Log(formatted: string) | RotateNow

  function Bytes(calls: seq<Call>): string {
    if calls == [] then ""
    else Bytes(calls[..|calls| - 1]) + if calls[|calls| - 1].Log? then calls[|calls| - 1].formatted else ""
  }

  lemma {:induction false} BytesOfPart(calls: seq<Call>, i: nat)
    requires i <= |calls|
    ensures |Bytes(calls[..i])| <= |Bytes(calls)|
  {
    if i < |calls| {
      BytesOfPart(calls[..|calls| - 1], i);
      assert calls[..|calls| - 1][..i] == calls[..i];
    } else {
      assert calls[..i] == calls;
    }
  }

  /** The active file keeps to its limit, or is exactly one of the messages. */
  ghost predicate KeepsToLimit(sink: RotatingFileSink, calls: seq<Call>)
    reads sink, sink.helper, sink.helper.fs
  {
    sink.Valid() &&
    (|sink.helper.fs.files[sink.base]| <= sink.maxSize
     || exists j :: 0 <= j < |calls| && calls[j] == Log(sink.helper.fs.files[sink.base]))
  }

  /** Over any run, the files hold the end of the log as it was and everything written since.
      As long as the byte count fits `size_t`, the active file keeps to its limit, too. */
  method Run(sink: RotatingFileSink, calls: seq<Call>)
    requires sink.Valid() && forall i :: 0 <= i < |calls| && calls[i].Log? ==> |calls[i].formatted| < SIZE_LIMIT
    modifies sink, sink.helper, sink.helper.fs
    ensures sink.Valid() && IsSuffix(sink.Log(), old(sink.written) + Bytes(calls))
    ensures calls != [] && old(sink.Covers()) && old(sink.currentSize) + |Bytes(calls)| < SIZE_LIMIT ==>
              sink.Covers() && KeepsToLimit(sink, calls)
    ensures ForeignKept(old(sink.helper.fs.files), sink.helper.fs.files, sink.base, sink.maxFiles + 1)
  {
    hide Joined, Slots, Rotated, ForeignKept, IsSuffix;
    var i := 0;
    ghost var was, files := sink.currentSize, sink.helper.fs.files;
    ghost var fits := sink.Covers() && was + |Bytes(calls)| < SIZE_LIMIT;
    ForeignSame(files, sink.base, sink.maxFiles + 1);
    assert calls[..0] == [];
    while i < |calls|
      invariant 0 <= i <= |calls|
      invariant sink.Valid() && sink.written == old(sink.written) + Bytes(calls[..i])
      invariant fits ==> sink.Covers() && sink.currentSize <= was + |Bytes(calls[..i])|
      invariant fits ==> i == 0 || KeepsToLimit(sink, calls)
      invariant ForeignKept(files, sink.helper.fs.files, sink.base, sink.maxFiles + 1)
    {
      ghost var files2 := sink.helper.fs.files;
      assert calls[..i + 1][..i] == calls[..i];
      BytesOfPart(calls, i + 1);
      if calls[i].Log? {
        sink.SinkIt(calls[i].formatted);
      } else {
        sink.RotateNow();
      }
      ForeignKeptTwice(files, files2, sink.helper.fs.files, sink.base, sink.maxFiles + 1);
      i := i + 1;
    }
    assert calls[..i] == calls;
  }

  lemma ForeignSame(files: Files, base: string, n: nat)
    ensures ForeignKept(files, files, base, n)
  {
  }

  lemma SlotOf(files: Files, base: string, n: nat, j: nat)
    requires j < n
    ensures Slots(files, base, n)[j].File? <==> CalcFilename(base, j) in files
  {
  }
}
