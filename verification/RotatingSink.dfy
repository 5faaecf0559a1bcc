/** File names of spdlog/details/file_helper-inl.h and sinks/rotating_file_sink-inl.h. */
module LogFileNames {
  import opened Decimals

  /** Position of the last c in s, or -1 for npos. */
  function LastIndex(s: string, c: char): (i: int)
    ensures -1 <= i < |s|
    ensures i >= 0 ==> s[i] == c
    ensures forall j | i < j < |s| :: s[j] != c
  {
    if s == "" then -1
    else if s[|s| - 1] == c then |s| - 1
    else LastIndex(s[..|s| - 1], c)
  }

  /** The extension of fname starts at position k: with the last dot, which is neither the first
      nor the last character of the file's own name nor the last of fname. */
  ghost predicate ExtensionAt(fname: string, k: nat) {
    && 0 < k && k + 1 < |fname| && fname[k] == '.'
    && (forall j | k < j < |fname| :: fname[j] != '.')
    && (forall j | k - 1 <= j < |fname| :: fname[j] != '/')
  }

  /** Path and extension; no extension for hidden files and for a dot at either end. */
  function SplitByExtension(fname: string): (r: (string, string))
    ensures r.0 + r.1 == fname
    ensures r.1 != "" ==> ExtensionAt(fname, |r.0|)
    ensures forall k: nat | ExtensionAt(fname, k) :: r == (fname[..k], fname[k..])
  {
    var ext := LastIndex(fname, '.');
    if ext == -1 || ext == 0 || ext == |fname| - 1 then (fname, "")
    else
      var folder := LastIndex(fname, '/');
      if folder != -1 && folder >= ext - 1 then (fname, "") else (fname[..ext], fname[ext..])
  }

  /** "logs/mylog.txt" with index 3 is "logs/mylog.3.txt"; index 0 is the file itself. */
  function CalcFilename(filename: string, index: nat): string {
    if index == 0 then filename
    else
      var (basename, ext) := SplitByExtension(filename);
      basename + "." + Decimal(index) + ext
  }

  /** Different indices are different files. */
  lemma CalcFilenameInjective(filename: string, i: nat, j: nat)
    requires CalcFilename(filename, i) == CalcFilename(filename, j)
    ensures i == j
  {
    var (basename, ext) := SplitByExtension(filename);
    assert basename + ext == filename;
    if i != 0 && j != 0 {
      var a, b := CalcFilename(filename, i), CalcFilename(filename, j);
      assert |a| == |b| && |Decimal(i)| == |Decimal(j)|;
      Middle(basename + ".", Decimal(i), ext);
      Middle(basename + ".", Decimal(j), ext);
      assert ValueOf(Decimal(i)) == i && ValueOf(Decimal(j)) == j;
    }
  }

  /** The number goes between the name and its extension, or to the end of a name without one. */
  lemma NumberBeforeExtension(filename: string, index: nat)
    requires index > 0
    ensures forall k: nat | ExtensionAt(filename, k) ::
              CalcFilename(filename, index) == filename[..k] + "." + Decimal(index) + filename[k..]
    ensures (forall k: nat :: !ExtensionAt(filename, k)) ==>
              CalcFilename(filename, index) == filename + "." + Decimal(index)
  {
    var (basename, ext) := SplitByExtension(filename);
    if forall k: nat :: !ExtensionAt(filename, k) {
      assert ext == "";
      assert basename + "." + Decimal(index) + "" == basename + "." + Decimal(index);
    }
  }

  /** A numbered log file has the extension of the file it was rotated from. */
  lemma ExtensionIsKept(filename: string, index: nat)
    requires SplitByExtension(filename).1 != ""
    ensures SplitByExtension(CalcFilename(filename, index)).1 == SplitByExtension(filename).1
  {
    var (basename, ext) := SplitByExtension(filename);
    if index > 0 {
      var name := basename + "." + Decimal(index) + ext;
      assert CalcFilename(filename, index) == name;
      hide SplitByExtension, Decimal, ExtensionAt, CalcFilename;
      NoSeparators(Decimal(index));
      ExtensionMoves(basename, ext, basename + ".", Decimal(index));
      assert name[|basename + "." + Decimal(index)|..] == ext;
    }
  }

  /** An extension stays one behind any other name. */
  lemma ExtensionMoves(basename: string, ext: string, start: string, digits: string)
    requires ExtensionAt(basename + ext, |basename|)
    requires digits != "" && forall i | 0 <= i < |digits| :: digits[i] != '.' && digits[i] != '/'
    ensures ExtensionAt(start + digits + ext, |start + digits|)
  {
    var k, filename, name := |start + digits|, basename + ext, start + digits + ext;
    assert name[k - 1] == digits[|digits| - 1];
    forall j | k <= j < |name| ensures name[j] == filename[j - k + |basename|] {
      assert name[j] == ext[j - k] == filename[j - k + |basename|];
    }
  }

  lemma NoSeparators(digits: string)
    requires AllDigits(digits)
    ensures forall i | 0 <= i < |digits| :: digits[i] != '.' && digits[i] != '/'
  {
  }

  lemma FilenameExample()
    ensures CalcFilename("logs/mylog.txt", 3) == "logs/mylog.3.txt"
  {
    assert ExtensionAt("logs/mylog.txt", 10);
    assert Decimal(3) == "3";
    hide SplitByExtension, ExtensionAt, CalcFilename, Decimal;
    NumberBeforeExtension("logs/mylog.txt", 3);
    assert "logs/mylog.txt" == "logs/mylog" + ".txt";
    assert "logs/mylog.txt"[..10] == "logs/mylog" && "logs/mylog.txt"[10..] == ".txt";
    assert "logs/mylog" + "." + "3" + ".txt" == "logs/mylog.3.txt";
  }

  lemma HiddenFileExample()
    ensures CalcFilename("logs/.hidden", 3) == "logs/.hidden.3"
  {
    var f := "logs/.hidden";
    assert f[4] == '/' && forall k | 0 <= k < |f| && f[k] == '.' :: k == 5;
    assert forall k: nat :: !ExtensionAt(f, k);
    assert Decimal(3) == "3";
    hide SplitByExtension, ExtensionAt, CalcFilename, Decimal;
    NumberBeforeExtension(f, 3);
  }

  lemma Middle(left: string, middle: string, right: string)
    ensures (left + middle + right)[|left|..|left| + |middle|] == middle
  {
  }
}

/** The size-rotated log of sinks/rotating_file_sink-inl.h over a directory of files. */
module RotatingSink {
  import opened LogFileNames

  const MAX_FILES_LIMIT := 200000

  /** A file as the formatted messages written to it; its bytes are their concatenation. */
  type File = seq<string>

  function Size(f: File): nat {
    if f == [] then 0 else |f[0]| + Size(f[1..])
  }

  lemma {:induction false} SizeAppend(f: File, msg: string)
    ensures Size(f + [msg]) == Size(f) + |msg|
  {
    if f == [] {
      assert f + [msg] == [msg];
    } else {
      assert (f + [msg])[1..] == f[1..] + [msg];
      SizeAppend(f[1..], msg);
    }
  }

  // ---------------------------------------------------------------------------------------
  // The log files as a list, newest first

  /** A new empty file in front; the oldest one goes once there are maxFiles + 1. */
  function Rotated(logs: seq<File>, maxFiles: nat): seq<File> {
    [[]] + if |logs| <= maxFiles then logs else logs[..maxFiles]
  }

  predicate NeedsRotation(current: File, msg: string, maxSize: nat) {
    Size(current) + |msg| > maxSize && Size(current) > 0
  }

  function Sunk(logs: seq<File>, msg: string, maxSize: nat, maxFiles: nat): seq<File>
    requires logs != []
  {
    var l := if NeedsRotation(logs[0], msg, maxSize) then Rotated(logs, maxFiles) else logs;
    [l[0] + [msg]] + l[1..]
  }

  /** The list after logging msgs from an empty directory. */
  function SunkAll(msgs: seq<string>, maxSize: nat, maxFiles: nat): (logs: seq<File>)
    ensures logs != []
  {
    if msgs == [] then [[]]
    else Sunk(SunkAll(msgs[..|msgs| - 1], maxSize, maxFiles), msgs[|msgs| - 1], maxSize, maxFiles)
  }

  /** All messages kept, oldest first. */
  function Chronicle(logs: seq<File>): seq<string> {
    if logs == [] then [] else Chronicle(logs[1..]) + logs[0]
  }

  function NonEmptyMessages(f: File): nat {
    if f == [] then 0 else (if f[0] == "" then 0 else 1) + NonEmptyMessages(f[1..])
  }

  /** Within the limit, or a single message with something in it. */
  predicate SizeKept(f: File, maxSize: nat) {
    Size(f) <= maxSize || NonEmptyMessages(f) == 1
  }

  ghost predicate IsSuffix<T>(s: seq<T>, t: seq<T>) {
    |s| <= |t| && t[|t| - |s|..] == s
  }

  lemma {:induction false} ChroniclePrefix(logs: seq<File>, k: nat)
    requires k <= |logs|
    ensures Chronicle(logs) == Chronicle(logs[k..]) + Chronicle(logs[..k])
  {
    if k == 0 {
      assert logs[0..] == logs && logs[..0] == [];
      assert Chronicle(logs) + [] == Chronicle(logs);
    } else {
      ChroniclePrefix(logs[1..], k - 1);
      assert logs[1..][k - 1..] == logs[k..];
      assert logs[1..][..k - 1] == logs[..k][1..];
      assert Chronicle(logs[k..]) + Chronicle(logs[..k][1..]) + logs[0]
          == Chronicle(logs[k..]) + (Chronicle(logs[..k][1..]) + logs[0]);
    }
  }

  lemma SunkChronicle(logs: seq<File>, msg: string, maxSize: nat, maxFiles: nat)
    requires 1 <= |logs| <= maxFiles + 1
    ensures var logs' := Sunk(logs, msg, maxSize, maxFiles);
            && |logs| <= |logs'| <= maxFiles + 1
            && IsSuffix(Chronicle(logs'), Chronicle(logs) + [msg])
            && (|logs'| <= maxFiles ==> Chronicle(logs') == Chronicle(logs) + [msg])
  {
    if NeedsRotation(logs[0], msg, maxSize) {
      RotatedChronicle(logs, msg, maxFiles);
    } else {
      AppendedChronicle(logs, msg);
    }
  }

  lemma AppendedChronicle(logs: seq<File>, msg: string)
    requires logs != []
    ensures Chronicle([logs[0] + [msg]] + logs[1..]) == Chronicle(logs) + [msg]
  {
    assert ([logs[0] + [msg]] + logs[1..])[1..] == logs[1..];
    assert Chronicle(logs[1..]) + (logs[0] + [msg]) == Chronicle(logs[1..]) + logs[0] + [msg];
  }

  lemma RotatedChronicle(logs: seq<File>, msg: string, maxFiles: nat)
    requires 1 <= |logs| <= maxFiles + 1
    ensures var l := Rotated(logs, maxFiles); var logs' := [l[0] + [msg]] + l[1..];
            && |logs| <= |logs'| <= maxFiles + 1
            && IsSuffix(Chronicle(logs'), Chronicle(logs) + [msg])
            && (|logs| <= maxFiles ==> Chronicle(logs') == Chronicle(logs) + [msg])
  {
    var kept := if |logs| <= maxFiles then logs else logs[..maxFiles];
    var l := Rotated(logs, maxFiles);
    assert l[1..] == kept;
    KeptChronicle(kept, msg);
    assert [l[0] + [msg]] + l[1..] == [[msg]] + kept by {
      assert l[0] + [msg] == [msg];
    }
    ChroniclePrefix(logs, |kept|);
    assert logs[..|kept|] == kept;
    if |logs| <= maxFiles {
      assert logs[|kept|..] == [];
    }
    SuffixOfSum(Chronicle(logs[|kept|..]), Chronicle(kept), msg);
  }

  lemma KeptChronicle(kept: seq<File>, msg: string)
    ensures Chronicle([[msg]] + kept) == Chronicle(kept) + [msg]
  {
    assert ([[msg]] + kept)[1..] == kept;
  }

  lemma SuffixOfSum(gone: seq<string>, kept: seq<string>, msg: string)
    ensures IsSuffix(kept + [msg], gone + kept + [msg])
    ensures gone == [] ==> gone + kept + [msg] == kept + [msg]
  {
  }

  lemma {:induction false} NonEmptyAppend(f: File, msg: string)
    ensures NonEmptyMessages(f + [msg]) == NonEmptyMessages(f) + if msg == "" then 0 else 1
    ensures NonEmptyMessages(f) == 0 <==> Size(f) == 0
  {
    if f == [] {
      assert f + [msg] == [msg];
    } else {
      assert (f + [msg])[1..] == f[1..] + [msg];
      NonEmptyAppend(f[1..], msg);
    }
  }

  lemma SunkSizes(logs: seq<File>, msg: string, maxSize: nat, maxFiles: nat)
    requires logs != [] && forall i | 0 <= i < |logs| :: SizeKept(logs[i], maxSize)
    ensures var logs' := Sunk(logs, msg, maxSize, maxFiles);
            forall i | 0 <= i < |logs'| :: SizeKept(logs'[i], maxSize)
  {
    var current := if NeedsRotation(logs[0], msg, maxSize) then [] else logs[0];
    SizeAppend(current, msg);
    NonEmptyAppend(current, msg);
    assert SizeKept(current + [msg], maxSize);
  }

  /** What is on disk after any messages: between one and maxFiles + 1 files, holding a suffix of
      everything logged with no message split, and all of it as long as there are not yet
      maxFiles + 1 files; and no file is too large unless one message alone made it so. */
  lemma {:induction false} RotationKeepsSuffix(msgs: seq<string>, maxSize: nat, maxFiles: nat)
    ensures var logs := SunkAll(msgs, maxSize, maxFiles);
            && 1 <= |logs| <= maxFiles + 1
            && IsSuffix(Chronicle(logs), msgs)
            && (|logs| <= maxFiles ==> Chronicle(logs) == msgs)
            && forall i | 0 <= i < |logs| :: SizeKept(logs[i], maxSize)
  {
    hide Sunk, Chronicle, SizeKept, IsSuffix;
    if msgs == [] {
      FirstFile(maxSize);
    } else {
      var before, msg := msgs[..|msgs| - 1], msgs[|msgs| - 1];
      var logs := SunkAll(before, maxSize, maxFiles);
      RotationKeepsSuffix(before, maxSize, maxFiles);
      SunkChronicle(logs, msg, maxSize, maxFiles);
      SunkSizes(logs, msg, maxSize, maxFiles);
      assert before + [msg] == msgs;
      SuffixStep(Chronicle(Sunk(logs, msg, maxSize, maxFiles)), Chronicle(logs), before, msg);
    }
  }

  /** The first message of the newer file would have taken the older one over the limit. */
  predicate HadNoRoom(older: File, newer: File, maxSize: nat) {
    newer != [] && Size(older) > 0 && Size(older) + |newer[0]| > maxSize
  }

  /** No file was closed before its time. */
  ghost predicate ClosedWhenFull(logs: seq<File>, maxSize: nat) {
    forall i, j | 0 <= i < j < |logs| && j == i + 1 :: HadNoRoom(logs[j], logs[i], maxSize)
  }

  lemma {:induction false} NothingRotatesEarly(msgs: seq<string>, maxSize: nat, maxFiles: nat)
    ensures ClosedWhenFull(SunkAll(msgs, maxSize, maxFiles), maxSize)
  {
    if msgs == [] {
    } else {
      var before, msg := msgs[..|msgs| - 1], msgs[|msgs| - 1];
      NothingRotatesEarly(before, maxSize, maxFiles);
      SunkClosedWhenFull(SunkAll(before, maxSize, maxFiles), msg, maxSize, maxFiles);
    }
  }

  lemma SunkClosedWhenFull(logs: seq<File>, msg: string, maxSize: nat, maxFiles: nat)
    requires logs != [] && ClosedWhenFull(logs, maxSize)
    ensures ClosedWhenFull(Sunk(logs, msg, maxSize, maxFiles), maxSize)
  {
    var logs' := Sunk(logs, msg, maxSize, maxFiles);
    hide Size;
    forall i, j | 0 <= i < j < |logs'| && j == i + 1 ensures HadNoRoom(logs'[j], logs'[i], maxSize) {
      if NeedsRotation(logs[0], msg, maxSize) {
        assert logs'[0] == [msg] && logs'[j] == logs[j - 1];
        if i > 0 {
          assert HadNoRoom(logs[j - 1], logs[i - 1], maxSize);
        }
      } else {
        assert logs'[0] == logs[0] + [msg] && logs'[j] == logs[j];
        assert HadNoRoom(logs[j], logs[i], maxSize);
      }
    }
  }

  lemma FirstFile(maxSize: nat)
    ensures Chronicle([[]]) == [] && IsSuffix<string>([], []) && SizeKept([], maxSize)
  {
  }

  lemma SuffixStep(s: seq<string>, kept: seq<string>, before: seq<string>, msg: string)
    requires IsSuffix(kept, before) && IsSuffix(s, kept + [msg])
    ensures IsSuffix(s, before + [msg])
  {
    var d := |before| - |kept|;
    assert (before + [msg])[d..] == before[d..] + [msg];
    assert (before + [msg])[d..][|kept| + 1 - |s|..] == (before + [msg])[|before| + 1 - |s|..];
  }

  // ---------------------------------------------------------------------------------------
  // The sink

  datatype Result<+T> = Success(value: T) | SpdlogError

  type Directory = map<string, File>

  /** Name is absent from both directories, or present in both with the same content. */
  predicate SameAt(files: Directory, files': Directory, name: string) {
    (name in files <==> name in files') && (name in files ==> files'[name] == files[name])
  }

  class RotatingFileSink {
    const baseFilename: string
    const maxSize: nat
    const maxFiles: nat
    var currentSize: nat
    // The directory the sink writes to.
    var files: Directory

    function Name(i: nat): string {
      CalcFilename(baseFilename, i)
    }

    ghost predicate Valid()
      reads this
    {
      && 0 < maxSize && maxFiles <= MAX_FILES_LIMIT
      && Name(0) in files && currentSize == Size(files[Name(0)])
    }

    /** name is none of the files the sink manages. */
    ghost predicate Foreign(name: string) {
      forall i: nat | i <= maxFiles :: name != Name(i)
    }

    /** The sink's files in d are exactly logs, newest first, under the indices 0, 1, ... */
    ghost predicate HoldsIn(d: Directory, logs: seq<File>) {
      && 1 <= |logs| <= maxFiles + 1
      && forall i: nat | i <= maxFiles ::
           (Name(i) in d <==> i < |logs|) && (i < |logs| ==> d[Name(i)] == logs[i])
    }

    ghost predicate Holds(logs: seq<File>)
      reads this
    {
      HoldsIn(files, logs)
    }

    constructor (baseFilename: string, maxSize: nat, maxFiles: nat, files: Directory)
      requires 0 < maxSize && maxFiles <= MAX_FILES_LIMIT
      ensures Valid() && this.baseFilename == baseFilename && this.maxSize == maxSize && this.maxFiles == maxFiles
      ensures this.files == if baseFilename in files then files else files[baseFilename := []]
    {
      this.baseFilename, this.maxSize, this.maxFiles := baseFilename, maxSize, maxFiles;
      var content := if baseFilename in files then files else files[baseFilename := []];
      this.files, currentSize := content, Size(content[baseFilename]);
    }

    /** The checks of the constructor, then opening the file for appending and the optional first rotation. */
    static method Create(baseFilename: string, maxSize: nat, maxFiles: nat, rotateOnOpen: bool, files: Directory)
      returns (r: Result<RotatingFileSink>)
      ensures r.SpdlogError? <==> maxSize == 0 || maxFiles > 200000
      ensures r.Success? ==> fresh(r.value) && r.value.Valid() && r.value.baseFilename == baseFilename
                             && r.value.maxSize == maxSize && r.value.maxFiles == maxFiles
      ensures r.Success? && (forall i: nat | i <= maxFiles :: CalcFilename(baseFilename, i) !in files) ==>
                r.value.Holds([[]])
      ensures r.Success? ==>
                var first := if baseFilename in files then files else files[baseFilename := []];
                if rotateOnOpen && Size(first[baseFilename]) > 0
                then r.value.IsRotated(first, r.value.files) && r.value.currentSize == 0
                else r.value.files == first
    {
      if maxSize == 0 || maxFiles > MAX_FILES_LIMIT {
        return SpdlogError;
      }
      var sink := new RotatingFileSink(baseFilename, maxSize, maxFiles, files);
      if forall i: nat | i <= maxFiles :: CalcFilename(baseFilename, i) !in files {
        sink.NamesDiffer();
        assert sink.Holds([[]]);
      }
      if rotateOnOpen && sink.currentSize > 0 {
        sink.Rotate();
        sink.currentSize := 0;
      }
      return Success(sink);
    }

    lemma NamesDiffer()
      ensures forall i: nat, j: nat | Name(i) == Name(j) :: i == j
    {
      forall i: nat, j: nat | Name(i) == Name(j) ensures i == j {
        CalcFilenameInjective(baseFilename, i, j);
      }
    }

    /** now has the file of index j that was had under index j - 1. */
    ghost predicate Shifted(was: Directory, now: Directory, j: nat)
      requires 0 < j
    {
      if Name(j - 1) in was then Name(j) in now && now[Name(j)] == was[Name(j - 1)]
      else if j == maxFiles then SameAt(was, now, Name(j))
      else Name(j) !in now
    }

    /** Any directory: every index moves up by one, the highest is overwritten, the base file is
        new and empty, and no other file is touched.  Gaps in the numbering stay gaps. */
    ghost predicate IsRotated(was: Directory, now: Directory) {
      && Name(0) in now && now[Name(0)] == []
      && (forall j: nat | 0 < j <= maxFiles :: Shifted(was, now, j))
      && (forall name | Foreign(name) :: SameAt(was, now, name))
    }

    /** Half way through rotate_: the indices above i have moved, those below have not, and i is free. */
    ghost predicate Moved(was: Directory, now: Directory, i: nat) {
      && i <= maxFiles
      && (forall j: nat | i < j <= maxFiles :: Shifted(was, now, j))
      && (forall j: nat | j < i :: SameAt(was, now, Name(j)))
      && (if i == maxFiles then SameAt(was, now, Name(i)) else Name(i) !in now)
      && (forall name | Foreign(name) :: SameAt(was, now, name))
    }

    lemma MoveOne(was: Directory, now: Directory, i: nat, next: Directory)
      requires Moved(was, now, i) && i > 0
      requires if Name(i - 1) in now then next == now[Name(i) := now[Name(i - 1)]] - {Name(i - 1)} else next == now
      ensures Moved(was, next, i - 1)
    {
      hide CalcFilename;
      NamesDiffer();
      assert SameAt(was, now, Name(i - 1));
      forall j: nat | i < j <= maxFiles ensures Shifted(was, next, j) {
        assert Shifted(was, now, j);
      }
      assert Shifted(was, next, i);
      forall name | Foreign(name) ensures SameAt(was, next, name) {
        assert SameAt(was, now, name);
      }
    }

    lemma MovedAll(was: Directory, now: Directory)
      requires Moved(was, now, 0)
      ensures IsRotated(was, now[Name(0) := []])
    {
      hide CalcFilename;
      NamesDiffer();
      var last := now[Name(0) := []];
      forall j: nat | 0 < j <= maxFiles ensures Shifted(was, last, j) {
        assert Shifted(was, now, j);
      }
      forall name | Foreign(name) ensures SameAt(was, last, name) {
        assert SameAt(was, now, name);
      }
    }

    method Rotate()
      requires Valid()
      modifies this`files
      ensures IsRotated(old(files), files)
    {
      ghost var was := files;
      var i: nat := maxFiles;
      assert Moved(was, files, i);
      NamesDiffer();
      hide Moved, IsRotated, CalcFilename;
      while i > 0
        invariant Moved(was, files, i)
      {
        ghost var now := files;
        var src := Name(i - 1);
        if src in files {
          var target := Name(i);
          RenameFile(src, target);
        }
        MoveOne(was, now, i, files);
        i := i - 1;
      }
      MovedAll(was, files);
      files := files[Name(0) := []];
    }

    /** On consecutively numbered files, rotating is Rotated. */
    lemma RotatedHolds(was: Directory, now: Directory, logs: seq<File>)
      requires IsRotated(was, now) && HoldsIn(was, logs)
      ensures HoldsIn(now, Rotated(logs, maxFiles))
    {
      NamesDiffer();
      var logs' := Rotated(logs, maxFiles);
      forall i: nat | 0 < i <= maxFiles
        ensures (Name(i) in now <==> i < |logs'|) && (i < |logs'| ==> now[Name(i)] == logs'[i])
      {
        assert Shifted(was, now, i);
      }
    }

    lemma AppendedHolds(was: Directory, now: Directory, logs: seq<File>, msg: string)
      requires HoldsIn(was, logs) && Name(0) in was && now == was[Name(0) := was[Name(0)] + [msg]]
      ensures HoldsIn(now, [logs[0] + [msg]] + logs[1..])
    {
      NamesDiffer();
    }

    /** Deletes the target if it exists, then renames. */
    method RenameFile(src: string, target: string)
      requires src in files && src != target
      modifies this`files
      ensures files == old(files)[target := old(files)[src]] - {src}
    {
      files := files - {target};
      files := files[target := files[src]] - {src};
    }

    method SinkIt(formatted: string)
      requires Valid()
      modifies this
      ensures Valid()
      ensures forall logs | old(Holds(logs)) :: Holds(Sunk(logs, formatted, maxSize, maxFiles))
      ensures if Size(old(files)[Name(0)]) > 0 && Size(old(files)[Name(0)]) + |formatted| > maxSize
              then Name(0) in files && files[Name(0)] == [formatted] && IsRotated(old(files), files[Name(0) := []])
              else files == old(files)[Name(0) := old(files)[Name(0)] + [formatted]]
    {
      ghost var was := files;
      var newSize := currentSize + |formatted|;
      if newSize > maxSize {
        if Size(files[Name(0)]) > 0 {
          Rotate();
          newSize := |formatted|;
        }
      }
      ghost var mid := files;
      SizeAppend(files[Name(0)], formatted);
      files := files[Name(0) := files[Name(0)] + [formatted]];
      currentSize := newSize;
      if NeedsRotation(was[Name(0)], formatted, maxSize) {
        assert files[Name(0) := []] == mid;
      }
      forall logs | HoldsIn(was, logs) ensures HoldsIn(files, Sunk(logs, formatted, maxSize, maxFiles)) {
        SunkHolds(was, mid, files, logs, formatted);
      }
    }

    lemma SunkHolds(was: Directory, mid: Directory, now: Directory, logs: seq<File>, msg: string)
      requires Name(0) in was && HoldsIn(was, logs)
      requires if NeedsRotation(was[Name(0)], msg, maxSize) then IsRotated(was, mid) else mid == was
      requires Name(0) in mid && now == mid[Name(0) := mid[Name(0)] + [msg]]
      ensures HoldsIn(now, Sunk(logs, msg, maxSize, maxFiles))
    {
      if NeedsRotation(was[Name(0)], msg, maxSize) {
        RotatedHolds(was, mid, logs);
        AppendedHolds(mid, now, Rotated(logs, maxFiles), msg);
      } else {
        AppendedHolds(was, now, logs, msg);
      }
    }
  }

  /** A sink that starts without log files and logs msgs leaves the files of SunkAll. */
  method LogAll(baseFilename: string, maxSize: nat, maxFiles: nat, files: Directory, msgs: seq<string>)
    returns (sink: RotatingFileSink)
    requires 0 < maxSize && maxFiles <= MAX_FILES_LIMIT
    requires forall i: nat | i <= maxFiles :: CalcFilename(baseFilename, i) !in files
    ensures sink.Valid() && sink.baseFilename == baseFilename
    ensures sink.maxSize == maxSize && sink.maxFiles == maxFiles
    ensures sink.Holds(SunkAll(msgs, maxSize, maxFiles))
    ensures var logs := SunkAll(msgs, maxSize, maxFiles);
            && 1 <= |logs| <= maxFiles + 1 && IsSuffix(Chronicle(logs), msgs)
            && (|logs| <= maxFiles ==> Chronicle(logs) == msgs)
            && ClosedWhenFull(logs, maxSize)
            && forall i | 0 <= i < |logs| :: SizeKept(logs[i], maxSize)
  {
    var r := RotatingFileSink.Create(baseFilename, maxSize, maxFiles, false, files);
    sink := r.value;
    assert msgs[..0] == [];
    for i := 0 to |msgs|
      invariant sink.Valid() && fresh(sink) && sink.baseFilename == baseFilename
      invariant sink.maxSize == maxSize && sink.maxFiles == maxFiles
      invariant sink.Holds(SunkAll(msgs[..i], maxSize, maxFiles))
    {
      sink.SinkIt(msgs[i]);
      assert msgs[..i + 1][..i] == msgs[..i];
    }
    assert msgs[..|msgs|] == msgs;
    RotationKeepsSuffix(msgs, maxSize, maxFiles);
    NothingRotatesEarly(msgs, maxSize, maxFiles);
  }
}
