/** The size-rotated JSONL writer: one record at a time, with numbered backups. */
module LogRotation {

  type Record = string

  /** File 0 is the log itself, file i the backup with suffix .i; a missing file is not in the map. */
  type Files = map<int, seq<Record>>

  /** A record and its newline. */
  function Size(r: Record): nat {
    |r| + 1
  }

  function Bytes(rs: seq<Record>): nat {
    if rs == [] then 0 else Bytes(rs[..|rs| - 1]) + Size(rs[|rs| - 1])
  }

  /** The text of a file: its records, each with its newline. */
  function FileText(rs: seq<Record>): string {
    if rs == [] then "" else FileText(rs[..|rs| - 1]) + rs[|rs| - 1] + "\n"
  }

  lemma {:induction false} BytesOfText(rs: seq<Record>)
    ensures Bytes(rs) == |FileText(rs)|
    decreases |rs|
  {
    if rs != [] {
      BytesOfText(rs[..|rs| - 1]);
    }
  }

  function Content(files: Files, i: int): seq<Record> {
    if i in files then files[i] else []
  }

  /** The backups from number n down, oldest first, followed by the log. */
  function History(files: Files, n: nat): seq<Record> {
    if n == 0 then Content(files, 0) else Content(files, n) + History(files, n - 1)
  }

  ghost predicate IsSuffix(part: seq<Record>, whole: seq<Record>) {
    |part| <= |whole| && part == whole[|whole| - |part|..]
  }

  function Top(maxBackups: int): nat {
    if maxBackups > 0 then maxBackups else 0
  }

  lemma SuffixOfSuffix(head: seq<Record>, part: seq<Record>, whole: seq<Record>)
    requires IsSuffix(head + part, whole)
    ensures IsSuffix(part, whole)
  {
    assert whole[|whole| - |head + part|..][|head|..] == part;
  }

  lemma SuffixSnoc(part: seq<Record>, whole: seq<Record>, r: Record)
    requires IsSuffix(part, whole)
    ensures IsSuffix(part + [r], whole + [r])
  {
  }

  /** After a rotation every file holds what the one before it held, and the log is empty. */
  ghost predicate Shifted(before: Files, after: Files, top: nat) {
    && (forall i :: 1 <= i <= top ==> Content(after, i) == Content(before, i - 1))
    && 0 in after && after[0] == [] && forall i :: i in after ==> 0 <= i <= top
  }

  lemma {:induction false} ShiftedHistory(before: Files, after: Files, top: nat, n: nat)
    requires Shifted(before, after, top) && n <= top
    ensures History(after, n) == if n == 0 then [] else History(before, n - 1)
    decreases n
  {
    if n > 0 {
      ShiftedHistory(before, after, top, n - 1);
      if n == 1 {
        assert Content(before, 0) + [] == Content(before, 0);
      }
    }
  }

  /** Rotating forgets the oldest file and nothing else. */
  lemma {:induction false} RotationKeepsSuffix(before: Files, after: Files, top: nat, written: seq<Record>)
    requires Shifted(before, after, top) && IsSuffix(History(before, top), written)
    ensures IsSuffix(History(after, top), written)
  {
    ShiftedHistory(before, after, top, top);
    if top == 0 {
      assert written[|written|..] == [];
    } else {
      SuffixOfSuffix(Content(before, top), History(before, top - 1), written);
    }
  }

  lemma {:induction false} HistoryAppend(files: Files, n: nat, r: Record)
    requires 0 in files
    ensures History(files[0 := files[0] + [r]], n) == History(files, n) + [r]
    decreases n
  {
    if n > 0 {
      HistoryAppend(files, n - 1, r);
      assert Content(files, n) + (History(files, n - 1) + [r]) == Content(files, n) + History(files, n - 1) + [r];
    }
  }

  lemma BytesOne(r: Record)
    ensures Bytes([r]) == Size(r)
  {
    assert [r][..0] == [];
  }

  class MetricsWriter {
    var files: Files
    var size: int
    const maxBytes: int
    const maxBackups: int
    ghost var written: seq<Record>

    /** Within the limit, or one record too big for it on its own. */
    predicate Fits(f: seq<Record>) {
      maxBytes > 0 ==> Bytes(f) <= maxBytes || |f| == 1
    }

    /** size is the length of the log; every file fits; the files hold the last records written, in order, without gaps. */
    ghost predicate Valid()
      reads this
    {
      && 0 in files && size == Bytes(files[0])
      && AllFit(files, Top(maxBackups))
      && IsSuffix(History(files, Top(maxBackups)), written)
    }

    constructor (maxBytes: int, maxBackups: int)
      ensures Valid() && written == [] && this.maxBytes == maxBytes && this.maxBackups == maxBackups
    {
      this.maxBytes, this.maxBackups := maxBytes, maxBackups;
      files, size, written := map[0 := []], 0, [];
      new;
      EmptyHistory(Top(maxBackups));
    }

    method WriteJsonl(b: Record)
      requires Valid()
      modifies this
      ensures Valid() && written == old(written) + [b]
      ensures |files[0]| > 0 && files[0][|files[0]| - 1] == b
      ensures maxBytes <= 0 || old(size) + |b| + 1 <= maxBytes ==> files == old(files)[0 := old(files[0]) + [b]]
      ensures maxBytes > 0 && old(size) + |b| + 1 > maxBytes ==>
                files[0] == [b] && forall i :: 1 <= i <= Top(maxBackups) ==> Content(files, i) == Content(old(files), i - 1)
    {
      RotateIfNeeded(Size(b));
      ghost var mid := files;
      HistoryAppend(files, Top(maxBackups), b);
      SuffixSnoc(History(files, Top(maxBackups)), written, b);
      assert (files[0] + [b])[..|files[0]|] == files[0];
      BytesOne(b);
      assert files[0] == [] ==> files[0] + [b] == [b];
      files := files[0 := files[0] + [b]];
      size := size + Size(b);
      written := written + [b];
      forall i | i >= 1
        ensures Content(files, i) == Content(mid, i)
      {
      }
    }

    method RotateIfNeeded(nextBytes: nat)
      requires Valid()
      modifies this
      ensures Valid() && written == old(written)
      ensures maxBytes <= 0 || old(size) + nextBytes <= maxBytes ==> files == old(files) && size == old(size)
      ensures maxBytes > 0 && old(size) + nextBytes > maxBytes ==> Shifted(old(files), files, Top(maxBackups))
      ensures maxBytes > 0 ==> size + nextBytes <= maxBytes || files[0] == []
    {
      if maxBytes <= 0 { return; }
      if size + nextBytes <= maxBytes { return; }
      Rotate();
    }

    method Rotate()
      requires Valid()
      modifies this
      ensures Valid() && written == old(written)
      ensures Shifted(old(files), files, Top(maxBackups))
    {
      ghost var before := files;
      if maxBackups > 0 {
        ShiftBackups();
      } else {
        files := files - {0};
      }
      ghost var cut := files;
      files := files[0 := []];
      size := 0;
      forall k | 1 <= k <= Top(maxBackups)
        ensures Content(files, k) == Content(before, k - 1)
      {
        assert Content(files, k) == Content(cut, k);
      }
      RotationKeepsSuffix(before, files, Top(maxBackups), written);
    }

    /** The renames go from the oldest backup down, so none overwrites a file still to be moved. */
    method ShiftBackups()
      requires maxBackups > 0 && AllFit(files, maxBackups)
      modifies `files
      ensures AllFit(files, maxBackups) && 0 !in files
      ensures forall k :: 1 <= k <= maxBackups ==> Content(files, k) == Content(old(files), k - 1)
    {
      files := files - {maxBackups};
      var i := maxBackups - 1;
      while i >= 1
        invariant 0 <= i <= maxBackups - 1 && AllFit(files, maxBackups) && HalfShifted(old(files), files, i, maxBackups)
      {
        MoveUp(old(files), files, i, maxBackups);
        if i in files {
          files := files[i + 1 := files[i]] - {i};
        }
        i := i - 1;
      }
      MoveUp(old(files), files, 0, maxBackups);
      if 0 in files {
        files := files[1 := files[0]] - {0};
      }
    }

    predicate AllFit(fs: Files, top: int) {
      forall i :: i in fs ==> 0 <= i <= top && Fits(fs[i])
    }
  }

  /** Files above i + 1 hold what the one before them held, i + 1 is free, the rest is as it was. */
  ghost predicate HalfShifted(before: Files, fs: Files, i: int, top: int) {
    && (forall k :: i + 1 < k <= top ==> Content(fs, k) == Content(before, k - 1))
    && i + 1 !in fs && forall k :: k <= i ==> (k in fs <==> k in before) && Content(fs, k) == Content(before, k)
  }

  lemma MoveUp(before: Files, fs: Files, i: nat, top: int)
    requires HalfShifted(before, fs, i, top) && i + 1 <= top
    ensures HalfShifted(before, if i in fs then fs[i + 1 := fs[i]] - {i} else fs, i - 1, top)
  {
    var moved := if i in fs then fs[i + 1 := fs[i]] - {i} else fs;
    forall k | i < k <= top
      ensures Content(moved, k) == Content(before, k - 1)
    {
      if k == i + 1 {
        assert Content(fs, i) == Content(before, i);
      } else {
        assert Content(moved, k) == Content(fs, k);
      }
    }
    forall k | k <= i - 1
      ensures (k in moved <==> k in before) && Content(moved, k) == Content(before, k)
    {
      assert Content(fs, k) == Content(before, k);
    }
  }

  lemma {:induction false} EmptyHistory(n: nat)
    ensures History(map[0 := []], n) == []
    decreases n
  {
    if n > 0 {
      EmptyHistory(n - 1);
    }
  }
}
