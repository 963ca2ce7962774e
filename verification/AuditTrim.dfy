/** Trimming the audit log to its last lines: the file is read backwards in chunks until enough newlines
    are seen, then the cut is found by walking back over newlines. */
module AuditTrim {
  import opened ConfigText

  const MAX_AUDIT_LINES := 15000
  const AUDIT_TRIM_LINES := 15000

  function Newlines(s: string): nat {
    if s == "" then 0 else Newlines(s[1..]) + if s[0] == '\n' then 1 else 0
  }

  /** The newlines between lines: a newline at the very end ends the last line and separates nothing. */
  function Body(s: string): string {
    if s != "" && s[|s| - 1] == '\n' then s[..|s| - 1] else s
  }

  function LineCount(s: string): nat {
    if s == "" then 0 else Newlines(Body(s)) + 1
  }

  /** The last keep lines of a file: a tail that starts a line and holds that many. */
  ghost predicate LastLines(file: string, keep: nat, tail: string) {
    exists head :: file == head + tail && LineStart(head) && LineCount(tail) == keep
  }

  lemma {:induction false} NewlinesConcat(a: string, b: string)
    ensures Newlines(a + b) == Newlines(a) + Newlines(b)
    decreases |a|
  {
    if a == "" {
      assert a + b == b;
    } else {
      assert (a + b)[1..] == a[1..] + b;
      NewlinesConcat(a[1..], b);
    }
  }

  /** A file has only one such tail. */
  lemma LastLinesUnique(file: string, keep: nat, x: string, y: string)
    requires keep > 0 && LastLines(file, keep, x) && LastLines(file, keep, y)
    ensures x == y
  {
    var h :| file == h + x && LineStart(h) && LineCount(x) == keep;
    var g :| file == g + y && LineStart(g) && LineCount(y) == keep;
    if |h| < |g| {
      LongerTailMoreLines(file, h, x, g, y);
    } else if |g| < |h| {
      LongerTailMoreLines(file, g, y, h, x);
    } else {
      assert x == file[|h|..] == y;
    }
  }

  lemma LongerTailMoreLines(file: string, h: string, x: string, g: string, y: string)
    requires file == h + x == g + y && |h| < |g| && LineStart(h) && LineStart(g) && y != ""
    ensures LineCount(x) > LineCount(y)
  {
    hide Newlines;
    var mid := file[|h|..|g|];
    TailSplit(file, h, x, g, y);
    EndedLine(mid);
    assert Body(mid + y) == mid + Body(y);
    NewlinesConcat(mid, Body(y));
  }

  lemma TailSplit(file: string, h: string, x: string, g: string, y: string)
    requires file == h + x == g + y && |h| < |g|
    ensures var mid := file[|h|..|g|]; x == mid + y && |mid| > 0 && mid[|mid| - 1] == g[|g| - 1]
  {
    assert g == file[..|g|] && h == file[..|h|];
    assert x == file[|h|..] && y == file[|g|..];
  }

  lemma {:induction false} EndedLine(s: string)
    requires s != "" && s[|s| - 1] == '\n'
    ensures Newlines(s) > 0
  {
    assert s == s[..|s| - 1] + "\n";
    NewlinesConcat(s[..|s| - 1], "\n");
    assert "\n"[1..] == "";
  }

  /** bytes.LastIndexByte(data[:idx], '\n') */
  method LastNewline(data: string, idx: nat) returns (p: int)
    requires idx <= |data|
    ensures -1 <= p < idx
    ensures p >= 0 ==> data[p] == '\n'
    ensures forall i :: p < i < idx ==> data[i] != '\n'
  {
    p := idx - 1;
    while p >= 0 && data[p] != '\n'
      invariant -1 <= p < idx
      invariant forall i :: p < i < idx ==> data[i] != '\n'
    {
      p := p - 1;
    }
  }

  /** bufio-sized reads from the front, counting newlines. */
  method CountLines(file: string, bufSize: nat) returns (count: nat)
    requires bufSize > 0
    ensures count == Newlines(file)
  {
    count := 0;
    var pos := 0;
    while pos < |file|
      invariant pos <= |file| && count == Newlines(file[..pos])
    {
      var n := if |file| - pos < bufSize then |file| - pos else bufSize;
      assert file[..pos + n] == file[..pos] + file[pos..pos + n];
      NewlinesConcat(file[..pos], file[pos..pos + n]);
      count := count + Newlines(file[pos..pos + n]);
      pos := pos + n;
    }
    assert file[..pos] == file;
  }

  function Joined(chunks: seq<string>): string {
    if chunks == [] then "" else chunks[|chunks| - 1] + Joined(chunks[..|chunks| - 1])
  }

  /** The end of the file, in the chunks it was read in, latest chunk first. */
  method ReadBack(file: string, keep: nat, bufSize: nat) returns (data: string)
    requires bufSize > 0
    ensures |data| <= |file| && data == file[|file| - |data|..]
    ensures Newlines(data) > keep || data == file
  {
    assert Newlines(file[|file|..]) == 0;
    hide Newlines;
    var pos, lines, chunks := |file|, 0, [];
    while pos > 0 && lines <= keep
      invariant 0 <= pos <= |file| && Joined(chunks) == file[pos..] && lines == Newlines(file[pos..])
    {
      var readSize := if pos < bufSize then pos else bufSize;
      pos := pos - readSize;
      var buf := file[pos..pos + readSize];
      assert file[pos..] == buf + file[pos + readSize..];
      NewlinesConcat(buf, file[pos + readSize..]);
      lines := lines + Newlines(buf);
      assert (chunks + [buf])[..|chunks|] == chunks;
      chunks := chunks + [buf];
    }
    data := Concatenate(chunks);
    assert pos == 0 ==> file[pos..] == file;
  }

  method Concatenate(chunks: seq<string>) returns (data: string)
    ensures data == Joined(chunks)
  {
    data := "";
    var i := |chunks|;
    assert chunks[..i] == chunks && "" + Joined(chunks) == Joined(chunks);
    while i > 0
      invariant 0 <= i <= |chunks| && data + Joined(chunks[..i]) == Joined(chunks)
    {
      i := i - 1;
      assert chunks[..i + 1][..i] == chunks[..i];
      assert data + (chunks[i] + Joined(chunks[..i])) == data + chunks[i] + Joined(chunks[..i]);
      data := data + chunks[i];
    }
  }

  datatype Trimmed = Written(data: string) | OutOfRange

  /** The newlines of data from idx on, within its body. */
  lemma CutStep(data: string, idx: nat, p: nat)
    requires p < idx <= |Body(data)| && data[p] == '\n' && forall i :: p < i < idx ==> data[i] != '\n'
    ensures Newlines(Body(data)[p..]) == Newlines(Body(data)[idx..]) + 1
  {
    var b := Body(data);
    assert b[p..] == b[p..idx] + b[idx..];
    NewlinesConcat(b[p..idx], b[idx..]);
    assert b[p..idx] == "\n" + b[p + 1..idx];
    NewlinesConcat("\n", b[p + 1..idx]);
    assert "\n"[1..] == "";
    NoNewlines(b[p + 1..idx]);
  }

  lemma {:induction false} NoNewlines(s: string)
    requires '\n' !in s
    ensures Newlines(s) == 0
    decreases |s|
  {
    if s != "" {
      assert s[0] in s;
      NoNewlines(s[1..]);
    }
  }

  /** Newlines before and after a place in the body. */
  lemma {:induction false} NewlineSplit(data: string, b: string, idx: nat)
    requires b == Body(data) && idx <= |b|
    ensures Newlines(b) == Newlines(b[..idx]) + Newlines(b[idx..])
  {
    assert b == b[..idx] + b[idx..];
    NewlinesConcat(b[..idx], b[idx..]);
  }

  /** A newline inside the body is not the last character. */
  lemma TailNotEmpty(data: string, idx: nat)
    requires idx < |Body(data)| && data[idx] == '\n'
    ensures idx + 1 < |data|
  {
    if |Body(data)| == |data| {
      assert data[|data| - 1] != '\n';
      assert idx != |data| - 1;
    }
  }

  /** keep newlines of the body from idx on, the first of them at idx. */
  lemma FoundCut(data: string, keep: nat, idx: nat)
    requires keep > 0 && idx < |Body(data)| && data[idx] == '\n' && Newlines(Body(data)[idx..]) == keep
    ensures idx + 1 <= |data| && LastLines(data, keep, data[idx + 1..]) && LineCount(data) > keep && data[idx + 1..] != data
  {
    var b, tail, head := Body(data), data[idx + 1..], data[..idx + 1];
    NewlineSplit(data, b, idx);
    assert b[idx..] == "\n" + b[idx + 1..];
    NewlinesConcat("\n", b[idx + 1..]);
    assert "\n"[1..] == "";
    assert data == head + tail && head[idx] == '\n';
    TailNotEmpty(data, idx);
    assert Body(tail) == b[idx + 1..];
    assert LineCount(tail) == keep;
  }

  /** The walk ran out of newlines: what follows the first line is written, or nothing can be sliced. */
  lemma LostCut(data: string, keep: nat, idx: nat)
    requires keep > 0 && idx <= |Body(data)| && Newlines(Body(data)) < keep && Newlines(Body(data)) == Newlines(Body(data)[idx..])
    requires forall k :: 0 <= k < idx ==> Body(data)[k] != '\n'
    requires if Newlines(Body(data)) == 0 then idx == |Body(data)| else idx < |Body(data)| && Body(data)[idx] == '\n'
    ensures LineCount(data) <= keep
    ensures idx + 1 > |data| <==> Newlines(Body(data)) == 0 && Body(data) == data
    ensures idx + 1 <= |data| ==> data[idx + 1..] == AfterFirstLine(data)
  {
    hide Newlines, IndexOf;
    var b := Body(data);
    assert b == data[..|b|] && (|b| == |data| || (|data| == |b| + 1 && data[|b|] == '\n'));
    if idx < |data| {
      assert data[idx] == '\n' && forall k :: 0 <= k < idx ==> data[k] == b[k];
      SplitAtNewline(data, idx);
    }
  }

  lemma SplitAtNewline(data: string, idx: nat)
    requires idx < |data| && data[idx] == '\n' && forall k :: 0 <= k < idx ==> data[k] != '\n'
    ensures data[idx + 1..] == AfterFirstLine(data)
  {
    hide IndexOf;
    var a, c := data[..idx], data[idx + 1..];
    FirstNewline(a, c);
    assert data == a + "\n" + c;
  }

  lemma {:induction false} FirstNewline(s: string, t: string)
    requires '\n' !in s
    ensures IndexOf(s + "\n" + t, "\n") == |s|
    decreases |s|
  {
    if s == "" {
      assert s + "\n" + t == "\n" + t;
    } else {
      var w := s + "\n" + t;
      assert w[1..] == s[1..] + "\n" + t;
      assert s[0] in s && w[0] == s[0] && w[..1] == [s[0]];
      FirstNewline(s[1..], t);
    }
  }

  /** The cut: walk back over keep newlines of the body and write what follows the last one met. */
  method Cut(data: string, keep: nat) returns (r: Trimmed)
    requires keep > 0
    ensures LineCount(data) > keep ==> r.Written? && LastLines(data, keep, r.data) && r.data != data
    ensures LineCount(data) <= keep ==> r == if Newlines(Body(data)) == 0 && Body(data) == data then OutOfRange else Written(AfterFirstLine(data))
  {
    var idx := |data|;
    if idx > 0 && data[idx - 1] == '\n' {
      idx := idx - 1;
    }
    ghost var b := Body(data);
    assert idx == |b| && b[idx..] == "" && b == data[..|b|];
    var i := 0;
    var found := true;
    while i < keep && found
      invariant i <= keep && 0 <= idx <= |b| && Newlines(b[idx..]) == i
      invariant i > 0 ==> idx < |b| && b[idx] == '\n'
      invariant i == 0 ==> idx == |b|
      invariant !found ==> i < keep && Newlines(b) == i && forall k :: 0 <= k < idx ==> b[k] != '\n'
      decreases keep - i, found
    {
      var p := LastNewline(data, idx);
      if p < 0 {
        found := false;
        assert b == b[..idx] + b[idx..];
        NewlinesConcat(b[..idx], b[idx..]);
        NoNewlines(b[..idx]);
      } else {
        CutStep(data, idx, p);
        idx := p;
        i := i + 1;
      }
    }
    NewlineSplit(data, b, idx);
    if found {
      FoundCut(data, keep, idx);
    } else {
      LostCut(data, keep, idx);
    }
    if idx + 1 > |data| {
      return OutOfRange;
    }
    return Written(data[idx + 1..]);
  }

  /** What is left of a text without its first line. */
  function AfterFirstLine(data: string): string {
    if IndexOf(data, "\n") == -1 then "" else data[IndexOf(data, "\n") + 1..]
  }

  /** What trimming is for: the last keep lines, which is all of a file that has no more. */
  ghost predicate Correct(file: string, keep: nat, r: Trimmed) {
    r.Written? && if LineCount(file) <= keep then r.data == file else LastLines(file, keep, r.data)
  }

  /** MAIN: the trimmed file is right exactly when the file has more than keep lines, whatever the chunk size
      and whether or not the last line is terminated. A shorter file loses its first line, or the slice is
      out of range. */
  method TrimToLastLines(file: string, keep: nat, bufSize: nat) returns (r: Trimmed)
    requires keep > 0 && bufSize > 0
    ensures Correct(file, keep, r) <==> LineCount(file) > keep
  {
    var data := ReadBack(file, keep, bufSize);
    r := Cut(data, keep);
    ReadEnough(file, data, keep);
    if LineCount(file) > keep {
      TailOfTail(file, data, keep, r.data);
    }
  }

  lemma {:induction false} BodyNewlines(s: string)
    ensures Newlines(s) == Newlines(Body(s)) + if Body(s) == s then 0 else 1
  {
    if Body(s) != s {
      assert s == Body(s) + "\n";
      NewlinesConcat(Body(s), "\n");
      assert "\n"[1..] == "";
    }
  }

  lemma {:induction false} ReadEnough(file: string, data: string, keep: nat)
    requires keep > 0 && |data| <= |file| && data == file[|file| - |data|..] && (Newlines(data) > keep || data == file)
    ensures LineCount(file) > keep <==> LineCount(data) > keep
    ensures LineCount(file) <= keep ==> data == file
  {
    BodyNewlines(file);
    BodyNewlines(data);
    assert file == file[..|file| - |data|] + data;
    NewlinesConcat(file[..|file| - |data|], data);
    hide Newlines, Body;
    assert file == "" ==> data == "";
  }

  lemma TailOfTail(file: string, data: string, keep: nat, tail: string)
    requires |data| <= |file| && data == file[|file| - |data|..] && LastLines(data, keep, tail) && tail != data
    ensures LastLines(file, keep, tail)
  {
    var head :| data == head + tail && LineStart(head) && LineCount(tail) == keep;
    var front := file[..|file| - |data|];
    assert file == front + data;
    assert file == (front + head) + tail;
    assert "" + tail == tail;
    assert (front + head)[|front + head| - 1] == head[|head| - 1];
  }

  /** The trimmer as it is started: it trims only what is longer than what it keeps, so it trims right. */
  method StartAuditLogTrimmer(file: string, bufSize: nat) returns (after: string)
    requires bufSize > 0
    ensures Newlines(file) <= MAX_AUDIT_LINES ==> after == file
    ensures Newlines(file) > MAX_AUDIT_LINES ==> LastLines(file, AUDIT_TRIM_LINES, after)
  {
    var lines := CountLines(file, bufSize);
    if lines <= MAX_AUDIT_LINES {
      return file;
    }
    BodyNewlines(file);
    var r := TrimToLastLines(file, AUDIT_TRIM_LINES, bufSize);
    return r.data;
  }
}
