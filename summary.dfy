/**
 * The summary logged after a successful download: the number of regular
 * files under the model directory, their total size, the first five of
 * them in listing order, and an "... and N more files" tail when there are
 * more than five. The recursive directory walk is an input: the entries it
 * yields, in order, directories included.
 */
module DownloadSummary {
  import opened Wrappers

  /** How many files the summary lists individually (`file_list[:5]`). */
  const SampleSize: nat := 5

  /** One path produced by the recursive walk, relative to the model directory. */
  datatype Entry = Entry(relativePath: string, isFile: bool, size: nat)

  datatype Summary = Summary(fileCount: nat, totalBytes: nat, sample: seq<Entry>, moreFiles: Option<nat>)

  /** `[f for f in files if f.is_file()]`: the regular files, in walk order. */
  function Files(entries: seq<Entry>): (files: seq<Entry>)
    ensures |files| <= |entries|
    ensures forall f :: f in files ==> f.isFile && f in entries
    ensures forall e :: e in entries && e.isFile ==> e in files
  {
    if entries == [] then []
    else (if entries[0].isFile then [entries[0]] else []) + Files(entries[1..])
  }

  /** Filtering distributes over concatenation, so it keeps the walk order. */
  lemma {:induction false} FilesAppend(a: seq<Entry>, b: seq<Entry>)
    ensures Files(a + b) == Files(a) + Files(b)
  {
    if a != [] {
      assert (a + b)[1..] == a[1..] + b;
      FilesAppend(a[1..], b);
    } else {
      assert a + b == b;
    }
  }

  /** `sum(f.stat().st_size for f in file_list)`. */
  function TotalSize(files: seq<Entry>): (n: nat)
    ensures forall i :: 0 <= i < |files| ==> files[i].size <= n
    ensures n == 0 <==> forall i :: 0 <= i < |files| ==> files[i].size == 0
  {
    if files == [] then 0 else files[0].size + TotalSize(files[1..])
  }

  lemma {:induction false} TotalSizeAppend(a: seq<Entry>, b: seq<Entry>)
    ensures TotalSize(a + b) == TotalSize(a) + TotalSize(b)
  {
    if a != [] {
      assert (a + b)[1..] == a[1..] + b;
      TotalSizeAppend(a[1..], b);
    } else {
      assert a + b == b;
    }
  }

  /** Taking element `j` out of a walk removes its size from the total. */
  lemma TotalSizeRemove(b: seq<Entry>, j: int)
    requires 0 <= j < |b|
    ensures TotalSize(b) == b[j].size + TotalSize(b[..j] + b[j + 1..])
  {
    var tail := [b[j]] + b[j + 1..];
    assert tail[1..] == b[j + 1..];
    assert TotalSize(tail) == b[j].size + TotalSize(b[j + 1..]);
    assert b == b[..j] + tail;
    TotalSizeAppend(b[..j], tail);
    TotalSizeAppend(b[..j], b[j + 1..]);
  }

  lemma MultisetRemove(b: seq<Entry>, j: int)
    requires 0 <= j < |b|
    ensures multiset(b[..j] + b[j + 1..]) == multiset(b) - multiset{b[j]}
  {
    assert b == b[..j] + [b[j]] + b[j + 1..];
  }

  /** The total does not depend on the order in which the walk yields the files. */
  lemma {:induction false} TotalSizeOrderIndependent(a: seq<Entry>, b: seq<Entry>)
    requires multiset(a) == multiset(b)
    ensures TotalSize(a) == TotalSize(b)
    decreases |a|
  {
    if a != [] {
      assert a[0] in multiset(b);
      var j :| 0 <= j < |b| && b[j] == a[0];
      MultisetRemove(b, j);
      MultisetRemove(a, 0);
      assert a[..0] + a[1..] == a[1..];
      TotalSizeOrderIndependent(a[1..], b[..j] + b[j + 1..]);
      TotalSizeRemove(b, j);
    } else {
      assert b == [];
    }
  }

  /** A Python slice `s[:n]`: at most the first `n` elements. */
  function Take(s: seq<Entry>, n: nat): (r: seq<Entry>)
    ensures |r| == if n <= |s| then n else |s|
    ensures r <= s
  {
    if n <= |s| then s[..n] else s
  }

  /** The summary block of `download_model`. */
  function Summarize(entries: seq<Entry>): (s: Summary)
    ensures s.fileCount == |Files(entries)|
    ensures s.totalBytes == TotalSize(Files(entries))
    ensures s.sample <= Files(entries)
    ensures |s.sample| == if s.fileCount <= SampleSize then s.fileCount else SampleSize
    ensures s.moreFiles.Some? <==> s.fileCount > SampleSize
    ensures s.moreFiles.Some? ==> s.moreFiles.value == s.fileCount - SampleSize
  {
    var files := Files(entries);
    var count := |files|;
    Summary(count, TotalSize(files), Take(files, SampleSize),
            if count > SampleSize then Some(count - SampleSize) else None)
  }

  /**
   * The sample and the tail together account for every file: the sample's
   * length plus the number reported in the tail is the file count, and the
   * sample's sizes never exceed the total.
   */
  lemma SampleAndTailCoverAllFiles(entries: seq<Entry>)
    ensures var s := Summarize(entries);
            |s.sample| + (if s.moreFiles.Some? then s.moreFiles.value else 0) == s.fileCount
    ensures TotalSize(Summarize(entries).sample) <= Summarize(entries).totalBytes
  {
    var files := Files(entries);
    var s := Summarize(entries);
    assert files == s.sample + files[|s.sample|..];
    TotalSizeAppend(s.sample, files[|s.sample|..]);
  }

  /** Walking two parts of a tree separately and adding up gives the same count and total. */
  lemma SummaryOfConcatenation(a: seq<Entry>, b: seq<Entry>)
    ensures Summarize(a + b).fileCount == Summarize(a).fileCount + Summarize(b).fileCount
    ensures Summarize(a + b).totalBytes == Summarize(a).totalBytes + Summarize(b).totalBytes
  {
    FilesAppend(a, b);
    TotalSizeAppend(Files(a), Files(b));
  }

  /** Three files of 10, 20 and 30 bytes: three files, 60 bytes, no tail. */
  lemma ThreeFileExample()
    ensures var s := Summarize([Entry("config.json", true, 10), Entry("model.safetensors", true, 20),
                                Entry("tokenizer.json", true, 30)]);
            s.fileCount == 3 && s.totalBytes == 60 && |s.sample| == 3 && s.moreFiles == None
  {
  }

  /** A walk that yields only regular files is summarised as it stands. */
  lemma {:induction false} FilesOfRegularFiles(entries: seq<Entry>)
    requires forall i :: 0 <= i < |entries| ==> entries[i].isFile
    ensures Files(entries) == entries
  {
    if entries != [] {
      FilesOfRegularFiles(entries[1..]);
    }
  }

  /** Seven files: five in the sample and "... and 2 more files". */
  lemma SevenFileExample(entries: seq<Entry>)
    requires |entries| == 7 && forall i :: 0 <= i < 7 ==> entries[i].isFile
    ensures var s := Summarize(entries);
            s.fileCount == 7 && s.sample == entries[..5] && s.moreFiles == Some(2)
  {
    FilesOfRegularFiles(entries);
  }
}
