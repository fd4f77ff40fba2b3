/** How a torrent's bytes are laid out in files, and how a range is split into slices of files. */
module FileLayout {
  import opened Options

  datatype File = File(path: nat, offset: int, length: int, padding: bool)

  datatype Slice = Slice(path: Option<nat>, fileLength: int, offset: int, length: int, padding: bool)

  // ----------------------------------------------------------------- contents of files

  ghost function Concat(contents: seq<seq<bv8>>): seq<bv8>
  {
    if contents == [] then [] else Concat(contents[..|contents| - 1]) + contents[|contents| - 1]
  }

  /** File k has its path, its length, and starts where the files before it end. */
  ghost predicate Placed(f: File, contents: seq<seq<bv8>>, k: nat)
    requires k < |contents|
  {
    f.path == k && f.length == |contents[k]| && f.offset == |Concat(contents[..k])|
  }

  ghost predicate Layout(files: seq<File>, contents: seq<seq<bv8>>)
  {
    |files| == |contents| && forall k :: 0 <= k < |files| ==> Placed(files[k], contents, k)
  }

  lemma ConcatNext(contents: seq<seq<bv8>>, k: nat)
    requires k < |contents|
    ensures Concat(contents[..k + 1]) == Concat(contents[..k]) + contents[k]
  {
    assert contents[..k + 1][..k] == contents[..k];
  }

  lemma {:induction false} ConcatPrefix(contents: seq<seq<bv8>>, k: nat)
    requires k <= |contents|
    ensures |Concat(contents[..k])| <= |Concat(contents)|
    ensures Concat(contents)[..|Concat(contents[..k])|] == Concat(contents[..k])
    decreases |contents|
  {
    if k == |contents| {
      assert contents[..k] == contents;
    } else {
      var n := |contents| - 1;
      assert contents[..n][..k] == contents[..k];
      ConcatPrefix(contents[..n], k);
    }
  }

  /** A file's bytes are found in the torrent at the file's offset. */
  lemma FileInTorrent(contents: seq<seq<bv8>>, k: nat, a: nat, b: nat)
    requires k < |contents| && a <= b <= |contents[k]|
    ensures var o := |Concat(contents[..k])|;
            o + b <= |Concat(contents)| && Concat(contents)[o + a..o + b] == contents[k][a..b]
  {
    var o := |Concat(contents[..k])|;
    ConcatNext(contents, k);
    ConcatPrefix(contents, k + 1);
    var upTo := Concat(contents[..k + 1]);
    assert Concat(contents)[o + a..o + b] == upTo[o + a..o + b];
    assert upTo[o + a..o + b] == contents[k][a..b];
  }

  // --------------------------------------------------------------------- the layout

  /** What the metadata says of a file. */
  datatype Info = Info(hasPath: bool, length: int, padding: bool)

  ghost function SumTo(infos: seq<Info>, k: nat): int
    requires k <= |infos|
  {
    if k == 0 then 0 else SumTo(infos, k - 1) + infos[k - 1].length
  }

  ghost predicate Laid(files: seq<File>, infos: seq<Info>)
  {
    && |files| == |infos|
    && forall k :: 0 <= k < |files| ==> files[k] == File(k, SumTo(infos, k), infos[k].length, infos[k].padding)
  }

  /** Models the layout loop of MetadataComplete: each file starts where the lengths before it add
      up to; a file without a path is an error. */
  method Lay(infos: seq<Info>) returns (files: Option<seq<File>>, total: int)
    ensures files.None? <==> exists k :: 0 <= k < |infos| && !infos[k].hasPath
    ensures files.Some? ==> Laid(files.value, infos) && total == SumTo(infos, |infos|)
  {
    total := 0;
    var fs: seq<File> := [];
    var k := 0;
    while k < |infos|
      invariant 0 <= k <= |infos| && |fs| == k && total == SumTo(infos, k)
      invariant forall j :: 0 <= j < k ==> infos[j].hasPath && fs[j] == File(j, SumTo(infos, j), infos[j].length, infos[j].padding)
    {
      if !infos[k].hasPath {
        return None, 0;
      }
      fs := fs + [File(k, total, infos[k].length, infos[k].padding)];
      total := total + infos[k].length;
      k := k + 1;
    }
    files := Some(fs);
  }

  lemma {:induction false} SumIsConcat(infos: seq<Info>, contents: seq<seq<bv8>>, k: nat)
    requires |contents| == |infos| && k <= |infos| && forall j :: 0 <= j < |infos| ==> |contents[j]| == infos[j].length
    ensures SumTo(infos, k) == |Concat(contents[..k])|
  {
    if k > 0 {
      SumIsConcat(infos, contents, k - 1);
      ConcatNext(contents, k - 1);
    }
  }

  /** Whatever the files contain, their offsets make them follow one another and the total is the
      torrent's length. */
  lemma LaidIsLayout(files: seq<File>, infos: seq<Info>, contents: seq<seq<bv8>>)
    requires Laid(files, infos) && |contents| == |infos| && forall j :: 0 <= j < |infos| ==> |contents[j]| == infos[j].length
    ensures Layout(files, contents) && SumTo(infos, |infos|) == |Concat(contents)|
  {
    forall k | 0 <= k < |files| ensures Placed(files[k], contents, k) { SumIsConcat(infos, contents, k); }
    SumIsConcat(infos, contents, |infos|);
    assert contents[..|contents|] == contents;
  }

  ghost function Blanks(infos: seq<Info>): seq<seq<bv8>>
    requires forall k :: 0 <= k < |infos| ==> infos[k].length >= 0
  {
    seq(|infos|, k requires 0 <= k < |infos| => seq(infos[k].length, i => 0))
  }

  /** The source does not reject negative lengths: what it builds is a layout of some contents if
      and only if there are none. */
  lemma LayoutIff(files: seq<File>, infos: seq<Info>)
    requires Laid(files, infos)
    ensures (exists contents :: Layout(files, contents)) <==> forall k :: 0 <= k < |infos| ==> infos[k].length >= 0
  {
    if forall k :: 0 <= k < |infos| ==> infos[k].length >= 0 {
      LaidIsLayout(files, infos, Blanks(infos));
    }
    if contents :| Layout(files, contents) {
      forall k | 0 <= k < |infos| ensures infos[k].length >= 0 { assert Placed(files[k], contents, k); }
    }
  }

  // ------------------------------------------------------------------------- slices

  /** The file a slice is in; a torrent without a list of files is one file without a path. */
  function FileOf(s: Slice): nat { if s.path.Some? then s.path.value else 0 }

  ghost predicate InFile(s: Slice, contents: seq<seq<bv8>>)
  {
    && FileOf(s) < |contents|
    && s.fileLength == |contents[FileOf(s)]| && 0 <= s.offset && 0 <= s.length && s.offset + s.length <= s.fileLength
  }

  ghost predicate AllInFile(ss: seq<Slice>, contents: seq<seq<bv8>>) { forall k :: 0 <= k < |ss| ==> InFile(ss[k], contents) }

  /** The bytes that reading the slices one after the other gives. */
  ghost function Bytes(ss: seq<Slice>, contents: seq<seq<bv8>>): seq<bv8>
    requires AllInFile(ss, contents)
  {
    if ss == [] then []
    else
      var s := ss[|ss| - 1];
      Bytes(ss[..|ss| - 1], contents) + contents[FileOf(s)][s.offset..s.offset + s.length]
  }

  lemma BytesSnoc(ss: seq<Slice>, s: Slice, contents: seq<seq<bv8>>)
    requires AllInFile(ss, contents) && InFile(s, contents)
    ensures AllInFile(ss + [s], contents)
    ensures Bytes(ss + [s], contents) == Bytes(ss, contents) + contents[FileOf(s)][s.offset..s.offset + s.length]
  {
    assert (ss + [s])[..|ss|] == ss;
  }

  /** The slice the loop cuts from file k at position o. */
  lemma CutSlice(files: seq<File>, contents: seq<seq<bv8>>, k: nat, o: nat, m: nat, start: nat, ss: seq<Slice>)
    requires Layout(files, contents) && k < |files| && files[k].offset <= o && o + m <= files[k].offset + files[k].length
    requires AllInFile(ss, contents) && start <= o <= |Concat(contents)| && Bytes(ss, contents) == Concat(contents)[start..o]
    ensures var s := Slice(Some(files[k].path), files[k].length, o - files[k].offset, m, files[k].padding);
            && o + m <= |Concat(contents)| && AllInFile(ss + [s], contents)
            && Bytes(ss + [s], contents) == Concat(contents)[start..o + m]
  {
    hide Concat, Bytes, AllInFile;
    assert Placed(files[k], contents, k);
    var whole, s := Concat(contents), Slice(Some(files[k].path), files[k].length, o - files[k].offset, m, files[k].padding);
    FileInTorrent(contents, k, s.offset, s.offset + m);
    BytesSnoc(ss, s, contents);
    assert whole[o..o + m] == contents[k][s.offset..s.offset + m];
    Joined(whole, start, o, o + m);
  }

  lemma Joined(s: seq<bv8>, a: nat, b: nat, c: nat)
    requires a <= b <= c <= |s|
    ensures s[a..b] + s[b..c] == s[a..c]
  {
  }

  lemma NextFile(files: seq<File>, contents: seq<seq<bv8>>, k: nat)
    requires Layout(files, contents) && k < |files|
    ensures files[k].offset >= 0 && files[k].length >= 0
    ensures files[k].offset + files[k].length == |Concat(contents[..k + 1])|
    ensures k + 1 < |files| ==> files[k + 1].offset == files[k].offset + files[k].length
    ensures k + 1 == |files| ==> files[k].offset + files[k].length == |Concat(contents)|
  {
    assert Placed(files[k], contents, k);
    ConcatNext(contents, k);
    if k + 1 < |files| { assert Placed(files[k + 1], contents, k + 1); }
    assert contents[..|contents|] == contents;
  }

  /** Models fileChunks: the slices of a range of the torrent lie in their files, and read one
      after the other they are the range. */
  method FileChunks(files: Option<seq<File>>, torrentLength: nat, start: nat, length: nat, ghost contents: seq<seq<bv8>>)
    returns (ss: seq<Slice>)
    requires start + length <= torrentLength == |Concat(contents)|
    requires if files.Some? then Layout(files.value, contents) else |contents| == 1
    ensures AllInFile(ss, contents) && Bytes(ss, contents) == Concat(contents)[start..start + length]
    ensures forall k :: 0 <= k < |ss| ==> ss[k].path.Some? == files.Some?
  {
    if files.None? {
      ss := [Slice(None, torrentLength, start, length, false)];
      OneFile(contents);
      NoSlices(contents);
      BytesSnoc([], ss[0], contents);
      assert [] + ss == ss && [] + [ss[0]] == ss;
      return;
    }
    ss := SplitRange(files.value, start, length, contents);
  }

  lemma OneFile(contents: seq<seq<bv8>>)
    requires |contents| == 1
    ensures Concat(contents) == contents[0]
  {
    assert contents[..0] == [];
    assert Concat([]) + contents[0] == contents[0];
  }

  /** The loop of fileChunks. */
  method SplitRange(files: seq<File>, start: nat, length: nat, ghost contents: seq<seq<bv8>>) returns (ss: seq<Slice>)
    requires Layout(files, contents) && start + length <= |Concat(contents)|
    ensures AllInFile(ss, contents) && Bytes(ss, contents) == Concat(contents)[start..start + length]
    ensures forall k :: 0 <= k < |ss| ==> ss[k].path.Some?
  {
    hide AllInFile, Bytes, Concat, Layout;
    var o, l := start, length;
    ss := [];
    NoSlices(contents);
    LayoutFirst(files, contents);
    var k := 0;
    assert Concat(contents)[start..start] == [];
    while k < |files|
      invariant 0 <= k <= |files| && start <= o && 0 <= l && o + l == start + length
      invariant k < |files| && l > 0 ==> files[k].offset <= o
      invariant k == |files| ==> o >= |Concat(contents)| || l == 0
      invariant AllInFile(ss, contents) && Bytes(ss, contents) == Concat(contents)[start..o]
      invariant forall j :: 0 <= j < |ss| ==> ss[j].path.Some?
    {
      var f := files[k];
      NextFile(files, contents, k);
      if f.offset + f.length <= o {
        k := k + 1;
        continue;
      }
      if f.offset >= o + l {
        break;
      }
      var m := f.length - (o - f.offset);
      if m > l {
        m := l;
      }
      CutSlice(files, contents, k, o, m, start, ss);
      ss := ss + [Slice(Some(f.path), f.length, o - f.offset, m, f.padding)];
      o := o + m;
      l := l - m;
      if l <= 0 {
        break;
      }
      k := k + 1;
    }
  }

  lemma NoSlices(contents: seq<seq<bv8>>)
    ensures AllInFile([], contents) && Bytes([], contents) == []
  {
  }

  lemma LayoutFirst(files: seq<File>, contents: seq<seq<bv8>>)
    requires Layout(files, contents)
    ensures |files| > 0 ==> files[0].offset == 0
    ensures |files| == 0 ==> Concat(contents) == []
  {
    if |files| > 0 {
      assert Placed(files[0], contents, 0);
      assert contents[..0] == [];
    }
  }
}
