/**
 * Redistributing the aligner's three combined alignment files back into one file per
 * primary pair and direction. Pair k's block starts right after the lines of pairs 0..k-1;
 * the running cursor restarts at line 1 for every direction.
 */
module Splitter {
  import opened Shell
  import opened Corpus

  datatype Direction = Forward | Reverse | GrowDiagFinalAnd {
    /** The name of this direction's alignment file, also the suffix of its outputs. */
    function Suffix(): string
    {
      match this
      case Forward => "forward.talp"
      case Reverse => "reverse.talp"
      case GrowDiagFinalAnd => "grow_diag_final-and.talp"
    }

    /** The ninth character from the end of the suffix; it differs between directions. */
    function Mark(): (c: char)
      ensures c == Suffix()[|Suffix()| - 9]
    {
      match this
      case Forward => 'w'
      case Reverse => 'e'
      case GrowDiagFinalAnd => '-'
    }
  }

  /** The directions in the order they are split. */
  const Directions: seq<Direction> := [Forward, Reverse, GrowDiagFinalAnd]

  /** What the aligner leaves behind: one combined alignment file per direction. */
  datatype Alignments = Alignments(forward: seq<string>, reverse: seq<string>, growDiagFinalAnd: seq<string>) {
    function Lines(d: Direction): seq<string>
    {
      match d
      case Forward => forward
      case Reverse => reverse
      case GrowDiagFinalAnd => growDiagFinalAnd
    }
  }

  predicate EndsWith(s: string, t: string)
  {
    |t| <= |s| && s[|s| - |t|..] == t
  }

  /** A name that does not start with the separator; joining keeps the directory in front. */
  predicate Relative(name: string)
  {
    name == [] || name[0] != '/'
  }

  /** POSIX `os.path.join(dir, name)`: an absolute name replaces the directory. */
  function Join(dir: string, name: string): string
  {
    if !Relative(name) then name
    else if dir == [] || dir[|dir| - 1] == '/' then dir + name
    else dir + "/" + name
  }

  /** The joined path ends with the name, and a relative name keeps the directory in front. */
  lemma JoinShape(dir: string, name: string)
    ensures EndsWith(Join(dir, name), name)
    ensures Relative(name) ==> Join(dir, name) == JoinPrefix(dir) + name
  {
    if Relative(name) && !(dir == [] || dir[|dir| - 1] == '/') {
      assert dir + "/" + name == JoinPrefix(dir) + name;
    }
  }

  /** What joining puts in front of a relative name. */
  function JoinPrefix(dir: string): string
  {
    if dir == [] || dir[|dir| - 1] == '/' then dir else dir + "/"
  }

  /** `{output_dir}/{name}.{direction}`. */
  function OutputPath(dir: string, name: string, d: Direction): string
  {
    Join(dir, name + "." + d.Suffix())
  }

  /** The block written for each primary pair: `tail -n +(1 + offset) | head -n count`. */
  function Blocks(lines: seq<nat>, aligned: seq<string>): (bs: seq<seq<string>>)
    ensures |bs| == |lines|
  {
    seq(|lines|, k requires 0 <= k < |lines| => Slice(aligned, 1 + Offset(lines, k), lines[k]))
  }

  /** The blocks one after the other. */
  function Flatten(bs: seq<seq<string>>): seq<string>
  {
    if bs == [] then [] else Flatten(bs[..|bs| - 1]) + bs[|bs| - 1]
  }

  /** The blocks of the first pairs do not depend on the later pairs. */
  lemma BlocksPrefix(lines: seq<nat>, aligned: seq<string>, m: nat)
    requires m <= |lines|
    ensures Blocks(lines, aligned)[..m] == Blocks(lines[..m], aligned)
  {
    var front := lines[..m];
    forall k | 0 <= k < m ensures Blocks(lines, aligned)[k] == Blocks(front, aligned)[k] {
      assert front[..k] == lines[..k];
      assert Offset(front, k) == Offset(lines, k);
      assert front[k] == lines[k];
    }
  }

  /**
   * The blocks, in order, reproduce the combined file's first Sum(lines) lines (clipped to
   * the file): contiguous, non-overlapping, and nothing past the primary prefix.
   */
  lemma {:induction false} BlocksCoverPrefix(lines: seq<nat>, aligned: seq<string>)
    ensures Flatten(Blocks(lines, aligned)) == aligned[..Min(Sum(lines), |aligned|)]
  {
    if lines != [] {
      var n := |lines| - 1;
      var bs := Blocks(lines, aligned);
      BlocksPrefix(lines, aligned, n);
      BlocksCoverPrefix(lines[..n], aligned);
      LastBlock(lines, aligned);
      SumLast(lines);
      CoverStep(aligned, Flatten(bs[..n]), bs[n], Offset(lines, n), lines[n]);
    }
  }

  /** The last pair's block starts where the earlier pairs end. */
  lemma LastBlock(lines: seq<nat>, aligned: seq<string>)
    requires lines != []
    ensures var n, l := |lines| - 1, |aligned|;
      Blocks(lines, aligned)[n] == aligned[Min(Offset(lines, n), l)..Min(Offset(lines, n) + lines[n], l)]
  {
    var n := |lines| - 1;
    SliceWindow(aligned, Offset(lines, n), lines[n]);
    BlockAt(lines, aligned, n);
  }

  /** The last pair closes the total. */
  lemma SumLast(lines: seq<nat>)
    requires lines != []
    ensures Sum(lines) == Offset(lines, |lines| - 1) + lines[|lines| - 1]
  {
  }

  /** Pair k's block is the shell window that starts after the lines of pairs 0..k-1. */
  lemma BlockAt(lines: seq<nat>, aligned: seq<string>, k: nat)
    requires k < |lines|
    ensures Blocks(lines, aligned)[k] == Slice(aligned, 1 + Offset(lines, k), lines[k])
  {
  }

  /** A covered prefix followed by the next window covers the longer prefix. */
  lemma CoverStep<T>(s: seq<T>, front: seq<T>, next: seq<T>, o: nat, c: nat)
    requires front == s[..Min(o, |s|)]
    requires next == s[Min(o, |s|)..Min(o + c, |s|)]
    ensures front + next == s[..Min(o + c, |s|)]
  {
    PrefixJoin(s, Min(o, |s|), Min(o + c, |s|));
  }

  lemma PrefixJoin<T>(s: seq<T>, x: nat, y: nat)
    requires x <= y <= |s|
    ensures s[..x] + s[x..y] == s[..y]
  {
  }

  /**
   * When the combined file has at least Sum(lines) lines, pair k's block is exactly the
   * lines[k] lines that start after the lines of pairs 0..k-1, and pair k+1 starts where it ends.
   */
  lemma BlockExact(lines: seq<nat>, aligned: seq<string>, k: nat)
    requires Sum(lines) <= |aligned| && k < |lines|
    ensures Offset(lines, k) + lines[k] <= |aligned|
    ensures Blocks(lines, aligned)[k] == aligned[Offset(lines, k)..Offset(lines, k) + lines[k]]
    ensures |Blocks(lines, aligned)[k]| == lines[k]
    ensures Offset(lines, k + 1) == Offset(lines, k) + lines[k]
  {
    OffsetBound(lines, k);
    OffsetStep(lines, k);
    SliceWindow(aligned, Offset(lines, k), lines[k]);
  }

  /** A pair with no lines gets an empty file and does not move the cursor. */
  lemma EmptyPairBlock(lines: seq<nat>, aligned: seq<string>, k: nat)
    requires k < |lines| && lines[k] == 0
    ensures Blocks(lines, aligned)[k] == []
    ensures Offset(lines, k + 1) == Offset(lines, k)
  {
    OffsetStep(lines, k);
  }

  /** One file write: the path and the lines it ends up holding. */
  datatype Write = Write(path: string, contents: seq<string>)

  /** The writes of one direction, one per primary pair in declared order. */
  function PairWrites(dir: string, names: seq<string>, lines: seq<nat>, alignments: Alignments, d: Direction): (ws: seq<Write>)
    requires |names| == |lines|
    ensures |ws| == |lines|
  {
    var bs := Blocks(lines, alignments.Lines(d));
    seq(|lines|, k requires 0 <= k < |lines| => Write(OutputPath(dir, names[k], d), bs[k]))
  }

  /** The writes of the directions `ds`, direction after direction. */
  function WritesFor(dir: string, names: seq<string>, lines: seq<nat>, alignments: Alignments, ds: seq<Direction>): seq<Write>
    requires |names| == |lines|
  {
    if ds == [] then []
    else WritesFor(dir, names, lines, alignments, ds[..|ds| - 1]) + PairWrites(dir, names, lines, alignments, ds[|ds| - 1])
  }

  /** Every write the split performs, in order. */
  function Writes(dir: string, names: seq<string>, lines: seq<nat>, alignments: Alignments): seq<Write>
    requires |names| == |lines|
  {
    WritesFor(dir, names, lines, alignments, Directions)
  }

  /** The file system after performing `ws` in order: a later write to a path replaces an earlier one. */
  function ApplyWrites(files: map<string, seq<string>>, ws: seq<Write>): map<string, seq<string>>
  {
    if ws == [] then files
    else ApplyWrites(files, ws[..|ws| - 1])[ws[|ws| - 1].path := ws[|ws| - 1].contents]
  }

  lemma {:induction false} ApplyWritesAppend(files: map<string, seq<string>>, a: seq<Write>, b: seq<Write>)
    ensures ApplyWrites(files, a + b) == ApplyWrites(ApplyWrites(files, a), b)
  {
    if b == [] {
      assert a + b == a;
    } else {
      var c := b[..|b| - 1];
      assert (a + b)[..|a + b| - 1] == a + c;
      assert (a + b)[|a + b| - 1] == b[|b| - 1];
      ApplyWritesAppend(files, a, c);
    }
  }

  /** A write that no later write overwrites decides its file's contents. */
  lemma {:induction false} LastWriteWins(files: map<string, seq<string>>, ws: seq<Write>, i: nat)
    requires i < |ws|
    requires forall j :: i < j < |ws| ==> ws[j].path != ws[i].path
    ensures ws[i].path in ApplyWrites(files, ws)
    ensures ApplyWrites(files, ws)[ws[i].path] == ws[i].contents
  {
    var n := |ws| - 1;
    if i < n {
      LastWriteWins(files, ws[..n], i);
    }
  }

  /** A path nobody writes keeps what it had, and stays absent if it was absent. */
  lemma {:induction false} UnwrittenUnchanged(files: map<string, seq<string>>, ws: seq<Write>, p: string)
    requires forall j :: 0 <= j < |ws| ==> ws[j].path != p
    ensures (p in ApplyWrites(files, ws)) == (p in files)
    ensures p in files ==> ApplyWrites(files, ws)[p] == files[p]
  {
    if ws != [] {
      UnwrittenUnchanged(files, ws[..|ws| - 1], p);
    }
  }

  /** The writes of the three directions, one after the other. */
  lemma WritesByDirection(dir: string, names: seq<string>, lines: seq<nat>, alignments: Alignments)
    requires |names| == |lines|
    ensures Writes(dir, names, lines, alignments)
              == PairWrites(dir, names, lines, alignments, Forward)
               + PairWrites(dir, names, lines, alignments, Reverse)
               + PairWrites(dir, names, lines, alignments, GrowDiagFinalAnd)
  {
    var f := PairWrites(dir, names, lines, alignments, Forward);
    var r := PairWrites(dir, names, lines, alignments, Reverse);
    assert WritesFor(dir, names, lines, alignments, [Forward]) == f by {
      assert [Forward][..0] == [];
      assert [] + f == f;
    }
    assert WritesFor(dir, names, lines, alignments, [Forward, Reverse]) == f + r by {
      assert [Forward, Reverse][..1] == [Forward];
    }
    assert Directions[..2] == [Forward, Reverse];
  }

  /** One write of pair k's block per direction, nothing else. */
  lemma PairWriteAt(dir: string, names: seq<string>, lines: seq<nat>, alignments: Alignments, d: Direction, k: nat)
    requires |names| == |lines| && k < |lines|
    ensures PairWrites(dir, names, lines, alignments, d)[k]
              == Write(OutputPath(dir, names[k], d), Slice(alignments.Lines(d), 1 + Offset(lines, k), lines[k]))
  {
  }

  /**
   * The split writes exactly one file per (pair, direction), direction after direction:
   * 3n writes, and none for augmentation data.
   */
  lemma WritesLayout(dir: string, names: seq<string>, lines: seq<nat>, alignments: Alignments, i: nat, k: nat)
    requires |names| == |lines| && i < |Directions| && k < |lines|
    ensures |Writes(dir, names, lines, alignments)| == 3 * |lines|
    ensures i * |lines| + k < |Writes(dir, names, lines, alignments)|
    ensures Writes(dir, names, lines, alignments)[i * |lines| + k]
              == PairWrites(dir, names, lines, alignments, Directions[i])[k]
  {
    var n := |lines|;
    var f := PairWrites(dir, names, lines, alignments, Forward);
    var r := PairWrites(dir, names, lines, alignments, Reverse);
    var g := PairWrites(dir, names, lines, alignments, GrowDiagFinalAnd);
    WritesByDirection(dir, names, lines, alignments);
    ThreeBlocksAt(f, r, g, i, k);
  }

  lemma ThreeBlocksAt<T>(f: seq<T>, r: seq<T>, g: seq<T>, i: nat, k: nat)
    requires |f| == |r| == |g| && i < 3 && k < |f|
    ensures |f + r + g| == 3 * |f| && i * |f| + k < |f + r + g|
    ensures (f + r + g)[i * |f| + k] == [f, r, g][i][k]
  {
    var n := |f|;
    if i == 1 {
      assert i * n + k == n + k;
    } else if i == 2 {
      assert i * n + k == 2 * n + k;
    }
  }

  lemma EndsWithTail(p: string, x: string, t: string)
    requires EndsWith(p, x + t)
    ensures EndsWith(p, t)
  {
    assert p[|p| - |t|..] == (x + t)[|x|..];
  }

  lemma EndsWithAt(p: string, t: string, i: nat)
    requires EndsWith(p, t) && 1 <= i <= |t|
    ensures p[|p| - i] == t[|t| - i]
  {
    assert p[|p| - |t|..][|t| - i] == p[|p| - i];
  }

  /** Output files of different directions never collide, whatever the names and directories. */
  lemma DirectionsNeverCollide(dir1: string, name1: string, d1: Direction, dir2: string, name2: string, d2: Direction)
    requires d1 != d2
    ensures OutputPath(dir1, name1, d1) != OutputPath(dir2, name2, d2)
  {
    OutputPathSuffix(dir1, name1, d1);
    OutputPathSuffix(dir2, name2, d2);
    // the ninth character from the end tells the three suffixes apart
    MarksDiffer(d1, d2);
    DifferentEndings(OutputPath(dir1, name1, d1), d1.Suffix(), OutputPath(dir2, name2, d2), d2.Suffix(), 9);
  }

  /** Two strings whose endings differ at the same distance from the end are different. */
  lemma DifferentEndings(p1: string, t1: string, p2: string, t2: string, i: nat)
    requires EndsWith(p1, t1) && EndsWith(p2, t2)
    requires 1 <= i <= |t1| && i <= |t2| && t1[|t1| - i] != t2[|t2| - i]
    ensures p1 != p2
  {
    EndsWithAt(p1, t1, i);
    EndsWithAt(p2, t2, i);
  }

  lemma MarksDiffer(d1: Direction, d2: Direction)
    requires d1 != d2
    ensures d1.Mark() != d2.Mark()
  {
  }

  lemma OutputPathSuffix(dir: string, name: string, d: Direction)
    ensures EndsWith(OutputPath(dir, name, d), d.Suffix())
  {
    JoinShape(dir, name + "." + d.Suffix());
    EndsWithTail(OutputPath(dir, name, d), name + ".", d.Suffix());
  }

  lemma CancelPrefix(q: string, x: string, y: string)
    ensures q + x == q + y ==> x == y
  {
    if q + x == q + y {
      assert x == (q + x)[|q|..];
    }
  }

  lemma CancelSuffix(x: string, y: string, t: string)
    ensures x + t == y + t ==> x == y
  {
    if x + t == y + t {
      assert x == (x + t)[..|x|];
    }
  }

  /** Within one direction, distinct relative names give distinct output files. */
  lemma NamesNeverCollide(dir: string, name1: string, name2: string, d: Direction)
    requires Relative(name1) && Relative(name2) && name1 != name2
    ensures OutputPath(dir, name1, d) != OutputPath(dir, name2, d)
  {
    var t := "." + d.Suffix();
    var b1, b2 := name1 + t, name2 + t;
    assert name1 + "." + d.Suffix() == b1 && name2 + "." + d.Suffix() == b2;
    assert b1[0] == (if name1 == [] then '.' else name1[0]);
    assert b2[0] == (if name2 == [] then '.' else name2[0]);
    var q := JoinPrefix(dir);
    JoinShape(dir, b1);
    JoinShape(dir, b2);
    CancelPrefix(q, b1, b2);
    CancelSuffix(name1, name2, t);
  }

  /** Write j of the split is pair k's write in direction i, with j = i * n + k. */
  lemma WriteIndex(n: nat, j: nat) returns (i: nat, k: nat)
    requires j < 3 * n
    ensures i < 3 && k < n && j == i * n + k
  {
    if j < n {
      i, k := 0, j;
    } else if j < 2 * n {
      i, k := 1, j - n;
    } else {
      i, k := 2, j - 2 * n;
    }
  }

  /** The path written by write j is pair k's output file for direction i, with j = i * n + k. */
  lemma WritePath(dir: string, names: seq<string>, lines: seq<nat>, alignments: Alignments, j: nat) returns (i: nat, k: nat)
    requires |names| == |lines| && j < |Writes(dir, names, lines, alignments)|
    ensures i < 3 && k < |lines| && j == i * |lines| + k
    ensures Writes(dir, names, lines, alignments)[j].path == OutputPath(dir, names[k], Directions[i])
  {
    WritesByDirection(dir, names, lines, alignments);
    i, k := WriteIndex(|lines|, j);
    WritesLayout(dir, names, lines, alignments, i, k);
    PairWriteAt(dir, names, lines, alignments, Directions[i], k);
  }

  /** With distinct relative output names, no two writes of the split go to the same file. */
  lemma WritesDistinct(dir: string, names: seq<string>, lines: seq<nat>, alignments: Alignments)
    requires |names| == |lines|
    requires forall i, j :: 0 <= i < j < |names| ==> names[i] != names[j]
    requires forall i :: 0 <= i < |names| ==> Relative(names[i])
    ensures forall x, y :: 0 <= x < y < |Writes(dir, names, lines, alignments)| ==>
              Writes(dir, names, lines, alignments)[x].path != Writes(dir, names, lines, alignments)[y].path
  {
    var ws := Writes(dir, names, lines, alignments);
    forall x, y | 0 <= x < y < |ws| ensures ws[x].path != ws[y].path {
      var i1, k1 := WritePath(dir, names, lines, alignments, x);
      var i2, k2 := WritePath(dir, names, lines, alignments, y);
      if i1 == i2 {
        NamesNeverCollide(dir, names[k1], names[k2], Directions[i1]);
      } else {
        DirectionsNeverCollide(dir, names[k1], Directions[i1], dir, names[k2], Directions[i2]);
      }
    }
  }

  /** With distinct relative output names, pair k's file for direction d ends up holding pair k's block. */
  lemma EachOutputHoldsItsBlock(files: map<string, seq<string>>, dir: string, names: seq<string>, lines: seq<nat>,
                                alignments: Alignments, k: nat, d: Direction)
    requires |names| == |lines| && k < |lines|
    requires forall i, j :: 0 <= i < j < |names| ==> names[i] != names[j]
    requires forall i :: 0 <= i < |names| ==> Relative(names[i])
    ensures OutputPath(dir, names[k], d) in ApplyWrites(files, Writes(dir, names, lines, alignments))
    ensures ApplyWrites(files, Writes(dir, names, lines, alignments))[OutputPath(dir, names[k], d)]
              == Blocks(lines, alignments.Lines(d))[k]
  {
    var i := if d == Forward then 0 else if d == Reverse then 1 else 2;
    assert Directions[i] == d;
    var ws := Writes(dir, names, lines, alignments);
    var x := i * |lines| + k;
    WritesLayout(dir, names, lines, alignments, i, k);
    PairWriteAt(dir, names, lines, alignments, d, k);
    assert ws[x] == Write(OutputPath(dir, names[k], d), Blocks(lines, alignments.Lines(d))[k]);
    LaterWritesElsewhere(dir, names, lines, alignments, x);
    LastWriteWins(files, ws, x);
  }

  /** No write after write x of the split goes to write x's file. */
  lemma LaterWritesElsewhere(dir: string, names: seq<string>, lines: seq<nat>, alignments: Alignments, x: nat)
    requires |names| == |lines| && x < |Writes(dir, names, lines, alignments)|
    requires forall i, j :: 0 <= i < j < |names| ==> names[i] != names[j]
    requires forall i :: 0 <= i < |names| ==> Relative(names[i])
    ensures forall y :: x < y < |Writes(dir, names, lines, alignments)| ==>
              Writes(dir, names, lines, alignments)[y].path != Writes(dir, names, lines, alignments)[x].path
  {
    WritesDistinct(dir, names, lines, alignments);
  }

  lemma ApplyNext(files: map<string, seq<string>>, ws: seq<Write>, k: nat)
    requires k < |ws|
    ensures ApplyWrites(files, ws[..k + 1]) == ApplyWrites(files, ws[..k])[ws[k].path := ws[k].contents]
  {
    assert ws[..k + 1][..k] == ws[..k];
  }

  lemma WritesForNext(dir: string, names: seq<string>, lines: seq<nat>, alignments: Alignments, ds: seq<Direction>, i: nat)
    requires |names| == |lines| && i < |ds|
    ensures WritesFor(dir, names, lines, alignments, ds[..i + 1])
              == WritesFor(dir, names, lines, alignments, ds[..i]) + PairWrites(dir, names, lines, alignments, ds[i])
  {
    assert ds[..i + 1][..i] == ds[..i];
  }

  /**
   * The per-direction loop: a 1-based cursor starts at 1, each pair's block is cut with
   * tail/head at the cursor and written to `{name}.{direction}`, and the cursor advances by the
   * pair's count.
   */
  method SplitAlignments(disk: Disk, outputDir: string, outputNames: seq<string>, lines: seq<nat>, alignments: Alignments)
    requires |outputNames| == |lines|
    modifies disk
    ensures disk.files == ApplyWrites(old(disk.files), Writes(outputDir, outputNames, lines, alignments))
  {
    for i := 0 to |Directions|
      invariant disk.files == ApplyWrites(old(disk.files), WritesFor(outputDir, outputNames, lines, alignments, Directions[..i]))
    {
      var direction := Directions[i];
      ghost var before := disk.files;
      ghost var ws := PairWrites(outputDir, outputNames, lines, alignments, direction);
      var currentLine: nat := 1;
      for k := 0 to |lines|
        invariant currentLine == 1 + Offset(lines, k)
        invariant disk.files == ApplyWrites(before, ws[..k])
      {
        var fileLen := lines[k];
        var outputName := OutputPath(outputDir, outputNames[k], direction);
        disk.Write(outputName, Slice(alignments.Lines(direction), currentLine, fileLen));
        PairWriteAt(outputDir, outputNames, lines, alignments, direction, k);
        ApplyNext(before, ws, k);
        OffsetStep(lines, k);
        currentLine := currentLine + fileLen;
      }
      assert ws[..|lines|] == ws;
      WritesForNext(outputDir, outputNames, lines, alignments, Directions, i);
      ApplyWritesAppend(old(disk.files), WritesFor(outputDir, outputNames, lines, alignments, Directions[..i]), ws);
    }
    assert Directions[..|Directions|] == Directions;
  }
}
