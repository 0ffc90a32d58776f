/**
 * The files the driver reads and writes, the caller's path lists it extends in place, and
 * the two sequence facts the whole bookkeeping rests on: prefix sums of per-file line
 * counts, and concatenation of files in a given order.
 */
module Corpus {

  /** The file system, path to lines. Only whole-file reads and writes are modelled. */
  class Disk {
    var files: map<string, seq<string>>

    /** Shell redirection `> path`: the file is created or replaced by `contents`. */
    method Write(path: string, contents: seq<string>)
      modifies this
      ensures files == old(files)[path := contents]
    {
      files := files[path := contents];
    }
  }

  /** A Python list of paths, shared by every name bound to it. */
  class PathList {
    var items: seq<string>

    /** Python's `list += other`: extends this list object itself, visible through every alias. */
    method Extend(other: seq<string>)
      modifies this
      ensures items == old(items) + other
    {
      items := items + other;
    }
  }

  /** Total of the line counts. */
  function Sum(counts: seq<nat>): nat
  {
    if counts == [] then 0 else Sum(counts[..|counts| - 1]) + counts[|counts| - 1]
  }

  /** Lines occupied by the first k files of a concatenation. */
  function Offset(counts: seq<nat>, k: nat): nat
    requires k <= |counts|
  {
    Sum(counts[..k])
  }

  lemma {:induction false} SumAppend(a: seq<nat>, b: seq<nat>)
    ensures Sum(a + b) == Sum(a) + Sum(b)
  {
    if b != [] {
      var c := b[..|b| - 1];
      assert (a + b)[..|a + b| - 1] == a + c;
      assert (a + b)[|a + b| - 1] == b[|b| - 1];
      SumAppend(a, c);
    } else {
      assert a + b == a;
    }
  }

  /** Consecutive files are contiguous: file k+1 starts where file k ends. */
  lemma OffsetStep(counts: seq<nat>, k: nat)
    requires k < |counts|
    ensures Offset(counts, k + 1) == Offset(counts, k) + counts[k]
  {
    assert counts[..k + 1][..k] == counts[..k];
  }

  /** Every file lies inside the total. */
  lemma OffsetBound(counts: seq<nat>, k: nat)
    requires k < |counts|
    ensures Offset(counts, k) + counts[k] <= Sum(counts)
  {
    OffsetStep(counts, k);
    assert counts == counts[..k + 1] + counts[k + 1..];
    SumAppend(counts[..k + 1], counts[k + 1..]);
  }

  ghost predicate AllPresent(files: map<string, seq<string>>, paths: seq<string>)
  {
    forall i :: 0 <= i < |paths| ==> paths[i] in files
  }

  /** `counts` lists, in order, how many lines each of `paths` has. */
  ghost predicate CountsMatch(files: map<string, seq<string>>, paths: seq<string>, counts: seq<nat>)
  {
    && |counts| == |paths|
    && AllPresent(files, paths)
    && forall i :: 0 <= i < |paths| ==> counts[i] == |files[paths[i]]|
  }

  /** The lines of the files `paths`, one file after the other in list order. */
  function Concat(files: map<string, seq<string>>, paths: seq<string>): seq<string>
    requires forall i :: 0 <= i < |paths| ==> paths[i] in files
  {
    if paths == [] then []
    else Concat(files, paths[..|paths| - 1]) + files[paths[|paths| - 1]]
  }

  /** Concatenating two path lists one after the other concatenates their streams. */
  lemma {:induction false} ConcatAppend(files: map<string, seq<string>>, a: seq<string>, b: seq<string>)
    requires AllPresent(files, a) && AllPresent(files, b)
    ensures AllPresent(files, a + b)
    ensures Concat(files, a + b) == Concat(files, a) + Concat(files, b)
  {
    assert AllPresent(files, a + b) by {
      forall i | 0 <= i < |a + b| ensures (a + b)[i] in files {
        if i >= |a| { assert (a + b)[i] == b[i - |a|]; }
      }
    }
    if b != [] {
      var c := b[..|b| - 1];
      assert (a + b)[..|a + b| - 1] == a + c;
      assert (a + b)[|a + b| - 1] == b[|b| - 1];
      ConcatAppend(files, a, c);
    } else {
      assert a + b == a;
    }
  }

  /** The combined stream has as many lines as its files together. */
  lemma {:induction false} ConcatLength(files: map<string, seq<string>>, paths: seq<string>, counts: seq<nat>)
    requires CountsMatch(files, paths, counts)
    ensures |Concat(files, paths)| == Sum(counts)
  {
    if paths != [] {
      var n := |paths| - 1;
      ConcatLength(files, paths[..n], counts[..n]);
    }
  }

  /**
   * Line j of file k sits at position Offset(counts, k) + j of the combined stream:
   * the per-file boundaries survive concatenation.
   */
  lemma ConcatAt(files: map<string, seq<string>>, paths: seq<string>, counts: seq<nat>, k: nat, j: nat)
    requires CountsMatch(files, paths, counts)
    requires k < |paths| && j < counts[k]
    ensures Offset(counts, k) + j < |Concat(files, paths)|
    ensures Concat(files, paths)[Offset(counts, k) + j] == files[paths[k]][j]
  {
    var front, rest := paths[..k + 1], paths[k + 1..];
    assert paths == front + rest;
    ConcatAppend(files, front, rest);
    assert front[..k] == paths[..k];
    ConcatLength(files, paths[..k], counts[..k]);
    assert Concat(files, front) == Concat(files, paths[..k]) + files[paths[k]];
  }

  /**
   * Files appended after the first ones do not disturb them: line j of file k is still at
   * Offset(counts, k) + j, and the stream is at least as long as the first files together.
   */
  lemma ConcatPrefixAt(files: map<string, seq<string>>, paths: seq<string>, rest: seq<string>, counts: seq<nat>, k: nat, j: nat)
    requires CountsMatch(files, paths, counts) && AllPresent(files, rest)
    requires k < |paths| && j < counts[k]
    ensures AllPresent(files, paths + rest)
    ensures Offset(counts, k) + j < Sum(counts) <= |Concat(files, paths + rest)|
    ensures Concat(files, paths + rest)[Offset(counts, k) + j] == files[paths[k]][j]
  {
    ConcatAppend(files, paths, rest);
    ConcatLength(files, paths, counts);
    ConcatAt(files, paths, counts, k, j);
  }
}
