/**
 * The sequence meaning of the shell pipeline `tail FILE -n +K | head -n N` that cuts one
 * pair's block out of a combined alignment file. A file is its sequence of lines.
 */
module Shell {

  /** `tail -n +k`: the lines from the k-th (counted from 1) on; nothing when k is past the end. */
  function Tail<T>(s: seq<T>, k: nat): (r: seq<T>)
    requires k >= 1
    ensures |r| == if k - 1 <= |s| then |s| - (k - 1) else 0
    ensures forall i :: 0 <= i < |r| ==> r[i] == s[k - 1 + i]
  {
    if k - 1 <= |s| then s[k - 1..] else []
  }

  /** `head -n n`: the first n lines, or the whole input when it is shorter. */
  function Head<T>(s: seq<T>, n: nat): (r: seq<T>)
    ensures |r| == if n <= |s| then n else |s|
    ensures r <= s
  {
    if n <= |s| then s[..n] else s
  }

  /** The block `tail -n +currentLine | head -n fileLen` writes. */
  function Slice<T>(s: seq<T>, currentLine: nat, fileLen: nat): seq<T>
    requires currentLine >= 1
  {
    Head(Tail(s, currentLine), fileLen)
  }

  function Min(a: nat, b: nat): nat { if a <= b then a else b }

  /**
   * Starting at line 1 + offset, the pipeline yields exactly the window [offset, offset + n)
   * of the file, clipped to the file's end.
   */
  lemma SliceWindow<T>(s: seq<T>, offset: nat, n: nat)
    ensures Slice(s, 1 + offset, n) == s[Min(offset, |s|)..Min(offset + n, |s|)]
  {
    var r := Slice(s, 1 + offset, n);
    var w := s[Min(offset, |s|)..Min(offset + n, |s|)];
    assert |r| == |w|;
    forall i | 0 <= i < |r| ensures r[i] == w[i] {
      assert r[i] == Tail(s, 1 + offset)[i];
    }
  }
}
