/**
 * The checks made before anything is assembled: the argument lists must agree in length,
 * the augmentation lists must both be absent or agree in length, and every source file must
 * have as many lines as its target file. Each failure stops the run.
 */
module Validation {
  import opened Wrappers
  import opened Corpus

  datatype Error =
    /** source, target and output-name lists differ in length, or are empty */
    | ArgumentCountMismatch
    /** the augmentation source and target lists differ in length */
    | ParallelCountMismatch
    /** `len` applied to an augmentation list that is `None` while the other is not empty */
    | LengthOfNone
    /** a file that the line counter cannot open */
    | MissingFile(path: string)
    /** a source/target pair whose line counts differ */
    | LineCountMismatch(sourcePath: string, sourceLines: nat, targetPath: string, targetLines: nat)

  /** Python falsiness of an optional list: `None` and `[]`. */
  predicate Falsy(list: Option<seq<string>>)
  {
    list.None? || list.value == []
  }

  /** The argument checks, in the order they are made; `Pass` when the lists are acceptable. */
  function CheckArguments(sources: seq<string>, targets: seq<string>, names: seq<string>,
                          sourceParallel: Option<seq<string>>, targetParallel: Option<seq<string>>): Outcome<Error>
  {
    if !(|sources| == |targets| == |names| && |sources| > 0) then Fail(ArgumentCountMismatch)
    else if Falsy(sourceParallel) && Falsy(targetParallel) then Pass
    else if sourceParallel.None? || targetParallel.None? then Fail(LengthOfNone)
    else if |sourceParallel.value| != |targetParallel.value| then Fail(ParallelCountMismatch)
    else Pass
  }

  /** One pair is consistent: both files exist and have the same number of lines. */
  ghost predicate PairOk(files: map<string, seq<string>>, source: string, target: string)
  {
    source in files && target in files && |files[source]| == |files[target]|
  }

  /** Count the lines of one pair, source first; the common count or the first problem met. */
  function CheckPair(files: map<string, seq<string>>, source: string, target: string): Result<nat, Error>
  {
    if source !in files then Failure(MissingFile(source))
    else if target !in files then Failure(MissingFile(target))
    else if |files[source]| != |files[target]| then
      Failure(LineCountMismatch(source, |files[source]|, target, |files[target]|))
    else Success(|files[source]|)
  }

  /** Check the pairs in list order, stopping at the first bad one; the counts otherwise. */
  function CheckPairs(files: map<string, seq<string>>, sources: seq<string>, targets: seq<string>): Result<seq<nat>, Error>
    requires |sources| == |targets|
  {
    if sources == [] then Success([])
    else
      var n := |sources| - 1;
      match CheckPairs(files, sources[..n], targets[..n])
      case Failure(e) => Failure(e)
      case Success(counts) =>
        match CheckPair(files, sources[n], targets[n])
        case Failure(e) => Failure(e)
        case Success(c) => Success(counts + [c])
  }

  /** The pair check succeeds exactly when every pair is consistent. */
  lemma {:induction false} CheckPairsSucceeds(files: map<string, seq<string>>, sources: seq<string>, targets: seq<string>)
    requires |sources| == |targets|
    ensures CheckPairs(files, sources, targets).Success? <==>
              forall i :: 0 <= i < |sources| ==> PairOk(files, sources[i], targets[i])
  {
    if sources != [] {
      var n := |sources| - 1;
      var ps, pt := sources[..n], targets[..n];
      CheckPairsSucceeds(files, ps, pt);
      if CheckPairs(files, ps, pt).Success? {
        assert forall i :: 0 <= i < n ==> ps[i] == sources[i] && pt[i] == targets[i];
      } else {
        var i :| 0 <= i < n && !PairOk(files, ps[i], pt[i]);
        assert !PairOk(files, sources[i], targets[i]);
      }
    }
  }

  /** On success there is one count per pair, in order, equal to both files' line counts. */
  lemma {:induction false} CheckPairsCounts(files: map<string, seq<string>>, sources: seq<string>, targets: seq<string>)
    requires |sources| == |targets|
    requires CheckPairs(files, sources, targets).Success?
    ensures CountsMatch(files, sources, CheckPairs(files, sources, targets).value)
    ensures CountsMatch(files, targets, CheckPairs(files, sources, targets).value)
  {
    if sources != [] {
      var n := |sources| - 1;
      CheckPairsCounts(files, sources[..n], targets[..n]);
    }
  }

  /** On failure the error is that of the first inconsistent pair. */
  lemma {:induction false} CheckPairsFirstFailure(files: map<string, seq<string>>, sources: seq<string>, targets: seq<string>)
    requires |sources| == |targets|
    requires CheckPairs(files, sources, targets).Failure?
    ensures exists i :: 0 <= i < |sources|
              && (forall j :: 0 <= j < i ==> PairOk(files, sources[j], targets[j]))
              && CheckPair(files, sources[i], targets[i]) == Failure(CheckPairs(files, sources, targets).error)
  {
    var n := |sources| - 1;
    var ps, pt := sources[..n], targets[..n];
    if CheckPairs(files, ps, pt).Failure? {
      CheckPairsFirstFailure(files, ps, pt);
      var i :| 0 <= i < n
               && (forall j :: 0 <= j < i ==> PairOk(files, ps[j], pt[j]))
               && CheckPair(files, ps[i], pt[i]) == Failure(CheckPairs(files, ps, pt).error);
      assert forall j :: 0 <= j < i ==> ps[j] == sources[j] && pt[j] == targets[j];
    } else {
      CheckPairsSucceeds(files, ps, pt);
      assert forall j :: 0 <= j < n ==> ps[j] == sources[j] && pt[j] == targets[j];
    }
  }

  /** A failure among the first pairs is the failure of the whole list. */
  lemma {:induction false} CheckPairsPrefixFailure(files: map<string, seq<string>>, sources: seq<string>, targets: seq<string>, m: nat)
    requires |sources| == |targets| && m <= |sources|
    requires CheckPairs(files, sources[..m], targets[..m]).Failure?
    ensures CheckPairs(files, sources, targets) == CheckPairs(files, sources[..m], targets[..m])
  {
    if m < |sources| {
      var n := |sources| - 1;
      assert sources[..n][..m] == sources[..m] && targets[..n][..m] == targets[..m];
      CheckPairsPrefixFailure(files, sources[..n], targets[..n], m);
    } else {
      assert sources[..m] == sources && targets[..m] == targets;
    }
  }

  /**
   * The counting loop: counts source then target of each pair, fails fast, and otherwise
   * returns the list of per-pair counts built by appending.
   */
  method CountPairLines(disk: Disk, sources: seq<string>, targets: seq<string>) returns (r: Result<seq<nat>, Error>)
    requires |sources| == |targets|
    ensures r == CheckPairs(disk.files, sources, targets)
  {
    var lines: seq<nat> := [];
    var i := 0;
    while i < |sources|
      invariant 0 <= i <= |sources|
      invariant CheckPairs(disk.files, sources[..i], targets[..i]) == Success(lines)
    {
      var source, target := sources[i], targets[i];
      assert sources[..i + 1][..i] == sources[..i] && targets[..i + 1][..i] == targets[..i];
      if source !in disk.files {
        CheckPairsPrefixFailure(disk.files, sources, targets, i + 1);
        return Failure(MissingFile(source));
      }
      if target !in disk.files {
        CheckPairsPrefixFailure(disk.files, sources, targets, i + 1);
        return Failure(MissingFile(target));
      }
      var sourceLines := |disk.files[source]|;
      var targetLines := |disk.files[target]|;
      if sourceLines != targetLines {
        CheckPairsPrefixFailure(disk.files, sources, targets, i + 1);
        return Failure(LineCountMismatch(source, sourceLines, target, targetLines));
      }
      lines := lines + [sourceLines];
      i := i + 1;
    }
    assert sources[..i] == sources && targets[..i] == targets;
    r := Success(lines);
  }

  /**
   * All validation, in the order the driver performs it: argument lists, then the primary
   * pairs (their counts are the result), then the augmentation pairs when both lists are
   * non-empty (their counts are dropped).
   */
  function Validate(files: map<string, seq<string>>, sources: seq<string>, targets: seq<string>, names: seq<string>,
                    sourceParallel: Option<seq<string>>, targetParallel: Option<seq<string>>): Result<seq<nat>, Error>
  {
    match CheckArguments(sources, targets, names, sourceParallel, targetParallel)
    case Fail(e) => Failure(e)
    case Pass =>
      match CheckPairs(files, sources, targets)
      case Failure(e) => Failure(e)
      case Success(lines) =>
        if !Falsy(sourceParallel) && !Falsy(targetParallel) then
          match CheckPairs(files, sourceParallel.value, targetParallel.value)
          case Failure(e) => Failure(e)
          case Success(_) => Success(lines)
        else Success(lines)
  }

  /** The augmentation lists are acceptable: both falsy, or both present with equal lengths. */
  predicate ParallelListsAgree(sourceParallel: Option<seq<string>>, targetParallel: Option<seq<string>>)
  {
    || (Falsy(sourceParallel) && Falsy(targetParallel))
    || (sourceParallel.Some? && targetParallel.Some? && |sourceParallel.value| == |targetParallel.value|)
  }

  /**
   * Validation succeeds exactly when the three lists agree in a non-zero length, the
   * augmentation lists agree, and every primary and augmentation pair is consistent; the
   * result then holds one count per primary pair, in order, and nothing for augmentation.
   */
  lemma ValidateSpec(files: map<string, seq<string>>, sources: seq<string>, targets: seq<string>, names: seq<string>,
                     sourceParallel: Option<seq<string>>, targetParallel: Option<seq<string>>)
    ensures Validate(files, sources, targets, names, sourceParallel, targetParallel).Success? <==>
              && |sources| == |targets| == |names| > 0
              && ParallelListsAgree(sourceParallel, targetParallel)
              && (forall i :: 0 <= i < |sources| ==> PairOk(files, sources[i], targets[i]))
              && (sourceParallel.Some? && targetParallel.Some? && |sourceParallel.value| == |targetParallel.value| ==>
                    forall i :: 0 <= i < |sourceParallel.value| ==>
                      PairOk(files, sourceParallel.value[i], targetParallel.value[i]))
    ensures Validate(files, sources, targets, names, sourceParallel, targetParallel).Success? ==>
              var lines := Validate(files, sources, targets, names, sourceParallel, targetParallel).value;
              && |lines| == |names|
              && CountsMatch(files, sources, lines)
              && CountsMatch(files, targets, lines)
  {
    if |sources| == |targets| {
      CheckPairsSucceeds(files, sources, targets);
      if CheckPairs(files, sources, targets).Success? {
        CheckPairsCounts(files, sources, targets);
      }
    }
    if sourceParallel.Some? && targetParallel.Some? && |sourceParallel.value| == |targetParallel.value| {
      CheckPairsSucceeds(files, sourceParallel.value, targetParallel.value);
    }
  }

  /**
   * The checks as the driver makes them, failing fast: argument lists, then the counting loop
   * over the primary pairs, then the one over the augmentation pairs when both lists are
   * non-empty.
   */
  method ValidateInputs(disk: Disk, sources: seq<string>, targets: seq<string>, names: seq<string>,
                        sourceParallel: Option<seq<string>>, targetParallel: Option<seq<string>>)
    returns (r: Result<seq<nat>, Error>)
    ensures r == Validate(disk.files, sources, targets, names, sourceParallel, targetParallel)
  {
    if !(|sources| == |targets| == |names| && |sources| > 0) {
      return Failure(ArgumentCountMismatch);
    }
    if !(Falsy(sourceParallel) && Falsy(targetParallel)) {
      if sourceParallel.None? || targetParallel.None? {
        return Failure(LengthOfNone);
      }
      if |sourceParallel.value| != |targetParallel.value| {
        return Failure(ParallelCountMismatch);
      }
    }
    r := CountPairLines(disk, sources, targets);
    if r.Failure? {
      return;
    }
    if !Falsy(sourceParallel) && !Falsy(targetParallel) {
      var parallelCounted := CountPairLines(disk, sourceParallel.value, targetParallel.value);
      if parallelCounted.Failure? {
        return Failure(parallelCounted.error);
      }
    }
  }
}
