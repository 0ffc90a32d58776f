/**
 * The whole driver `generate_word_alignments_fast_align`: validate, extend the caller's path
 * lists in place, concatenate the training streams, run the aligner, split its output.
 * `Run` is the specification of one call; `GenerateWordAlignments` performs it step by step.
 */
module Pipeline {
  import opened Wrappers
  import opened Corpus
  import opened Validation
  import opened Splitter

  /** `if extra is not None: paths += extra`, as a value. */
  function Extended(paths: seq<string>, extra: Option<seq<string>>): seq<string>
  {
    if extra.Some? then paths + extra.value else paths
  }

  /** The paths an optional list contributes. */
  function Extra(extra: Option<seq<string>>): seq<string>
  {
    if extra.Some? then extra.value else []
  }

  /** What a successful call leaves behind, together with its transient artifacts. */
  datatype RunResult = RunResult(
    lines: seq<nat>,              // one line count per primary pair
    sourceTrain: seq<string>,     // the combined source stream
    targetTrain: seq<string>,     // the combined target stream
    alignments: Alignments,       // what the aligner produced from them
    sources: seq<string>,         // the caller's source list afterwards
    targets: seq<string>,         // the caller's target list afterwards
    files: map<string, seq<string>>)  // the file system afterwards

  /** On success, every path that will be read is on disk and there is one count per name. */
  lemma ValidatedPathsPresent(files: map<string, seq<string>>, sources: seq<string>, targets: seq<string>, names: seq<string>,
                              sourceParallel: Option<seq<string>>, targetParallel: Option<seq<string>>)
    requires Validate(files, sources, targets, names, sourceParallel, targetParallel).Success?
    ensures |Validate(files, sources, targets, names, sourceParallel, targetParallel).value| == |names|
    ensures AllPresent(files, sources) && AllPresent(files, targets)
    ensures AllPresent(files, Extra(sourceParallel)) && AllPresent(files, Extra(targetParallel))
    ensures AllPresent(files, Extended(sources, sourceParallel))
    ensures AllPresent(files, Extended(targets, targetParallel))
    ensures AllPresent(files, Extended(Extended(sources, sourceParallel), targetParallel))
  {
    ValidateSpec(files, sources, targets, names, sourceParallel, targetParallel);
    var sp, tp := Extra(sourceParallel), Extra(targetParallel);
    assert AllPresent(files, sp) && AllPresent(files, tp) by {
      if sourceParallel.Some? && targetParallel.Some? && |sp| == |tp| {
        assert forall i :: 0 <= i < |sp| ==> PairOk(files, sp[i], tp[i]);
      } else {
        assert sp == [] && tp == [];
      }
    }
    assert Extended(sources, sourceParallel) == sources + sp;
    assert Extended(targets, targetParallel) == targets + tp;
    assert Extended(Extended(sources, sourceParallel), targetParallel) == (sources + sp) + tp;
    ConcatAppend(files, sources, sp);
    ConcatAppend(files, targets, tp);
    ConcatAppend(files, sources + sp, tp);
  }

  /**
   * One call. `aliased` says that the caller passed the same list object as source and target
   * paths; then the target concatenation also sees the source extension, because the source
   * stream is concatenated before the target list is extended.
   */
  function Run(files: map<string, seq<string>>, sources: seq<string>, targets: seq<string>, aliased: bool,
               names: seq<string>, dir: string,
               sourceParallel: Option<seq<string>>, targetParallel: Option<seq<string>>,
               align: (seq<string>, seq<string>) -> Alignments): (result: Result<RunResult, Error>)
    requires aliased ==> sources == targets
    ensures result.Failure? <==> Validate(files, sources, targets, names, sourceParallel, targetParallel).Failure?
    ensures result.Failure? ==> result.error == Validate(files, sources, targets, names, sourceParallel, targetParallel).error
    ensures result.Success? ==>
              && |result.value.lines| == |names|
              && CountsMatch(files, sources, result.value.lines)
              && CountsMatch(files, targets, result.value.lines)
  {
    match Validate(files, sources, targets, names, sourceParallel, targetParallel)
    case Failure(e) => Failure(e)
    case Success(lines) =>
      ValidateSpec(files, sources, targets, names, sourceParallel, targetParallel);
      ValidatedPathsPresent(files, sources, targets, names, sourceParallel, targetParallel);
      Success(Complete(files, sources, targets, aliased, names, dir, sourceParallel, targetParallel, align, lines))
  }

  /** What a call does once its inputs have passed validation with line counts `lines`. */
  function Complete(files: map<string, seq<string>>, sources: seq<string>, targets: seq<string>, aliased: bool,
                    names: seq<string>, dir: string,
                    sourceParallel: Option<seq<string>>, targetParallel: Option<seq<string>>,
                    align: (seq<string>, seq<string>) -> Alignments, lines: seq<nat>): RunResult
    requires aliased ==> sources == targets
    requires |lines| == |names|
    requires AllPresent(files, Extended(sources, sourceParallel))
    requires AllPresent(files, Extended(targets, targetParallel))
    requires AllPresent(files, Extended(Extended(sources, sourceParallel), targetParallel))
  {
    var newSources := Extended(sources, sourceParallel);
    var sourceTrain := Concat(files, newSources);
    var newTargets := Extended(if aliased then newSources else targets, targetParallel);
    var targetTrain := Concat(files, newTargets);
    var alignments := align(sourceTrain, targetTrain);
    var written := ApplyWrites(files, Writes(dir, names, lines, alignments));
    RunResult(lines, sourceTrain, targetTrain, alignments,
              if aliased then newTargets else newSources, newTargets, written)
  }

  /**
   * The driver. Validation failures stop it before anything is extended or written; otherwise
   * the caller's lists are extended in place and every output file is written.
   */
  method GenerateWordAlignments(disk: Disk, sourcePaths: PathList, targetPaths: PathList,
                                outputDir: string, outputNames: seq<string>,
                                sourceParallel: Option<seq<string>>, targetParallel: Option<seq<string>>,
                                align: (seq<string>, seq<string>) -> Alignments)
    returns (outcome: Outcome<Error>)
    modifies disk, sourcePaths, targetPaths
    ensures match Run(old(disk.files), old(sourcePaths.items), old(targetPaths.items), sourcePaths == targetPaths,
                      outputNames, outputDir, sourceParallel, targetParallel, align)
            case Failure(e) =>
              && outcome == Fail(e)
              && disk.files == old(disk.files)
              && sourcePaths.items == old(sourcePaths.items)
              && targetPaths.items == old(targetPaths.items)
            case Success(r) =>
              && outcome == Pass
              && disk.files == r.files
              && sourcePaths.items == r.sources
              && targetPaths.items == r.targets
  {
    var sources, targets := sourcePaths.items, targetPaths.items;
    ghost var files := disk.files;
    var validated := ValidateInputs(disk, sources, targets, outputNames, sourceParallel, targetParallel);
    if validated.Failure? {
      return Fail(validated.error);
    }
    var lines := validated.value;
    ValidatedPathsPresent(files, sources, targets, outputNames, sourceParallel, targetParallel);

    if sourceParallel.Some? {
      sourcePaths.Extend(sourceParallel.value);
    }
    var sourceTrain := Concat(disk.files, sourcePaths.items);
    if targetParallel.Some? {
      targetPaths.Extend(targetParallel.value);
    }
    var targetTrain := Concat(disk.files, targetPaths.items);

    var alignments := align(sourceTrain, targetTrain);
    SplitAlignments(disk, outputDir, outputNames, lines, alignments);
    outcome := Pass;
    assert Run(files, sources, targets, sourcePaths == targetPaths, outputNames, outputDir, sourceParallel, targetParallel, align)
        == Success(RunResult(lines, sourceTrain, targetTrain, alignments, sourcePaths.items, targetPaths.items, disk.files));
  }

  /**
   * Both training streams are the primary files in declared order followed by the
   * augmentation files, and they have the same length, at least the primary total.
   */
  lemma TrainingStreamsAgree(files: map<string, seq<string>>, sources: seq<string>, targets: seq<string>,
                             names: seq<string>, dir: string,
                             sourceParallel: Option<seq<string>>, targetParallel: Option<seq<string>>,
                             align: (seq<string>, seq<string>) -> Alignments, r: RunResult)
    requires Run(files, sources, targets, false, names, dir, sourceParallel, targetParallel, align) == Success(r)
    ensures && CountsMatch(files, sources, r.lines)
            && CountsMatch(files, targets, r.lines)
            && AllPresent(files, Extra(sourceParallel))
            && AllPresent(files, Extra(targetParallel))
            && r.sourceTrain == Concat(files, sources) + Concat(files, Extra(sourceParallel))
            && r.targetTrain == Concat(files, targets) + Concat(files, Extra(targetParallel))
            && |Concat(files, sources)| == |Concat(files, targets)| == Sum(r.lines)
            && |r.sourceTrain| == |r.targetTrain|
  {
    RunShape(files, sources, targets, false, names, dir, sourceParallel, targetParallel, align, r);
    var sp, tp := Extra(sourceParallel), Extra(targetParallel);
    ConcatAppend(files, sources, sp);
    ConcatAppend(files, targets, tp);
    ConcatLength(files, sources, r.lines);
    ConcatLength(files, targets, r.lines);
    AugmentationBalanced(files, sources, targets, names, sourceParallel, targetParallel);
  }

  /** Validated augmentation files hold as many source lines as target lines. */
  lemma AugmentationBalanced(files: map<string, seq<string>>, sources: seq<string>, targets: seq<string>,
                             names: seq<string>, sourceParallel: Option<seq<string>>, targetParallel: Option<seq<string>>)
    requires Validate(files, sources, targets, names, sourceParallel, targetParallel).Success?
    ensures AllPresent(files, Extra(sourceParallel)) && AllPresent(files, Extra(targetParallel))
    ensures |Concat(files, Extra(sourceParallel))| == |Concat(files, Extra(targetParallel))|
  {
    ValidatedPathsPresent(files, sources, targets, names, sourceParallel, targetParallel);
    var sp, tp := Extra(sourceParallel), Extra(targetParallel);
    if !Falsy(sourceParallel) && !Falsy(targetParallel) {
      CheckPairsCounts(files, sp, tp);
      var counts := CheckPairs(files, sp, tp).value;
      ConcatLength(files, sp, counts);
      ConcatLength(files, tp, counts);
    } else {
      assert sp == [] && tp == [];
    }
  }

  /**
   * The end-to-end promise. If the aligner returns one alignment line per training line, then
   * for every primary pair k and direction d, the file `{names[k]}.{d}` holds exactly
   * lines[k] lines, and its line j is the alignment of line j of pair k's source file with
   * line j of its target file (the lines at the same position of both training streams).
   * Output names must be distinct and relative, or later writes replace earlier ones.
   */
  lemma EveryOutputHoldsItsPairsAlignment(files: map<string, seq<string>>, sources: seq<string>, targets: seq<string>,
                                          aliased: bool, names: seq<string>, dir: string,
                                          sourceParallel: Option<seq<string>>, targetParallel: Option<seq<string>>,
                                          align: (seq<string>, seq<string>) -> Alignments, r: RunResult, k: nat, d: Direction)
    requires aliased ==> sources == targets
    requires Run(files, sources, targets, aliased, names, dir, sourceParallel, targetParallel, align) == Success(r)
    requires forall i, j :: 0 <= i < j < |names| ==> names[i] != names[j]
    requires forall i :: 0 <= i < |names| ==> Relative(names[i])
    requires k < |names|
    requires |r.alignments.Lines(d)| == |r.sourceTrain|
    ensures OutputHolds(files, sources[k], targets[k], r.lines, k, r.alignments.Lines(d), r.sourceTrain, r.targetTrain,
                        r.files, OutputPath(dir, names[k], d))
  {
    RunShape(files, sources, targets, aliased, names, dir, sourceParallel, targetParallel, align, r);
    OutputHoldsAlignment(files, sources, targets, Extra(sourceParallel), TargetRest(aliased, sourceParallel, targetParallel),
                         names, dir, r.lines, r.alignments, r.sourceTrain, r.targetTrain, r.files, k, d);
  }

  /**
   * Output file `out` of pair k holds exactly lines[k] lines, as many as the pair's source and
   * target files, and its line j is the aligner's line at position Offset(lines, k) + j, the
   * position where line j of the source file and line j of the target file sit in the two
   * training streams.
   */
  ghost predicate OutputHolds(files: map<string, seq<string>>, source: string, target: string, lines: seq<nat>, k: nat,
                              aligned: seq<string>, sourceTrain: seq<string>, targetTrain: seq<string>,
                              written: map<string, seq<string>>, out: string)
  {
    && k < |lines| && source in files && target in files && out in written
    && |written[out]| == lines[k] == |files[source]| == |files[target]|
    && var o := Offset(lines, k);
       && o + lines[k] <= |aligned| && o + lines[k] <= |sourceTrain| && o + lines[k] <= |targetTrain|
       && forall j :: 0 <= j < lines[k] ==>
            && written[out][j] == aligned[o + j]
            && sourceTrain[o + j] == files[source][j]
            && targetTrain[o + j] == files[target][j]
  }

  /**
   * The same promise stated over the parts of a successful call: the primary pairs' line counts,
   * the two training streams (primary files first, then whatever else was appended) and the
   * written file map.
   */
  lemma OutputHoldsAlignment(files: map<string, seq<string>>, sources: seq<string>, targets: seq<string>,
                             sourceRest: seq<string>, targetRest: seq<string>, names: seq<string>, dir: string,
                             lines: seq<nat>, a: Alignments, sourceTrain: seq<string>, targetTrain: seq<string>,
                             written: map<string, seq<string>>, k: nat, d: Direction)
    requires CountsMatch(files, sources, lines) && CountsMatch(files, targets, lines)
    requires AllPresent(files, sourceRest) && AllPresent(files, targetRest)
    requires AllPresent(files, sources + sourceRest) && AllPresent(files, targets + targetRest)
    requires sourceTrain == Concat(files, sources + sourceRest)
    requires targetTrain == Concat(files, targets + targetRest)
    requires |names| == |lines|
    requires written == ApplyWrites(files, Writes(dir, names, lines, a))
    requires forall i, j :: 0 <= i < j < |names| ==> names[i] != names[j]
    requires forall i :: 0 <= i < |names| ==> Relative(names[i])
    requires k < |names|
    requires |a.Lines(d)| == |sourceTrain|
    ensures OutputHolds(files, sources[k], targets[k], lines, k, a.Lines(d), sourceTrain, targetTrain,
                        written, OutputPath(dir, names[k], d))
  {
    ConcatLength(files, sources, lines);
    ConcatAppend(files, sources, sourceRest);
    WrittenBlock(files, dir, names, lines, a, k, d, written);
    BlockHolds(files, sources, targets, sourceRest, targetRest, lines, k, a.Lines(d), sourceTrain, targetTrain,
               written, OutputPath(dir, names[k], d));
  }

  /** Pair k's output file for direction d holds the slice of the aligner's output at pair k's offset. */
  lemma WrittenBlock(files: map<string, seq<string>>, dir: string, names: seq<string>, lines: seq<nat>,
                     a: Alignments, k: nat, d: Direction, written: map<string, seq<string>>)
    requires |names| == |lines| && k < |lines| && Sum(lines) <= |a.Lines(d)|
    requires forall i, j :: 0 <= i < j < |names| ==> names[i] != names[j]
    requires forall i :: 0 <= i < |names| ==> Relative(names[i])
    requires written == ApplyWrites(files, Writes(dir, names, lines, a))
    ensures OutputPath(dir, names[k], d) in written
    ensures Offset(lines, k) + lines[k] <= |a.Lines(d)|
    ensures written[OutputPath(dir, names[k], d)] == a.Lines(d)[Offset(lines, k)..Offset(lines, k) + lines[k]]
  {
    BlockExact(lines, a.Lines(d), k);
    EachOutputHoldsItsBlock(files, dir, names, lines, a, k, d);
  }

  /** A block at pair k's offset of the aligner's output lines up with pair k's lines in both streams. */
  lemma BlockHolds(files: map<string, seq<string>>, sources: seq<string>, targets: seq<string>,
                   sourceRest: seq<string>, targetRest: seq<string>, lines: seq<nat>, k: nat,
                   aligned: seq<string>, sourceTrain: seq<string>, targetTrain: seq<string>,
                   written: map<string, seq<string>>, out: string)
    requires CountsMatch(files, sources, lines) && CountsMatch(files, targets, lines)
    requires AllPresent(files, sourceRest) && AllPresent(files, targetRest)
    requires AllPresent(files, sources + sourceRest) && AllPresent(files, targets + targetRest)
    requires sourceTrain == Concat(files, sources + sourceRest)
    requires targetTrain == Concat(files, targets + targetRest)
    requires k < |lines| && Offset(lines, k) + lines[k] <= |aligned|
    requires out in written && written[out] == aligned[Offset(lines, k)..Offset(lines, k) + lines[k]]
    ensures OutputHolds(files, sources[k], targets[k], lines, k, aligned, sourceTrain, targetTrain, written, out)
  {
    BlockLines(written[out], aligned, Offset(lines, k), lines[k]);
    PairInStream(files, sources, sourceRest, lines, k, sourceTrain);
    PairInStream(files, targets, targetRest, lines, k, targetTrain);
  }

  /** The lines of a block cut out of `aligned` at offset o. */
  lemma BlockLines(block: seq<string>, aligned: seq<string>, o: nat, n: nat)
    requires o + n <= |aligned| && block == aligned[o..o + n]
    ensures |block| == n
    ensures forall j :: 0 <= j < n ==> block[j] == aligned[o + j]
  {
  }

  /** Line j of primary file k sits at position Offset(counts, k) + j of the concatenated stream. */
  lemma PairInStream(files: map<string, seq<string>>, paths: seq<string>, rest: seq<string>, counts: seq<nat>, k: nat,
                     stream: seq<string>)
    requires CountsMatch(files, paths, counts) && AllPresent(files, rest) && k < |paths|
    requires AllPresent(files, paths + rest) && stream == Concat(files, paths + rest)
    ensures Offset(counts, k) + counts[k] <= |stream|
    ensures forall j :: 0 <= j < counts[k] ==> stream[Offset(counts, k) + j] == files[paths[k]][j]
  {
    ConcatAppend(files, paths, rest);
    ConcatLength(files, paths, counts);
    OffsetBound(counts, k);
    forall j | 0 <= j < counts[k]
      ensures stream[Offset(counts, k) + j] == files[paths[k]][j]
    {
      ConcatPrefixAt(files, paths, rest, counts, k, j);
    }
  }

  /** What a successful call consists of, step by step. */
  lemma RunShape(files: map<string, seq<string>>, sources: seq<string>, targets: seq<string>,
                 aliased: bool, names: seq<string>, dir: string,
                 sourceParallel: Option<seq<string>>, targetParallel: Option<seq<string>>,
                 align: (seq<string>, seq<string>) -> Alignments, r: RunResult)
    requires aliased ==> sources == targets
    requires Run(files, sources, targets, aliased, names, dir, sourceParallel, targetParallel, align) == Success(r)
    ensures |names| == |r.lines|
    ensures AllPresent(files, Extra(sourceParallel)) && AllPresent(files, TargetRest(aliased, sourceParallel, targetParallel))
    ensures AllPresent(files, sources + Extra(sourceParallel))
    ensures AllPresent(files, targets + TargetRest(aliased, sourceParallel, targetParallel))
    ensures r.sourceTrain == Concat(files, sources + Extra(sourceParallel))
    ensures r.targetTrain == Concat(files, targets + TargetRest(aliased, sourceParallel, targetParallel))
    ensures r.alignments == align(r.sourceTrain, r.targetTrain)
    ensures r.files == ApplyWrites(files, Writes(dir, names, r.lines, r.alignments))
    ensures r.sources == if aliased then r.targets else sources + Extra(sourceParallel)
    ensures r.targets == targets + TargetRest(aliased, sourceParallel, targetParallel)
  {
    ValidatedPathsPresent(files, sources, targets, names, sourceParallel, targetParallel);
    RunCompletes(files, sources, targets, aliased, names, dir, sourceParallel, targetParallel, align, r);
    CompleteShape(files, sources, targets, aliased, names, dir, sourceParallel, targetParallel, align, r.lines, r);
    CompleteOutputs(files, sources, targets, aliased, names, dir, sourceParallel, targetParallel, align, r.lines, r);
    CompleteLists(files, sources, targets, aliased, names, dir, sourceParallel, targetParallel, align, r.lines, r);
  }

  /**
   * The caller's lists afterwards: the source list gains the source augmentation files and the
   * target list the target augmentation files; one list object shared by both gains both.
   */
  lemma CompleteLists(files: map<string, seq<string>>, sources: seq<string>, targets: seq<string>,
                      aliased: bool, names: seq<string>, dir: string,
                      sourceParallel: Option<seq<string>>, targetParallel: Option<seq<string>>,
                      align: (seq<string>, seq<string>) -> Alignments, lines: seq<nat>, r: RunResult)
    requires aliased ==> sources == targets
    requires |lines| == |names|
    requires AllPresent(files, Extended(sources, sourceParallel))
    requires AllPresent(files, Extended(targets, targetParallel))
    requires AllPresent(files, Extended(Extended(sources, sourceParallel), targetParallel))
    requires r == Complete(files, sources, targets, aliased, names, dir, sourceParallel, targetParallel, align, lines)
    ensures r.sources == if aliased then r.targets else sources + Extra(sourceParallel)
    ensures r.targets == targets + TargetRest(aliased, sourceParallel, targetParallel)
  {
    var sp, tp := Extra(sourceParallel), Extra(targetParallel);
    assert Extended(sources, sourceParallel) == sources + sp;
    if aliased {
      assert Extended(sources + sp, targetParallel) == (sources + sp) + tp;
      AppendAssociative(sources, sp, tp);
    } else {
      assert Extended(targets, targetParallel) == targets + tp;
    }
  }

  /** The aligner sees the two training streams, and the split writes its output for the validated counts. */
  lemma CompleteOutputs(files: map<string, seq<string>>, sources: seq<string>, targets: seq<string>,
                        aliased: bool, names: seq<string>, dir: string,
                        sourceParallel: Option<seq<string>>, targetParallel: Option<seq<string>>,
                        align: (seq<string>, seq<string>) -> Alignments, lines: seq<nat>, r: RunResult)
    requires aliased ==> sources == targets
    requires |lines| == |names|
    requires AllPresent(files, Extended(sources, sourceParallel))
    requires AllPresent(files, Extended(targets, targetParallel))
    requires AllPresent(files, Extended(Extended(sources, sourceParallel), targetParallel))
    requires r == Complete(files, sources, targets, aliased, names, dir, sourceParallel, targetParallel, align, lines)
    ensures r.lines == lines
    ensures r.alignments == align(r.sourceTrain, r.targetTrain)
    ensures r.files == ApplyWrites(files, Writes(dir, names, r.lines, r.alignments))
  {
  }

  /** A successful call is `Complete` applied to the validated line counts. */
  lemma RunCompletes(files: map<string, seq<string>>, sources: seq<string>, targets: seq<string>,
                     aliased: bool, names: seq<string>, dir: string,
                     sourceParallel: Option<seq<string>>, targetParallel: Option<seq<string>>,
                     align: (seq<string>, seq<string>) -> Alignments, r: RunResult)
    requires aliased ==> sources == targets
    requires Run(files, sources, targets, aliased, names, dir, sourceParallel, targetParallel, align) == Success(r)
    ensures |r.lines| == |names|
    ensures AllPresent(files, Extended(sources, sourceParallel))
    ensures AllPresent(files, Extended(targets, targetParallel))
    ensures AllPresent(files, Extended(Extended(sources, sourceParallel), targetParallel))
    ensures r == Complete(files, sources, targets, aliased, names, dir, sourceParallel, targetParallel, align, r.lines)
  {
    ValidatedPathsPresent(files, sources, targets, names, sourceParallel, targetParallel);
  }

  /** The parts of `Complete`'s result, stated without the optional-list case split. */
  lemma CompleteShape(files: map<string, seq<string>>, sources: seq<string>, targets: seq<string>,
                      aliased: bool, names: seq<string>, dir: string,
                      sourceParallel: Option<seq<string>>, targetParallel: Option<seq<string>>,
                      align: (seq<string>, seq<string>) -> Alignments, lines: seq<nat>, r: RunResult)
    requires aliased ==> sources == targets
    requires |lines| == |names|
    requires AllPresent(files, Extended(sources, sourceParallel))
    requires AllPresent(files, Extended(targets, targetParallel))
    requires AllPresent(files, Extended(Extended(sources, sourceParallel), targetParallel))
    requires r == Complete(files, sources, targets, aliased, names, dir, sourceParallel, targetParallel, align, lines)
    ensures AllPresent(files, Extra(sourceParallel)) && AllPresent(files, TargetRest(aliased, sourceParallel, targetParallel))
    ensures AllPresent(files, sources + Extra(sourceParallel))
    ensures AllPresent(files, targets + TargetRest(aliased, sourceParallel, targetParallel))
    ensures r.sourceTrain == Concat(files, sources + Extra(sourceParallel))
    ensures r.targetTrain == Concat(files, targets + TargetRest(aliased, sourceParallel, targetParallel))
  {
    var sp, tp := Extra(sourceParallel), Extra(targetParallel);
    assert Extended(sources, sourceParallel) == sources + sp;
    PresentParts(files, sources, sp);
    if aliased {
      assert Extended(sources + sp, targetParallel) == (sources + sp) + tp;
      AppendAssociative(sources, sp, tp);
      PresentParts(files, sources, sp + tp);
    } else {
      assert Extended(targets, targetParallel) == targets + tp;
      PresentParts(files, targets, tp);
    }
  }

  lemma PresentParts(files: map<string, seq<string>>, a: seq<string>, b: seq<string>)
    requires AllPresent(files, a + b)
    ensures AllPresent(files, a) && AllPresent(files, b)
  {
    assert forall i :: 0 <= i < |a| ==> a[i] == (a + b)[i];
    assert forall i :: 0 <= i < |b| ==> b[i] == (a + b)[|a| + i];
  }

  lemma AppendAssociative(a: seq<string>, b: seq<string>, c: seq<string>)
    ensures (a + b) + c == a + (b + c)
  {
  }

  /** The paths the target list gains before it is concatenated. */
  function TargetRest(aliased: bool, sourceParallel: Option<seq<string>>, targetParallel: Option<seq<string>>): seq<string>
  {
    if aliased then Extra(sourceParallel) + Extra(targetParallel) else Extra(targetParallel)
  }

  /** Only output files change: any other path keeps its contents, or stays absent. */
  lemma OnlyOutputFilesChange(files: map<string, seq<string>>, sources: seq<string>, targets: seq<string>,
                              aliased: bool, names: seq<string>, dir: string,
                              sourceParallel: Option<seq<string>>, targetParallel: Option<seq<string>>,
                              align: (seq<string>, seq<string>) -> Alignments, r: RunResult, p: string)
    requires aliased ==> sources == targets
    requires Run(files, sources, targets, aliased, names, dir, sourceParallel, targetParallel, align) == Success(r)
    requires forall k, d :: 0 <= k < |names| ==> OutputPath(dir, names[k], d) != p
    ensures && (p in r.files <==> p in files)
            && (p in files ==> r.files[p] == files[p])
  {
    ValidatedPathsPresent(files, sources, targets, names, sourceParallel, targetParallel);
    var ws := Writes(dir, names, r.lines, r.alignments);
    forall j | 0 <= j < |ws| ensures ws[j].path != p {
      var i, k := WritePath(dir, names, r.lines, r.alignments, j);
    }
    UnwrittenUnchanged(files, ws, p);
  }

  /**
   * The caller's lists are extended in place, so calling again with the same list objects
   * and augmentation data fails the argument check: the source list has grown past the
   * output names.
   */
  lemma RepeatedCallRejected(files: map<string, seq<string>>, sources: seq<string>, targets: seq<string>,
                             names: seq<string>, dir: string,
                             sourceParallel: Option<seq<string>>, targetParallel: Option<seq<string>>,
                             align: (seq<string>, seq<string>) -> Alignments, r: RunResult, later: map<string, seq<string>>)
    requires Run(files, sources, targets, false, names, dir, sourceParallel, targetParallel, align) == Success(r)
    requires !Falsy(sourceParallel)
    ensures Validate(later, r.sources, r.targets, names, sourceParallel, targetParallel) == Failure(ArgumentCountMismatch)
  {
    ValidateSpec(files, sources, targets, names, sourceParallel, targetParallel);
  }
}
