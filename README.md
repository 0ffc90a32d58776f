# fast_align alignment bookkeeping, in Dafny

This project models `generate_word_alignments_fast_align`, the driver that word-aligns several
parallel corpora at once with fast_align. The driver works in four steps:

1. It checks its arguments. It counts the lines of every source/target file pair and records one
   count per primary pair.
2. It extends the caller's source and target path lists in place with the optional augmentation
   lists. It then concatenates each list into one training stream.
3. It hands the two streams to the aligner. The aligner leaves one combined alignment file per
   direction: `forward.talp`, `reverse.talp` and `grow_diag_final-and.talp`.
4. For each direction it walks a 1-based cursor over the combined file. It cuts each primary
   pair's block out with `tail -n +cursor | head -n count` and writes it to
   `{output_dir}/{name}.{direction}`.

Modules, one file each:

- `Wrappers` (`wrappers.dfy`): `Option`, `Result` and `Outcome`.
- `Shell` (`shell.dfy`): the sequence meaning of `tail -n +k` and `head -n n`.
- `Corpus` (`corpus.dfy`):
  - the file system, a `Disk` class over `map<string, seq<string>>` (a file is its lines);
  - the caller's path lists, a `PathList` class, because `+=` mutates the list object every alias sees;
  - prefix sums of line counts (`Sum`, `Offset`) and concatenation of files (`Concat`).
- `Validation` (`validation.dfy`): the argument checks and the fail-fast counting loop.
  - `Validate` is the specification.
  - `CountPairLines` and `ValidateInputs` are the loops proved against it.
- `Splitter` (`splitter.dfy`): output paths, the per-pair blocks and the ordered log of writes.
  - `Writes`/`ApplyWrites` are the specification.
  - `SplitAlignments` is the nested direction/pair loop that performs them on the `Disk`.
- `Pipeline` (`pipeline.dfy`): the whole call.
  - `Run` is the specification of one call.
  - `GenerateWordAlignments` is the imperative driver proved to perform it, including the in-place list extension.

The aligner is a function parameter `(sourceTrain, targetTrain) -> Alignments`. Python truthiness of
the optional augmentation lists is `Falsy` (`None` or `[]`). Applying `len` to `None`, which raises
in Python, is the `LengthOfNone` error. Whether the caller passed the same list object as
source and target paths is the `aliased` flag of `Run`; `GenerateWordAlignments` computes it as
`sourcePaths == targetPaths`.

Two behaviours of the code that are easy to miss, and that the model keeps:

- The driver extends the caller's `source_paths` and `target_paths` in place
  (fast_align/generate_alignments.py:68-75), and `GenerateWordAlignments` does too.
  `RepeatedCallRejected` shows one consequence: calling again with the same lists and augmentation
  data fails the argument check.
- The assertion at fast_align/generate_alignments.py:33-35 also accepts one augmentation list `[]` and
  the other `None`, and so does `CheckArguments`.

## Model

| member | source | states |
|---|---|---|
| Shell.Tail | fast_align/generate_alignments.py:100 | `tail -n +k` yields max(0, \|s\|-(k-1)) lines, and line i of the result is line k-1+i of the input |
| Shell.Head | fast_align/generate_alignments.py:100 | `head -n n` yields a prefix of its input with min(n, \|s\|) lines |
| Shell.SliceWindow | fast_align/generate_alignments.py:100 | the pipeline started at line 1+offset with count n yields exactly the window [offset, offset+n) of the file, clipped to the file's end |
| Corpus.Disk.Write | fast_align/generate_alignments.py:100-104 | the redirection `> output_name` replaces that one file and leaves every other file as it was |
| Corpus.PathList.Extend | fast_align/generate_alignments.py:68-75 | `list += other` appends `other` to the list object itself |
| Corpus.SumAppend | fast_align/generate_alignments.py:106 | the total line count of two consecutive groups of files is the sum of their totals |
| Corpus.OffsetStep | fast_align/generate_alignments.py:106 | advancing the cursor by pair k's count gives the offset of pair k+1 |
| Corpus.OffsetBound | fast_align/generate_alignments.py:106 | pair k's lines end within the primary total |
| Corpus.ConcatAppend | fast_align/generate_alignments.py:68-76 | concatenating two path lists one after the other concatenates their streams, and keeps every path present |
| Corpus.ConcatLength | fast_align/generate_alignments.py:71 | a concatenated stream has as many lines as its files together |
| Corpus.ConcatAt | fast_align/generate_alignments.py:71 | line j of file k sits at position Offset(counts, k) + j of the concatenated stream |
| Corpus.ConcatPrefixAt | fast_align/generate_alignments.py:68-76 | files appended after the primary files do not move the primary lines, and the stream is at least as long as the primary total |
| Validation.CheckPairsSucceeds | fast_align/generate_alignments.py:45-53 | the pair loop succeeds if and only if every source and target file exists and each pair has equal line counts |
| Validation.CheckPairsCounts | fast_align/generate_alignments.py:43-53 | on success `lines` holds exactly one count per pair, in order, equal to the line count of both files of the pair |
| Validation.CheckPairsFirstFailure | fast_align/generate_alignments.py:45-51 | on failure the error is the one raised by the first bad pair, and every earlier pair is consistent |
| Validation.CheckPairsPrefixFailure | fast_align/generate_alignments.py:45-51 | a failure among the first pairs stops the loop: later pairs cannot change the outcome |
| Validation.CountPairLines | fast_align/generate_alignments.py:43-53 | the counting loop, which counts source then target of each pair, fails fast and appends each count, returns exactly `CheckPairs` |
| Validation.ValidateSpec | fast_align/generate_alignments.py:29-63 | validation succeeds if and only if (1) the three lists have one equal non-zero length, (2) the augmentation lists are both falsy or both present with equal length, (3) every primary pair is consistent, and (4) every augmentation pair is consistent. On success there is one count per output name, matching the primary files, and none for augmentation |
| Validation.ValidateInputs | fast_align/generate_alignments.py:29-63 | the checks as the driver makes them (argument asserts, then both counting loops) return exactly `Validate`, with the same error |
| Splitter.JoinShape | fast_align/generate_alignments.py:98 | `os.path.join` ends with the name, and puts the directory (plus a separator when needed) in front of a relative name |
| Splitter.BlocksPrefix | fast_align/generate_alignments.py:96-106 | the blocks of the first m pairs depend only on the first m counts |
| Splitter.BlocksCoverPrefix | fast_align/generate_alignments.py:95-106 | the blocks of one direction, concatenated in order, reproduce the first min(sum(lines), \|file\|) lines of the combined alignment file: contiguous, non-overlapping, and nothing from the augmentation tail |
| Splitter.BlockExact | fast_align/generate_alignments.py:96-106 | when the combined file has at least sum(lines) lines, pair k's block is exactly lines[k] lines starting at the offset of pairs 0..k-1, and the next pair starts where it ends |
| Splitter.EmptyPairBlock | fast_align/generate_alignments.py:97-106 | a pair with no lines gets an empty file and does not move the cursor |
| Splitter.ApplyWritesAppend | fast_align/generate_alignments.py:104 | performing two runs of writes one after the other is performing their concatenation |
| Splitter.LastWriteWins | fast_align/generate_alignments.py:100-104 | a file's final contents are those of the last write to its path |
| Splitter.UnwrittenUnchanged | fast_align/generate_alignments.py:100-104 | a path that no write targets keeps its contents, or stays absent |
| Splitter.WritesByDirection | fast_align/generate_alignments.py:95 | the writes are those of `forward.talp`, then `reverse.talp`, then `grow_diag_final-and.talp` |
| Splitter.WritesLayout | fast_align/generate_alignments.py:95-98 | there are exactly 3 × n writes, and write i·n+k is pair k's write for direction i |
| Splitter.DirectionsNeverCollide | fast_align/generate_alignments.py:95-98 | output paths of different directions differ, whatever the names and directories |
| Splitter.NamesNeverCollide | fast_align/generate_alignments.py:98 | within one direction, distinct relative output names give distinct output paths |
| Splitter.WritePath | fast_align/generate_alignments.py:95-98 | every write goes to the output path of a primary output name for some direction; nothing is written for augmentation data |
| Splitter.WritesDistinct | fast_align/generate_alignments.py:95-98 | with distinct relative output names, no two of the 3 × n writes go to the same file |
| Splitter.EachOutputHoldsItsBlock | fast_align/generate_alignments.py:95-106 | with distinct relative output names, pair k's file for direction d ends up holding pair k's block of that direction |
| Splitter.SplitAlignments | fast_align/generate_alignments.py:95-106 | the nested loop (cursor reset to 1 per direction, advanced by each count) leaves the disk as `ApplyWrites` of `Writes`; its invariant is `current_line == 1 + Offset(lines, k)` |
| Pipeline.ValidatedPathsPresent | fast_align/generate_alignments.py:29-76 | after validation passes, every file the concatenations read exists, and there is one count per output name |
| Pipeline.Run | fast_align/generate_alignments.py:29-106 | a call fails exactly when validation fails, with the same error. On success there is one count per output name, matching the primary source and target files |
| Pipeline.GenerateWordAlignments | fast_align/generate_alignments.py:29-106 | on a validation error the driver returns that error and changes neither the disk nor the caller's lists. Otherwise the disk and both caller lists end up as `Run` says |
| Pipeline.CompleteShape | fast_align/generate_alignments.py:68-76 | the source stream is the primary sources then the source augmentation files. The target stream is the primary targets then the target augmentation files, and, when both lists are one object, the source augmentation files before those |
| Pipeline.RunShape | fast_align/generate_alignments.py:68-106 | what a successful call consists of: the two training streams, the aligner's input, the files written, and the caller's lists afterwards (the source list followed by the source augmentation files, the target list followed by the target augmentation files, and both when the two are one list object) |
| Pipeline.TrainingStreamsAgree | fast_align/generate_alignments.py:68-76 | with distinct list objects, each training stream is the primary files in declared order followed by its augmentation files. The primary parts have sum(lines) lines each, and both streams have the same length |
| Pipeline.AugmentationBalanced | fast_align/generate_alignments.py:54-63 | validated augmentation files hold as many source lines as target lines |
| Pipeline.EveryOutputHoldsItsPairsAlignment | fast_align/generate_alignments.py:95-106 | end to end, assuming distinct relative output names and one alignment line per training line: `{name_k}.{d}` has exactly lines[k] lines, as many as pair k's files, and its line j is the aligner's line at the position of line j of pair k's source file in the source stream and of its target file in the target stream |
| Pipeline.OutputHoldsAlignment | fast_align/generate_alignments.py:95-106 | the same property stated over the parts of a successful call |
| Pipeline.WrittenBlock | fast_align/generate_alignments.py:96-104 | pair k's output file holds the window of the aligner's output at pair k's offset |
| Pipeline.BlockHolds | fast_align/generate_alignments.py:96-106 | that window lines up with pair k's lines in both training streams |
| Pipeline.PairInStream | fast_align/generate_alignments.py:68-76 | line j of primary file k sits at Offset(lines, k) + j of a stream that continues with other files |
| Pipeline.OnlyOutputFilesChange | fast_align/generate_alignments.py:95-104 | on the modelled disk, a call changes no file other than the output files: any other path keeps its contents, or stays absent |
| Pipeline.RepeatedCallRejected | fast_align/generate_alignments.py:68-70 | because the caller's source list is extended in place, calling again with the same lists and non-empty augmentation data fails the argument-count check |

## Left out

- Shell execution: `run_bash_command` and the command text (lines 99-104) are modelled only by what the pipeline writes; quoting, a failing command and a missing alignment file are not modelled.
- `count_lines`, `concatenate_files` and `data2fastalign` live in a module that is not part of this model. Line counting is the length of a file's line sequence, and a file that does not exist is the `MissingFile` error. Concatenation is `Concat`. The conversion to the aligner's input format is folded into the aligner parameter.
- The aligner (`align_corpus` and the fast_align binary, lines 85-92) is a function parameter. It cannot fail, and it writes nothing to the modelled disk. `EveryOutputHoldsItsPairsAlignment` takes as a hypothesis that it returns one line per training line.
- The two training files (lines 65-66, 71, 76) and `dataset.fast_align` are kept as values (`sourceTrain`, `targetTrain`) rather than written to the `Disk`. The temporary directory is also out: its `uuid` naming (27), its creation (40-41) and its removal with `shutil.rmtree` (108-109). So is the creation of the parent directory of `output_dir` (37-38).
- `print` messages and the `argparse` command line (lines 78, 85, 94, 112-170) are left out.
- Python's `assert` statements are modelled as always active; running under `python -O`, which strips them, is not modelled.
- Aliasing between an augmentation list and a primary path list (for example passing `source_paths` itself as `source_parallel_corpus`) is not modelled: augmentation lists are values.
- Line semantics: a file is a sequence of lines, so a final line without a newline, which line counters and `head` may treat differently, is not distinguished.
- Pipeline.EveryOutputHoldsItsPairsAlignment: states the per-line correspondence only when output names are distinct and relative and the aligner returns one line per training line. Without these hypotheses later writes may replace earlier ones, and `BlocksCoverPrefix` gives the clipped result.
- Pipeline.GenerateWordAlignments: does not model the workspace code at lines 37-41 and 108-109, which changes what a call does. For an `output_dir` without a directory part, such as `out`, `os.path.dirname` gives `''` and `os.makedirs('')` raises `FileNotFoundError` after the argument asserts and before any counting; the model returns the counting's outcome instead. With `remove_tmp_dir` true, `shutil.rmtree(tmp_dir)` deletes everything under a caller-supplied `tmp_dir`, including input corpora kept there and all the outputs when `tmp_dir` is `output_dir` or one of its parents.
- Pipeline.OnlyOutputFilesChange: holds on the modelled disk only. The program also writes `source_sentences.txt`, `target_sentences.txt`, `dataset.fast_align` and the three combined alignment files under `tmp_dir`, and then removes `tmp_dir`, as the line above says.
- Corpus.Disk: files are keyed by their path strings, with no normalisation, so two spellings of one file (`b` and `./b`, `x/../b` and `b`, a doubled `/`, a symbolic link) are two files in the model.
- Splitter.NamesNeverCollide: "distinct" means distinct strings; two output names that spell the same file (see `Corpus.Disk`) give the same file in the program.
- Splitter.WritesDistinct: its paths are distinct as strings only; with two output names that spell the same file, two writes reach one file in the program and the later one wins.
- Splitter.EachOutputHoldsItsBlock: with two output names that spell the same file, pair k's file holds the block of the later of the two pairs instead.
- Pipeline.EveryOutputHoldsItsPairsAlignment: the same limit on output names applies; its hypothesis of distinct relative names is about strings, not files.
