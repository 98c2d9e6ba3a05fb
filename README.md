# Course-kit test harnesses and helpers, modelled in Dafny

This project models the deterministic logic of a computer-architecture course's starter kits.

- **Venus test runner** (`runner.py`, RISC-V project). A test launches the Venus simulator on an assembly file. It checks the optional stdout, stderr and exit-code expectations, then compares a list of files byte for byte. `main` sorts the tests by id, filters them by the command line and counts `passed` and `ran`.
- **Logisim test runner** (`test_runner.py`, CPU project).
  - `compare_unbounded` reads the simulator's trace and the reference trace in step. Each reference line is a regular expression. The loop stops at the first empty reference line, clears a sticky `passed` flag on a failed pair, and records every student line into an output file.
  - `run_test` builds a test's paths.
  - `run_tests` finds the `.circ` tests of each group and tallies them.
- **Custom CPU test generator** (`create-test.py`). It turns assembly files into tests: the `.s` filter and slug, blank-line collapsing of the reference trace, the cycle count, the `-tn` flag, the ROM image text and the cycle-count constant.
- **ALU and register-file trace converters** (`binary_to_hex_alu.py`, `binary_to_hex_regfile.py`). Each token is mapped from binary to hexadecimal, or to `x`. Tokens are grouped into fixed slices, the fields are reordered, and a header is printed followed by tab-joined rows.
- **The `numc.Matrix` extension type** (`numc.c`). It covers the constructor's argument dispatch, `init_fill`/`init_1d`/`init_2d` with their validation and row-major fill, and reading and writing a row with `m[i]` and `m[i] = v`.
- **The chained hash table** (both `hashtable.h`). It covers `createHashTable`, `insertData` and `findData` over an array of bucket chains, with a caller-supplied hash and equality, including the spell checker's use of the table as a set.

## Modules

| module | file | models |
|---|---|---|
| `Strings` | strings.dfy | the Python string built-ins the scripts use: `rstrip`, `strip`, `split`, `join`, slicing, `count`, `in`, `os.path.join` |
| `Numerals` | numerals.dfy | `hex`, `str` and binary values |
| `Ordering` | ordering.dfy | Python string order and `sorted` as a stable insertion sort |
| `VenusTests` | venus_tests.dfy | `runner.py` |
| `LogisimTests` | logisim_tests.dfy | `test_runner.py` |
| `CustomTests` | custom_tests.dfy | `create-test.py` |
| `BinaryToHex` | binary_to_hex.dfy | the two converters: `mapper` and the shared field, row and printing logic |
| `AluTrace` | alu_trace.dfy | the ALU converter's slices and order |
| `RegfileTrace` | regfile_trace.dfy | the register-file converter's slices and order |
| `Numc` | numc.dfy | `numc.c` |
| `HashTables` | hashtables.dfy | both `hashtable.h` files |

## Shape of the model

**Python scripts.**
- Each loop is a `method` proved against a recursive specification function: `ScanFrom`, `Reports`, `Tallies`, `Plans`, `SlugTests`, `Outcomes`, `OutputText`, `Spaced`, `Selected`/`CountPassed`.
- Lemmas then state what that function means: `ScanFromMeans`, `CompareMeans`, `TallyMeans`, `PlansMeans`, `SlugTestsFromCircuits`. `Outcomes` states its pointwise meaning in its own contract.
- `TestCase` is a class, because `run` updates the object (`self.TEST_COUNTER += 1`).

**The C code.**
- `Numc.Matrix` is a view of `rows * cols` doubles inside an `array<real>`. A row slice shares its parent's buffer: it is the same array at an offset.
- `Numc.Matrix61c` is the Python object, with the fields `mat` and `shape`.
- `HashTables.HashTable` keeps its bucket chains in an `array` with one chain per bucket. A ghost insertion history pins each chain down.

Process runs, file contents and the regular-expression engine are parameters:
- a Venus outcome, `TestSpec -> ProcessOutcome`;
- a map from path to bytes;
- the result of each test call, `TestPaths -> CallResult`;
- a matcher, `(pattern, line) -> MatchResult`;
- the Venus runs of the generator, `seq<string> -> ToolRun`;
- `rand_matrix`'s values, `int -> real`.

### Behaviour of the code worth knowing

- **Pattern acceptance.** A pair passes when `re.match(line2, line1)` matches and the match ends at `len(line2)`, the length of the *pattern* (`test_runner.py:59`). So a literal pattern accepts any student line that starts with it.
  - `LogisimTests.Accepts` states the rule.
  - `LiteralAcceptsPrefixes` and `LiteralPrefixExample` show that a literal pattern `42` accepts the line `423`.
  - `WholeLineMatchCanFail` shows that a match of the whole line is rejected when the pattern is longer than the line.
- **Test counter.** `self.TEST_COUNTER += 1` (`runner.py:60`) creates an instance attribute, and every test is a fresh object. So the class attribute stays 1 and every test prints `[1]`. `VenusTests.RunSelected` states this with `counters[i] == CLASS_TEST_COUNTER`.
- **Stripping.** Student bytes lose trailing ASCII white space (`bytes.rstrip`). Reference lines lose all trailing Unicode white space (`str.rstrip`). The model keeps the two apart: see `IsAsciiSpace` and `IsSpace`.
- **Non-numeric list items.** `init_1d` and `init_2d` call `PyFloat_AsDouble` on each item (`numc.c:46`, `numc.c:81`). For an item that is not a number it stores -1.0 and leaves a TypeError set, yet the initialiser returns 0. CPython then raises SystemError for the call. The model gives this its own status, `ErrorPending`; the matrix is still built and installed.
- **Short row lists.** `m[i] = lst` with a list shorter than the row reads past its end. `PyList_GetItem` returns NULL, and `PyFloat_Check(NULL)` dereferences it. The model gives this case its own outcome, `Crashed`. It comes from `SetOutcome`, and `Numc.Matrix61c.SetRow` and `Numc.Matrix61c.SetSubscript` state it.

## Model

| member | source | states |
|---|---|---|
| Strings.RstripByMeans | su20/project/proj3-starter/test_runner.py:53-54 | `rstrip` keeps a prefix that does not end in white space, and everything it drops is white space |
| Strings.Lstrip | su20/project/proj3-starter/tests/part_b/custom/create-test.py:66 | `lstrip` drops exactly the longest all-white-space prefix |
| Strings.SplitOn | su20/project/proj3-starter/tests/part_b/custom/create-test.py:97 | `split(c)` gives at least one piece, and no piece holds the separator |
| Strings.JoinSplit | su20/project/proj3-starter/tests/part_b/custom/create-test.py:97 | joining the pieces of a split with the separator gives the string back |
| Strings.SplitJoin | fa20/project/proj3-starter/tests/part_a/regfile/binary_to_hex_regfile.py:38 | splitting a join of pieces that hold no separator gives the pieces back |
| Strings.SplitAfterPiece | su20/project/proj3-starter/test_runner.py:61-63 | a separator-free piece followed by the separator splits off as the first piece |
| Strings.SplitPlain | fa20/project/proj3-starter/tests/part_a/regfile/binary_to_hex_regfile.py:38 | a string without the separator splits into itself |
| Strings.TakeToken | fa20/project/proj3-starter/tests/part_a/regfile/binary_to_hex_regfile.py:17 | the first token is the longest prefix without white space, ending at white space or the end |
| Strings.SplitWhitespace | fa20/project/proj3-starter/tests/part_a/regfile/binary_to_hex_regfile.py:17 | `split()` gives non-empty tokens that hold no white space |
| Strings.PySlice | fa20/project/proj3-starter/tests/part_a/regfile/binary_to_hex_regfile.py:18-33 | `h[lo:hi]` clips both bounds to the length and keeps the elements in order, so a slice past the end is empty |
| Strings.Count | su20/project/proj3-starter/tests/part_b/custom/create-test.py:66 | `count(c)` is at most the length, and is zero exactly when `c` does not occur |
| Strings.PathJoin | su20/project/proj3-starter/test_runner.py:70-72 | `os.path.join`: an absolute second part replaces the first; otherwise exactly one `/` separates them |
| Numerals.HexDigits | fa20/project/proj3-starter/tests/part_a/regfile/binary_to_hex_regfile.py:12 | the digits of `hex(n)` are lower-case hexadecimal, have no leading zero, and are a single digit exactly when `n < 16` |
| Numerals.HexDigitRoundTrip | fa20/project/proj3-starter/tests/part_a/regfile/binary_to_hex_regfile.py:12 | reading a hexadecimal digit gives back its value |
| Numerals.HexDigitValue | fa20/project/proj3-starter/tests/part_a/regfile/binary_to_hex_regfile.py:12 | a hexadecimal digit reads as a value below 16 |
| Numerals.HexRoundTrip | fa20/project/proj3-starter/tests/part_a/regfile/binary_to_hex_regfile.py:12 | reading back the digits of `hex(n)` gives `n` |
| Numerals.PyHex | su20/project/proj3-starter/tests/part_b/custom/create-test.py:122 | `hex(v)` is `0x` and the digits of `abs(v)`, with `-` in front for negative values, and reading the digits after the prefix back gives `abs(v)` |
| Numerals.DecimalDigits | su20/project/proj3-starter/tests/part_b/custom/create-test.py:44 | `str(n)` is decimal digits with no leading zero |
| Numerals.DecimalRoundTrip | su20/project/proj3-starter/tests/part_b/custom/create-test.py:44 | reading back `str(n)` gives `n` |
| Numerals.IntToString | su20/project/proj3-starter/tests/part_b/custom/create-test.py:44 | `str(v)` for an integer, with a leading `-` for negative values, and reading the digits back gives `abs(v)` |
| Numerals.BinValueBound | fa20/project/proj3-starter/tests/part_a/regfile/binary_to_hex_regfile.py:12 | `k` binary digits denote a number below 2^k |
| Ordering.LexLeTotal | su20/project/proj2-starter/tests/runner.py:156 | any two ids are ordered one way or the other |
| Ordering.LexLeTransitive | su20/project/proj2-starter/tests/runner.py:156 | string order is transitive |
| Ordering.LexLeAntisymmetric | su20/project/proj2-starter/tests/runner.py:156 | two ids ordered both ways are equal |
| Ordering.LexLe | su20/project/proj2-starter/tests/runner.py:156 | Python string order: every prefix of a string, and the string itself, comes no later than it; `LexLeTotal`, `LexLeTransitive` and `LexLeAntisymmetric` make it a total order |
| Ordering.InsertPermutes | su20/project/proj2-starter/tests/runner.py:156 | one insertion step adds exactly the inserted element |
| Ordering.InsertSorted | su20/project/proj2-starter/tests/runner.py:156 | inserting into a sorted list keeps it sorted |
| Ordering.SortBy | su20/project/proj3-starter/test_runner.py:107 | `sorted` returns a permutation of its input, of the same length; `SortByCorrect` adds that it is in key order |
| Ordering.SortByCorrect | su20/project/proj3-starter/test_runner.py:107 | `sorted` returns its input in ascending key order, as a permutation of it |
| Ordering.SortByStable | su20/project/proj2-starter/tests/runner.py:156 | `sorted` is stable: the elements with any one key appear in the output in their input order |
| Ordering.InsertSameKey | su20/project/proj2-starter/tests/runner.py:156 | an inserted element lands before every element with its key |
| Ordering.InsertOtherKey | su20/project/proj2-starter/tests/runner.py:156 | inserting an element leaves the order of the elements with any other key unchanged |
| VenusTests.HexBytes | su20/project/proj2-starter/tests/runner.py:34-36 | `bytes.hex()` shows two digits per byte |
| VenusTests.HexBytesInjective | su20/project/proj2-starter/tests/runner.py:30-36 | different contents give different hex dumps |
| VenusTests.Compare | su20/project/proj2-starter/tests/runner.py:16-37 | the comparison passes exactly when both files exist and their contents are equal with no trimming; a missing reference is reported before a missing student file; a mismatch carries the hex dumps of both files |
| VenusTests.CompareReflexive | su20/project/proj2-starter/tests/runner.py:23-28 | an existing file compared with itself passes |
| VenusTests.CompareDifferShowsDifference | su20/project/proj2-starter/tests/runner.py:30-36 | a mismatch diagnostic shows two different dumps |
| VenusTests.Resolve | su20/project/proj2-starter/tests/runner.py:42 | an omitted keyword takes its default, a `null` becomes `None`, and a given value is kept; `OmittedStdoutChecked` and `OmittedExitCodeChecked` show what the defaults then check |
| VenusTests.LoadTest | su20/project/proj2-starter/tests/runner.py:42-53 | a loaded test's stdout, stderr and exit code default to `""`, `""` and `0`, and a `null` skips that check |
| VenusTests.Mismatches | su20/project/proj2-starter/tests/runner.py:71-103 | a run reports no mismatch exactly when every configured stdout, stderr and exit-code expectation holds, and reports at most three |
| VenusTests.Verdict | su20/project/proj2-starter/tests/runner.py:71-111 | a test that passes finished within its timeout and has no stdout, stderr or exit-code mismatch; `StatusOf` and `CheckFinished` give the converse with the file comparisons |
| VenusTests.StatusOf | su20/project/proj2-starter/tests/runner.py:55-115 | a test passes exactly when the verdict holds; a timeout and an exception each give their own status |
| VenusTests.CheckFinished | su20/project/proj2-starter/tests/runner.py:71-111 | `passing` is the verdict, and every file comparison runs, even after an earlier failure |
| VenusTests.SkippedStdoutIgnored | su20/project/proj2-starter/tests/runner.py:72 | a `None` stdout expectation never affects the verdict |
| VenusTests.SkippedStderrIgnored | su20/project/proj2-starter/tests/runner.py:85 | a `None` stderr expectation never affects the verdict |
| VenusTests.SkippedExitCodeIgnored | su20/project/proj2-starter/tests/runner.py:98 | a `None` exit-code expectation never affects the verdict |
| VenusTests.OutputChecksPass | su20/project/proj2-starter/tests/runner.py:72-103 | every stdout, stderr and exit-code expectation that is set agrees with the run; `Mismatches` reports nothing exactly when it holds, and the `Skipped*Ignored` lemmas show an unset one never matters |
| VenusTests.FilesMatch | su20/project/proj2-starter/tests/runner.py:104-105 | every file comparison of the test reports a match; `Verdict` requires it of a pass and `CheckFinished` runs every comparison even after a failure |
| VenusTests.OmittedStdoutChecked | su20/project/proj2-starter/tests/runner.py:42 | an omitted stdout is checked against `""`, so any output fails |
| VenusTests.OmittedExitCodeChecked | su20/project/proj2-starter/tests/runner.py:42 | an omitted exit code is checked against 0 |
| VenusTests.HelloScenario | su20/project/proj2-starter/tests/runner.py:71-111 | the expected output with exit code 0 passes; expecting 1 fails and reports only the exit-code mismatch |
| VenusTests.VenusCommand | su20/project/proj2-starter/tests/runner.py:62-63 | the simulator is always launched as a Java jar on the test's file joined to the test directory, with the test's arguments passed through unchanged and in order after it |
| VenusTests.TestCase.constructor | su20/project/proj2-starter/tests/runner.py:42-53 | a new test case holds its record and has no instance counter yet |
| VenusTests.TestCase.Run | su20/project/proj2-starter/tests/runner.py:55-115 | `run` shows the counter it reads and sets the instance counter one higher. It returns the verdict and its status. A timeout or an exception runs no check; a finished run reports its mismatches and every file comparison |
| VenusTests.TestCase.TestCounter | su20/project/proj2-starter/tests/runner.py:58-60 | `self.TEST_COUNTER` reads the instance attribute once set and the class attribute before; `Run`, `RunOne` and `RunSelected` show that the increment sets the instance attribute, so every test prints `[1]` |
| VenusTests.Selected | su20/project/proj2-starter/tests/runner.py:159-161 | with at most the script name on the command line, every test runs |
| VenusTests.Selects | su20/project/proj2-starter/tests/runner.py:160 | a test is skipped exactly when more than the script name was given and its id is not among the arguments |
| VenusTests.SelectedMembers | su20/project/proj2-starter/tests/runner.py:159-161 | a test runs exactly when it is loaded and `len(args) <= 1` or its id is among the arguments, the script name included |
| VenusTests.SelectedSorted | su20/project/proj2-starter/tests/runner.py:156-161 | skipping tests keeps the id order |
| VenusTests.CountPassed | su20/project/proj2-starter/tests/runner.py:162-164 | the passing tests are no more than the tests run |
| VenusTests.CountPassedSnoc | su20/project/proj2-starter/tests/runner.py:162-164 | one more test adds one to `passed` exactly when it passes |
| VenusTests.SelectedSnoc | su20/project/proj2-starter/tests/runner.py:159-161 | one more test is run exactly when the arguments select it |
| VenusTests.Ids | su20/project/proj2-starter/tests/runner.py:159 | the visited ids, one per test, in order |
| VenusTests.IdsSnoc | su20/project/proj2-starter/tests/runner.py:159 | visiting one more test appends its id |
| VenusTests.RunOrder | su20/project/proj2-starter/tests/runner.py:156-161 | the tests run in ascending id order, and they are among the loaded ones |
| VenusTests.SubMultiset | su20/project/proj2-starter/tests/runner.py:159-161 | the tests run are a sub-multiset of those loaded |
| VenusTests.RunSelected | su20/project/proj2-starter/tests/runner.py:155-164 | `main` visits the selected tests in ascending id order. `ran` counts them and `passed` counts those whose verdict holds, so `passed <= ran`. Each run shows the class counter 1 |
| VenusTests.RunLoop | su20/project/proj2-starter/tests/runner.py:157-164 | the loop runs exactly the selected tests in order and counts `ran` and `passed` |
| VenusTests.RunOne | su20/project/proj2-starter/tests/runner.py:39-60 | a freshly loaded test runs once, returns its verdict and shows counter 1 |
| LogisimTests.LiteralMatcher | su20/project/proj3-starter/test_runner.py:58 | a literal pattern never raises, and a match ends at the pattern's length, within the line |
| LogisimTests.Accepts | su20/project/proj3-starter/test_runner.py:59 | a pair passes only on a match, never on no match or an invalid pattern, and a match passes exactly when it ends at the pattern's length |
| LogisimTests.LiteralAcceptsPrefixes | su20/project/proj3-starter/test_runner.py:58-59 | for a literal pattern, a pair passes exactly when the student line starts with the pattern |
| LogisimTests.PairPasses | su20/project/proj3-starter/test_runner.py:58-59 | a pair passes when the reference line, read as a pattern, matches the student line from its start through the pattern's length; `AllPairsPassMeans` ties the sticky flag to it and `LiteralAcceptsPrefixes` spells it out for a literal pattern |
| LogisimTests.LiteralPrefixExample | su20/project/proj3-starter/test_runner.py:58-59 | `42` accepts `423` and rejects `4` |
| LogisimTests.WholeLineMatchCanFail | su20/project/proj3-starter/test_runner.py:59 | a match of the whole line fails when the pattern's length differs from the line's |
| LogisimTests.EmptyLineFailsLiteral | su20/project/proj3-starter/test_runner.py:53-59 | an exhausted student stream reads `""`, which fails any non-empty literal |
| LogisimTests.ReadLine | su20/project/proj3-starter/test_runner.py:53-54 | `readline` gives the next line, or `""` past the end |
| LogisimTests.StudentLine | su20/project/proj3-starter/test_runner.py:53 | the compared student line is a prefix of the line read that does not end in ASCII white space, and everything cut off is ASCII white space |
| LogisimTests.ReferenceLine | su20/project/proj3-starter/test_runner.py:54 | the compared reference line is a prefix of the line read that does not end in white space, and everything cut off is white space |
| LogisimTests.StudentLines | su20/project/proj3-starter/test_runner.py:53 | the student stream as compared: one line per line of the output, each without trailing ASCII white space |
| LogisimTests.ReferenceLines | su20/project/proj3-starter/test_runner.py:54 | the reference stream as compared: one line per line of the file, each without trailing white space |
| LogisimTests.StrippedLines | su20/project/proj3-starter/test_runner.py:53-54 | reading then stripping equals reading the stripped stream, past the end as well |
| LogisimTests.StopFromMeans | su20/project/proj3-starter/test_runner.py:52-56 | the loop stops at the first reference line that is empty after stripping |
| LogisimTests.FirstBadFromMeans | su20/project/proj3-starter/test_runner.py:58 | the first invalid pattern before the stop is located exactly |
| LogisimTests.Recorded | su20/project/proj3-starter/test_runner.py:57 | the recorded lines are the student lines read, in order |
| LogisimTests.RecordedSnoc | su20/project/proj3-starter/test_runner.py:57 | each iteration appends the line just read |
| LogisimTests.AllPairsPassStep | su20/project/proj3-starter/test_runner.py:58-60 | a failed pair clears the flag for good |
| LogisimTests.AllPairsPassMeans | su20/project/proj3-starter/test_runner.py:50-60 | the sticky flag holds exactly when every pair so far passed |
| LogisimTests.OutputTextSnoc | su20/project/proj3-starter/test_runner.py:61-63 | each recorded line is written and followed by `\n` |
| LogisimTests.OutputTextSplits | su20/project/proj3-starter/test_runner.py:61-63 | the output file splits back into exactly the recorded lines |
| LogisimTests.ScanFrom | su20/project/proj3-starter/test_runner.py:49-64 | the loop always reads at least one more line, only appends to the recorded lines, and never reports a pass once the flag has been cleared; `ScanFromMeans` and `CompareMeans` give its exact end |
| LogisimTests.ScanFromMeans | su20/project/proj3-starter/test_runner.py:49-64 | from any point before the stop and before an invalid pattern, the loop reaches the expected end |
| LogisimTests.CompareMeans | su20/project/proj3-starter/test_runner.py:49-64 | an invalid pattern before the stop raises, after recording its student line. Otherwise the result is True exactly when every pair before the stop passed, and the file holds those student lines. One more student line is consumed but not recorded |
| LogisimTests.ScanStep | su20/project/proj3-starter/test_runner.py:52-59 | a pair read before the stop is compared, and an invalid pattern there is the first one |
| LogisimTests.ScanStops | su20/project/proj3-starter/test_runner.py:52-56 | the loop ends at the stop |
| LogisimTests.CompareUnbounded | su20/project/proj3-starter/test_runner.py:49-64 | the loop's result, recorded lines and lines consumed are exactly what the specification of the scan gives, so `CompareMeans` applies |
| LogisimTests.WriteLines | su20/project/proj3-starter/test_runner.py:61-63 | the written text is every line followed by `\n` |
| LogisimTests.StripExample | su20/project/proj3-starter/test_runner.py:53-54 | the newline and the trailing space are stripped before comparison |
| LogisimTests.MismatchExample | su20/project/proj3-starter/test_runner.py:49-64 | expected 1, 2, 3 against actual 1, 9, 3 fails at the second pair, and all three lines are recorded |
| LogisimTests.CallVerdict | su20/project/proj3-starter/test_runner.py:44-47 | the verdict tuple is a pass exactly when the comparison passed, with the matching message; `Call` shows it is what `__call__` returns |
| LogisimTests.Call | su20/project/proj3-starter/test_runner.py:25-47 | `__call__` raises when the reference cannot be opened or a pattern is invalid, and otherwise returns the verdict tuple of the comparison |
| LogisimTests.OutputSlug | su20/project/proj3-starter/test_runner.py:67-69 | the output slug is the slug, with `-<output_type>` appended when the output type is non-empty; `RunTestPathsDistinct` shows the paths built from it never collide |
| LogisimTests.RunTestPaths | su20/project/proj3-starter/test_runner.py:66-72 | the circuit, reference and student paths as `run_test` joins them; `RunTestPathsDistinct` shows the student output never lands on the reference file |
| LogisimTests.RunTestPathsDistinct | su20/project/proj3-starter/test_runner.py:71-72 | the student output never overwrites the reference file |
| LogisimTests.CircSlug | su20/project/proj3-starter/test_runner.py:108-110 | a name matching `^(.+)\.circ$` gives a non-empty slug with no newline, and the name is that slug with `.circ` (and possibly one final newline) |
| LogisimTests.CircSlugOfCircuit | su20/project/proj3-starter/test_runner.py:107-111 | every circuit name gives back its slug |
| LogisimTests.CircSlugRejects | su20/project/proj3-starter/test_runner.py:107-111 | a bare `.circ`, or a name without the suffix, is not a test |
| LogisimTests.TestsOf | su20/project/proj3-starter/test_runner.py:108-111 | one file name gives at most one test |
| LogisimTests.SlugTests | su20/project/proj3-starter/test_runner.py:107-111 | a listing gives at most one test per file |
| LogisimTests.SlugTestsSnoc | su20/project/proj3-starter/test_runner.py:107-111 | one more file adds its own test, if it has one |
| LogisimTests.SlugTestsFromCircuits | su20/project/proj3-starter/test_runner.py:107-111 | every test found comes from a `.circ` file of the listing and is described as `<slug> test` |
| LogisimTests.GroupFiles | su20/project/proj3-starter/test_runner.py:98-105 | the whole listing is used, or only the named test, which must be a file with a circuit name |
| LogisimTests.CollectTests | su20/project/proj3-starter/test_runner.py:107-111 | the tests of the sorted listing, in order |
| LogisimTests.CollectSorted | su20/project/proj3-starter/test_runner.py:107-111 | the collection loop keeps the matching names in order |
| LogisimTests.CollectStep | su20/project/proj3-starter/test_runner.py:107-111 | a matching name appends its test |
| LogisimTests.ReportOf | su20/project/proj3-starter/test_runner.py:121-134 | a test counts as passed exactly when its call returned a pass; an exception leaves `False, "Unknown test error"` |
| LogisimTests.CountPassing | su20/project/proj3-starter/test_runner.py:129-131 | no more tests pass than were reported |
| LogisimTests.CountPassingSnoc | su20/project/proj3-starter/test_runner.py:129-131 | one more report adds one to the count exactly when it passed |
| LogisimTests.Reports | su20/project/proj3-starter/test_runner.py:121-134 | one report per test |
| LogisimTests.ReportsSnoc | su20/project/proj3-starter/test_runner.py:121-134 | each iteration appends the current test's report |
| LogisimTests.ReportsPointwise | su20/project/proj3-starter/test_runner.py:121-134 | the k-th report is that of the k-th test, run with no output type |
| LogisimTests.TallyMeans | su20/project/proj3-starter/test_runner.py:118-134 | each test is reported once, in order; `tests_passed` counts the passes and `tests_passed + tests_failed` is the number of tests |
| LogisimTests.Tally | su20/project/proj3-starter/test_runner.py:118-134 | a group's totals over its reports; `TallyMeans` shows the pass count is the number of passing reports and the two counts add up to the number of tests |
| LogisimTests.TallyGroup | su20/project/proj3-starter/test_runner.py:118-134 | the tally loop's counters and reports are those of `Tally` |
| LogisimTests.Visible | su20/project/proj3-starter/test_runner.py:95 | the valid-group hint lists no name starting with `.` |
| LogisimTests.VisibleMembers | su20/project/proj3-starter/test_runner.py:95 | the hint lists exactly the names of the part directory that do not start with `.` |
| LogisimTests.PlanGroup | su20/project/proj3-starter/test_runner.py:91-113 | a group that is not a directory always raises, and a directory raises only when a named test is asked for; `PlanGroupForms` states every form exactly |
| LogisimTests.PlanGroupForms | su20/project/proj3-starter/test_runner.py:91-113 | a missing group raises with the list of valid groups. Otherwise the group has every circuit of its directory in sorted order, or only the named circuit, which must be a file with a circuit name |
| LogisimTests.Plans | su20/project/proj3-starter/test_runner.py:88-113 | a successful collection has one test list per group |
| LogisimTests.PlansErrPersists | su20/project/proj3-starter/test_runner.py:94-104 | once one group raises, the collection raises that error |
| LogisimTests.PlansMeans | su20/project/proj3-starter/test_runner.py:88-113 | the collection succeeds with each group's tests in place, or raises the error of the first group that raises |
| LogisimTests.PlanGroups | su20/project/proj3-starter/test_runner.py:88-113 | the collection loop's result is `Plans` |
| LogisimTests.RunTests | su20/project/proj3-starter/test_runner.py:85-138 | a collection error ends the run before any test runs; otherwise every group is tallied in order |
| LogisimTests.Tallies | su20/project/proj3-starter/test_runner.py:114-138 | one tally per group |
| LogisimTests.TalliesSnoc | su20/project/proj3-starter/test_runner.py:114-138 | each group appends its own tally |
| LogisimTests.TalliesPointwise | su20/project/proj3-starter/test_runner.py:114-138 | the i-th tally is that of the i-th group |
| LogisimTests.TallyAll | su20/project/proj3-starter/test_runner.py:114-138 | the tally phase's result is `Tallies` |
| CustomTests.Basename | su20/project/proj3-starter/tests/part_b/custom/create-test.py:21 | `basename` is the longest suffix without `/` |
| CustomTests.AsmSlug | su20/project/proj3-starter/tests/part_b/custom/create-test.py:23-28 | only names ending in `.s` give a slug, and the slug followed by `.s` is the name |
| CustomTests.CollapseNewlines | su20/project/proj3-starter/tests/part_b/custom/create-test.py:64 | the cleanup never lengthens the text and keeps its first character |
| CustomTests.CollapseHasNoBlankLines | su20/project/proj3-starter/tests/part_b/custom/create-test.py:64 | the cleaned trace holds no `\n\n` |
| CustomTests.CollapseKeepsClean | su20/project/proj3-starter/tests/part_b/custom/create-test.py:64 | a text without `\n\n` is left unchanged |
| CustomTests.CollapseIdempotent | su20/project/proj3-starter/tests/part_b/custom/create-test.py:64 | cleaning twice is the same as cleaning once |
| CustomTests.CollapseKeepsText | su20/project/proj3-starter/tests/part_b/custom/create-test.py:64 | the cleanup removes only newlines, and the cleaned text holds a newline exactly when the original does |
| CustomTests.CycleCount | su20/project/proj3-starter/tests/part_b/custom/create-test.py:65-66 | with the default `-1`, the count is the number of newlines in the stripped trace plus one, hence at least 1; otherwise it is the given count. `TraceCycles` shows a k-line trace counts k cycles |
| CustomTests.CountJoin | su20/project/proj3-starter/tests/part_b/custom/create-test.py:66 | k newline-free lines joined by `\n` hold k - 1 newlines |
| CustomTests.CountAppend | su20/project/proj3-starter/tests/part_b/custom/create-test.py:66 | `count` adds over concatenation |
| CustomTests.JoinEnd | su20/project/proj3-starter/tests/part_b/custom/create-test.py:66 | a join ends with the last character of its last line |
| CustomTests.TraceCycles | su20/project/proj3-starter/tests/part_b/custom/create-test.py:65-66 | a k-line trace whose ends are not white space counts k cycles |
| CustomTests.ReferenceCommandArgs | su20/project/proj3-starter/tests/part_b/custom/create-test.py:41-44 | the reference command is the fixed Venus invocation; `-tn` and the count plus one are appended exactly when a count above -1 is given |
| CustomTests.ReferenceCommand | su20/project/proj3-starter/tests/part_b/custom/create-test.py:41-44 | the reference run launches Venus as a jar on the assembly file, and carries the two extra `-tn` arguments exactly when a count above -1 is given; `CycleFlagRoundTrip` reads the count back |
| CustomTests.CycleFlagRoundTrip | su20/project/proj3-starter/tests/part_b/custom/create-test.py:42-44 | the `-tn` argument reads back as the count plus one |
| CustomTests.MachineCodeCommand | su20/project/proj3-starter/tests/part_b/custom/create-test.py:78 | the machine-code run launches Venus as a jar with `-d` on the assembly file |
| CustomTests.StripHexPrefix | su20/project/proj3-starter/tests/part_b/custom/create-test.py:109-110 | one leading `0x` is removed if present, and nothing else changes |
| CustomTests.StripAll | su20/project/proj3-starter/tests/part_b/custom/create-test.py:107-110 | every word loses its own prefix, in order |
| CustomTests.JoinSnoc | su20/project/proj3-starter/tests/part_b/custom/create-test.py:111 | appending a word extends the join by the separator and the word |
| CustomTests.SpacedIsJoin | su20/project/proj3-starter/tests/part_b/custom/create-test.py:106-112 | the accumulated text is the space-join plus one trailing space |
| CustomTests.Spaced | su20/project/proj3-starter/tests/part_b/custom/create-test.py:106-111 | the text the loop accumulates, each word followed by one space; `SpacedIsJoin` shows it is the space-join plus one trailing space, and `RomText` builds the ROM line from it |
| CustomTests.RomText | su20/project/proj3-starter/tests/part_b/custom/create-test.py:106-112 | the ROM line is the stripped words joined by single spaces and ending in `\n` (just `\n` for no words) |
| CustomTests.RomWordsRoundTrip | su20/project/proj3-starter/tests/part_b/custom/create-test.py:106-112 | splitting the ROM line on spaces gives back the stripped words |
| CustomTests.Instructions | su20/project/proj3-starter/tests/part_b/custom/create-test.py:97 | the machine-code dump gives at least one word |
| CustomTests.AsmOutcome | su20/project/proj3-starter/tests/part_b/custom/create-test.py:39-74 | a `.s` file is never reported as a bad extension and keeps its test slug |
| CustomTests.TraceOutcome | su20/project/proj3-starter/tests/part_b/custom/create-test.py:76-127 | a test is created exactly when the machine-code run succeeds, with the cleaned trace as its reference |
| CustomTests.FileOutcomeOf | su20/project/proj3-starter/tests/part_b/custom/create-test.py:20-133 | a file is skipped for its extension exactly when its name does not end in `.s`; otherwise its test is named `cpu-` and the name without `.s` |
| CustomTests.BadExtensionMessage | su20/project/proj3-starter/tests/part_b/custom/create-test.py:21-25 | a skipped file reports "Invalid assembly file: <name> (file extension mismatch)" |
| CustomTests.OutcomeNaming | su20/project/proj3-starter/tests/part_b/custom/create-test.py:21-29 | only `.s` files are processed, and the test slug is `cpu-` followed by the name without `.s` |
| CustomTests.CreatedTestConsistent | su20/project/proj3-starter/tests/part_b/custom/create-test.py:64-122 | a created test's trace has no blank line, its ROM starts with `addr/data: 14 32\n`, its constant is `hex(cycles)` and reads back as the count, and a default count is positive |
| CustomTests.FailedRunSkipsFile | su20/project/proj3-starter/tests/part_b/custom/create-test.py:45-101 | a non-zero return code, an `[ERROR]` in the output or an exception in either Venus run produces no test |
| CustomTests.ToolFailed | su20/project/proj3-starter/tests/part_b/custom/create-test.py:51 | a Venus run (this line, and line 85 for the machine-code run) counts as failed when it raised, returned non-zero, or printed `[ERROR]`; `FailedRunSkipsFile` states that such a run makes no test |
| CustomTests.Outcomes | su20/project/proj3-starter/tests/part_b/custom/create-test.py:20-133 | one outcome per path, and each path's outcome is that of the file alone, so no file affects another |
| CustomTests.OutcomesSnoc | su20/project/proj3-starter/tests/part_b/custom/create-test.py:20-133 | each iteration appends its file's outcome |
| CustomTests.CreateTests | su20/project/proj3-starter/tests/part_b/custom/create-test.py:17-133 | `main` gives every path's outcome, in order |
| CustomTests.ProcessFile | su20/project/proj3-starter/tests/part_b/custom/create-test.py:20-37 | one loop iteration gives that file's outcome |
| CustomTests.ProcessAsm | su20/project/proj3-starter/tests/part_b/custom/create-test.py:39-74 | the reference run, the cleanup and the cycle count give the file's outcome |
| CustomTests.ProcessDump | su20/project/proj3-starter/tests/part_b/custom/create-test.py:76-133 | the machine-code run and the circuit strings give the file's outcome |
| BinaryToHex.RemoveUnderscores | fa20/project/proj3-starter/tests/part_a/regfile/binary_to_hex_regfile.py:12 | removing underscores from bits and underscores leaves only bits |
| BinaryToHex.Unsigned | fa20/project/proj3-starter/tests/part_a/regfile/binary_to_hex_regfile.py:12 | `int` drops one leading sign |
| BinaryToHex.BinaryDigits | fa20/project/proj3-starter/tests/part_a/regfile/binary_to_hex_regfile.py:12 | without a `0b`/`0B` prefix the digits are the whole token |
| BinaryToHex.ParseBinary | fa20/project/proj3-starter/tests/part_a/regfile/binary_to_hex_regfile.py:12 | `int(s, 2)` succeeds only on a token ending in a bit, and gives a negative value only after a leading `-`; `ParseBits` and the examples give the value |
| BinaryToHex.ParseBits | fa20/project/proj3-starter/tests/part_a/regfile/binary_to_hex_regfile.py:12 | `int(s, 2)` of plain bits is their binary value |
| BinaryToHex.ParsePrefixedExample | fa20/project/proj3-starter/tests/part_a/regfile/binary_to_hex_regfile.py:12 | `int("0b101", 2)` is 5 |
| BinaryToHex.ParseSignedExample | fa20/project/proj3-starter/tests/part_a/regfile/binary_to_hex_regfile.py:12 | `int("-0b10", 2)` is -2 |
| BinaryToHex.ParseUnderscoreExample | fa20/project/proj3-starter/tests/part_a/regfile/binary_to_hex_regfile.py:12 | `int("1_1", 2)` is 3 |
| BinaryToHex.ParseRejectExamples | fa20/project/proj3-starter/tests/part_a/regfile/binary_to_hex_regfile.py:11-14 | `0b`, `1__0` and `2` are rejected, so they map to `x` |
| BinaryToHex.Mapper | fa20/project/proj3-starter/tests/part_a/regfile/binary_to_hex_regfile.py:10-14 | `mapper` gives a non-empty token without tabs, and gives `x` exactly when `int(s, 2)` fails |
| BinaryToHex.HexText | fa20/project/proj3-starter/tests/part_a/regfile/binary_to_hex_regfile.py:12 | `hex(v)[2:]` is the digits, or `x` and the digits for a negative value, and is never `x` alone |
| BinaryToHex.PyHexTail | fa20/project/proj3-starter/tests/part_a/regfile/binary_to_hex_regfile.py:12 | cutting the first two characters of `hex(v)` leaves the digits, or `x` and the digits for a negative value |
| BinaryToHex.HexDigitsNoTab | fa20/project/proj3-starter/tests/part_a/regfile/binary_to_hex_regfile.py:38 | hex digits hold no tab |
| BinaryToHex.MapperOfBits | fa20/project/proj3-starter/tests/part_a/regfile/binary_to_hex_regfile.py:12 | a run of bits maps to the hex digits of its value, which read back as that value |
| BinaryToHex.NibbleIsOneDigit | fa20/project/proj3-starter/tests/part_a/regfile/binary_to_hex_regfile.py:12 | a 4-bit group maps to exactly one lower-case hex digit |
| BinaryToHex.HexTokens | fa20/project/proj3-starter/tests/part_a/regfile/binary_to_hex_regfile.py:17 | one mapped token per white-space-separated token, in order |
| BinaryToHex.MapAll | fa20/project/proj3-starter/tests/part_a/alu/binary_to_hex_alu.py:17 | `map(mapper, …)` maps each token in place |
| BinaryToHex.ConcatNoTab | fa20/project/proj3-starter/tests/part_a/regfile/binary_to_hex_regfile.py:18 | joining tab-free tokens gives a tab-free field |
| BinaryToHex.FieldsNoTab | fa20/project/proj3-starter/tests/part_a/regfile/binary_to_hex_regfile.py:18-33 | no field of mapped tokens holds a tab, for any slice |
| BinaryToHex.Fields | fa20/project/proj3-starter/tests/part_a/regfile/binary_to_hex_regfile.py:18-34 | one field per range, each the join of its token slice |
| BinaryToHex.FieldsHaveNoTabs | fa20/project/proj3-starter/tests/part_a/alu/binary_to_hex_alu.py:23-27 | a row of fields holds no tab, so tabs separate its fields unambiguously |
| BinaryToHex.FieldsIgnoreRest | fa20/project/proj3-starter/tests/part_a/regfile/binary_to_hex_regfile.py:18-33 | fields whose slices end by token n depend only on the first n tokens |
| BinaryToHex.ConcatAppend | fa20/project/proj3-starter/tests/part_a/regfile/binary_to_hex_regfile.py:18 | `''.join` distributes over concatenation |
| BinaryToHex.FieldsAdjoin | fa20/project/proj3-starter/tests/part_a/regfile/binary_to_hex_regfile.py:18-33 | adjacent slices join into the slice over their union |
| BinaryToHex.FieldOfPrefix | fa20/project/proj3-starter/tests/part_a/regfile/binary_to_hex_regfile.py:18-33 | a field only looks at tokens below its upper bound |
| BinaryToHex.RowRoundTrip | fa20/project/proj3-starter/tests/part_a/regfile/binary_to_hex_regfile.py:38 | a tab-joined row splits back into its fields |
| BinaryToHex.Convert | fa20/project/proj3-starter/tests/part_a/regfile/binary_to_hex_regfile.py:15-39 | the output is the header followed by one tab-joined row per input line, in input order |
| AluTrace.AluRow | fa20/project/proj3-starter/tests/part_a/alu/binary_to_hex_alu.py:17-24 | the row has 5 fields: op [0:2], aluSel [10:11], inputA [11:19], inputB [19:27], aluOutput [2:10], in that order |
| AluTrace.AluRowSplits | fa20/project/proj3-starter/tests/part_a/alu/binary_to_hex_alu.py:23-28 | a printed row splits into exactly its 5 fields |
| AluTrace.AluRowTiles | fa20/project/proj3-starter/tests/part_a/alu/binary_to_hex_alu.py:18-22 | put back in token order, the fields concatenate to exactly the mapped tokens 0 to 26 |
| AluTrace.AluRowIgnoresRest | fa20/project/proj3-starter/tests/part_a/alu/binary_to_hex_alu.py:18-22 | tokens after index 26 never change the row |
| AluTrace.ConvertTrace | fa20/project/proj3-starter/tests/part_a/alu/binary_to_hex_alu.py:15-28 | the header, then one row per input line in order, each splitting into that line's 5 fields |
| RegfileTrace.RegfileRow | fa20/project/proj3-starter/tests/part_a/regfile/binary_to_hex_regfile.py:17-35 | the row has 16 fields: op, rd, rs1, rs2, regWEn, writeData, ra, sp, t0, t1, t2, s0, s1, a0, readData1, readData2, each from its fixed slice |
| RegfileTrace.RegfileRowSplits | fa20/project/proj3-starter/tests/part_a/regfile/binary_to_hex_regfile.py:34-39 | a printed row splits into exactly its 16 fields, whatever the number of tokens |
| RegfileTrace.RegfileRowTiles | fa20/project/proj3-starter/tests/part_a/regfile/binary_to_hex_regfile.py:18-34 | put back in token order, the fields concatenate to exactly the mapped tokens 0 to 96 |
| RegfileTrace.RangesTile | fa20/project/proj3-starter/tests/part_a/regfile/binary_to_hex_regfile.py:18-33 | the 16 slices, in token order, are adjacent and span tokens 0 to 96 |
| RegfileTrace.RegfileRowIgnoresRest | fa20/project/proj3-starter/tests/part_a/regfile/binary_to_hex_regfile.py:18-33 | tokens after index 96 never change the row |
| RegfileTrace.ConvertTrace | fa20/project/proj3-starter/tests/part_a/regfile/binary_to_hex_regfile.py:15-39 | the header, then one row per input line in order, each splitting into that line's 16 fields |
| Numc.AsDouble | fa20/project/proj4-starter/numc.c:46 | `PyFloat_AsDouble` gives a float's value, an int's or bool's value, or -1.0 for anything else; `InitExamples` and `PendingMeansNonNumber` show what the -1.0 comes with |
| Numc.Doubles | fa20/project/proj4-starter/numc.c:44-49 | each item converted in place |
| Numc.FilledStatus | fa20/project/proj4-starter/numc.c:43-52 | filling from a list succeeds exactly when every item is a number, and otherwise leaves an error pending |
| Numc.RowMajorIndex | fa20/project/proj4-starter/numc.c:43-49 | position (i, j) in row-major order lies inside the buffer, and so does the end of row i |
| Numc.Cell | fa20/project/proj4-starter/numc.c:43-49 | element (i, j) is at `i*cols + j`, inside the matrix |
| Numc.RowStart | fa20/project/proj4-starter/numc.c:245 | row i starts at `i*cols`, and the whole row lies inside the matrix |
| Numc.Row | fa20/project/proj4-starter/numc.c:244-251 | row i holds the elements `i*cols + j` for j below `cols` |
| Numc.Matrix.Allocate | fa20/project/proj4-starter/numc.c:40-42 | allocation gives a fresh buffer of `rows * cols` elements |
| Numc.Matrix.Ref | fa20/project/proj4-starter/numc.c:245 | a reference view shares its parent's buffer at an offset |
| Numc.Matrix.Get | fa20/project/proj4-starter/numc.c:242 | `get` reads element (i, j) in row-major order |
| Numc.Matrix.Set | fa20/project/proj4-starter/numc.c:46 | `set` writes element (i, j) and no other |
| Numc.Matrix.Fill | fa20/project/proj4-starter/numc.c:26 | `fill_matrix` sets every element to the value and touches nothing outside the matrix |
| Numc.Bound | fa20/project/proj4-starter/numc.c:120-139 | `low`/`high` take a float or int value when given, and the default otherwise; `KeywordDefaults` gives the bounds 0 and 1 |
| Numc.PositionalForms | fa20/project/proj4-starter/numc.c:157-184 | `(int, int, int\|float)` and `(int, int)` fill, with 0 for the second; `(int, int, list)` goes to `init_1d`; `(list)` goes to `init_2d`; nothing else is accepted |
| Numc.KeywordForms | fa20/project/proj4-starter/numc.c:105-156 | with keywords, only a random matrix can be made: `rand` must be exactly `True`, `low < high`, and there must be two int arguments |
| Numc.KeywordDefaults | fa20/project/proj4-starter/numc.c:120-123 | without `low` and `high`, the bounds are 0 and 1 |
| Numc.Dispatch | fa20/project/proj4-starter/numc.c:103-158 | without keywords the positional forms decide; with keywords the only outcome besides rejection is a random matrix, which needs `low < high` and exactly two int arguments as its shape |
| Numc.Positional | fa20/project/proj4-starter/numc.c:157-184 | the positional forms never make a random matrix, accept only one to three arguments, and a fill or 1-D form takes its shape from two int arguments |
| Numc.PlannedStatus | fa20/project/proj4-starter/numc.c:103-185 | "Invalid arguments" is raised exactly for rejected arguments; the initialiser builds a matrix only for a random, fill or 1-D form, or a rectangular 2-D list |
| Numc.PlannedShape | fa20/project/proj4-starter/numc.c:8-87 | each initialiser's final `shape` assignment (lines 15, 28, 51 and 85): a built matrix has the shape `(rows, cols)` of its arguments, or for a list of lists its length and its first row's length; both are at least one, and for the forms with given values they account for exactly the planned contents |
| Numc.PendingMeansNonNumber | fa20/project/proj4-starter/numc.c:46 | an initialiser leaves an error pending only for a 1-D or 2-D list that holds an item that is not a number |
| Numc.InitExamples | fa20/project/proj4-starter/numc.c:34-53 | `Matrix(2, 3)` succeeds; `Matrix(1, 2, [1, <not a number>])` builds the matrix `[1.0, -1.0]` and leaves an error pending |
| Numc.FlattenRowMajor | fa20/project/proj4-starter/numc.c:79-83 | flattening puts item (i, j) at `i*cols + j` |
| Numc.TwoDimensionalIsOneDimensional | fa20/project/proj4-starter/numc.c:56-87 | a rectangular 2-D list gives the same matrix as its flattening passed to `init_1d` |
| Numc.Rectangular | fa20/project/proj4-starter/numc.c:63-74 | the 2-D shape rule: a non-empty list whose first item, and every item, is a list as long as the first; `Init2D` rejects exactly the lists that break it and `TwoDimensionalIsOneDimensional` relates the lists that keep it to the 1-D form |
| Numc.Matrix61c.New | fa20/project/proj4-starter/numc.c:96-100 | a new object has no matrix |
| Numc.Matrix61c.InitFill | fa20/project/proj4-starter/numc.c:20-31 | a shape with a dimension below 1 fails allocation and changes nothing; otherwise the matrix has that shape and every element is the value |
| Numc.Matrix61c.InitRand | fa20/project/proj4-starter/numc.c:8-17 | the same allocation rule; element k is the k-th random value |
| Numc.Matrix61c.Init1D | fa20/project/proj4-starter/numc.c:34-53 | a length other than `rows*cols` raises "Incorrect number of elements in list" before allocating; otherwise element (i, j) is item `i*cols + j`, and the status is success exactly when every item is a number, an error pending otherwise |
| Numc.Matrix61c.Init2D | fa20/project/proj4-starter/numc.c:56-87 | an empty list, a non-list first item, and any non-list or wrong-length row are rejected, and empty rows fail allocation; each failure leaves the object unchanged. Otherwise the shape is `(len(lst), len(lst[0]))`, with (i, j) equal to `lst[i][j]`, and the status is success exactly when every item is a number, an error pending otherwise |
| Numc.FillRow | fa20/project/proj4-starter/numc.c:79-83 | one pass of `init_2d`'s inner loop writes row i as the doubles of its items and changes no other row; it reports whether every item was a number |
| Numc.Matrix61c.Init | fa20/project/proj4-starter/numc.c:103-185 | the status is the one `PlannedStatus` gives for the dispatched form. A failure leaves the object unchanged; a built matrix is valid, has the shape `PlannedShape` gives (`(2, 3)` for `Matrix(2, 3)`), and, except for the random form, holds the planned contents |
| Numc.Matrix61c.Subscript | fa20/project/proj4-starter/numc.c:231-253 | a non-int key raises TypeError, and an index outside `[0, rows)` raises IndexError. A 1-column matrix gives the scalar at (index, 0); otherwise the result is a `(cols, 1)` view of row `index`, sharing the buffer |
| Numc.Matrix61c.SetSubscript | fa20/project/proj4-starter/numc.c:256-290 | the same key checks, with the data unchanged on error. A 1-column matrix takes one number. Otherwise the list items are written left to right, and the write stops at the first non-number after the earlier ones are written |
| Numc.Matrix61c.SetRow | fa20/project/proj4-starter/numc.c:276-287 | the row holds the leading numeric items up to `cols`; it ends in success, in "Value is not valid", or in a crash when the list is shorter than the row |
| Numc.NumericPrefix | fa20/project/proj4-starter/numc.c:280-286 | the leading items up to `cols` that are numbers, stopping at the first non-number |
| Numc.NumericPrefixStops | fa20/project/proj4-starter/numc.c:280-286 | the write stops at the first non-number or at the end of the list |
| Numc.NumericPrefixGrows | fa20/project/proj4-starter/numc.c:280-286 | a number extends the written prefix |
| Numc.WriteRow | fa20/project/proj4-starter/numc.c:280-286 | writing k items changes exactly those k positions, to the items' values |
| Numc.WriteRowSnoc | fa20/project/proj4-starter/numc.c:285 | each iteration writes one more item |
| Numc.SetRowReplacesRow | fa20/project/proj4-starter/numc.c:280-287 | a successful row write replaces exactly that row |
| Numc.SetSubscriptNotAtomic | fa20/project/proj4-starter/numc.c:280-286 | `[x, <not a number>]` writes x and then fails: the update is not atomic |
| Numc.SetOutcome | fa20/project/proj4-starter/numc.c:280-289 | the end of a row write: success once `cols` numbers are written, "Value is not valid" at a non-number inside the list, a crash past its end; `SetRow`, `SetSubscript` and `SetSubscriptNotAtomic` state it for each case |
| Numc.ContentsFromCells | fa20/project/proj4-starter/numc.c:79-85 | contents that agree at every (i, j) are equal |
| HashTables.ChainFind | fa20/project/proj1-starter/hashtable.h:55-59 | the lookup finds nothing exactly when no key in the chain is equal to the key; otherwise it returns the data stored under an equal key |
| HashTables.InBucket | fa20/project/proj1-starter/hashtable.h:24-35 | a bucket holds only inserted entries whose key hashes to it |
| HashTables.HashTable.Create | fa20/project/proj1-starter/hashtable.h:37-43 | a new table holds `size` empty chains and the two functions |
| HashTables.HashTable.InsertData | fa20/project/proj1-starter/hashtable.h:45-53 | the pair is placed at the head of its key's chain; every other chain is unchanged |
| HashTables.HashTable.FindData | fa20/project/proj1-starter/hashtable.h:55-59 | `findData` walks the key's chain to the first equal key. With a hash that agrees with equality, that is the newest equal insertion, or NULL if there is none |
| HashTables.LookupIsNewest | fa20/project/proj1-starter/hashtable.h:45-59 | with a consistent hash, the table finds what a search of the whole insertion history finds |
| HashTables.BucketKeepsEqualKeys | fa20/project/proj1-starter/hashtable.h:24-35 | with a hash that agrees with equality, searching a key's bucket finds what searching the whole insertion history finds |
| HashTables.FindAfterInsert | su20/project/proj1-starter/hashtable.h:41-55 | after `insertData(k, d)`, a key equal to k finds d |
| HashTables.InsertKeepsOtherKeys | fa20/project/proj1-starter/hashtable.h:45-59 | inserting under k leaves what every key not equal to k finds unchanged |
| HashTables.Keys | su20/project/proj1-starter/hashtable.h:41-49 | the keys of the insertion history are exactly those inserted |
| HashTables.SetMembership | su20/project/proj1-starter/hashtable.h:45-55 | in set use (key == data, equality is identity), a word is found, as itself, exactly when it was inserted |
| HashTables.TableSetMembership | fa20/project/proj1-starter/hashtable.h:46-59 | a table filled in set use finds exactly the inserted words |

## Left out

- Process launches, timeouts, `p.kill()`, `os.kill(…, SIGTERM)` and the Java tools: a run's outcome is an input of the model (`ProcessOutcome`, `CallResult`, `ToolRun`).
- Concurrent reading of stdout and stderr: not modelled.
- `load_tests` and JSON loading in `runner.py`: a test record reaches the model as its fields. `LoadTest` and `Resolve` model the keyword defaults. Bad JSON files and the directory walk are left out.
- All printed text: banners, hex dumps, `print_end`, mismatch listings and the running totals. The `printf` parameter of `TestCase` is not modelled. Diagnostics are values (`Mismatches`, `CompareOutcome`, `TestReport`) rather than output.
- The file system:
  - a comparison reads a map from regular-file paths to bytes;
  - the Logisim output file is its text, `OutputText`;
  - temporary files, `/dev/null`, `error.log` and the rewriting of the reference output file are left out.
- The regular-expression engine: patterns go through an abstract `Matcher`, plus a literal matcher for examples. The slug pattern `^(.+)\.circ$` is written out in `CircSlug`.
- The `"namereplace"` decoding of student bytes: student lines are already-decoded strings, stripped of ASCII white space.
- Part and group discovery in `run_tests`: the sorted part and group listings (test_runner.py:87-90) reach `RunTests` as its list of groups, in order. `argparse` is left out.
- VenusTests.RunSelected: test ids are strings. A JSON test file may give another kind of id, such as an integer. Such an id is never equal to a command-line argument, so with arguments given that test is always skipped; and a mix of string and integer ids makes `sorted` raise TypeError before any test runs. Neither case is modelled.
- LogisimTests.Call: assumes the student output file can be created. When the `student_output/` directory is missing, `open(filename, "w")` at test_runner.py:61 raises; `run_tests` then counts the test as failed with "Unknown test error". The model always returns the verdict.
- `run_tests` always calls `run_test` without an output type, because every discovered test is a pair. `OutputSlug` still models the general case.
- In `create-test.py`, XML parsing and writing of the circuit are left out; only the string values written into it are modelled (ROM contents, constant value, library description). An exception while writing the circuit, after both Venus runs succeed, is left out.
- BinaryToHex.Mapper: accepts only ASCII `0` and `1` as bits. Python's `int` also accepts other Unicode decimal digits of value 0 or 1, and white space around the token, which `split()` never leaves.
- The CPython object API, reference counting, the shape tuple, `to_list`, `repr`, `dealloc`, module tables and the unimplemented number methods of `numc.c`.
- Doubles are modelled as `real`, with no rounding. `PyLong_AsLong` into `int`, and `rows * cols` in C `int`, are unbounded here, so the model omits 32-bit truncation and overflow.
- `matrix.c` is not part of this model. `allocate_matrix` is assumed to fail exactly when a dimension is below 1, and to give a zeroed buffer otherwise. `fill_matrix`, `get` and `set` are modelled as their headers describe them. `rand_matrix`'s values are a parameter.
- Numc.Matrix61c.Subscript: assumes that `allocate_matrix_ref` succeeds for a row view; the `ref_failed` branch is not modelled.
- Numc.AsDouble: a value that is not an int, float or bool is taken to have no `__float__` or `__index__` method, so it converts to -1.0 with a TypeError pending. Objects that define those methods are not modelled.
- Numc.Matrix61c.Init: for the random form, states the status, the shape and a valid matrix but not the values; `Numc.Matrix61c.InitRand` states them in terms of the random source.
- `hashtable.c` is not part of this model. The table is modelled as the header's chained design, with bucket `hash % size`, insertion at the head of the chain and a lookup that walks the chain. Chains are sequences rather than linked `HashBucket` nodes, so node aliasing and memory allocation failure are not modelled. NULL is `None`, so storing a NULL data pointer is not distinguished from a miss.
- HashTables.HashTable.Create: requires `size >= 1`, because `hash % size` is undefined for 0.
- HashTables.HashTable.FindData: relates the result to the insertion history only for a hash function that maps equal keys to the same bucket, which is the header's implicit requirement on its callers.
