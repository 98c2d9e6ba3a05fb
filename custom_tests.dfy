/** The custom CPU test generator: for each RISC-V assembly file it asks Venus for
    a reference trace and for machine code, cleans the trace, counts its cycles,
    and fills the ROM and cycle-count constant of a copy of the test harness
    circuit. */
module CustomTests {
  import opened Strings
  import opened Numerals

  const ASM_FILE_EXTENSION := ".s"
  const VENUS_TRACE_PATTERN := "%1%\t%2%\t%5%\t%6%\t%7%\t%8%\t%9%\t%10%\t%pc%\t%inst%\t%line%\n"
  const ROM_HEADER := "addr/data: 14 32\n"
  const CPU_LIBRARY_DESC := "file#../../../cpu.circ"

  /** `os.path.basename`: what follows the last `/`. */
  function Basename(p: string): (r: string)
    ensures '/' !in r
    ensures |r| <= |p| && p[|p| - |r|..] == r
    ensures |r| < |p| ==> p[|p| - |r| - 1] == '/'
  {
    if p == [] || p[|p| - 1] == '/' then [] else Basename(p[..|p| - 1]) + [p[|p| - 1]]
  }

  predicate EndsWith(s: string, suffix: string) {
    |suffix| <= |s| && s[|s| - |suffix|..] == suffix
  }

  /** The input slug: the file name without `.s`, when it has that extension. */
  function AsmSlug(name: string): (r: Option<string>)
    ensures r.Some? <==> EndsWith(name, ASM_FILE_EXTENSION)
    ensures r.Some? ==> r.value + ASM_FILE_EXTENSION == name
  {
    if EndsWith(name, ASM_FILE_EXTENSION) then
      assert name == name[..|name| - 2] + name[|name| - 2..];
      Some(name[..|name| - 2])
    else None
  }

  function TestSlug(inputSlug: string): string {
    "cpu-" + inputSlug
  }

  /** `re.sub("\n\n+", "\n", s)`: every run of two or more newlines becomes one. */
  function CollapseNewlines(s: string): (r: string)
    ensures |r| <= |s|
    ensures r != [] ==> s != [] && r[0] == s[0]
  {
    if s == [] then []
    else if |s| >= 2 && s[0] == '\n' && s[1] == '\n' then CollapseNewlines(s[1..])
    else [s[0]] + CollapseNewlines(s[1..])
  }

  /** No two newlines are adjacent. */
  predicate NoBlankLines(s: string) {
    forall i :: 0 <= i < |s| - 1 ==> !(s[i] == '\n' && s[i + 1] == '\n')
  }

  /** The cleaned trace has no blank line. */
  lemma {:induction false} CollapseHasNoBlankLines(s: string)
    ensures NoBlankLines(CollapseNewlines(s))
  {
    if s != [] {
      CollapseHasNoBlankLines(s[1..]);
      var r := CollapseNewlines(s);
      var t := CollapseNewlines(s[1..]);
      if !(|s| >= 2 && s[0] == '\n' && s[1] == '\n') {
        assert r == [s[0]] + t;
        forall i | 0 <= i < |r| - 1
          ensures !(r[i] == '\n' && r[i + 1] == '\n')
        {
          if i > 0 {
            assert r[i] == t[i - 1] && r[i + 1] == t[i];
          } else if s[0] == '\n' {
            assert t[0] == s[1];
          }
        }
      }
    }
  }

  /** A text without blank lines is left as it is. */
  lemma {:induction false} CollapseKeepsClean(s: string)
    requires NoBlankLines(s)
    ensures CollapseNewlines(s) == s
  {
    if s != [] {
      assert NoBlankLines(s[1..]) by {
        forall i | 0 <= i < |s[1..]| - 1
          ensures !(s[1..][i] == '\n' && s[1..][i + 1] == '\n')
        {
          assert s[1..][i] == s[i + 1] && s[1..][i + 1] == s[i + 2];
        }
      }
      CollapseKeepsClean(s[1..]);
      if |s| >= 2 {
        assert !(s[0] == '\n' && s[1] == '\n');
      }
    }
  }

  /** Cleaning twice is cleaning once. */
  lemma CollapseIdempotent(s: string)
    ensures CollapseNewlines(CollapseNewlines(s)) == CollapseNewlines(s)
  {
    CollapseHasNoBlankLines(s);
    CollapseKeepsClean(CollapseNewlines(s));
  }

  /** The text without its newlines. */
  function WithoutNewlines(s: string): string {
    if s == [] then [] else (if s[0] == '\n' then [] else [s[0]]) + WithoutNewlines(s[1..])
  }

  /** Cleaning only removes newlines, and removes none of a run entirely. */
  lemma {:induction false} CollapseKeepsText(s: string)
    ensures WithoutNewlines(CollapseNewlines(s)) == WithoutNewlines(s)
    ensures '\n' in CollapseNewlines(s) <==> '\n' in s
  {
    if s != [] {
      CollapseKeepsText(s[1..]);
      if |s| >= 2 && s[0] == '\n' && s[1] == '\n' {
        assert '\n' in s[1..];
      } else {
        assert CollapseNewlines(s) == [s[0]] + CollapseNewlines(s[1..]);
        assert WithoutNewlines([s[0]] + CollapseNewlines(s[1..])) == (if s[0] == '\n' then [] else [s[0]]) + WithoutNewlines(CollapseNewlines(s[1..])) by {
          assert ([s[0]] + CollapseNewlines(s[1..]))[1..] == CollapseNewlines(s[1..]);
        }
        assert '\n' in s <==> s[0] == '\n' || '\n' in s[1..] by {
          assert s == [s[0]] + s[1..];
        }
      }
    }
  }

  /** The cycle count: the `-n` value, or with the default `-1` the number of
      lines of the stripped, cleaned trace. */
  function CycleCount(numCycles: int, cleaned: string): (n: int)
    ensures numCycles == -1 ==> n >= 1 && n == Count(Strip(cleaned), '\n') + 1
    ensures numCycles != -1 ==> n == numCycles
  {
    if numCycles == -1 then Count(Strip(cleaned), '\n') + 1 else numCycles
  }

  lemma {:induction false} CountJoin(lines: seq<string>)
    requires |lines| >= 1
    requires forall i :: 0 <= i < |lines| ==> '\n' !in lines[i]
    ensures Count(Join(lines, "\n"), '\n') == |lines| - 1
  {
    if |lines| > 1 {
      CountJoin(lines[1..]);
      CountAppend(lines[0], "\n" + Join(lines[1..], "\n"));
      CountAppend("\n", Join(lines[1..], "\n"));
      assert lines[0] + "\n" + Join(lines[1..], "\n") == lines[0] + ("\n" + Join(lines[1..], "\n"));
    } else {
      assert Count(lines[0], '\n') == 0;
    }
  }

  lemma {:induction false} CountAppend(a: string, b: string)
    ensures Count(a + b, '\n') == Count(a, '\n') + Count(b, '\n')
  {
    if a != [] {
      assert (a + b)[1..] == a[1..] + b;
      CountAppend(a[1..], b);
    } else {
      assert a + b == b;
    }
  }

  /** A trace of k lines, each ending in a newline, whose first and last lines
      neither start nor end in white space, runs for k cycles. */
  lemma TraceCycles(lines: seq<string>)
    requires |lines| >= 1
    requires forall i :: 0 <= i < |lines| ==> '\n' !in lines[i]
    requires lines[0] != [] && !IsSpace(lines[0][0])
    requires lines[|lines| - 1] != [] && !IsSpace(lines[|lines| - 1][|lines[|lines| - 1]| - 1])
    ensures CycleCount(-1, Join(lines, "\n") + "\n") == |lines|
  {
    var t := Join(lines, "\n");
    JoinEnd(lines);
    assert t != [] && t[0] == lines[0][0];
    assert RstripBy(t + "\n", IsSpace) == RstripBy(t, IsSpace) by {
      assert (t + "\n")[..|t + "\n"| - 1] == t;
    }
    assert Strip(t + "\n") == t;
    CountJoin(lines);
  }

  lemma {:induction false} JoinEnd(lines: seq<string>)
    requires |lines| >= 1 && lines[|lines| - 1] != []
    ensures var t := Join(lines, "\n"); t != [] && t[|t| - 1] == lines[|lines| - 1][|lines[|lines| - 1]| - 1]
  {
    if |lines| > 1 {
      JoinEnd(lines[1..]);
    }
  }

  /** The Venus command producing the reference trace; `-tn` limits the trace to
      one more than the cycle count when one is given. */
  function ReferenceCommand(venusPath: string, asmPath: string, numCycles: int): (cmd: seq<string>)
    ensures |cmd| >= 11 && cmd[..4] == ["java", "-jar", venusPath, asmPath]
    ensures |cmd| == 13 <==> numCycles > -1
  {
    var base := ["java", "-jar", venusPath, asmPath, "-it", "-t", "-ti", "-tp", VENUS_TRACE_PATTERN, "-ts", "-ur"];
    if numCycles > -1 then base + ["-tn", IntToString(numCycles + 1)] else base
  }

  /** The reference command is the fixed Venus invocation, followed by `-tn` and
      one more than the cycle count exactly when a count is given. */
  lemma ReferenceCommandArgs(venusPath: string, asmPath: string, numCycles: int)
    ensures var cmd := ReferenceCommand(venusPath, asmPath, numCycles);
      && |cmd| >= 11
      && cmd[..11] == ["java", "-jar", venusPath, asmPath, "-it", "-t", "-ti", "-tp", VENUS_TRACE_PATTERN, "-ts", "-ur"]
      && (numCycles > -1 ==> |cmd| == 13 && cmd[11] == "-tn" && cmd[12] == IntToString(numCycles + 1))
      && (numCycles <= -1 ==> |cmd| == 11)
  {
  }

  /** The `-tn` argument reads back as one more than the requested cycles. */
  lemma CycleFlagRoundTrip(venusPath: string, asmPath: string, numCycles: int)
    requires numCycles > -1
    ensures |ReferenceCommand(venusPath, asmPath, numCycles)| == 13
    ensures DecimalValue(ReferenceCommand(venusPath, asmPath, numCycles)[12]) == numCycles + 1
  {
    ReferenceCommandArgs(venusPath, asmPath, numCycles);
    DecimalRoundTrip(numCycles + 1);
  }

  /** The Venus command dumping machine code. */
  function MachineCodeCommand(venusPath: string, asmPath: string): (cmd: seq<string>)
    ensures |cmd| == 5 && cmd[..3] == ["java", "-jar", venusPath] && "-d" in cmd && cmd[4] == asmPath
  {
    ["java", "-jar", venusPath, "-d", asmPath]
  }

  /** An instruction word without its `0x` prefix. */
  function StripHexPrefix(s: string): (r: string)
    ensures "0x" <= s ==> "0x" + r == s
    ensures !("0x" <= s) ==> r == s
  {
    if "0x" <= s then (assert s == s[..2] + s[2..]; s[2..]) else s
  }

  function StripAll(xs: seq<string>): (r: seq<string>)
    ensures |r| == |xs| && forall i :: 0 <= i < |xs| ==> r[i] == StripHexPrefix(xs[i])
  {
    seq(|xs|, i requires 0 <= i < |xs| => StripHexPrefix(xs[i]))
  }

  /** The ROM image's data line: the words separated by single spaces, then a newline. */
  function RomLine(instructions: seq<string>): string {
    Join(StripAll(instructions), " ") + "\n"
  }

  /** Each word followed by a space, as the loop accumulates it. */
  function Spaced(xs: seq<string>): string {
    if xs == [] then "" else Spaced(xs[..|xs| - 1]) + xs[|xs| - 1] + " "
  }

  lemma {:induction false} JoinSnoc(xs: seq<string>, x: string, sep: string)
    requires xs != []
    ensures Join(xs + [x], sep) == Join(xs, sep) + sep + x
  {
    if |xs| == 1 {
      assert (xs + [x])[1..] == [x];
    } else {
      assert (xs + [x])[1..] == xs[1..] + [x];
      JoinSnoc(xs[1..], x, sep);
    }
  }

  lemma {:induction false} SpacedIsJoin(xs: seq<string>)
    requires xs != []
    ensures Spaced(xs) == Join(xs, " ") + " "
  {
    var init := xs[..|xs| - 1];
    if init == [] {
      assert xs == [xs[0]];
    } else {
      SpacedIsJoin(init);
      JoinSnoc(init, xs[|xs| - 1], " ");
      assert init + [xs[|xs| - 1]] == xs;
    }
  }

  /** The ROM loop: strip `0x`, append each word and a space, then replace the
      last character with a newline. */
  method RomText(instructions: seq<string>) returns (rom: string)
    ensures rom == RomLine(instructions)
  {
    var acc := "";
    for i := 0 to |instructions|
      invariant acc == Spaced(StripAll(instructions[..i]))
    {
      var w := instructions[i];
      if "0x" <= w {
        w := w[2..];
      }
      assert StripAll(instructions[..i + 1])[..i] == StripAll(instructions[..i]);
      acc := acc + w + " ";
    }
    assert instructions[..|instructions|] == instructions;
    if instructions != [] {
      SpacedIsJoin(StripAll(instructions));
      assert acc[..|acc| - 1] == Join(StripAll(instructions), " ");
    }
    rom := PySlice(acc, 0, if |acc| == 0 then 0 else |acc| - 1) + "\n";
  }

  /** Splitting the ROM line on spaces gives back the stripped words. */
  lemma RomWordsRoundTrip(instructions: seq<string>)
    requires |instructions| >= 1
    requires forall i :: 0 <= i < |instructions| ==> ' ' !in instructions[i]
    ensures var r := RomLine(instructions); SplitOn(r[..|r| - 1], ' ') == StripAll(instructions)
  {
    var ws := StripAll(instructions);
    forall i | 0 <= i < |ws|
      ensures ' ' !in ws[i]
    {
      if "0x" <= instructions[i] {
        assert instructions[i] == "0x" + ws[i];
      }
    }
    SplitJoin(ws, ' ');
    var r := RomLine(instructions);
    assert r[..|r| - 1] == Join(ws, " ");
  }

  /** The instruction words of the hex dump: one per line of the stripped text. */
  function Instructions(hexData: string): (r: seq<string>)
    ensures |r| >= 1
  {
    SplitOn(Strip(hexData), '\n')
  }

  /** How a Venus run ends: its return code and output file, or an exception
      (the process or a file could not be opened). */
  datatype ToolRun = Ran(returnCode: int, output: string) | ToolRaised

  /** Venus is treated as having failed. */
  predicate ToolFailed(r: ToolRun) {
    r.ToolRaised? || r.returnCode != 0 || Contains(r.output, "[ERROR]")
  }

  /** What the generated circuit receives. */
  datatype TestCircuit = TestCircuit(romContents: string, constantVal: string, cpuLibraryDesc: string)

  /** The outcome for one assembly file. */
  datatype FileOutcome =
    | BadExtension(message: string)
    | ReferenceFailed(testSlug: string)
    | MachineCodeFailed(testSlug: string, referenceOutput: string)
    | Created(testSlug: string, referenceOutput: string, cycles: int, circuitPath: string, circuit: TestCircuit)

  /** Where the generated files go under the script directory. */
  function TestCircuitPath(scriptDir: string, testSlug: string): string {
    PathJoin(scriptDir, testSlug + ".circ")
  }

  function VenusPath(scriptDir: string): string {
    PathJoin(scriptDir, "../../../venus-cs61c-su20-proj3.jar")
  }

  /** The outcome of one file, from the two Venus runs (`venus` maps a command
      to how it ends). */
  function FileOutcomeOf(scriptDir: string, cwd: string, path: string, numCycles: int, venus: seq<string> -> ToolRun): (o: FileOutcome)
    ensures o.BadExtension? <==> !EndsWith(Basename(path), ASM_FILE_EXTENSION)
    ensures !o.BadExtension? ==> o.testSlug == TestSlug(AsmSlug(Basename(path)).value)
  {
    var name := Basename(path);
    match AsmSlug(name)
    case None => BadExtension("Invalid assembly file: " + name + " (file extension mismatch)")
    case Some(input) => AsmOutcome(scriptDir, TestSlug(input), PathJoin(cwd, path), numCycles, venus)
  }

  /** A file without the `.s` extension is skipped with a message naming it. */
  lemma BadExtensionMessage(scriptDir: string, cwd: string, path: string, numCycles: int, venus: seq<string> -> ToolRun)
    requires !EndsWith(Basename(path), ASM_FILE_EXTENSION)
    ensures FileOutcomeOf(scriptDir, cwd, path, numCycles, venus)
      == BadExtension("Invalid assembly file: " + Basename(path) + " (file extension mismatch)")
  {
  }

  /** The outcome for an assembly file at `asm` once its test slug is known. */
  function AsmOutcome(scriptDir: string, slug: string, asm: string, numCycles: int, venus: seq<string> -> ToolRun): (o: FileOutcome)
    ensures !o.BadExtension? && o.testSlug == slug
  {
    var reference := venus(ReferenceCommand(VenusPath(scriptDir), asm, numCycles));
    if ToolFailed(reference) then ReferenceFailed(slug)
    else
      var cleaned := CollapseNewlines(reference.output);
      TraceOutcome(scriptDir, slug, cleaned, CycleCount(numCycles, cleaned), venus(MachineCodeCommand(VenusPath(scriptDir), asm)))
  }

  /** The outcome once the cleaned trace and cycle count are known. */
  function TraceOutcome(scriptDir: string, slug: string, cleaned: string, cycles: int, dump: ToolRun): (o: FileOutcome)
    ensures (o.MachineCodeFailed? || o.Created?) && o.testSlug == slug && o.referenceOutput == cleaned
    ensures o.Created? <==> !ToolFailed(dump)
  {
    if ToolFailed(dump) then MachineCodeFailed(slug, cleaned)
    else Created(slug, cleaned, cycles, TestCircuitPath(scriptDir, slug),
                 TestCircuit(ROM_HEADER + RomLine(Instructions(dump.output)), PyHex(cycles), CPU_LIBRARY_DESC))
  }

  /** A `.s` file's test is named after the file. */
  lemma OutcomeNaming(scriptDir: string, cwd: string, path: string, numCycles: int, venus: seq<string> -> ToolRun)
    ensures var o := FileOutcomeOf(scriptDir, cwd, path, numCycles, venus);
      !o.BadExtension? ==> o.testSlug + ".s" == "cpu-" + Basename(path)
  {
    var slug := AsmSlug(Basename(path));
    if slug.Some? {
      assert TestSlug(slug.value) + ".s" == "cpu-" + (slug.value + ".s");
    }
  }

  /** A created test's trace has no blank line, its cycle constant reads back as
      the cycle count, and by default that count is positive. */
  lemma CreatedTestConsistent(scriptDir: string, slug: string, asm: string, numCycles: int, venus: seq<string> -> ToolRun)
    requires AsmOutcome(scriptDir, slug, asm, numCycles, venus).Created?
    ensures var o := AsmOutcome(scriptDir, slug, asm, numCycles, venus);
      && NoBlankLines(o.referenceOutput)
      && (o.cycles >= 0 ==> o.circuit.constantVal == "0x" + HexDigits(o.cycles) && HexValue(o.circuit.constantVal[2..]) == o.cycles)
      && (numCycles == -1 ==> o.cycles >= 1)
      && o.circuit.romContents[..|ROM_HEADER|] == ROM_HEADER
  {
    var o := AsmOutcome(scriptDir, slug, asm, numCycles, venus);
    var reference := venus(ReferenceCommand(VenusPath(scriptDir), asm, numCycles));
    CollapseHasNoBlankLines(reference.output);
    if o.cycles >= 0 {
      HexRoundTrip(o.cycles);
      assert o.circuit.constantVal[2..] == HexDigits(o.cycles);
    }
  }

  /** A file Venus rejects produces no test. */
  lemma FailedRunSkipsFile(scriptDir: string, slug: string, asm: string, numCycles: int, venus: seq<string> -> ToolRun)
    requires ToolFailed(venus(ReferenceCommand(VenusPath(scriptDir), asm, numCycles)))
      || ToolFailed(venus(MachineCodeCommand(VenusPath(scriptDir), asm)))
    ensures !AsmOutcome(scriptDir, slug, asm, numCycles, venus).Created?
  {
  }

  /** `f` applied to each element, built up from the front as `main`'s loop does. */
  function MapEach<A, B>(f: A -> B, xs: seq<A>): (r: seq<B>)
    ensures |r| == |xs|
    ensures forall k :: 0 <= k < |xs| ==> r[k] == f(xs[k])
  {
    if xs == [] then [] else MapEach(f, xs[..|xs| - 1]) + [f(xs[|xs| - 1])]
  }

  /** The outcomes of `main` for the paths in order: each path's outcome is that
      of the file alone, so no file affects another. */
  function Outcomes(scriptDir: string, cwd: string, paths: seq<string>, numCycles: int, venus: seq<string> -> ToolRun): (r: seq<FileOutcome>)
    ensures |r| == |paths|
    ensures forall k :: 0 <= k < |paths| ==> r[k] == FileOutcomeOf(scriptDir, cwd, paths[k], numCycles, venus)
  {
    MapEach(p => FileOutcomeOf(scriptDir, cwd, p, numCycles, venus), paths)
  }

  /** One more path adds its own outcome. */
  lemma OutcomesSnoc(scriptDir: string, cwd: string, paths: seq<string>, numCycles: int, venus: seq<string> -> ToolRun, i: int)
    requires 0 <= i < |paths|
    ensures Outcomes(scriptDir, cwd, paths[..i + 1], numCycles, venus)
      == Outcomes(scriptDir, cwd, paths[..i], numCycles, venus) + [FileOutcomeOf(scriptDir, cwd, paths[i], numCycles, venus)]
  {
    assert paths[..i + 1][..i] == paths[..i];
  }

  /** `main`: every path in order, each skipped or turned into a test. */
  method CreateTests(scriptDir: string, cwd: string, paths: seq<string>, numCycles: int, venus: seq<string> -> ToolRun)
    returns (outcomes: seq<FileOutcome>)
    ensures outcomes == Outcomes(scriptDir, cwd, paths, numCycles, venus)
  {
    outcomes := [];
    for i := 0 to |paths|
      invariant outcomes == Outcomes(scriptDir, cwd, paths[..i], numCycles, venus)
    {
      var o := ProcessFile(scriptDir, cwd, paths[i], numCycles, venus);
      OutcomesSnoc(scriptDir, cwd, paths, numCycles, venus, i);
      outcomes := outcomes + [o];
    }
    assert paths[..|paths|] == paths;
  }

  /** The body of `main`'s loop for one path. */
  method ProcessFile(scriptDir: string, cwd: string, path: string, numCycles: int, venus: seq<string> -> ToolRun)
    returns (o: FileOutcome)
    ensures o == FileOutcomeOf(scriptDir, cwd, path, numCycles, venus)
  {
    var name := Basename(path);
    if !EndsWith(name, ASM_FILE_EXTENSION) {
      return BadExtension("Invalid assembly file: " + name + " (file extension mismatch)");
    }
    var slug := TestSlug(name[..|name| - |ASM_FILE_EXTENSION|]);
    o := ProcessAsm(scriptDir, slug, PathJoin(cwd, path), numCycles, venus);
  }

  /** The reference run, the cleanup and the cycle count. */
  method ProcessAsm(scriptDir: string, slug: string, asm: string, numCycles: int, venus: seq<string> -> ToolRun)
    returns (o: FileOutcome)
    ensures o == AsmOutcome(scriptDir, slug, asm, numCycles, venus)
  {
    var cycles := numCycles;
    var reference := venus(ReferenceCommand(VenusPath(scriptDir), asm, numCycles));
    if ToolFailed(reference) {
      return ReferenceFailed(slug);
    }
    var cleaned := CollapseNewlines(reference.output);
    if cycles == -1 {
      cycles := Count(Strip(cleaned), '\n') + 1;
    }
    assert cycles == CycleCount(numCycles, cleaned);
    o := ProcessDump(scriptDir, slug, cleaned, cycles, venus(MachineCodeCommand(VenusPath(scriptDir), asm)));
  }

  /** The machine-code run and the circuit it fills. */
  method ProcessDump(scriptDir: string, slug: string, cleaned: string, cycles: int, dump: ToolRun)
    returns (o: FileOutcome)
    ensures o == TraceOutcome(scriptDir, slug, cleaned, cycles, dump)
  {
    if ToolFailed(dump) {
      return MachineCodeFailed(slug, cleaned);
    }
    var rom := RomText(Instructions(dump.output));
    var circuit := TestCircuit(ROM_HEADER + rom, PyHex(cycles), CPU_LIBRARY_DESC);
    o := Created(slug, cleaned, cycles, TestCircuitPath(scriptDir, slug), circuit);
  }
}
