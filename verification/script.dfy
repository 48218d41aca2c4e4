/** The build specification of travis-build and the shell script it is turned
    into, as pure functions; a line-by-line description of the same script; and
    the lemmas that tie the two together and state the script's layout. */
module BuildScript {
  import opened Text

  /** The six phases of a build, each an ordered list of shell commands.
      A phase missing from the input document is the empty list. */
  datatype BuildSpec = BuildSpec(
    beforeInstall: seq<string>,
    install: seq<string>,
    beforeScript: seq<string>,
    script: seq<string>,
    afterSuccess: seq<string>,
    afterFailure: seq<string>)

  // The fixed pieces of text the emitter writes.

  const Shebang: string := "#!/bin/sh -x\n"
  const GeneratedNotice: string := "# NOTE: This script is automatically generated. DO NOT TOUCH!!\n\n"
  /** Runs the failure hook and stops the script when the command just before it failed. */
  const DetectFailureSnippet: string := "if [ $? -ne 0 ]; then\n\trun_on_failure\n\texit 1\nfi"
  const HookOpen: string := "run_on_failure() {\n"
  /** The body of the failure hook when there is nothing to run after a failure. */
  const NoFailureCommands: string := "\techo \"Nothing to run after failed build\"\n"
  const HookClose: string := "}\n\n"

  /** The commands that are each followed by a failure check, in the order they run. */
  function Steps(spec: BuildSpec): seq<string>
  {
    spec.beforeInstall + spec.install + spec.beforeScript + spec.script
  }

  function HookCommand(c: string): string
  {
    "\t" + c + "\n"
  }

  /** The definition of the shell function run_on_failure. */
  function Hook(afterFailure: seq<string>): string
  {
    HookOpen
    + (if |afterFailure| > 0 then ConcatMap(HookCommand, afterFailure) else NoFailureCommands)
    + HookClose
  }

  /** One step, then the failure check and a blank line. */
  function CheckedStep(step: string): string
  {
    step + "\n" + DetectFailureSnippet + "\n\n"
  }

  function Checked(steps: seq<string>): string
  {
    ConcatMap(CheckedStep, steps)
  }

  /** The whole script generated for spec. */
  function Emit(spec: BuildSpec): string
  {
    Shebang + GeneratedNotice + Hook(spec.afterFailure) + Checked(Steps(spec)) + Unlines(spec.afterSuccess)
  }

  // The same script described line by line.

  const HeaderLines: seq<string> :=
    ["#!/bin/sh -x", "# NOTE: This script is automatically generated. DO NOT TOUCH!!", ""]
  const SnippetLines: seq<string> :=
    ["if [ $? -ne 0 ]; then", "\trun_on_failure", "\texit 1", "fi"]
  const PlaceholderLine: string := "\techo \"Nothing to run after failed build\""

  /** The failure commands, each indented by a tab, or the placeholder line when there are none. */
  function HookBodyLines(afterFailure: seq<string>): seq<string>
  {
    if afterFailure == [] then [PlaceholderLine]
    else seq(|afterFailure|, i requires 0 <= i < |afterFailure| => "\t" + afterFailure[i])
  }

  function HookLines(afterFailure: seq<string>): seq<string>
  {
    ["run_on_failure() {"] + HookBodyLines(afterFailure) + ["}", ""]
  }

  /** Six lines per step: the step, the four lines of the check, a blank line. */
  function CheckedLines(steps: seq<string>): seq<string>
  {
    if steps == [] then [] else [steps[0]] + SnippetLines + [""] + CheckedLines(steps[1..])
  }

  function ScriptLines(spec: BuildSpec): seq<string>
  {
    HeaderLines + HookLines(spec.afterFailure) + CheckedLines(Steps(spec)) + spec.afterSuccess
  }

  // The order of the steps and the layout of the text.

  /** The checked steps are the four phases in their fixed order, each in its own order. */
  lemma StepsOrder(spec: BuildSpec)
    ensures var n0, n1, n2 := |spec.beforeInstall|, |spec.install|, |spec.beforeScript|;
      var steps := Steps(spec);
      && |steps| == n0 + n1 + n2 + |spec.script|
      && (forall k :: 0 <= k < n0 ==> steps[k] == spec.beforeInstall[k])
      && (forall k :: 0 <= k < n1 ==> steps[n0 + k] == spec.install[k])
      && (forall k :: 0 <= k < n2 ==> steps[n0 + n1 + k] == spec.beforeScript[k])
      && (forall k :: 0 <= k < |spec.script| ==> steps[n0 + n1 + n2 + k] == spec.script[k])
  {
  }

  /** Checking a list of steps is checking its first part and then its second. */
  lemma CheckedAppend(a: seq<string>, b: seq<string>)
    ensures Checked(a + b) == Checked(a) + Checked(b)
  {
    ConcatMapAppend(CheckedStep, a, b);
  }

  /** The checked part of the script is each phase's checked part, in phase order. */
  lemma CheckedPhases(spec: BuildSpec)
    ensures Checked(Steps(spec))
         == Checked(spec.beforeInstall) + Checked(spec.install) + Checked(spec.beforeScript) + Checked(spec.script)
  {
    CheckedAppend(spec.beforeInstall + spec.install + spec.beforeScript, spec.script);
    CheckedAppend(spec.beforeInstall + spec.install, spec.beforeScript);
    CheckedAppend(spec.beforeInstall, spec.install);
  }

  /** Every step is written immediately before its own failure check and a
      blank line, after the blocks of the steps before it and before the rest. */
  lemma CheckedStepAt(steps: seq<string>, i: nat)
    requires i < |steps|
    ensures Checked(steps)
         == Checked(steps[..i]) + steps[i] + "\n" + DetectFailureSnippet + "\n\n" + Checked(steps[i + 1..])
  {
    assert steps == steps[..i] + [steps[i]] + steps[i + 1..];
    CheckedAppend(steps[..i] + [steps[i]], steps[i + 1..]);
    ConcatMapSnoc(CheckedStep, steps[..i], steps[i]);
  }

  /** The script is the header, the failure hook, the checked steps of the four
      phases in phase order and the after-success commands, in that order. */
  lemma EmitDecomposition(spec: BuildSpec)
    ensures Emit(spec)
         == Shebang + GeneratedNotice + Hook(spec.afterFailure)
            + Checked(spec.beforeInstall) + Checked(spec.install) + Checked(spec.beforeScript) + Checked(spec.script)
            + Unlines(spec.afterSuccess)
  {
    CheckedPhases(spec);
    var front := Shebang + GeneratedNotice + Hook(spec.afterFailure);
    var c0, c1, c2, c3 := Checked(spec.beforeInstall), Checked(spec.install), Checked(spec.beforeScript), Checked(spec.script);
    Associate(front, c0 + c1 + c2, c3);
    Associate(front, c0 + c1, c2);
    Associate(front, c0, c1);
  }

  /** Every script starts with the shebang line and then the generated-file notice. */
  lemma EmitBeginsWithHeader(spec: BuildSpec)
    ensures |Shebang| + |GeneratedNotice| <= |Emit(spec)|
    ensures Emit(spec)[..|Shebang|] == Shebang
    ensures Emit(spec)[|Shebang|..|Shebang| + |GeneratedNotice|] == GeneratedNotice
  {
    var rest := Hook(spec.afterFailure) + Checked(Steps(spec)) + Unlines(spec.afterSuccess);
    FirstTwo(Shebang, GeneratedNotice, rest);
    assert Emit(spec) == Shebang + GeneratedNotice + rest;
  }

  /** The after-success commands, one per line and without a check, end the script. */
  lemma EmitEndsWithAfterSuccess(spec: BuildSpec)
    ensures var tail := Unlines(spec.afterSuccess);
      |tail| <= |Emit(spec)| && Emit(spec)[|Emit(spec)| - |tail|..] == tail
  {
    var front := Shebang + GeneratedNotice + Hook(spec.afterFailure) + Checked(Steps(spec));
    assert Emit(spec) == front + Unlines(spec.afterSuccess);
  }

  /** A specification with six empty phases gives the header and a hook that
      only reports that there is nothing to run. */
  lemma EmptySpecScript()
    ensures Emit(BuildSpec([], [], [], [], [], []))
         == Shebang + GeneratedNotice + HookOpen + NoFailureCommands + HookClose
  {
    assert Steps(BuildSpec([], [], [], [], [], [])) == [];
  }

  // The text and the line view agree.

  lemma HeaderText()
    ensures Unlines(HeaderLines) == Shebang + GeneratedNotice
  {
    var hl := HeaderLines;
    assert hl == [hl[0]] + ([hl[1]] + ([hl[2]] + []));
    UnlinesCons(hl[2], []);
    UnlinesCons(hl[1], [hl[2]]);
    UnlinesCons(hl[0], [hl[1]] + [hl[2]]);
    HeaderLiteral();
  }

  lemma HeaderLiteral()
    ensures HeaderLines[0] + "\n" == Shebang
    ensures HeaderLines[1] + "\n" + HeaderLines[2] + "\n" == GeneratedNotice
  {
  }

  lemma SnippetText()
    ensures Unlines(SnippetLines) == DetectFailureSnippet + "\n"
  {
    var sl := SnippetLines;
    assert sl == [sl[0]] + ([sl[1]] + ([sl[2]] + ([sl[3]] + [])));
    UnlinesCons(sl[3], []);
    UnlinesCons(sl[2], [sl[3]]);
    UnlinesCons(sl[1], [sl[2]] + [sl[3]]);
    UnlinesCons(sl[0], [sl[1]] + [sl[2]] + [sl[3]]);
    SnippetLiteral();
  }

  lemma SnippetLiteral()
    ensures SnippetLines[0] + "\n" + SnippetLines[1] + "\n" + SnippetLines[2] + "\n" + SnippetLines[3] + "\n"
         == DetectFailureSnippet + "\n"
  {
  }

  lemma {:induction false} HookCommandsAsLines(afterFailure: seq<string>)
    requires afterFailure != []
    ensures ConcatMap(HookCommand, afterFailure) == Unlines(HookBodyLines(afterFailure))
  {
    var rest := afterFailure[1..];
    var ls := HookBodyLines(afterFailure);
    assert ls == ["\t" + afterFailure[0]] + HookBodyLines(rest) || rest == [];
    assert ConcatMap(HookCommand, afterFailure) == HookCommand(afterFailure[0]) + ConcatMap(HookCommand, rest);
    if rest == [] {
      assert ls == ["\t" + afterFailure[0]];
      UnlinesCons("\t" + afterFailure[0], []);
      assert ["\t" + afterFailure[0]] + [] == ["\t" + afterFailure[0]];
      assert ConcatMap(HookCommand, rest) == "" && Unlines([]) == "";
    } else {
      HookCommandsAsLines(rest);
      UnlinesCons("\t" + afterFailure[0], HookBodyLines(rest));
    }
  }

  lemma HookFrameText()
    ensures Unlines(["run_on_failure() {"]) == HookOpen
    ensures Unlines(["}", ""]) == HookClose
    ensures Unlines([PlaceholderLine]) == NoFailureCommands
  {
    UnlinesCons("run_on_failure() {", []);
    UnlinesCons("}", [""]);
    UnlinesCons("", []);
    UnlinesCons(PlaceholderLine, []);
    assert [PlaceholderLine] + [] == [PlaceholderLine];
    assert ["run_on_failure() {"] + [] == ["run_on_failure() {"];
    assert Unlines([]) == "";
    HookFrameLiteral();
  }

  lemma HookFrameLiteral()
    ensures "run_on_failure() {" + "\n" + "" == HookOpen
    ensures "}" + "\n" + ("" + "\n" + "") == HookClose
    ensures PlaceholderLine + "\n" + "" == NoFailureCommands
  {
  }

  /** The hook lists the failure commands, each on its own line indented by a
      tab, or only the placeholder message when there are none. */
  lemma HookAsLines(afterFailure: seq<string>)
    ensures Hook(afterFailure) == Unlines(HookLines(afterFailure))
  {
    var body := HookBodyLines(afterFailure);
    UnlinesAppend(["run_on_failure() {"] + body, ["}", ""]);
    UnlinesAppend(["run_on_failure() {"], body);
    HookFrameText();
    if afterFailure != [] {
      HookCommandsAsLines(afterFailure);
    }
  }

  lemma CheckedStepAsLines(step: string)
    ensures CheckedStep(step) == Unlines([step] + SnippetLines + [""])
  {
    UnlinesCons(step, SnippetLines + [""]);
    UnlinesAppend(SnippetLines, [""]);
    UnlinesCons("", []);
    SnippetText();
    assert [step] + SnippetLines + [""] == [step] + (SnippetLines + [""]);
  }

  /** Each step is one line, followed by the four lines of the check and a blank line. */
  lemma {:induction false} CheckedAsLines(steps: seq<string>)
    ensures Checked(steps) == Unlines(CheckedLines(steps))
  {
    if steps != [] {
      CheckedAsLines(steps[1..]);
      CheckedStepAsLines(steps[0]);
      UnlinesAppend([steps[0]] + SnippetLines + [""], CheckedLines(steps[1..]));
    }
  }

  /** The script is exactly its lines, each ended by a newline. */
  lemma EmitAsLines(spec: BuildSpec)
    ensures Emit(spec) == Unlines(ScriptLines(spec))
  {
    HeaderText();
    HookAsLines(spec.afterFailure);
    CheckedAsLines(Steps(spec));
    UnlinesAppend(HeaderLines + HookLines(spec.afterFailure) + CheckedLines(Steps(spec)), spec.afterSuccess);
    UnlinesAppend(HeaderLines + HookLines(spec.afterFailure), CheckedLines(Steps(spec)));
    UnlinesAppend(HeaderLines, HookLines(spec.afterFailure));
  }

  // Where everything sits among the lines.

  lemma {:induction false} CheckedLinesLength(steps: seq<string>)
    ensures |CheckedLines(steps)| == 6 * |steps|
  {
    if steps != [] {
      CheckedLinesLength(steps[1..]);
    }
  }

  /** Step i takes the six lines from line 6 * i of the checked part. */
  lemma {:induction false} CheckedLinesAt(steps: seq<string>, i: nat)
    requires i < |steps|
    ensures |CheckedLines(steps)| == 6 * |steps|
    ensures CheckedLines(steps)[6 * i..6 * i + 6] == [steps[i]] + SnippetLines + [""]
  {
    CheckedLinesLength(steps);
    if i > 0 {
      CheckedLinesAt(steps[1..], i - 1);
      var rest := CheckedLines(steps[1..]);
      assert CheckedLines(steps) == [steps[0]] + SnippetLines + [""] + rest;
      assert CheckedLines(steps)[6 * i..6 * i + 6] == rest[6 * (i - 1)..6 * (i - 1) + 6];
    }
  }

  /** After the three header lines and the hook, step i takes six lines starting
      6 * i lines further on: itself, the check and a blank line. */
  lemma ScriptLayout(spec: BuildSpec, i: nat)
    requires i < |Steps(spec)|
    ensures var start := |HeaderLines| + |HookLines(spec.afterFailure)| + 6 * i;
      var lines := ScriptLines(spec);
      && start + 6 <= |lines|
      && lines[start..start + 6] == [Steps(spec)[i]] + SnippetLines + [""]
  {
    var prefix := HeaderLines + HookLines(spec.afterFailure);
    var checked := CheckedLines(Steps(spec));
    CheckedLinesAt(Steps(spec), i);
    assert ScriptLines(spec) == prefix + checked + spec.afterSuccess;
    var start := |prefix| + 6 * i;
    assert ScriptLines(spec)[start..start + 6] == checked[6 * i..6 * i + 6];
  }

  /** The after-success commands are the last lines of every script, and all
      the lines before them are the header, the hook and the checked steps, so
      no check is written among or after them. */
  lemma ScriptEndsWithAfterSuccess(spec: BuildSpec)
    ensures var lines := ScriptLines(spec);
      && |spec.afterSuccess| <= |lines|
      && lines[|lines| - |spec.afterSuccess|..] == spec.afterSuccess
      && lines[..|lines| - |spec.afterSuccess|] == HeaderLines + HookLines(spec.afterFailure) + CheckedLines(Steps(spec))
  {
    var front := HeaderLines + HookLines(spec.afterFailure) + CheckedLines(Steps(spec));
    assert ScriptLines(spec) == front + spec.afterSuccess;
  }
}
