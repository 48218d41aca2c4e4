/** The emission step of travis-build as the program runs it: one formatted
    write after another to a shared writer, proved to produce the script that
    BuildScript.Emit describes. */
module Emitter {
  import opened Text
  import opened BuildScript

  /** The destination of the script (standard output or a buffered file):
      everything written to it so far. */
  class Writer {
    var written: string

    constructor ()
      ensures written == ""
    {
      written := "";
    }

    /** One formatted print: its text is appended to what was written before. */
    method Write(s: string)
      modifies this
      ensures written == old(written) + s
    {
      written := written + s;
    }
  }

  /** Writes the script for spec to w. The specification is a value and is only
      read; the one effect is what is appended to w. */
  method EmitScript(spec: BuildSpec, w: Writer)
    modifies w
    ensures w.written == old(w.written) + Emit(spec)
  {
    w.Write(Shebang);
    w.Write(GeneratedNotice);

    var steps: seq<string> := [];
    steps := steps + spec.beforeInstall;
    steps := steps + spec.install;
    steps := steps + spec.beforeScript;
    steps := steps + spec.script;
    assert steps == Steps(spec);

    ghost var before := old(w.written);
    WriteHook(spec.afterFailure, w);
    WriteCheckedSteps(steps, w);
    WriteAfterSuccess(spec.afterSuccess, w);
    var hook, checked, tail := Hook(spec.afterFailure), Checked(steps), Unlines(spec.afterSuccess);
    Associate(before, Shebang + GeneratedNotice + hook + checked, tail);
    Associate(before, Shebang + GeneratedNotice + hook, checked);
    Associate(before, Shebang + GeneratedNotice, hook);
    Associate(before, Shebang, GeneratedNotice);
  }

  /** Writes the definition of run_on_failure: the failure commands, or the
      placeholder message when there are none. */
  method WriteHook(afterFailure: seq<string>, w: Writer)
    modifies w
    ensures w.written == old(w.written) + Hook(afterFailure)
  {
    ghost var before := w.written;
    w.Write(HookOpen);
    ghost var bodyStart := w.written;
    if |afterFailure| > 0 {
      for i := 0 to |afterFailure|
        invariant w.written == bodyStart + ConcatMap(HookCommand, afterFailure[..i])
      {
        ghost var done := w.written;
        w.Write("\t" + afterFailure[i] + "\n");
        assert w.written == done + HookCommand(afterFailure[i]);
        assert afterFailure[..i + 1] == afterFailure[..i] + [afterFailure[i]];
        ConcatMapSnoc(HookCommand, afterFailure[..i], afterFailure[i]);
      }
      assert afterFailure[..|afterFailure|] == afterFailure;
    } else {
      w.Write(NoFailureCommands);
    }
    ghost var body := if |afterFailure| > 0 then ConcatMap(HookCommand, afterFailure) else NoFailureCommands;
    assert w.written == bodyStart + body;
    w.Write(HookClose);
    assert Hook(afterFailure) == HookOpen + body + HookClose;
    Associate(before, HookOpen + body, HookClose);
    Associate(before, HookOpen, body);
  }

  /** Writes every step, each followed by the failure check and a blank line. */
  method WriteCheckedSteps(steps: seq<string>, w: Writer)
    modifies w
    ensures w.written == old(w.written) + Checked(steps)
  {
    ghost var start := w.written;
    for i := 0 to |steps|
      invariant w.written == start + Checked(steps[..i])
    {
      ghost var done := w.written;
      w.Write(steps[i] + "\n");
      w.Write(DetectFailureSnippet + "\n\n");
      assert CheckedStep(steps[i]) == (steps[i] + "\n") + (DetectFailureSnippet + "\n\n");
      assert w.written == done + CheckedStep(steps[i]);
      assert steps[..i + 1] == steps[..i] + [steps[i]];
      ConcatMapSnoc(CheckedStep, steps[..i], steps[i]);
    }
    assert steps[..|steps|] == steps;
  }

  /** Writes the after-success commands, one per line, with no check. */
  method WriteAfterSuccess(afterSuccess: seq<string>, w: Writer)
    modifies w
    ensures w.written == old(w.written) + Unlines(afterSuccess)
  {
    ghost var start := w.written;
    for i := 0 to |afterSuccess|
      invariant w.written == start + Unlines(afterSuccess[..i])
    {
      w.Write(afterSuccess[i] + "\n");
      assert afterSuccess[..i + 1] == afterSuccess[..i] + [afterSuccess[i]];
      ConcatMapSnoc(Terminated, afterSuccess[..i], afterSuccess[i]);
    }
    assert afterSuccess[..|afterSuccess|] == afterSuccess;
  }

  /** The text written when the writer starts out empty. */
  method Render(spec: BuildSpec) returns (script: string)
    ensures script == Emit(spec)
  {
    var w := new Writer();
    EmitScript(spec, w);
    script := w.written;
  }
}
