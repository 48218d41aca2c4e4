# travis-build script emitter, modelled in Dafny

travis-build turns a build specification into a self-contained POSIX shell
script. A specification has six ordered lists of shell commands:
`before-install`, `install`, `before_script`, `script`, `after_success` and
`after_failure`. The script runs the commands of the first four phases one
after another and checks the exit status after each one. On a failure it
calls the shell function `run_on_failure`, whose body is the `after_failure`
commands, and exits with status 1. The `after_success` commands come last,
with no check.

This project models the part of the program that writes that script. It
takes an already decoded specification and writes the text.

- `text.dfy` (module `Text`) holds the text vocabulary. `ConcatMap` writes
  one fragment per item. `Unlines` joins lines, ending each with a newline.
  Both come with their concatenation lemmas.
- `script.dfy` (module `BuildScript`) holds the `BuildSpec` datatype and the
  fixed texts of the program. It also holds the pure function `Emit`, built
  from `Hook`, `Checked` and `Unlines` in the order the program writes them.
  Beside it is an independent description of the same script as a list of
  lines (`ScriptLines`, `HookLines`, `CheckedLines`). Lemmas prove that
  `Emit` is exactly those lines joined by newlines. Further lemmas state the
  phase order, where each checked step and its failure check sit, the
  header, the tail and the all-empty case.
- `emitter.dfy` (module `Emitter`) holds the program's own procedure. A
  `Writer` object stands for the output stream, and each `fmt.Fprintf` call
  becomes one `Write` that appends its formatted text. `EmitScript` builds
  the step list by four appends and writes the script section by section.
  The hook, the checked steps and the after-success commands are each
  written by a loop. The method is proved to append exactly `Emit(spec)`
  and nothing else. The specification is an immutable value, and the only
  object the method may change is the writer.

`Emitter.EmitScript` calls one helper method per section of the source
closure: `WriteHook`, `WriteCheckedSteps` and `WriteAfterSuccess`. Each
helper holds the loop of that section. The writes and their order are those
of `cmds/travis-build/main.go:74-100`.

## Model

| member | source | states |
|---|---|---|
| `BuildScript.BuildSpec` | cmds/travis-build/main.go:21-28 | the six phases of a build, each an ordered list of shell commands |
| `BuildScript.Steps` | cmds/travis-build/main.go:77-81 | the checked steps: `before-install`, `install`, `before_script` and `script` appended in that order (its properties are `StepsOrder`) |
| `BuildScript.Hook` | cmds/travis-build/main.go:83-91 | the `run_on_failure` definition: its opening line, one tab-indented line per after-failure command or the placeholder echo, and the closing brace with a blank line (its properties are `HookAsLines`) |
| `BuildScript.Checked` | cmds/travis-build/main.go:93-96 | every step followed by a newline, the failure-detection snippet and a blank line (its properties are `CheckedAppend`, `CheckedStepAt` and `CheckedAsLines`) |
| `BuildScript.Emit` | cmds/travis-build/main.go:74-100 | the whole script: header, hook, checked steps, after-success lines (its properties are `EmitDecomposition` and `EmitAsLines`) |
| `BuildScript.StepsOrder` | cmds/travis-build/main.go:77-81 | the checked step list has the length of the four phases together and holds `before-install`, then `install`, then `before_script`, then `script`, each in its own order, at the positions that follow from that order |
| `BuildScript.CheckedPhases` | cmds/travis-build/main.go:77-96 | the checked part of the script is the checked text of `before-install`, then of `install`, `before_script` and `script`, in that phase order |
| `BuildScript.CheckedAppend` | cmds/travis-build/main.go:93-96 | writing the checked steps of `a ++ b` gives the text for `a` followed by the text for `b` |
| `BuildScript.CheckedStepAt` | cmds/travis-build/main.go:93-96 | step i is written as the step, a newline, the failure-detection snippet and a blank line, after the blocks of steps 0..i-1 and before those of the later steps |
| `BuildScript.EmitDecomposition` | cmds/travis-build/main.go:74-100 | the script is the shebang line, the generated-file notice, the `run_on_failure` definition, the checked steps of the four phases in phase order and the after-success lines, in that order and with nothing else |
| `BuildScript.EmitBeginsWithHeader` | cmds/travis-build/main.go:74-75 | every script starts with `#!/bin/sh -x\n` followed at once by `# NOTE: This script is automatically generated. DO NOT TOUCH!!\n\n` |
| `BuildScript.EmitEndsWithAfterSuccess` | cmds/travis-build/main.go:98-100 | the script ends with the after-success commands, each followed only by a newline, so no check follows any of them and nothing follows the last |
| `BuildScript.EmptySpecScript` | cmds/travis-build/main.go:74-91 | six empty phases give only the header and a `run_on_failure` whose body is the single placeholder echo |
| `BuildScript.HeaderText` | cmds/travis-build/main.go:74-75 | the header text is the three lines `#!/bin/sh -x`, the notice line and an empty line |
| `BuildScript.SnippetText` | cmds/travis-build/main.go:14-19 | the failure-detection snippet plus its newline is the four lines `if [ $? -ne 0 ]; then`, a tab and `run_on_failure`, a tab and `exit 1`, and `fi` |
| `BuildScript.HookAsLines` | cmds/travis-build/main.go:83-91 | `run_on_failure() {`, then each after-failure command on its own tab-indented line in order, or only the placeholder echo line when the list is empty, then `}` and a blank line |
| `BuildScript.CheckedStepAsLines` | cmds/travis-build/main.go:94-95 | one checked step is the step's line, the four snippet lines and one empty line |
| `BuildScript.CheckedAsLines` | cmds/travis-build/main.go:93-96 | the checked part is six lines per step: the step, the four snippet lines and an empty line |
| `BuildScript.EmitAsLines` | cmds/travis-build/main.go:74-100 | the whole script equals the line-by-line description (header lines, hook lines, six lines per step, after-success lines), each line ended by a newline |
| `BuildScript.CheckedLinesAt` | cmds/travis-build/main.go:93-96 | in the line view, step i takes lines 6i to 6i+5 of the checked part: the step, the snippet and the blank line |
| `BuildScript.ScriptLayout` | cmds/travis-build/main.go:74-100 | after the three header lines and the hook lines, step i is followed at once by the snippet lines and a blank line |
| `BuildScript.ScriptEndsWithAfterSuccess` | cmds/travis-build/main.go:98-100 | for every specification, including one with no checked step, the after-success commands are the last lines and everything before them is the header, the hook and the checked steps, so no check follows any of them |
| `Emitter.EmitScript` | cmds/travis-build/main.go:74-100 | the writes of the emission section append exactly `Emit(spec)` to what the writer already held; only the writer changes |
| `Emitter.WriteHook` | cmds/travis-build/main.go:83-91 | the hook section appends exactly `Hook(afterFailure)`; its loop keeps the text written so far equal to the hook lines of the commands handled so far |
| `Emitter.WriteCheckedSteps` | cmds/travis-build/main.go:93-96 | the step loop appends exactly `Checked(steps)`; after k rounds the text written equals the checked text of the first k steps |
| `Emitter.WriteAfterSuccess` | cmds/travis-build/main.go:98-100 | the after-success loop appends exactly those commands as lines, each with only a newline after it |
| `Emitter.Render` | cmds/travis-build/main.go:62-100 | writing to a fresh, empty destination leaves exactly `Emit(spec)` in it |

## Left out

- Command-line handling (`cmds/travis-build/main.go:31-46`, `106`) is left out. This covers the argument-count check, the `--output`/`-o` flag and running the application. It is plumbing around a library that is not part of this model.
- File-system work (`cmds/travis-build/main.go:47-54`, `62-72`) is left out. This covers the existence check, reading the input, creating the output file and the deferred flush of the buffered writer. The choice between standard output and a file is not modelled: both are a `Writer` here, and `Render` starts from an empty one.
- YAML decoding (`cmds/travis-build/main.go:57`) is left out: the model starts from a decoded `BuildSpec`. The YAML library is not part of this model, so key matching is not modelled. That includes the document keys and the library's handling of a scalar where a list is expected. The code's key for the first phase is the hyphenated `before-install` (line 22). An absent key is an empty list in the datatype.
- Write errors are left out. The code discards the results of `fmt.Fprintf` (lines 74-100) and returns `nil`, so a failed write is never reported; `Write` cannot fail and there is no error path.
- The run-time meaning of the generated script (`$?`, `exit 1`, calling the hook) is left out. Only the text is modelled.
- The line view states the script as lines joined by newlines. It is not proved that splitting the text at newlines gives those lines back. That would hold only when no command contains a newline of its own.
