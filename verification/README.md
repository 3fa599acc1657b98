# ansible-navigator core, modelled in Dafny

This project models four sequential pieces of ansible-navigator and proves
properties about them.

- **Settings merge** (`utils/dict_merge.py`). `in_place_list_replace`
  merges one JSON-like value into another. Primitives, lists and tuples
  are replaced. Dicts are merged key by key. Any other combination is a
  `DictMergeError`. Dicts are ordered association lists (`Values.Entry`),
  so insertion order is part of the model.
- **Lint issue processing** (`actions/lint.py`). This covers:
  - the `Severity` enum and its two lookups;
  - the severity colours and `color_menu`;
  - `filter_content_keys`;
  - `massage_issue`, with its version-dependent `__message` and `__line`
    choices;
  - pulling the JSON line out of ansible-lint's output;
  - building and sorting the issues menu;
  - the modification-timestamp "rerun needed" pass;
  - the ansible-lint argument vector.

  Python's exceptions (`KeyError`, `TypeError`, `AttributeError`,
  `IndexError`) are `Failure` values. `expand_path`, the string rendering
  of a value, `time_stamp_for_file` and `json.loads` are function
  parameters.
- **Command runner** (`command_runner/command_runner.py`).
  - The shell is a function from a command line to its exit status and
    captured output, and `post_process` is a function on commands. A
    second single-process model lets `post_process` raise.
  - `run_command`, `run_single_process`, the worker loop and the
    `PROCESSES` and worker-count arithmetic are modelled directly.
  - `run_multi_process` is modelled as a pool of workers sharing one
    FIFO pending queue. Any interleaving of "take the queue head" and
    "finish the current command" steps may happen. The model proves that
    every maximal interleaving completes each command exactly once.
- **Form button** (`ui_framework/form_handler_button.py`). This covers:
  - how `populate` picks the colour and text;
  - the `handle` key loop, with the keys as a sequence instead of
    `getch`.

Modules, one per file:
- `Wrappers` (`Option`, `Result`);
- `Text`, for Python string operations;
- `Values`, for JSON values and dicts;
- `DictMerge`;
- `LintIssues` and `LintIssueFacts`, both in `lint_issues.dfy`;
- `LintMenu`;
- `CommandRunner`;
- `WorkerPool`;
- `FormButton`.

## Model

| member | source | states |
|---|---|---|
| DictMerge.Merge | src/ansible_navigator/utils/dict_merge.py:33-56 | None or primitive left gives right; list or tuple left gives right; a non-dict right into a dict fails; any other left fails; a successful dict merge is a dict with the union of the keys, left's keys first |
| DictMerge.MergeEntries | src/ansible_navigator/utils/dict_merge.py:42-46 | the merged keys are the union of both key sets; keys absent from right keep left's value; left's keys keep their order as a prefix |
| DictMerge.MergeKey | src/ansible_navigator/utils/dict_merge.py:43-46 | one right key updates a common key in place, or is appended at the end when new; every other key is untouched |
| DictMerge.MergeEntriesPointwise | src/ansible_navigator/utils/dict_merge.py:40-49 | a dict merge succeeds exactly when every common key's values merge; a common key then holds the recursive merge, a right-only key holds right's value, a left-only key holds left's value |
| DictMerge.MergeDicts | src/ansible_navigator/utils/dict_merge.py:40-46 | the same pointwise characterisation, stated on `Merge` of two dicts |
| DictMerge.MergeEmptyDict | src/ansible_navigator/utils/dict_merge.py:40-46 | merging an empty dict into a dict leaves it unchanged |
| DictMerge.MergeEntriesKeyOrder | src/ansible_navigator/utils/dict_merge.py:42-46 | the merged key order is left's keys, then right's new keys in right's order |
| DictMerge.MergeWellFormed | src/ansible_navigator/utils/dict_merge.py:33-56 | merging dicts with distinct keys, at every depth, gives such a dict again |
| DictMerge.MergeIdempotent | src/ansible_navigator/utils/dict_merge.py:33-56 | a value whose dicts have distinct keys and that holds no unsupported object, merged into itself, is unchanged |
| DictMerge.MergeEntriesUnchanged | src/ansible_navigator/utils/dict_merge.py:42-46 | merging in entries left already holds changes nothing |
| LintIssues.SeverityByName | src/ansible_navigator/actions/lint.py:57-71 | `Severity[name]` finds the member with that name, or nothing when no member has it |
| LintIssues.SeverityByValue | src/ansible_navigator/actions/lint.py:73-83 | `Severity(value)` finds the member with that level; `_missing_` gives UNKNOWN for any other value |
| LintIssues.SeverityLookupsRoundTrip | src/ansible_navigator/actions/lint.py:57-83 | each member is found again by its name and by its level |
| LintIssues.SeverityToColor | src/ansible_navigator/actions/lint.py:86-103 | case-sensitive, both directions: minor is magenta, major yellow, critical and blocker red, info cyan, anything else black |
| LintIssues.ColorMenu | src/ansible_navigator/actions/lint.py:106-117 | succeeds exactly when the entry is a dict with a `severity`; the foreground is that severity's colour; the background is always black |
| LintIssues.Index | src/ansible_navigator/actions/lint.py:173 | `value[key]` succeeds exactly on a dict holding the key, and yields its value |
| LintIssues.FilterContentKeys | src/ansible_navigator/actions/lint.py:150-160 | keeps exactly the keys that neither start with `__` nor equal `fingerprint`, with their values unchanged |
| LintIssues.FilterContentKeysIdempotent | src/ansible_navigator/actions/lint.py:150-160 | filtering twice is filtering once |
| LintIssues.FilterContentKeysAppend | src/ansible_navigator/actions/lint.py:160 | the filter keeps order: filtering a concatenation concatenates the filtered parts |
| LintIssues.FilterContentKeysOne | src/ansible_navigator/actions/lint.py:160 | a single entry is kept exactly when its key is shown |
| LintIssues.LegacyMessage | src/ansible_navigator/actions/lint.py:178-179 | taking the piece after the first `]` succeeds exactly when there is a `]`, and raises `IndexError` otherwise |
| LintIssues.Annotate | src/ansible_navigator/actions/lint.py:172-192 | the copy holds the original keys plus the five injected ones, and every other key keeps its value |
| Values.PutAllLast | src/ansible_navigator/actions/lint.py:172-192 | after a run of stores, a key holds the value of its last store, so each of the five assignments is visible in the copy |
| LintIssues.AnnotateStores | src/ansible_navigator/actions/lint.py:172-192 | the annotated copy is exactly the five assignments applied in source order |
| LintIssues.Massage | src/ansible_navigator/actions/lint.py:163-193 | the original keys and values are kept; `__severity` is the capitalised severity; `__path` is the expanded `location.path`; `issue_path` is that path, a colon and the rendered `__line` |
| LintIssueFacts.IssueLineSucceeds | src/ansible_navigator/actions/lint.py:183-191 | the `__line` lookup succeeds exactly on locations where one of its three branches can read a value |
| LintIssueFacts.MassageSucceeds | src/ansible_navigator/actions/lint.py:163-193 | `massage_issue` raises exactly on records that are not readable codeclimate issues |
| LintIssueFacts.IssueLineChoice | src/ansible_navigator/actions/lint.py:183-191 | the line lookup's choice, stated on paths into the location |
| LintIssueFacts.MassageLine | src/ansible_navigator/actions/lint.py:183-191 | `__line` is `lines.begin.line` when `lines.begin` is a mapping, else `positions.begin` when that is a mapping, else `lines.begin` |
| LintIssueFacts.MassageMessage | src/ansible_navigator/actions/lint.py:178-181 | `__message` is the stripped text between the first `]` and the next one (or the end) when `check_name` starts with `[`; otherwise it is `description` |
| LintIssueFacts.LegacyCheckName | src/ansible_navigator/actions/lint.py:174-179 | for a 6.1-style check name `[rule]text` the message is the stripped `text` |
| LintIssueFacts.MassageContent | src/ansible_navigator/actions/lint.py:150-193 | the content view of a massaged issue is the original's visible entries, unchanged and in order, plus `issue_path` |
| LintMenu.LastNonEmpty | src/ansible_navigator/actions/lint.py:334-338 | nothing exactly when every line is empty; otherwise a non-empty line after which every line is empty |
| LintMenu.PullOutJson | src/ansible_navigator/actions/lint.py:319-338 | `None` exactly when every output line is empty; otherwise the last non-empty line of `splitlines()`, which has no line break |
| LintMenu.PullOutJsonAfterWarnings | src/ansible_navigator/actions/lint.py:319-338 | after warning lines, a non-empty final line is the line pulled out |
| LintMenu.SortDescending | src/ansible_navigator/actions/lint.py:495-499 | `sorted(..., reverse=True)` gives keys that never increase and is a permutation |
| LintMenu.SortDescendingStable | src/ansible_navigator/actions/lint.py:495-499 | the sort is stable: the items sharing one key keep their input order |
| LintMenu.MapAll | src/ansible_navigator/actions/lint.py:493 | a comprehension succeeds exactly when every call does, element by element; otherwise the first failure is raised |
| LintMenu.RankAsWritten | src/ansible_navigator/actions/lint.py:497 | the sort key, as written, is the level of the upper-cased severity's name; an unknown name raises `KeyError` |
| LintMenu.Rank | src/ansible_navigator/actions/lint.py:63-71 | the corrected key agrees with the written one where that succeeds; it is UNKNOWN's -1 otherwise |
| LintMenu.SortIssues | src/ansible_navigator/actions/lint.py:493-499 | the issues menu: severity levels never increase, the issues are a permutation, and equal severities keep input order |
| LintMenu.SortIssuesAsWritten | src/ansible_navigator/actions/lint.py:495-499 | raises exactly when some severity has no member name, with the first such issue's `KeyError`; otherwise it equals the corrected sort |
| LintMenu.UnexpectedSeverityRaises | src/ansible_navigator/actions/lint.py:497 | an issue with severity "warning" makes the sort raise `KeyError('WARNING')` |
| LintMenu.GreaterFirst | src/ansible_navigator/actions/lint.py:495-499 | in the sorted menu a higher severity comes first |
| LintMenu.UnknownSeverityLast | src/ansible_navigator/actions/lint.py:69-71 | with the corrected key, an unknown severity sorts after every known one |
| LintMenu.LowestLast | src/ansible_navigator/actions/lint.py:69-71 | in a reverse-sorted sequence whose keys are at least the lowest level, the items at that level come after all the others |
| LintMenu.Items | src/ansible_navigator/actions/lint.py:488-493 | `len()` and iteration of the decoded JSON: a list's items, a dict's keys in order as strings, a string's characters; None, booleans and numbers raise `TypeError` |
| LintMenu.MassageAll | src/ansible_navigator/actions/lint.py:493 | every raw issue is massaged, in order, or the first failure is raised |
| LintMenu.BuildIssuesMenu | src/ansible_navigator/actions/lint.py:445-499 | "not installed" exactly on a failed run whose output names the missing executable; "no JSON" exactly when no line can be pulled out; "could not parse" exactly when `json.loads` of that line fails; `len()` of a decoded value that is not a collection raises `TypeError`; a failing `massage_issue` raises the first issue's error; once the issues are massaged, it raises exactly when some severity has no member name; a menu holds the massaged issues in the stable descending-severity order, and the congratulation appears exactly when there are none |
| LintMenu.SortedMenu | src/ansible_navigator/actions/lint.py:488-499 | the sort as written raises exactly when some severity has no member name; otherwise the menu is the stable descending-severity order of the issues, a non-increasing permutation |
| LintMenu.StampAll | src/ansible_navigator/actions/lint.py:518-558 | every entry gets its own path's stamp; each distinct path is queried once; a rerun is needed exactly when some entry's check says changed |
| LintMenu.StampIssue | src/ansible_navigator/actions/lint.py:538-540 | writes the ISO stamp to `last_modified` and the unix stamp to `__last_modified`, leaving every other key alone |
| LintMenu.StampKeepsPath | src/ansible_navigator/actions/lint.py:527-540 | stamping never changes an issue's `__path` |
| LintMenu.UnchangedFileNoRerun | src/ansible_navigator/actions/lint.py:543-553 | checking again with the stamp just written finds no change |
| LintMenu.RerunNeeded | src/ansible_navigator/actions/lint.py:518-558 | rerun exactly when some issue's file has a timestamp, and there is no previous one or the previous one is strictly smaller; issues sharing a path get the same stamps; each path is queried once |
| LintMenu.MassagedHasPath | src/ansible_navigator/actions/lint.py:182 | every massaged issue carries the string `__path` the timestamp pass reads |
| LintMenu.LintCommandLine | src/ansible_navigator/actions/lint.py:279-303 | the arguments start `-qq --offline`; interactive mode adds `--nocolor -f codeclimate`, otherwise `--nocolor` is added when colour is off; then `-c config`; the lintables path comes last, and a missing path is reported instead |
| CommandRunner.NewCommand | src/ansible_navigator/command_runner/command_runner.py:24-41 | a new command holds the dataclass defaults |
| CommandRunner.StdoutLines | src/ansible_navigator/command_runner/command_runner.py:52-59 | `stdout_lines` are line-break-free lines, none exactly for empty output |
| CommandRunner.StderrLines | src/ansible_navigator/command_runner/command_runner.py:43-50 | `stderr_lines` are line-break-free lines, none exactly for empty output |
| CommandRunner.PrintedLinesRoundTrip | src/ansible_navigator/command_runner/command_runner.py:43-59 | output printed line by line is split back into exactly those lines |
| CommandRunner.RunCommand | src/ansible_navigator/command_runner/command_runner.py:62-81 | status 0 sets the return code and stdout and keeps stderr; any other status also sets stderr; no other field changes |
| CommandRunner.RunSingleProcess | src/ansible_navigator/command_runner/command_runner.py:112-126 | for a `post_process` that never raises: the results have the input's length, and result i is command i run and then post-processed |
| CommandRunner.RunSingleProcessRaising | src/ansible_navigator/command_runner/command_runner.py:121-126 | with a `post_process` that may raise: success exactly when no command's post-processing raises, with result i from command i; otherwise the error of the first command that raises, after every earlier command succeeded |
| CommandRunner.NeverRaisingPostProcess | src/ansible_navigator/command_runner/command_runner.py:122-125 | a `post_process` that never raises gives, command by command, the results of the total model |
| CommandRunner.Processes | src/ansible_navigator/command_runner/command_runner.py:21 | `PROCESSES` is the CPU count less one, or 1 when that is zero; it is at least 1 |
| CommandRunner.WorkerCount | src/ansible_navigator/command_runner/command_runner.py:161 | the worker count is the smaller of the job count and the process count |
| CommandRunner.SomeWorkerForJobs | src/ansible_navigator/command_runner/command_runner.py:21-161 | there are no workers exactly when there are no jobs |
| CommandRunner.Enqueue | src/ansible_navigator/command_runner/command_runner.py:172-175 | the pending queue holds the jobs in order, then one sentinel per worker |
| CommandRunner.FirstSentinel | src/ansible_navigator/command_runner/command_runner.py:94-97 | the position of the first `None` in the queue, or its length when there is none |
| CommandRunner.Worker | src/ansible_navigator/command_runner/command_runner.py:84-100 | a lone worker completes exactly the items before the first sentinel, in order, each run and then post-processed; it stops exactly when there is a sentinel; items after it are left |
| CommandRunner.FirstSentinelOfEnqueue | src/ansible_navigator/command_runner/command_runner.py:172-175 | on the filled queue the first sentinel comes right after the last job |
| CommandRunner.SingleWorker | src/ansible_navigator/command_runner/command_runner.py:84-100 | one worker on the queue filled for it completes exactly the single-process results, in order, stops, and leaves the queue empty |
| WorkerPool.Run | src/ansible_navigator/command_runner/command_runner.py:84-100 | the interpreter of a schedule of worker steps (a worker taking the next queue item, a worker putting its processed command on the completed queue); it never adds or removes workers, and `WorkerPool.AnyScheduleProcessesAll` states the outcome of any schedule that ends final |
| WorkerPool.FinalIffStuck | src/ansible_navigator/command_runner/command_runner.py:94-100 | the pool is final exactly when no worker can take a step |
| WorkerPool.StartInv | src/ansible_navigator/command_runner/command_runner.py:161-175 | the freshly filled queue and idle workers satisfy the pool invariant |
| WorkerPool.NextInv | src/ansible_navigator/command_runner/command_runner.py:94-100 | every worker step preserves the pool invariant |
| WorkerPool.FinalComplete | src/ansible_navigator/command_runner/command_runner.py:94-100 | in a final pool every job was taken, every worker has stopped, and the completed commands are a permutation of the processed jobs |
| WorkerPool.AnyScheduleProcessesAll | src/ansible_navigator/command_runner/command_runner.py:148-175 | whatever the interleaving, the completed queue ends as a permutation of the processed jobs, and every worker has stopped |
| WorkerPool.Schedule | src/ansible_navigator/command_runner/command_runner.py:94-100 | from any pool, some interleaving reaches a pool where no step is enabled |
| WorkerPool.StartNeverDeadlocks | src/ansible_navigator/command_runner/command_runner.py:161-175 | from the queue `start_workers` fills, one interleaving ends with every worker stopped, nothing pending and every job completed once; with `WorkerPool.FinalIffStuck` and `WorkerPool.AnyScheduleProcessesAll`, every interleaving that gets stuck has this outcome |
| WorkerPool.StartWorkers | src/ansible_navigator/command_runner/command_runner.py:152-177 | raises `RuntimeError` exactly when there is no pending queue; otherwise min(jobs, processes) workers run to a final pool; from drained queues every job is completed once |
| WorkerPool.RunMultiProcess | src/ansible_navigator/command_runner/command_runner.py:128-150 | exactly one result per command; the results are a permutation of the commands run and post-processed; the queues are drained again afterwards |
| WorkerPool.MultiMatchesSingle | tests/smoke/no_test_dependencies.py:112-121 | the multi-process results are the single-process results up to order |
| FormButton.Populate | src/ansible_navigator/ui_framework/form_handler_button.py:37-54 | raises `RuntimeError` exactly without a field; the colour is 8 when disabled, else the field's colour; without UI colour the text is the upper-cased text in brackets, else the raw text; column 0 and standout |
| FormButton.PopulateIgnoresPressed | src/ansible_navigator/ui_framework/form_handler_button.py:37-54 | being pressed does not change how a button is drawn |
| FormButton.Resolve | src/ansible_navigator/ui_framework/form_handler_button.py:67 | `form_fields[idx]` resolves exactly for indexes in range from `-len` to `len - 1`, counting negative ones from the end |
| FormButton.AwaitEndKey | src/ansible_navigator/ui_framework/form_handler_button.py:70-79 | the loop ends at the first resize, tab, newline or carriage return; every other key is ignored |
| FormButton.AfterKey | src/ansible_navigator/ui_framework/form_handler_button.py:76-79 | `pressed` becomes true exactly when the ending key is newline or carriage return and the field is enabled; nothing else changes |
| FormButton.Handle | src/ansible_navigator/ui_framework/form_handler_button.py:56-80 | a bad index raises `IndexError`; the field is drawn as `populate` says; the result is the field, updated by the first ending key, together with that key; the list holds the updated field |
| FormButton.HandleNeverPresses | src/ansible_navigator/ui_framework/form_handler_button.py:73-79 | a disabled field, or a tab or resize key, leaves the field unchanged |
| Text.SplitHasSecondPiece | src/ansible_navigator/actions/lint.py:179 | `split(sep)[1]` exists exactly when the separator occurs |
| Text.JoinSplit | src/ansible_navigator/actions/lint.py:179 | joining the pieces of a split with the separator gives back the text |
| Text.Strip | src/ansible_navigator/actions/lint.py:179 | `strip()` removes the leading and trailing whitespace and keeps the rest unchanged |
| Text.StripIdempotent | src/ansible_navigator/actions/lint.py:179 | stripping twice is stripping once |
| Text.Capitalize | src/ansible_navigator/actions/lint.py:173 | `capitalize()` upper-cases the first character and lower-cases the rest |
| Text.Upper | src/ansible_navigator/actions/lint.py:497 | `upper()` upper-cases every character and keeps the length |
| Text.SplitLinesOfTerminated | src/ansible_navigator/command_runner/command_runner.py:43-59 | `splitlines()` of lines each ended by a newline gives back exactly those lines |

## Left out

- Real processes, `multiprocessing` queues and the Manager are not modelled. Concurrency is the interleaving of worker steps. Joining before draining, and workers that die, are not modelled.
- The shell (`subprocess.run`) is a deterministic function from command line to exit status and output, and `post_process` is a function parameter. In Python each `Command` carries its own `post_process`; here one function serves every command, so per-command behaviour is expressible only by dispatching on the command's fields. Commands are values, not mutated objects.
- `runner/command_async.py`, `actions/help_doc.py` and `actions/serialize_json.py` are not modelled: they are thin wrappers over a foreign library or UI dispatch.
- These lint UI flows are not modelled: `run`, `update` with its 2-second throttle, `_take_step`, `_fatal`, the notification forms, `content_heading`, and the `Command(...).run()` call in `_run_runner`. They are UI, clock and library calls.
- `_max_severity_color` (`actions/lint.py:406-413`) is not modelled. It uses the same name lookup as the sort, so the finding below applies to it as well.
- `json.loads`, `expand_path`, `time_stamp_for_file` and the `f"{...}"` rendering of non-string values are function parameters, not implementations.
- Case mapping covers ASCII letters only, not Unicode.
- Dict keys are strings only.
- Floats are Dafny reals.
- DictMerge.Merge: values are trees. A dict shared between two places in Python's `left` (through a YAML anchor, say) is changed in both places by the in-place merge at line 44. In the model only the merged place changes.
- DictMerge.Merge: a merge that fails part way has already written earlier keys into Python's `left` in place. The model returns only the error.
- DictMerge.Merge: the `TypeError` handler at lines 53-55 is not modelled. No JSON-like value reaches it.
- LintIssues.Massage: the error kinds for non-dict records approximate Python's exception types. Success and failure agree exactly.
- CommandRunner.Worker: a `post_process` that raises inside a worker process is not modelled. It ends only that worker, and the pool model has no state for a dead worker. `WorkerPool.RunMultiProcess` and `WorkerPool.StartWorkers` likewise assume it never raises.
- LintMenu.BuildIssuesMenu: it stops at the sorted menu and omits the timestamp pass at line 502. `LintMenu.RerunNeeded` models that pass.
- LintMenu.RerunNeeded: it requires a string `__path` in every entry, so the `KeyError` for a missing one is not modelled. `LintMenu.MassagedHasPath` shows that `massage_issue` always writes it.
- LintMenu.RerunNeeded: when a comparison raises, Python has already stamped the earlier entries. The model returns only the error.
- WorkerPool.StartWorkers: it requires the completed queue to exist, as `run_multi_process` guarantees.
- WorkerPool.RunMultiProcess: it requires at least one process and drained queues. `PROCESSES` is always at least 1, and the function proves the queues are drained again afterwards.
- FormButton.Handle: a `Waiting` outcome stands for a `getch` that never returns a key that ends the loop. Drawing through curses is not modelled.

## Findings

| source | as written | input that shows it | evidently intended | confidence | as-written member | corrected member |
|---|---|---|---|---|---|---|
| src/ansible_navigator/actions/lint.py:495-499 | the sort key is `Severity[i["severity"].upper()]`. This is a lookup by member name, which raises `KeyError` for a name that is not a member; `_missing_` only catches lookups by value | an issue with severity "warning" | an unexpected severity is UNKNOWN (-1) and sorts last, as the comment at lines 69-71 says | not executed | LintMenu.SortIssuesAsWritten, LintMenu.UnexpectedSeverityRaises, LintMenu.BuildIssuesMenu | LintMenu.Rank, LintMenu.SortIssues, LintMenu.UnknownSeverityLast |
