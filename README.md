# zezployee in Dafny

zezployee picks an open GitHub issue, hands it to a coding agent and
publishes the agent's work as a pull request. This project models the
deterministic core of that pipeline and proves properties of it:

- **Agent integration** (`claude_integration.dfy`, module `ClaudeIntegration`)
  - The prompt written for an issue.
  - The reduction of the agent's message stream to one result record. The first `result` message decides; otherwise the last `assistant` message is used, else "No response".
  - The per-message records kept with a success.
  - The change summary built from the outputs of the three git commands.
- **GitHub client** (`github_client.dfy`, module `GitHub`)
  - Which repository the `origin` remote names.
  - Which listed issues are real issues.
  - The token-authenticated push URL.
  - The pull request's title and body.
  - The client object, a class whose `repo` field is set by `SetupRepo`.
- **Issue picker** (`issue_selector.dfy`, module `IssueSelector`)
  - The table cells: title, labels, and numbering from 1.
  - The choose-then-confirm dialogue, driven by a scripted list of answers.
- **Python string operations** (`strings.dfy`, module `Strings`): the `str` operations the three files rely on, written with CPython's semantics except where "## Left out" says otherwise.
  - `strip()`, with exactly the `isspace()` characters.
  - `find`, `in`, `startswith` and `endswith`.
  - `replace(p, '')`, `split(sep)`, `split(sep)[1]` and `sep.join`.
  - The slice-plus-ellipsis truncation.
  - `str(int)`, and `int(str)` with sign, single underscores, and surrounding whitespace taken as the whole `isspace()` set.
  - The ASCII part of `lower()`.
- **Wrappers** (`wrappers.dfy`): `Option` and `Result`.

Each loop or mutation in the source is written as a Dafny method with loop invariants:

- collecting the stream;
- the scan that breaks at the first result;
- the list comprehensions;
- the `append`/`extend` building of the change list;
- the dict filled by `_message_to_dict`;
- the issue filter;
- the table rows;
- the `while True` prompt loop.

Each such method is proved equal to a specification function. The properties are proved as lemmas about those functions.

Messages are duck-typed in the source (`hasattr`/`getattr`). A message is therefore modelled as its class name and a table of the attributes it happens to have, with `PyValue` standing for the Python values the code reads or copies.

Facts about the code that shape the model:

- A result message whose `subtype` is not `success` gives a failure record with the error `Claude Code failed: <subtype>` (claude_integration.py:71-78).
- Each untracked file becomes its own `- <file>` piece, and all pieces are joined with a blank line (claude_integration.py:174-181).
- A result message without a `subtype` still supplies `session_id` and `total_cost_usd` to the assistant-message fallback, because the scan has already read them (claude_integration.py:50-56). The defaults apply only when there is no result message at all.
- The agent runs with `max_turns=10` and no time limit (claude_integration.py:35-38).
- A stream with neither a result nor an assistant message gives a failure record with the error `No response from Claude Code` (claude_integration.py:100-104).

## Model

| member | source | states |
|---|---|---|
| Strings.Strip | zezployee/github_client.py:25 | `strip()` leaves no whitespace at either end, never grows the text, and is empty exactly when the text is all whitespace |
| Strings.StripSlice | zezployee/github_client.py:25 | `strip()` gives a slice of the text with only whitespace before and after it |
| Strings.StripPadded | zezployee/github_client.py:25 | a slice with non-space ends and only whitespace around it is exactly what `strip()` gives |
| Strings.StripUnpadded | zezployee/github_client.py:25 | text with no whitespace at either end is left unchanged by `strip()` |
| Strings.IndexOf | zezployee/github_client.py:28 | `find` gives an index where the pattern occurs with no occurrence before it, and none exactly when the pattern does not occur |
| Strings.SecondField | zezployee/github_client.py:31 | `split(sep)[1]` is absent (IndexError) exactly when `sep` does not occur; otherwise it is separator-free, starts right after the first occurrence, and ends at the next occurrence or at the end of the text |
| Strings.FieldFrom | zezployee/github_client.py:31 | `split(sep)[0]` of a text is its separator-free prefix ending at the first occurrence or at the end |
| Strings.SecondFieldIsRest | zezployee/github_client.py:34 | when the separator occurs once, first at `i`, the second field is everything after it |
| Strings.RemoveAllKeep | zezployee/github_client.py:31 | `replace(p, '')` keeps a prefix in which `p` starts nowhere |
| Strings.RemoveAllAbsent | zezployee/github_client.py:141 | `replace(p, '')` leaves text without `p` unchanged |
| Strings.Split | zezployee/claude_integration.py:176 | `split(sep)` gives at least one piece and no piece contains the separator |
| Strings.SplitAbsent | zezployee/claude_integration.py:176 | text without the separator splits into itself alone |
| Strings.JoinSplit | zezployee/claude_integration.py:176 | joining the pieces of `split(c)` with `c` gives back the text |
| Strings.SplitTwo | zezployee/claude_integration.py:176 | two separator-free names around one newline split into exactly those two names |
| Strings.JoinStartsWithFirst | zezployee/issue_selector.py:27 | a joined list starts with its first element |
| Strings.Truncate | zezployee/github_client.py:96 | the first `n` characters, with `...` exactly when the text is longer than `n`; unchanged otherwise |
| Strings.Lower | zezployee/issue_selector.py:53 | `lower()` keeps the length and lower-cases each ASCII letter |
| Strings.Decimal | zezployee/issue_selector.py:37 | `str(n)` is non-empty, unpadded and made of digits and the minus sign |
| Strings.Literal | zezployee/issue_selector.py:56 | an accepted literal ends in a digit |
| Strings.ParseInt | zezployee/issue_selector.py:56 | `int()` succeeds only on text that is not blank |
| Strings.LiteralGrammar | zezployee/issue_selector.py:56 | a literal is accepted exactly when it is an optional sign followed by digit groups joined by single underscores |
| Strings.LiteralValue | zezployee/issue_selector.py:56 | every accepted literal reads as the base-10 value of its digits with underscores skipped, negated after `-`, so `+` and leading zeros change nothing |
| Strings.AcceptedValue | zezployee/issue_selector.py:56 | whatever `int()` accepts after stripping reads as the value its sign and digits denote |
| Strings.ParseIntValue | zezployee/issue_selector.py:56 | the number `int()` returns is the signed value of the stripped text: its digits in base 10 with underscores skipped, negated after a leading `-` |
| Strings.ParseIntGrammar | zezployee/issue_selector.py:56 | `int()` succeeds exactly when the text is such a literal with only `isspace()` whitespace around it |
| Strings.DigitGroupsSnoc | zezployee/issue_selector.py:56 | digit groups extended by a digit, or by an underscore and a digit, are still digit groups |
| Strings.LiteralOfDigits | zezployee/issue_selector.py:56 | a run of decimal digits, with or without a leading `-`, reads as that number or its negation |
| Strings.ParseDecimal | zezployee/issue_selector.py:56 | `int(str(n)) == n` for every integer |
| Strings.UnderscoreExamples | zezployee/issue_selector.py:56 | `1_0` reads as 10 and `-1` as -1; `1__0`, `_1` and `1_` are rejected |
| Strings.DecimalInjective | zezployee/github_client.py:88 | different numbers print differently |
| Strings.NumberThenDelimiter | zezployee/github_client.py:88 | a number printed between a fixed prefix and a non-digit can be read back uniquely |
| GitHub.ToIssue | zezployee/github_client.py:58-66 | the record keeps number, title and labels, and a missing body becomes `''` |
| GitHub.OpenIssuesAppend | zezployee/github_client.py:54-67 | the filter distributes over concatenation, so listing order is kept |
| GitHub.OpenIssuesMembers | zezployee/github_client.py:55-57 | a record is returned exactly when some listed entry that is not a pull request produced it |
| GitHub.OpenIssuesCount | zezployee/github_client.py:55-57 | at most one record per entry; none when all are pull requests; one per entry when none is |
| GitHub.GitHubClient.GetOpenIssues | zezployee/github_client.py:52-67 | the append loop returns exactly the filtered, converted list |
| GitHub.RemoteSegment | zezployee/github_client.py:28-38 | `Not a GitHub repository` exactly when `github.com` is absent; IndexError exactly when the separator chosen by the `git@` test is absent; otherwise the segment is the separator-free field that follows the first separator, up to the next one or the end |
| GitHub.StripGitSuffix | zezployee/github_client.py:30 | only a trailing `.git` is removed |
| GitHub.RepoFromRemoteAsWritten | zezployee/github_client.py:17-41 | a failed `git remote` raises `Could not get git remote URL`; `Not a GitHub repository` exactly when the stripped output lacks `github.com` |
| GitHub.RepoFromRemote | zezployee/github_client.py:17-41 | the same error cases, with only a trailing `.git` removed |
| GitHub.SshSegment | zezployee/github_client.py:29-31 | `git@github.com:<path>.git` yields the segment `<path>.git` for a path without a colon |
| GitHub.SshSecondField | zezployee/github_client.py:31 | the SSH form splits at the colon ending `git@github.com:` |
| GitHub.HttpsSegment | zezployee/github_client.py:32-34 | `https://github.com/<path>.git` yields the segment `<path>.git` when `github.com/` is not in the path |
| GitHub.HttpsSecondField | zezployee/github_client.py:34 | the HTTPS form splits at the `github.com/` ending `https://github.com/` |
| GitHub.SecondFieldAfterPrefix | zezployee/github_client.py:31-34 | a separator first found at the end of a fixed prefix splits off the rest |
| GitHub.RepoFromSshRemote | zezployee/github_client.py:29-31 | the SSH remote names `<path>` for every colon-free path |
| GitHub.RepoFromHttpsRemote | zezployee/github_client.py:32-34 | the HTTPS remote names `<path>` whenever `github.com/` is not in it |
| GitHub.RemoveAllSuffix | zezployee/github_client.py:31 | deleting every `.git` from `<path>.git` gives `<path>` when the path holds no `.git` |
| GitHub.AsWrittenAgreesOnPlainPaths | zezployee/github_client.py:29-34 | on paths without `.git`, the as-written and the intended parsing both give the path |
| GitHub.PagesSegmentRemoval | zezployee/github_client.py:31 | deleting every `.git` from `octo/octo.github.io.git` gives `octo/octohub.io` |
| GitHub.SetupRepoPagesCounterexample | zezployee/github_client.py:31 | for `git@github.com:octo/octo.github.io.git` the as-written client looks up `octo/octohub.io`; the intended one looks up `octo/octo.github.io` |
| GitHub.RemovalCanLeaveGit | zezployee/github_client.py:31 | one pass of `replace('.git', '')` can leave a `.git` behind |
| GitHub.AsWrittenPathKeepsGit | zezployee/github_client.py:29-31 | so the path the as-written client looks up can itself be `.git` |
| GitHub.TokenRemoteAsWritten | zezployee/github_client.py:139-150 | a URL is produced exactly for the SSH and HTTPS GitHub forms; it starts `https://<token>@github.com/` and ends `.git` |
| GitHub.TokenRemote | zezployee/github_client.py:139-150 | the same, with the prefix cut off and only a trailing `.git` removed |
| GitHub.TokenRemoteForms | zezployee/github_client.py:139-148 | both forms of one repository, with or without `.git`, give the token URL naming that repository |
| GitHub.TokenRemoteAgreesOnPlainPaths | zezployee/github_client.py:139-148 | on paths without `.git`, the as-written and the intended rewriting give the same token URL for both remote forms |
| GitHub.TokenRemoteAsWrittenSsh | zezployee/github_client.py:139-142 | the as-written rewrite of `git@github.com:<path>.git` is the token URL of `<path>` when the path holds no `.git` |
| GitHub.TokenRemoteAsWrittenHttps | zezployee/github_client.py:145-148 | the as-written rewrite of `https://github.com/<path>.git` is the token URL of `<path>` when the path holds no `.git` |
| GitHub.TokenRemotePagesCounterexample | zezployee/github_client.py:141 | the as-written rewrite sends the push for `octo/octo.github.io` to `octo/octohub.io` |
| GitHub.ConfigureGitAuth | zezployee/github_client.py:121-153 | a missing or empty token raises `GITHUB_TOKEN environment variable not set` before the remote is read; without a remote URL nothing is set; otherwise the URL set is exactly the token URL of the stripped remote, and none for a non-GitHub form |
| GitHub.PrTitle | zezployee/github_client.py:88 | the title is exactly `Fix issue #<n>: ` followed by the issue title: it starts with the one, ends with the other, and has their combined length |
| GitHub.PrTitleNamesIssue | zezployee/github_client.py:88 | equal titles mean equal issue numbers and titles |
| GitHub.PrBody | zezployee/github_client.py:90-100 | the body is exactly `Fixes #<n>`, then the change summary between the `## Changes Made` and `## Issue Description` headings, then the issue text cut at 500 characters and the footer; it starts with `Fixes #<n>` and a newline |
| GitHub.PrBodyAfterNumber | zezployee/github_client.py:90-100 | what follows the number starts with a newline and ends with the truncated issue text and footer |
| GitHub.PrBodyNamesIssue | zezployee/github_client.py:90 | equal bodies close the same issue |
| GitHub.CreatePullRequest | zezployee/github_client.py:86-119 | succeeds exactly when the token is set and the push did not fail; the token error comes first; a failed push raises the push error; otherwise the request is from the branch into `main` with that title and body, after setting the token remote |
| GitHub.GitHubClient.constructor | zezployee/github_client.py:10-12 | a new client keeps its token and has `repo` None before `_setup_repo` runs |
| GitHub.GitHubClient.Create | zezployee/github_client.py:10-13 | construction succeeds exactly when the remote names a GitHub repository; the new client then holds the token and that repository, otherwise the `_setup_repo` error is raised |
| GitHub.GitHubClient.SetupRepo | zezployee/github_client.py:15-41 | `repo` becomes the resolved path, or is left unchanged and the exception is reported |
| ClaudeIntegration.GetAttr | zezployee/claude_integration.py:53-55 | `getattr` gives the attribute when present, else the default |
| ClaudeIntegration.MessageRecord | zezployee/claude_integration.py:112-121 | the record's keys are `type` plus exactly the listed attributes the message has; `type` defaults to `unknown`; values are copied |
| ClaudeIntegration.MessageToDict | zezployee/claude_integration.py:112-121 | the loop over the five attribute names builds exactly that record |
| ClaudeIntegration.Records | zezployee/claude_integration.py:69 | one record per message, in stream order |
| ClaudeIntegration.CollectRecords | zezployee/claude_integration.py:69 | the comprehension builds exactly those records |
| ClaudeIntegration.Bullets | zezployee/claude_integration.py:176 | one `- <name>` per name, in order |
| ClaudeIntegration.FileLines | zezployee/claude_integration.py:176 | one `- <name>` per line of the stripped listing, in order |
| ClaudeIntegration.Section | zezployee/claude_integration.py:166-172 | a section is empty exactly when its output is blank |
| ClaudeIntegration.NewFilesSection | zezployee/claude_integration.py:174-176 | the new-files section is empty exactly when the listing is blank |
| ClaudeIntegration.AppendSection | zezployee/claude_integration.py:166-172 | the two appends add exactly the section |
| ClaudeIntegration.AppendBullets | zezployee/claude_integration.py:176 | the `extend` adds exactly one bullet per name, in order |
| ClaudeIntegration.AppendNewFiles | zezployee/claude_integration.py:174-176 | the header and bullets are added exactly when the listing is not blank |
| ClaudeIntegration.ChangeSummary | zezployee/claude_integration.py:146-181 | the method's summary is the section-by-section specification |
| ClaudeIntegration.SummarySentinel | zezployee/claude_integration.py:178-181 | the summary is `No changes detected` exactly when all three outputs are blank |
| ClaudeIntegration.SectionsRoundTrip | zezployee/claude_integration.py:164-181 | the pieces read back into the three stripped outputs: each section is present exactly when its output is non-blank, in the order staged, unstaged, new files |
| ClaudeIntegration.TakeSectionPresent | zezployee/claude_integration.py:166-172 | a present section reads back as its header's stripped output |
| ClaudeIntegration.FileLinesRoundTrip | zezployee/claude_integration.py:176 | un-bulleting the bullets and joining with newlines gives back the stripped listing |
| ClaudeIntegration.ReadFilesBullets | zezployee/claude_integration.py:176 | the new-files section reads back bullet by bullet |
| ClaudeIntegration.ReadFilesRoundTrip | zezployee/claude_integration.py:174-176 | the new-files section reads back as the stripped listing |
| ClaudeIntegration.NewFilesOfTwo | zezployee/claude_integration.py:174-176 | a two-line listing gives the header and two bullets |
| ClaudeIntegration.TwoUntrackedFiles | zezployee/claude_integration.py:164-181 | with only two untracked files, the summary is the header and the two bullets, separated by blank lines |
| ClaudeIntegration.LabelsLine | zezployee/claude_integration.py:131 | `None` for no labels; otherwise it starts with the first label, and is that label alone when there is one |
| ClaudeIntegration.LabelsJoined | zezployee/claude_integration.py:131 | the labels line is the first label, `, `, then the line of the others |
| ClaudeIntegration.PromptAfterNumber | zezployee/claude_integration.py:125 | what follows the number starts with `:`, so no digit can be mistaken for part of it |
| ClaudeIntegration.Prompt | zezployee/claude_integration.py:123-144 | the prompt is the heading `# GitHub Issue #<n>: <title>`, then the `## Issue Description` section with the body and the `## Labels` section with the labels line, then the instructions, and nothing else |
| ClaudeIntegration.PromptNamesIssue | zezployee/claude_integration.py:125 | equal prompts are for the same issue number |
| ClaudeIntegration.FirstResult | zezployee/claude_integration.py:50-56 | the index of a result message with none before it; none exactly when there is no result message |
| ClaudeIntegration.Assistants | zezployee/claude_integration.py:81 | the filter keeps only assistant messages and never grows the list |
| ClaudeIntegration.AssistantsAppend | zezployee/claude_integration.py:81 | the filter distributes over concatenation |
| ClaudeIntegration.AssistantsEmpty | zezployee/claude_integration.py:81-82 | the filter is empty exactly when no message is an assistant message |
| ClaudeIntegration.AssistantsLast | zezployee/claude_integration.py:81-84 | `assistant_messages[-1]` is the stream's last assistant message |
| ClaudeIntegration.CollectStream | zezployee/claude_integration.py:41-42 | every streamed message is kept, in order |
| ClaudeIntegration.ScanForResult | zezployee/claude_integration.py:45-56 | the scan stops at the first result message and reads its metrics, with the defaults otherwise |
| ClaudeIntegration.CollectAssistants | zezployee/claude_integration.py:81 | the comprehension builds exactly the filtered list |
| ClaudeIntegration.ReportResult | zezployee/claude_integration.py:58-78 | the result branch builds exactly the specified record |
| ClaudeIntegration.ReportAssistants | zezployee/claude_integration.py:79-104 | the fallback branch builds exactly the specified record |
| ClaudeIntegration.ReportLastAssistant | zezployee/claude_integration.py:84-99 | the output is read off the last assistant message, or its missing `message` attribute is reported |
| ClaudeIntegration.RunClaudeCode | zezployee/claude_integration.py:29-110 | the whole method is the reducer of the specification, with a raised stream reported as an SDK error |
| ClaudeIntegration.FirstResultAt | zezployee/claude_integration.py:50-56 | after non-result messages, a result message is the first one found |
| ClaudeIntegration.FirstResultDecides | zezployee/claude_integration.py:50-78 | only the first result message decides, whatever follows it. `success` gives its output (default `''`), its metrics and every message's record. Any other subtype gives `Claude Code failed: <subtype>` with its metrics |
| ClaudeIntegration.FromResultSuccess | zezployee/claude_integration.py:59-70 | a success from a result message carries the change summary and all records |
| ClaudeIntegration.FromAssistantsSuccess | zezployee/claude_integration.py:82-99 | a success from the fallback carries the change summary and all records |
| ClaudeIntegration.SuccessRecordsEveryMessage | zezployee/claude_integration.py:62-99 | every success records each message of the stream, in order and with the same length, with the working-tree summary |
| ClaudeIntegration.FallbackFromLastAssistant | zezployee/claude_integration.py:79-99 | without a decisive result, the output comes from the last assistant message and `turns` counts the assistant messages. Session and cost are the defaults when there is no result message. A missing `message` attribute is an SDK error |
| ClaudeIntegration.OtherOutcomes | zezployee/claude_integration.py:58-110 | with a decisive result or an assistant message, every failure text starts with `C`, so it is never `No response from Claude Code` |
| ClaudeIntegration.NoResponseExactly | zezployee/claude_integration.py:100-104 | `No response from Claude Code` exactly when there is no decisive result and no assistant message |
| ClaudeIntegration.OnlyResult | zezployee/claude_integration.py:50-78 | a stream of one result message is decided by that message and its own metrics |
| ClaudeIntegration.FixedTypoScenario | zezployee/claude_integration.py:58-70 | a `success` result with `Fixed.`, cost 0.02 and 3 turns reports that output and those metrics |
| ClaudeIntegration.MaxTurnsScenario | zezployee/claude_integration.py:71-78 | an `error_max_turns` result is `Claude Code failed: error_max_turns` with default metrics, whatever git reports |
| ClaudeIntegration.SolveIssue | zezployee/claude_integration.py:14-27 | the agent runs on the issue's prompt; an exception becomes `Failed to run Claude Code: <text>`; otherwise the reducer's record is returned |
| IssueSelector.TitleCell | zezployee/issue_selector.py:38 | the cell is never longer than 50, equals the title exactly when the title fits, and is otherwise exactly 50 characters: the first 47 and `...` |
| IssueSelector.LabelsCell | zezployee/issue_selector.py:27-29 | empty for no labels; otherwise it starts with the first label, and is that label alone when there is one |
| IssueSelector.LabelsCellJoined | zezployee/issue_selector.py:27 | with at most three labels, the cell is the first label, `, `, then the cell of the others |
| IssueSelector.LabelsCellShowsThree | zezployee/issue_selector.py:27-29 | labels after the third add only the `...`, and only when there are any |
| IssueSelector.TableRows | zezployee/issue_selector.py:26-41 | one row per issue, numbered from 1 in list order, with its title and labels cells |
| IssueSelector.IssueTable | zezployee/issue_selector.py:26-41 | the `add_row` loop builds exactly those rows |
| IssueSelector.Preview | zezployee/issue_selector.py:62-64 | no preview exactly for an empty body; otherwise the whole body when it has at most 200 characters, else its first 200 characters and `...` |
| IssueSelector.IsQuitLower | zezployee/issue_selector.py:53 | the quit test is `choice.lower() == 'q'` |
| IssueSelector.IsConfirmLower | zezployee/issue_selector.py:67 | the confirmation test is `confirm.lower() in ['y', 'yes']` |
| IssueSelector.QuitAnswers | zezployee/issue_selector.py:53-54 | exactly `q` and `Q` quit |
| IssueSelector.ConfirmAnswers | zezployee/issue_selector.py:66-67 | exactly `y` and `yes`, in any mix of cases, confirm |
| IssueSelector.NumberIsNotQuit | zezployee/issue_selector.py:53-56 | no printed number is taken for the quit answer |
| IssueSelector.Readings | zezployee/issue_selector.py:46-51 | one reading per answer |
| IssueSelector.ReadingsFrom | zezployee/issue_selector.py:46-51 | the answers still to come are read the same way |
| IssueSelector.ReadingAt | zezployee/issue_selector.py:46-51 | the reading at a position is that answer's reading |
| IssueSelector.ReadingsAppend | zezployee/issue_selector.py:46-51 | reading distributes over concatenation of answer lists |
| IssueSelector.Position | zezployee/issue_selector.py:56-58 | an index exactly when the number is between 1 and the list length, and it is the number minus one |
| IssueSelector.Confirm | zezployee/issue_selector.py:61-70 | a confirmation step that does not end the dialogue has read exactly the choice and one confirmation answer, which exists |
| IssueSelector.ConfirmOutcomes | zezployee/issue_selector.py:61-70 | the details come first; a typed `y`/`yes` selects the shown issue; any other typed answer only shows the details and asks again |
| IssueSelector.Ask | zezployee/issue_selector.py:46-78 | a pass that goes on has used between one answer and all of them |
| IssueSelector.AskOnce | zezployee/issue_selector.py:47-78 | one pass of the loop body is the specified pass |
| IssueSelector.ConfirmChoice | zezployee/issue_selector.py:61-70 | the details and confirmation step is the specified one |
| IssueSelector.ConverseStep | zezployee/issue_selector.py:46-78 | a pass that ends ends the dialogue; one that goes on is followed by the dialogue of the remaining answers |
| IssueSelector.Dialogue | zezployee/issue_selector.py:46-78 | the `while True` loop produces the specified conversation |
| IssueSelector.SelectIssue | zezployee/issue_selector.py:14-78 | `select_issue` is the specified session: nothing for an empty list, else the table and the dialogue |
| IssueSelector.SelectedOnlyWhenConfirmed | zezployee/issue_selector.py:56-68 | an issue is selected only when a valid position was chosen and the next answer confirmed it, and the issue is the one at that position |
| IssueSelector.PickedOnlyWhenConfirmed | zezployee/issue_selector.py:56-68 | on the answers: some typed choice names the issue by position and the next typed answer is `y`/`yes` |
| IssueSelector.PickByPosition | zezployee/issue_selector.py:36-68 | typing a row's printed number and confirming selects the issue on that row, after showing its details |
| IssueSelector.Rejections | zezployee/issue_selector.py:71-75 | one error notice per rejected choice, in order |
| IssueSelector.RejectedChoice | zezployee/issue_selector.py:71-75 | a rejected choice prints its error and the loop asks again |
| IssueSelector.InvalidChoicesReprompt | zezployee/issue_selector.py:46-75 | rejected choices only add their error notices before the rest of the dialogue, whose selection they do not change |
| IssueSelector.DeclinedChoice | zezployee/issue_selector.py:56-70 | a valid choice whose confirmation is declined adds only its details before the rest of the dialogue |
| IssueSelector.InvalidAnswersReprompt | zezployee/issue_selector.py:56-75 | non-quitting answers that name no position add `Invalid input` (not a number) or `Invalid selection` (out of range) each and change nothing else |
| IssueSelector.QuitStops | zezployee/issue_selector.py:53-54 | `q`/`Q` ends the dialogue at once with no selection |
| IssueSelector.InterruptCancels | zezployee/issue_selector.py:76-78 | an interrupted prompt prints `Cancelled.` and ends with no selection |

## Left out

- The agent SDK (`query`, `ClaudeCodeOptions`, `asyncio.run`) is foreign async I/O. The stream arrives as a finished list of messages, or as the text of the exception raised while reading it. `SolveIssue` takes the agent as a function from prompt to run.
- The git subprocesses are I/O. Their standard output and failures are parameters:
  - `_get_git_changes` gets the three outputs, or the text of an exception from starting git, which the outer handler reports as an SDK error.
  - `_setup_repo` and `_configure_git_auth` get the remote URL, or none when git fails.
  - `create_pull_request` gets the push error, if any.
- The `CalledProcessError` handler of `_get_git_changes` (claude_integration.py line 183) cannot be reached, because none of its git calls passes `check=True`. Its sentinel is not modelled.
- The PyGithub calls (`Github`, `get_repo`, `get_issues` paging, `create_pull`, `get_issue().edit`) are network I/O. They are left out, together with `get_repo_info`, `close_issue` and the PR URL returned. The client keeps the resolved `owner/name` path in place of the repository object.
- `create_branch` only runs two git commands; the branch it reads is unused. It is not modelled.
- The warning `_configure_git_auth` prints is console output. The model returns the URL to set, or none.
- cli.py is not part of this model.
- The Rich table, console and prompt rendering are not modelled. Neither are the age column, which reads the clock, nor the prompt texts.
  - The answers are what `Prompt.ask` returned, with its default (`1`, `y`) already applied.
  - `IssueSelector.Notice` records what is printed, not how it is styled.
- `IssueSelector.Dialogue`: the source asks forever. The model takes a finite list of answers and ends with `OutOfAnswers` when they run out.
- Costs are floats and are carried as opaque values (`PyOther`). Only `str()` of values is modelled: lists, objects and other values carry their own `str()` text.
- The truthiness test on the result message object is not modelled; SDK message objects are always truthy.
- `Strings.ParseInt`: `int()` also accepts non-ASCII Unicode digits; only ASCII digits are modelled.
- `Strings.ParseInt`: strips the whole `isspace()` set around the literal, as `strip()` does. CPython's `int()` does not skip U+001C to U+001F, so it rejects `"\x1c7"` where the model gives 7.
- `Strings.ParseIntGrammar`: its "only whitespace around it" has the same gap: U+001C to U+001F count as whitespace there, as in `Strings.ParseInt`.
- `Strings.Lower`: only ASCII letters are lower-cased, which is all that the `q`/`y`/`yes` comparisons can match.
- `GitHub.GitHubClient.SetupRepo`: resolves the repository by removing only a trailing `.git` (`RepoFromRemote`), not by the `.replace('.git', '')` of lines 31 and 34. The as-written parsing is `RepoFromRemoteAsWritten`; `AsWrittenAgreesOnPlainPaths` shows the two agree on paths without `.git`, and the first Findings row shows where they differ.
- `GitHub.GitHubClient.Create`: goes through `SetupRepo`, so it too uses the trailing-`.git` removal rather than the as-written `.replace`.
- `GitHub.ConfigureGitAuth`: builds the token URL by removing only a trailing `.git` (`TokenRemote`), not by the `.replace('.git', '')` of lines 141 and 147. The as-written rewrite is `TokenRemoteAsWritten`; `TokenRemoteAgreesOnPlainPaths` shows the two agree on paths without `.git`, and the second Findings row shows where they differ.
- `GitHub.CreatePullRequest`: sets the remote through `ConfigureGitAuth`, so it too uses the trailing-`.git` removal rather than the as-written `.replace`.
- `GitHub.CreatePullRequest`: when the push fails, the source has already run `git remote set-url` (github_client.py lines 143 and 149). The model's error result does not record that the remote was rewritten.
- `ClaudeIntegration.MessageRecord`: a record is a `map`, so it does not keep the insertion order of the Python dict (`type` first, then the listed attributes in order); nothing in the code reads that order. The same holds for `ClaudeIntegration.MessageToDict`.
- `ClaudeIntegration.FallbackFromLastAssistant`: states the default session and cost only when there is no result message at all. With a subtype-less result message, the code copies that message's metrics.

## Findings

| source | as written | input that shows it | evidently intended | confidence | as-written member | corrected member |
|---|---|---|---|---|---|---|
| zezployee/github_client.py:31-34 | `.replace('.git', '')` deletes every `.git` in the repository segment, and one pass can also leave a new `.git` behind | remote `git@github.com:octo/octo.github.io.git` gives `octo/octohub.io` | remove only the trailing `.git`, as the `owner/repo.git` comments at lines 30 and 33 show | high, not executed | GitHub.RepoFromRemoteAsWritten, GitHub.SetupRepoPagesCounterexample, GitHub.AsWrittenPathKeepsGit | GitHub.RepoFromRemote, with GitHub.RepoFromSshRemote and GitHub.RepoFromHttpsRemote; used by GitHub.GitHubClient.SetupRepo and GitHub.GitHubClient.Create |
| zezployee/github_client.py:141-147 | the same `.replace('.git', '')` when building the token URL | remote `git@github.com:octo/octo.github.io.git` is rewritten to push to `octo/octohub.io` | the token URL names the same repository as the remote | high, not executed | GitHub.TokenRemoteAsWritten, GitHub.TokenRemotePagesCounterexample | GitHub.TokenRemote, with GitHub.TokenRemoteForms; used by GitHub.ConfigureGitAuth and GitHub.CreatePullRequest |
