/**
 * The agent integration: the prompt written for an issue, the reduction of
 * the agent's message stream to one result record, the per-message
 * records kept with a success, and the summary of the working tree's
 * changes. The SDK's message stream and the three git commands are inputs.
 */
module ClaudeIntegration {
  import opened Wrappers
  import opened Strings
  import GitHub

  // ---------------------------------------------------------------------
  // Messages
  // ---------------------------------------------------------------------

  /** A Python value, as far as the integration looks into it. */
  datatype PyValue =
    | PyNone
    | PyInt(i: int)
    | PyStr(s: string)
    | PyList(items: seq<PyValue>, text: string)               // `text` is the list's `str()`
    | PyObject(attrs: map<string, PyValue>, text: string)     // its attributes, and its `str()`
    | PyOther(text: string)                                   // any other value (a float, a bool), by its `str()`

  /** Python's `str(v)`. */
  function Str(v: PyValue): string {
    match v
    case PyNone => "None"
    case PyInt(i) => Decimal(i)
    case PyStr(s) => s
    case PyList(_, text) => text
    case PyObject(_, text) => text
    case PyOther(text) => text
  }

  /** Python's `getattr(obj, name, default)` over an attribute table. */
  function GetAttr(attrs: map<string, PyValue>, name: string, default: PyValue): (r: PyValue)
    ensures name in attrs ==> r == attrs[name]
    ensures name !in attrs ==> r == default
  {
    if name in attrs then attrs[name] else default
  }

  /** `getattr(v, name, default)` on a value that may not be an object at all. */
  function GetAttrOf(v: PyValue, name: string, default: PyValue): PyValue {
    if v.PyObject? then GetAttr(v.attrs, name, default) else default
  }

  /**
   * One message of the SDK's stream. The integration inspects messages by
   * duck typing (`hasattr`/`getattr`), so a message is its class name and
   * whatever attributes it happens to have.
   */
  datatype Message = Message(className: string, attrs: map<string, PyValue>)

  /** `hasattr(msg, 'type') and msg.type == t`. */
  predicate IsOfType(m: Message, t: string) {
    "type" in m.attrs && m.attrs["type"] == PyStr(t)
  }

  predicate IsResult(m: Message) { IsOfType(m, "result") }

  predicate IsAssistant(m: Message) { IsOfType(m, "assistant") }

  // ---------------------------------------------------------------------
  // Message records (`_message_to_dict`)
  // ---------------------------------------------------------------------

  /** The attributes copied into a message's record, in the order the source copies them. */
  const RecordedAttributes: seq<string> := ["session_id", "subtype", "total_cost_usd", "num_turns", "result"]

  /**
   * The record kept for one message: always a `type` entry (`unknown` when
   * the message has none), and each recorded attribute the message has.
   */
  function MessageRecord(m: Message): (r: map<string, PyValue>)
    ensures r.Keys == {"type"} + (m.attrs.Keys * set a | a in RecordedAttributes)
    ensures r["type"] == GetAttr(m.attrs, "type", PyStr("unknown"))
    ensures forall a :: a in RecordedAttributes && a in m.attrs ==> r[a] == m.attrs[a]
  {
    map k | k in {"type"} + (m.attrs.Keys * set a | a in RecordedAttributes)
      :: if k == "type" then GetAttr(m.attrs, "type", PyStr("unknown")) else m.attrs[k]
  }

  /** `_message_to_dict`: start from the `type` entry and copy the listed attributes one by one. */
  method MessageToDict(m: Message) returns (record: map<string, PyValue>)
    ensures record == MessageRecord(m)
  {
    record := map["type" := GetAttr(m.attrs, "type", PyStr("unknown"))];
    for k := 0 to |RecordedAttributes|
      invariant record.Keys == {"type"} + (m.attrs.Keys * set a | a in RecordedAttributes[..k])
      invariant record["type"] == GetAttr(m.attrs, "type", PyStr("unknown"))
      invariant forall a :: a in record && a != "type" ==> a in m.attrs && record[a] == m.attrs[a]
    {
      var name := RecordedAttributes[k];
      RecordedKeysStep(m, k, record.Keys);
      if name in m.attrs {
        record := record[name := m.attrs[name]];
      }
    }
    assert RecordedAttributes[..|RecordedAttributes|] == RecordedAttributes;
    RecordComplete(m, record);
  }

  /** Copying the next listed attribute, when the message has it, adds exactly that key. */
  lemma RecordedKeysStep(m: Message, k: nat, keys: set<string>)
    requires k < |RecordedAttributes|
    requires keys == {"type"} + (m.attrs.Keys * set a | a in RecordedAttributes[..k])
    ensures var copied := RecordedAttributes[..k + 1];
            (if RecordedAttributes[k] in m.attrs then keys + {RecordedAttributes[k]} else keys)
            == {"type"} + (m.attrs.Keys * set a | a in copied)
  {
    assert RecordedAttributes[..k + 1] == RecordedAttributes[..k] + [RecordedAttributes[k]];
  }

  /** A map with the record's keys, its `type` entry and the message's own values is the record. */
  lemma RecordComplete(m: Message, record: map<string, PyValue>)
    requires record.Keys == {"type"} + (m.attrs.Keys * set a | a in RecordedAttributes)
    requires record["type"] == GetAttr(m.attrs, "type", PyStr("unknown"))
    requires forall a :: a in record && a != "type" ==> a in m.attrs && record[a] == m.attrs[a]
    ensures record == MessageRecord(m)
  {
    var r := MessageRecord(m);
    assert record.Keys == r.Keys;
    forall a | a in record ensures record[a] == r[a] {
    }
  }

  /** The records of all messages, in stream order. */
  function Records(ms: seq<Message>): (r: seq<map<string, PyValue>>)
    ensures |r| == |ms|
    ensures forall i :: 0 <= i < |ms| ==> r[i] == MessageRecord(ms[i])
  {
    seq(|ms|, i requires 0 <= i < |ms| => MessageRecord(ms[i]))
  }

  // ---------------------------------------------------------------------
  // Change summary (`_get_git_changes`)
  // ---------------------------------------------------------------------

  /** The standard output of `git diff --cached --stat`, `git diff --stat` and `git ls-files --others --exclude-standard`. */
  datatype GitOutputs = GitOutputs(staged: string, unstaged: string, untracked: string)

  const StagedHeader := "**Staged changes:**"
  const UnstagedHeader := "**Unstaged changes:**"
  const NewFilesHeader := "**New files:**"
  const NoChanges := "No changes detected"
  const SectionGap := "\n\n"

  /** `- <name>` for each name, in order. */
  function Bullets(names: seq<string>): (r: seq<string>)
    ensures |r| == |names|
    ensures forall i :: 0 <= i < |r| ==> r[i] == "- " + names[i]
  {
    seq(|names|, i requires 0 <= i < |names| => "- " + names[i])
  }

  /** `- <name>` for each line of the untracked-file listing, in listed order. */
  function FileLines(untracked: string): (r: seq<string>)
    ensures |r| == |Split(Strip(untracked), '\n')|
    ensures forall i :: 0 <= i < |r| ==> r[i] == "- " + Split(Strip(untracked), '\n')[i]
  {
    Bullets(Split(Strip(untracked), '\n'))
  }

  /** A titled section: the header and the stripped output, or nothing when the output is blank. */
  function Section(header: string, output: string): (r: seq<string>)
    ensures r == [] <==> IsBlank(output)
  {
    if IsBlank(output) then [] else [header, Strip(output)]
  }

  /** The new-files section: the header and one bullet per listed file, or nothing when the listing is blank. */
  function NewFilesSection(untracked: string): (r: seq<string>)
    ensures r == [] <==> IsBlank(untracked)
  {
    if IsBlank(untracked) then [] else [NewFilesHeader] + FileLines(untracked)
  }

  /** The pieces of the summary before the sentinel and the join, in the order staged, unstaged, new files. */
  function Sections(g: GitOutputs): seq<string> {
    Section(StagedHeader, g.staged) + Section(UnstagedHeader, g.unstaged) + NewFilesSection(g.untracked)
  }

  /** The change summary: the sections separated by blank lines, or the sentinel when there are none. */
  function Summary(g: GitOutputs): string {
    var pieces := Sections(g);
    Join(SectionGap, if pieces == [] then [NoChanges] else pieces)
  }

  /** Appending one titled section, as the source does, with two appends. */
  method AppendSection(changes: seq<string>, header: string, output: string) returns (r: seq<string>)
    ensures r == changes + Section(header, output)
  {
    r := changes;
    if !IsBlank(output) {
      r := r + [header];
      r := r + [Strip(output)];
    }
  }

  /** The `for f in ...` loop of the new-files section: one bullet appended per name. */
  method AppendBullets(changes: seq<string>, names: seq<string>) returns (r: seq<string>)
    ensures r == changes + Bullets(names)
  {
    r := changes;
    ghost var bullets := Bullets(names);
    assert r == changes + bullets[..0];
    for k := 0 to |names|
      invariant r == changes + bullets[..k]
    {
      var bullet := "- " + names[k];
      assert bullets[..k + 1] == bullets[..k] + [bullet];
      assert changes + bullets[..k] + [bullet] == changes + (bullets[..k] + [bullet]);
      r := r + [bullet];
    }
    assert bullets[..|names|] == bullets;
  }

  /** Appending the new-files section: the header, then one bullet per file. */
  method AppendNewFiles(changes: seq<string>, untracked: string) returns (r: seq<string>)
    ensures r == changes + NewFilesSection(untracked)
  {
    if IsBlank(untracked) {
      r := changes;
      NewFilesAppended(changes, untracked);
      return;
    }
    var names := Split(Strip(untracked), '\n');
    r := AppendBullets(changes + [NewFilesHeader], names);
    NewFilesAppended(changes, untracked);
  }

  /** The two appends of the new-files section make up the section itself. */
  lemma NewFilesAppended(changes: seq<string>, untracked: string)
    ensures IsBlank(untracked) ==> changes + NewFilesSection(untracked) == changes
    ensures !IsBlank(untracked) ==>
      changes + [NewFilesHeader] + Bullets(Split(Strip(untracked), '\n')) == changes + NewFilesSection(untracked)
  {
    if IsBlank(untracked) {
      assert NewFilesSection(untracked) == [];
    } else {
      Regroup(changes, [NewFilesHeader], FileLines(untracked));
    }
  }

  /** Appending two pieces one after the other is appending them joined. */
  lemma Regroup<T>(a: seq<T>, b: seq<T>, c: seq<T>)
    ensures a + b + c == a + (b + c)
  {
  }

  /** `_get_git_changes` over the three outputs: build the list of pieces section by section, then join. */
  method ChangeSummary(g: GitOutputs) returns (summary: string)
    ensures summary == Summary(g)
  {
    ghost var staged := Section(StagedHeader, g.staged);
    ghost var unstaged := Section(UnstagedHeader, g.unstaged);
    ghost var untracked := NewFilesSection(g.untracked);
    var changes: seq<string> := [];
    changes := AppendSection(changes, StagedHeader, g.staged);
    assert changes == staged;
    changes := AppendSection(changes, UnstagedHeader, g.unstaged);
    changes := AppendNewFiles(changes, g.untracked);
    assert changes == staged + unstaged + untracked == Sections(g);
    if changes == [] {
      changes := changes + [NoChanges];
    }
    summary := Join(SectionGap, changes);
  }

  /** The sentinel appears exactly when all three outputs are blank. */
  lemma SummarySentinel(g: GitOutputs)
    ensures Summary(g) == NoChanges <==> IsBlank(g.staged) && IsBlank(g.unstaged) && IsBlank(g.untracked)
  {
    var pieces := Sections(g);
    if pieces != [] {
      JoinStartsWithFirst(SectionGap, pieces);
      assert pieces[0][0] == '*';
      assert Summary(g)[0] == '*';
    }
  }

  /** Three pieces joined with the section gap. */
  lemma JoinThree(x: string, y: string, z: string)
    ensures Join(SectionGap, [x, y, z]) == x + SectionGap + y + SectionGap + z
  {
    var pieces := [x, y, z];
    assert pieces[1..] == [y, z] && pieces[1..][1..] == [z];
    assert Join(SectionGap, [y, z]) == y + SectionGap + z;
  }

  /** A two-line listing gives the header and two bullets. */
  lemma NewFilesOfTwo(untracked: string, a: string, b: string)
    requires '\n' !in a && '\n' !in b
    requires Strip(untracked) == a + "\n" + b
    ensures NewFilesSection(untracked) == [NewFilesHeader, "- " + a, "- " + b]
  {
    assert a + "\n" + b == a + ['\n'] + b;
    SplitTwo(a, b, '\n');
    assert |Strip(untracked)| > 0;
    BulletsOfTwo(Split(Strip(untracked), '\n'), a, b);
  }

  /** Two names give two bullets, in order. */
  lemma BulletsOfTwo(names: seq<string>, a: string, b: string)
    requires names == [a, b]
    ensures Bullets(names) == ["- " + a, "- " + b]
  {
    var r := Bullets(names);
    assert |r| == 2 && r[0] == "- " + a && r[1] == "- " + b;
  }

  /**
   * A tree whose only changes are two untracked files gets only the
   * new-files section, listing exactly those two, in listed order.
   */
  lemma TwoUntrackedFiles(g: GitOutputs, a: string, b: string)
    requires IsBlank(g.staged) && IsBlank(g.unstaged)
    requires '\n' !in a && '\n' !in b
    requires Strip(g.untracked) == a + "\n" + b
    ensures Summary(g) == NewFilesHeader + SectionGap + ("- " + a) + SectionGap + ("- " + b)
  {
    NewFilesOfTwo(g.untracked, a, b);
    assert Section(StagedHeader, g.staged) == [] && Section(UnstagedHeader, g.unstaged) == [];
    assert Sections(g) == [NewFilesHeader, "- " + a, "- " + b];
    JoinThree(NewFilesHeader, "- " + a, "- " + b);
  }

  /** `- name` back to `name`. */
  function Unbullet(line: string): string {
    if StartsWith(line, "- ") then line[2..] else line
  }

  /** Reading one titled section off the front of the pieces, if it is there. */
  function TakeSection(header: string, pieces: seq<string>): (string, seq<string>) {
    if |pieces| >= 2 && pieces[0] == header then (pieces[1], pieces[2..]) else ("", pieces)
  }

  /** Reading the new-files section: the bullets, unbulleted, one per line. */
  function ReadFiles(pieces: seq<string>): string {
    if |pieces| >= 1 && pieces[0] == NewFilesHeader
    then Join("\n", seq(|pieces| - 1, i requires 0 <= i < |pieces| - 1 => Unbullet(pieces[i + 1])))
    else ""
  }

  /**
   * Reading the pieces back: a section is recognised by its header at the
   * position where it may stand, so the outputs' own text cannot be taken
   * for a header.
   */
  function ParseSections(pieces: seq<string>): (string, string, string) {
    var (staged, p1) := TakeSection(StagedHeader, pieces);
    var (unstaged, p2) := TakeSection(UnstagedHeader, p1);
    (staged, unstaged, ReadFiles(p2))
  }

  /** The bullets name exactly the listed files: stripping the bullets and rejoining gives back the listing. */
  lemma FileLinesRoundTrip(untracked: string)
    ensures var lines := FileLines(untracked);
      Join("\n", seq(|lines|, i requires 0 <= i < |lines| => Unbullet(lines[i]))) == Strip(untracked)
  {
    var lines := FileLines(untracked);
    var names := Split(Strip(untracked), '\n');
    var back := seq(|lines|, i requires 0 <= i < |lines| => Unbullet(lines[i]));
    forall i | 0 <= i < |lines| ensures back[i] == names[i] {
      assert lines[i] == "- " + names[i];
      assert StartsWith(lines[i], "- ");
      assert lines[i][2..] == names[i];
    }
    assert back == names;
    JoinSplit(Strip(untracked), '\n');
  }

  /** A section that is there is read off with its stripped output. */
  lemma TakeSectionPresent(header: string, output: string, rest: seq<string>)
    requires !IsBlank(output)
    ensures TakeSection(header, Section(header, output) + rest) == (Strip(output), rest)
  {
    var pieces := Section(header, output) + rest;
    assert pieces[0] == header && pieces[1] == Strip(output);
    assert pieces[2..] == rest;
  }

  /** A section that is absent is read as empty, and what follows cannot be taken for it. */
  lemma TakeSectionAbsent(header: string, output: string, rest: seq<string>)
    requires IsBlank(output)
    requires rest == [] || |rest[0]| != |header|
    ensures TakeSection(header, Section(header, output) + rest) == (Strip(output), rest)
  {
    assert Section(header, output) + rest == rest;
  }

  /** The new-files section is read back bullet by bullet. */
  lemma ReadFilesBullets(lines: seq<string>)
    ensures ReadFiles([NewFilesHeader] + lines) == Join("\n", seq(|lines|, i requires 0 <= i < |lines| => Unbullet(lines[i])))
  {
    var p := [NewFilesHeader] + lines;
    var read := seq(|p| - 1, i requires 0 <= i < |p| - 1 => Unbullet(p[i + 1]));
    var back := seq(|lines|, i requires 0 <= i < |lines| => Unbullet(lines[i]));
    forall i | 0 <= i < |read| ensures read[i] == back[i] {
      assert p[i + 1] == lines[i];
    }
    assert read == back;
  }

  lemma ReadFilesRoundTrip(untracked: string)
    ensures ReadFiles(NewFilesSection(untracked)) == Strip(untracked)
  {
    if !IsBlank(untracked) {
      FileLinesRoundTrip(untracked);
      ReadFilesBullets(FileLines(untracked));
    }
  }

  /** Every section is present exactly when its output is not blank, in the order staged, unstaged, new files, and holds that output. */
  lemma SectionsRoundTrip(g: GitOutputs)
    ensures ParseSections(Sections(g)) == (Strip(g.staged), Strip(g.unstaged), Strip(g.untracked))
  {
    var n := NewFilesSection(g.untracked);
    var un := Section(UnstagedHeader, g.unstaged) + n;
    assert Sections(g) == Section(StagedHeader, g.staged) + un;
    assert n != [] ==> n[0] == NewFilesHeader;
    if IsBlank(g.unstaged) {
      TakeSectionAbsent(UnstagedHeader, g.unstaged, n);
    } else {
      TakeSectionPresent(UnstagedHeader, g.unstaged, n);
    }
    assert un != [] ==> un[0] == UnstagedHeader || un[0] == NewFilesHeader;
    if IsBlank(g.staged) {
      TakeSectionAbsent(StagedHeader, g.staged, un);
    } else {
      TakeSectionPresent(StagedHeader, g.staged, un);
    }
    ReadFilesRoundTrip(g.untracked);
  }

  // ---------------------------------------------------------------------
  // The prompt (`_create_prompt`)
  // ---------------------------------------------------------------------

  /** The labels line: the labels separated by commas, or `None` for an issue without labels. */
  function LabelsLine(labels: seq<string>): (r: string)
    ensures labels == [] ==> r == "None"
    ensures labels != [] ==> StartsWith(r, labels[0])
    ensures |labels| == 1 ==> r == labels[0]
  {
    if labels == [] then "None"
    else
      JoinStartsWithFirst(", ", labels);
      Join(", ", labels)
  }

  /** With more labels to come, the first is followed by a comma and a space, then the line of the others. */
  lemma LabelsJoined(first: string, others: seq<string>)
    requires others != []
    ensures LabelsLine([first] + others) == first + ", " + LabelsLine(others)
  {
    var labels := [first] + others;
    assert labels[1..] == others;
  }

  const Instructions :=
    "## Instructions\nPlease analyze this GitHub issue and implement a solution. Make sure to:\n\n"
    + "1. Understand the problem described in the issue\n"
    + "2. Implement the necessary code changes\n"
    + "3. Add appropriate tests if needed\n"
    + "4. Ensure the solution follows best practices\n"
    + "5. Make atomic, focused commits\n\n"
    + "When you're done implementing, please provide a summary of the changes made.\n"

  /** Everything in the prompt after the issue number: the title, the description and labels, the instructions. */
  function PromptAfterNumber(issue: GitHub.Issue): (r: string)
    ensures r != [] && r[0] == ':'
  {
    var head := ": " + issue.title;
    assert head[0] == ':';
    head + IssueDetails(issue) + Instructions
  }

  /** The description and labels sections that follow the heading. */
  function IssueDetails(issue: GitHub.Issue): string {
    "\n\n## Issue Description\n" + issue.body + "\n\n## Labels\n" + LabelsLine(issue.labels) + "\n\n"
  }

  /** The heading line: `# GitHub Issue #<number>: <title>`. */
  function Heading(issue: GitHub.Issue): string {
    "# GitHub Issue #" + Decimal(issue.number) + (": " + issue.title)
  }

  /**
   * The prompt the agent is given: the heading naming the issue, then its
   * description and labels, then the instructions, and nothing else.
   */
  function Prompt(issue: GitHub.Issue): (r: string)
    ensures StartsWith(r, Heading(issue))
    ensures OccursAt(r, IssueDetails(issue), |Heading(issue)|)
    ensures EndsWith(r, Instructions)
    ensures |r| == |Heading(issue)| + |IssueDetails(issue)| + |Instructions|
  {
    var number := "# GitHub Issue #" + Decimal(issue.number);
    Layout(number, ": " + issue.title, IssueDetails(issue), Instructions);
    number + PromptAfterNumber(issue)
  }

  /** The prompt names its issue: prompts for issues with different numbers differ. */
  lemma PromptNamesIssue(a: GitHub.Issue, b: GitHub.Issue)
    requires Prompt(a) == Prompt(b)
    ensures a.number == b.number
  {
    NumberThenDelimiter("# GitHub Issue #", a.number, PromptAfterNumber(a), b.number, PromptAfterNumber(b));
  }

  // ---------------------------------------------------------------------
  // The reducer (`_run_claude_code`)
  // ---------------------------------------------------------------------

  /** The run metrics reported with a result. */
  datatype Metrics = Metrics(sessionId: PyValue, costUsd: PyValue, turns: PyValue)

  /** The result record: `success` True with its other keys, or `success` False with an `error` and, for an agent failure, the metrics. */
  datatype Outcome =
    | Success(changes: string, output: PyValue, metrics: Metrics, messages: seq<map<string, PyValue>>)
    | Failure(error: string, reported: Option<Metrics>)

  /** What the stream delivered: every message, or the text of the exception raised while reading it. */
  datatype Stream = Completed(messages: seq<Message>) | Raised(text: string)

  const NoResponse := "No response from Claude Code"

  function SdkError(text: string): string {
    "Claude Code SDK error: " + text
  }

  /** `str()` of the AttributeError raised reading `message` off a message without one. */
  function NoMessageAttribute(className: string): string {
    "'" + className + "' object has no attribute 'message'"
  }

  /** The metrics of a run without a usable result message. */
  const DefaultMetrics := Metrics(PyNone, PyInt(0), PyInt(0))

  /** The index of the first result message, if any. */
  function FirstResult(ms: seq<Message>): (r: Option<nat>)
    ensures r.Some? ==> r.value < |ms| && IsResult(ms[r.value])
    ensures r.Some? ==> forall j :: 0 <= j < r.value ==> !IsResult(ms[j])
    ensures r.None? ==> forall j :: 0 <= j < |ms| ==> !IsResult(ms[j])
  {
    if ms == [] then None
    else if IsResult(ms[0]) then Some(0)
    else
      match FirstResult(ms[1..])
      case None => None
      case Some(k) => Some(k + 1)
  }

  /** The metrics the scan takes from a result message, with the source's defaults for missing attributes. */
  function ResultMetrics(m: Message): Metrics {
    Metrics(GetAttr(m.attrs, "session_id", PyNone), GetAttr(m.attrs, "total_cost_usd", PyInt(0)), GetAttr(m.attrs, "num_turns", PyInt(0)))
  }

  /** The metrics after the scan: from the first result message, or the defaults. */
  function ScannedMetrics(ms: seq<Message>): Metrics {
    match FirstResult(ms)
    case Some(i) => ResultMetrics(ms[i])
    case None => DefaultMetrics
  }

  /** The assistant messages, in stream order. */
  function Assistants(ms: seq<Message>): (r: seq<Message>)
    ensures |r| <= |ms|
    ensures forall k :: 0 <= k < |r| ==> IsAssistant(r[k])
  {
    if ms == [] then []
    else (if IsAssistant(ms[0]) then [ms[0]] else []) + Assistants(ms[1..])
  }

  /** The first content block's `text`, or its `str()`; `str()` of the content itself when it is not a non-empty list. */
  function AssistantText(payload: PyValue): PyValue {
    var content := GetAttrOf(payload, "content", PyList([], "[]"));
    if content.PyList? && content.items != [] then
      var block := content.items[0];
      if block.PyObject? && "text" in block.attrs then block.attrs["text"] else PyStr(Str(block))
    else PyStr(Str(content))
  }

  /** A result message whose subtype the verdict is read from. */
  predicate HasVerdict(ms: seq<Message>) {
    FirstResult(ms).Some? && "subtype" in ms[FirstResult(ms).value].attrs
  }

  /** The record when the first result message carries a subtype: success, or the agent's failure with its metrics. */
  function FromResult(m: Message, metrics: Metrics, ms: seq<Message>, git: Result<GitOutputs, string>): Outcome
    requires "subtype" in m.attrs
  {
    var subtype := m.attrs["subtype"];
    if subtype != PyStr("success") then Failure("Claude Code failed: " + Str(subtype), Some(metrics))
    else
      match git
      case Err(text) => Failure(SdkError(text), None)
      case Ok(g) => Success(Summary(g), GetAttr(m.attrs, "result", PyStr("")), metrics, Records(ms))
  }

  /** The success built from the last assistant message, or the error reading its `message` attribute. */
  function FromLastAssistant(last: Message, changes: string, metrics: Metrics, records: seq<map<string, PyValue>>): Outcome {
    if "message" !in last.attrs then Failure(SdkError(NoMessageAttribute(last.className)), None)
    else Success(changes, AssistantText(last.attrs["message"]), metrics, records)
  }

  /** The record without a usable result message, given its assistant messages: built from the last one, if there is one. */
  function FromAssistants(assistants: seq<Message>, ms: seq<Message>, metrics: Metrics, git: Result<GitOutputs, string>): Outcome {
    if assistants == [] then Failure(NoResponse, None)
    else
      match git
      case Err(text) => Failure(SdkError(text), None)
      case Ok(g) =>
        FromLastAssistant(assistants[|assistants| - 1], Summary(g),
                          Metrics(metrics.sessionId, metrics.costUsd, PyInt(|assistants|)), Records(ms))
  }

  /**
   * The result record for a completed stream; `git` is what the three git
   * commands printed, or the text of the exception raised starting them.
   */
  function Reduce(ms: seq<Message>, git: Result<GitOutputs, string>): Outcome {
    if HasVerdict(ms) then FromResult(ms[FirstResult(ms).value], ScannedMetrics(ms), ms, git)
    else FromAssistants(Assistants(ms), ms, ScannedMetrics(ms), git)
  }

  /** `_run_claude_code` with its exception handler: a stream that raised is an SDK error. */
  function RunOutcome(stream: Stream, git: Result<GitOutputs, string>): Outcome {
    match stream
    case Raised(text) => Failure(SdkError(text), None)
    case Completed(ms) => Reduce(ms, git)
  }

  lemma {:induction false} AssistantsAppend(a: seq<Message>, b: seq<Message>)
    ensures Assistants(a + b) == Assistants(a) + Assistants(b)
  {
    if a == [] {
      assert a + b == b;
    } else {
      assert (a + b)[0] == a[0];
      assert (a + b)[1..] == a[1..] + b;
      AssistantsAppend(a[1..], b);
    }
  }

  /** `async for message in query(...)`: append each streamed message. */
  method CollectStream(received: seq<Message>) returns (messages: seq<Message>)
    ensures messages == received
  {
    messages := [];
    for k := 0 to |received|
      invariant messages == received[..k]
    {
      messages := messages + [received[k]];
    }
    assert received[..|received|] == received;
  }

  /** The scan for the first result message: it stops there and reads its metrics, with the defaults otherwise. */
  method ScanForResult(messages: seq<Message>) returns (resultIndex: Option<nat>, metrics: Metrics)
    ensures resultIndex == FirstResult(messages)
    ensures metrics == ScannedMetrics(messages)
  {
    resultIndex := None;
    var costUsd, turns, sessionId := PyInt(0), PyInt(0), PyNone;
    var i := 0;
    while i < |messages|
      invariant 0 <= i <= |messages|
      invariant forall j :: 0 <= j < i ==> !IsResult(messages[j])
      invariant resultIndex == None && Metrics(sessionId, costUsd, turns) == DefaultMetrics
    {
      if IsResult(messages[i]) {
        var attrs := messages[i].attrs;
        resultIndex := Some(i);
        costUsd := GetAttr(attrs, "total_cost_usd", PyInt(0));
        turns := GetAttr(attrs, "num_turns", PyInt(0));
        sessionId := GetAttr(attrs, "session_id", PyNone);
        break;
      }
      i := i + 1;
    }
    metrics := Metrics(sessionId, costUsd, turns);
  }

  /** `[msg for msg in messages if hasattr(msg, 'type') and msg.type == 'assistant']`. */
  method CollectAssistants(messages: seq<Message>) returns (assistants: seq<Message>)
    ensures assistants == Assistants(messages)
  {
    assistants := [];
    for k := 0 to |messages|
      invariant assistants == Assistants(messages[..k])
    {
      AssistantsAppend(messages[..k], [messages[k]]);
      assert messages[..k + 1] == messages[..k] + [messages[k]];
      if IsAssistant(messages[k]) {
        assistants := assistants + [messages[k]];
      }
    }
    assert messages[..|messages|] == messages;
  }

  /** The branch of `_run_claude_code` taken when the first result message carries a subtype. */
  method ReportResult(m: Message, metrics: Metrics, messages: seq<Message>, git: Result<GitOutputs, string>) returns (outcome: Outcome)
    requires "subtype" in m.attrs
    ensures outcome == FromResult(m, metrics, messages, git)
  {
    var subtype := m.attrs["subtype"];
    if subtype != PyStr("success") {
      return Failure("Claude Code failed: " + Str(subtype), Some(metrics));
    }
    if git.Err? {
      return Failure(SdkError(git.error), None);
    }
    var changes := ChangeSummary(git.value);
    var records := CollectRecords(messages);
    outcome := Success(changes, GetAttr(m.attrs, "result", PyStr("")), metrics, records);
  }

  /** The branch of `_run_claude_code` taken without a usable result message, once its assistant messages are collected. */
  method ReportAssistants(assistants: seq<Message>, messages: seq<Message>, metrics: Metrics, git: Result<GitOutputs, string>) returns (outcome: Outcome)
    ensures outcome == FromAssistants(assistants, messages, metrics, git)
  {
    if assistants == [] {
      return Failure(NoResponse, None);
    }
    if git.Err? {
      return Failure(SdkError(git.error), None);
    }
    var changes := ChangeSummary(git.value);
    var reported := Metrics(metrics.sessionId, metrics.costUsd, PyInt(|assistants|));
    outcome := ReportLastAssistant(assistants[|assistants| - 1], changes, reported, messages);
  }

  /** Reading the output off the last assistant message, then recording every message. */
  method ReportLastAssistant(last: Message, changes: string, metrics: Metrics, messages: seq<Message>) returns (outcome: Outcome)
    ensures outcome == FromLastAssistant(last, changes, metrics, Records(messages))
  {
    if "message" !in last.attrs {
      return Failure(SdkError(NoMessageAttribute(last.className)), None);
    }
    var output := AssistantText(last.attrs["message"]);
    var records := CollectRecords(messages);
    outcome := Success(changes, output, metrics, records);
  }

  /**
   * `_run_claude_code`: collect the stream, scan for the first result
   * message, then build the record from it or from the assistant messages.
   */
  method RunClaudeCode(stream: Stream, git: Result<GitOutputs, string>) returns (outcome: Outcome)
    ensures outcome == RunOutcome(stream, git)
  {
    if stream.Raised? {
      return Failure(SdkError(stream.text), None);
    }
    var messages := CollectStream(stream.messages);
    var resultIndex, metrics := ScanForResult(messages);
    if resultIndex.Some? && "subtype" in messages[resultIndex.value].attrs {
      outcome := ReportResult(messages[resultIndex.value], metrics, messages, git);
    } else {
      var assistants := CollectAssistants(messages);
      outcome := ReportAssistants(assistants, messages, metrics, git);
    }
  }

  /** `[self._message_to_dict(msg) for msg in messages]`. */
  method CollectRecords(messages: seq<Message>) returns (records: seq<map<string, PyValue>>)
    ensures records == Records(messages)
  {
    records := [];
    ghost var target := Records(messages);
    for k := 0 to |messages|
      invariant records == target[..k]
    {
      var record := MessageToDict(messages[k]);
      assert target[..k + 1] == target[..k] + [record];
      records := records + [record];
    }
    assert target[..|messages|] == target;
  }

  // ---------------------------------------------------------------------
  // Properties of the reducer
  // ---------------------------------------------------------------------

  lemma FirstResultAt(prefix: seq<Message>, r: Message, rest: seq<Message>)
    requires forall j :: 0 <= j < |prefix| ==> !IsResult(prefix[j])
    requires IsResult(r)
    ensures FirstResult(prefix + [r] + rest) == Some(|prefix|)
  {
    var ms := prefix + [r] + rest;
    assert ms[|prefix|] == r;
    assert forall j :: 0 <= j < |prefix| ==> ms[j] == prefix[j];
  }

  /**
   * Only the first result message decides: whatever follows it (further
   * results included), a success reports that message's output and
   * metrics, and any other subtype is the agent's failure with those
   * metrics, whatever the working tree holds.
   */
  lemma FirstResultDecides(prefix: seq<Message>, r: Message, rest: seq<Message>, git: Result<GitOutputs, string>)
    requires forall j :: 0 <= j < |prefix| ==> !IsResult(prefix[j])
    requires IsResult(r) && "subtype" in r.attrs
    ensures var ms := prefix + [r] + rest;
      r.attrs["subtype"] == PyStr("success") && git.Ok? ==>
        Reduce(ms, git) == Success(Summary(git.value), GetAttr(r.attrs, "result", PyStr("")), ResultMetrics(r), Records(ms))
    ensures r.attrs["subtype"] != PyStr("success") ==>
      Reduce(prefix + [r] + rest, git) == Failure("Claude Code failed: " + Str(r.attrs["subtype"]), Some(ResultMetrics(r)))
  {
    FirstResultAt(prefix, r, rest);
    assert (prefix + [r] + rest)[|prefix|] == r;
  }

  lemma FromResultSuccess(m: Message, metrics: Metrics, ms: seq<Message>, git: Result<GitOutputs, string>)
    requires "subtype" in m.attrs && FromResult(m, metrics, ms, git).Success?
    ensures git.Ok? && FromResult(m, metrics, ms, git).changes == Summary(git.value)
    ensures FromResult(m, metrics, ms, git).messages == Records(ms)
  {
  }

  lemma FromAssistantsSuccess(assistants: seq<Message>, ms: seq<Message>, metrics: Metrics, git: Result<GitOutputs, string>)
    requires FromAssistants(assistants, ms, metrics, git).Success?
    ensures git.Ok? && FromAssistants(assistants, ms, metrics, git).changes == Summary(git.value)
    ensures FromAssistants(assistants, ms, metrics, git).messages == Records(ms)
  {
  }

  /** A success records every message of the stream, in order, and the summary of the working tree. */
  lemma SuccessRecordsEveryMessage(ms: seq<Message>, git: Result<GitOutputs, string>)
    requires Reduce(ms, git).Success?
    ensures git.Ok? && Reduce(ms, git).changes == Summary(git.value)
    ensures |Reduce(ms, git).messages| == |ms|
    ensures forall i :: 0 <= i < |ms| ==> Reduce(ms, git).messages[i] == MessageRecord(ms[i])
  {
    var metrics := ScannedMetrics(ms);
    if HasVerdict(ms) {
      var m := ms[FirstResult(ms).value];
      FromResultSuccess(m, metrics, ms, git);
    } else {
      FromAssistantsSuccess(Assistants(ms), ms, metrics, git);
    }
  }

  lemma {:induction false} AssistantsEmpty(ms: seq<Message>)
    ensures Assistants(ms) == [] <==> forall j :: 0 <= j < |ms| ==> !IsAssistant(ms[j])
  {
    if ms != [] {
      AssistantsEmpty(ms[1..]);
      assert forall j :: 1 <= j < |ms| ==> ms[j] == ms[1..][j - 1];
    }
  }

  /** The filter keeps exactly the assistant messages, and its last element is the stream's last assistant message. */
  lemma {:induction false} AssistantsLast(ms: seq<Message>, j: nat)
    requires j < |ms| && IsAssistant(ms[j])
    requires forall k :: j < k < |ms| ==> !IsAssistant(ms[k])
    ensures Assistants(ms) != [] && Assistants(ms)[|Assistants(ms)| - 1] == ms[j]
  {
    if j == 0 {
      AssistantsEmpty(ms[1..]);
      assert forall k :: 0 <= k < |ms[1..]| ==> ms[1..][k] == ms[k + 1];
    } else {
      AssistantsLast(ms[1..], j - 1);
    }
  }

  /**
   * Without a result message that carries a subtype, the outcome is read
   * off the stream's last assistant message, `turns` counts the assistant
   * messages, and the session and cost are the defaults unless a
   * subtype-less result message supplied them.
   */
  lemma FallbackFromLastAssistant(ms: seq<Message>, j: nat, g: GitOutputs)
    requires !HasVerdict(ms)
    requires j < |ms| && IsAssistant(ms[j])
    requires forall k :: j < k < |ms| ==> !IsAssistant(ms[k])
    ensures "message" in ms[j].attrs ==>
      Reduce(ms, Ok(g)) == Success(Summary(g), AssistantText(ms[j].attrs["message"]),
                                   Metrics(ScannedMetrics(ms).sessionId, ScannedMetrics(ms).costUsd, PyInt(|Assistants(ms)|)),
                                   Records(ms))
    ensures "message" !in ms[j].attrs ==>
      Reduce(ms, Ok(g)) == Failure(SdkError(NoMessageAttribute(ms[j].className)), None)
    ensures FirstResult(ms).None? ==> ScannedMetrics(ms).sessionId == PyNone && ScannedMetrics(ms).costUsd == PyInt(0)
  {
    AssistantsLast(ms, j);
    ReduceFromLast(ms, g);
    var metrics := Metrics(ScannedMetrics(ms).sessionId, ScannedMetrics(ms).costUsd, PyInt(|Assistants(ms)|));
    assert Reduce(ms, Ok(g)) == FromLastAssistant(ms[j], Summary(g), metrics, Records(ms));
  }

  /** Without a verdict but with assistant messages, the record is built from the last assistant message. */
  lemma ReduceFromLast(ms: seq<Message>, g: GitOutputs)
    requires !HasVerdict(ms) && Assistants(ms) != []
    ensures var assistants := Assistants(ms);
            var metrics := ScannedMetrics(ms);
            Reduce(ms, Ok(g)) == FromLastAssistant(assistants[|assistants| - 1], Summary(g),
                                                   Metrics(metrics.sessionId, metrics.costUsd, PyInt(|assistants|)), Records(ms))
  {
  }

  /** Every other error message the reducer produces starts with `C`. */
  lemma OtherOutcomes(ms: seq<Message>, git: Result<GitOutputs, string>)
    requires HasVerdict(ms) || Assistants(ms) != []
    ensures Reduce(ms, git).Success? || (Reduce(ms, git).error != [] && Reduce(ms, git).error[0] == 'C')
  {
    if HasVerdict(ms) {
      var m := ms[FirstResult(ms).value];
      assert Reduce(ms, git) == FromResult(m, ScannedMetrics(ms), ms, git);
    } else {
      assert Reduce(ms, git) == FromAssistants(Assistants(ms), ms, ScannedMetrics(ms), git);
    }
  }

  /** `No response from Claude Code` is reported exactly when there is neither a usable result nor any assistant message. */
  lemma NoResponseExactly(ms: seq<Message>, git: Result<GitOutputs, string>)
    ensures Reduce(ms, git) == Failure(NoResponse, None)
        <==> !HasVerdict(ms) && forall j :: 0 <= j < |ms| ==> !IsAssistant(ms[j])
  {
    AssistantsEmpty(ms);
    if HasVerdict(ms) || Assistants(ms) != [] {
      OtherOutcomes(ms, git);
      assert NoResponse[0] == 'N';
    }
  }

  /** A stream of one result message with a subtype is decided by that message and its own metrics. */
  lemma OnlyResult(r: Message, git: Result<GitOutputs, string>)
    requires IsResult(r) && "subtype" in r.attrs
    ensures Reduce([r], git) == FromResult(r, ResultMetrics(r), [r], git)
  {
    assert [r][0] == r;
    assert FirstResult([r]) == Some(0);
  }

  /** The result message of a run that succeeds with result `Fixed.` after three turns. */
  const FixedTypoResult := Message("ResultMessage", map["type" := PyStr("result"), "subtype" := PyStr("success"),
                                                      "result" := PyStr("Fixed."), "total_cost_usd" := PyOther("0.02"),
                                                      "num_turns" := PyInt(3)])

  /** Such a run reports that output and those metrics. */
  lemma FixedTypoScenario(g: GitOutputs)
    ensures Reduce([FixedTypoResult], Ok(g)).Success?
    ensures Reduce([FixedTypoResult], Ok(g)).output == PyStr("Fixed.")
    ensures Reduce([FixedTypoResult], Ok(g)).metrics == Metrics(PyNone, PyOther("0.02"), PyInt(3))
  {
    var r := FixedTypoResult;
    assert IsResult(r) && "subtype" in r.attrs && r.attrs["subtype"] == PyStr("success");
    assert GetAttr(r.attrs, "result", PyStr("")) == PyStr("Fixed.");
    assert ResultMetrics(r) == Metrics(PyNone, PyOther("0.02"), PyInt(3));
    OnlyResult(r, Ok(g));
  }

  /** The result message of a run stopped at the turn limit, without metrics. */
  const MaxTurnsResult := Message("ResultMessage", map["type" := PyStr("result"), "subtype" := PyStr("error_max_turns")])

  /** A run that stops at the turn limit is the agent's failure, named by its subtype, and the working tree is not consulted. */
  lemma MaxTurnsScenario(git: Result<GitOutputs, string>)
    ensures Reduce([MaxTurnsResult], git) == Failure("Claude Code failed: error_max_turns", Some(DefaultMetrics))
  {
    var r := MaxTurnsResult;
    assert IsResult(r) && "subtype" in r.attrs && r.attrs["subtype"] == PyStr("error_max_turns");
    assert ResultMetrics(r) == DefaultMetrics;
    OnlyResult(r, git);
    assert FromResult(r, DefaultMetrics, [r], git) == Failure("Claude Code failed: " + "error_max_turns", Some(DefaultMetrics));
    assert "Claude Code failed: " + "error_max_turns" == "Claude Code failed: error_max_turns";
  }

  // ---------------------------------------------------------------------
  // solve_issue
  // ---------------------------------------------------------------------

  /** Running the agent on a prompt: its stream, or the exception `asyncio.run` raised around it. */
  datatype AgentRun = Ran(stream: Stream) | RunRaised(text: string)

  /** `solve_issue`: write the prompt, run the agent on it, reduce what it produced. */
  method SolveIssue(issue: GitHub.Issue, agent: string -> AgentRun, git: Result<GitOutputs, string>) returns (outcome: Outcome)
    ensures agent(Prompt(issue)).RunRaised? ==> outcome == Failure("Failed to run Claude Code: " + agent(Prompt(issue)).text, None)
    ensures agent(Prompt(issue)).Ran? ==> outcome == RunOutcome(agent(Prompt(issue)).stream, git)
  {
    var prompt := Prompt(issue);
    match agent(prompt)
    case RunRaised(text) =>
      outcome := Failure("Failed to run Claude Code: " + text, None);
    case Ran(stream) =>
      outcome := RunClaudeCode(stream, git);
  }
}
