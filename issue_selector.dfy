/**
 * The interactive issue picker: the table of open issues, and the
 * choose-then-confirm dialogue. The answers the user types are an input
 * sequence; what the picker prints is kept as a list of notices.
 */
module IssueSelector {
  import opened Wrappers
  import opened Strings
  import GitHub

  // ---------------------------------------------------------------------
  // The table
  // ---------------------------------------------------------------------

  /** The title column: the title when it fits in 50 characters, else its first 47 and an ellipsis. */
  function TitleCell(title: string): (r: string)
    ensures |r| <= 50
    ensures r == title <==> |title| <= 50
    ensures |title| > 50 ==> |r| == 50 && StartsWith(r, title[..47]) && EndsWith(r, "...")
  {
    if |title| > 50 then title[..47] + "..." else title
  }

  /** The labels column: the first three labels, comma-separated, with an ellipsis when there are more. */
  function LabelsCell(labels: seq<string>): (r: string)
    ensures labels == [] ==> r == ""
    ensures labels != [] ==> StartsWith(r, labels[0])
    ensures |labels| == 1 ==> r == labels[0]
  {
    var shown := if |labels| > 3 then labels[..3] else labels;
    var more := if |labels| > 3 then "..." else "";
    if shown == [] then Join(", ", shown) + more
    else
      JoinStartsWithFirst(", ", shown);
      Join(", ", shown) + more
  }

  /** Labels after the third add nothing to the cell but the ellipsis. */
  lemma LabelsCellShowsThree(labels: seq<string>, more: seq<string>)
    requires |labels| == 3
    ensures LabelsCell(labels + more) == LabelsCell(labels) + (if more == [] then "" else "...")
  {
    if more == [] {
      assert labels + more == labels;
    } else {
      assert |labels + more| > 3;
      assert (labels + more)[..3] == labels;
    }
  }

  /** Up to three labels, the cell is the first label, a comma and a space, then the cell of the others. */
  lemma LabelsCellJoined(first: string, others: seq<string>)
    requires 1 <= |others| <= 2
    ensures LabelsCell([first] + others) == first + ", " + LabelsCell(others)
  {
    var labels := [first] + others;
    assert labels[1..] == others;
    assert Join(", ", labels) == first + ", " + Join(", ", others);
  }

  /**
   * One row of the table: the position shown (as `str(position)`) in the
   * first column, the title and labels cells. The age column reads the
   * clock and is not part of the model.
   */
  datatype Row = Row(position: nat, title: string, labels: string)

  /** The rows, numbered from 1 in list order, each showing its issue's title and labels cells. */
  function TableRows(issues: seq<GitHub.Issue>): (r: seq<Row>)
    ensures |r| == |issues|
    ensures forall i :: 0 <= i < |r| ==> r[i].position == i + 1
    ensures forall i :: 0 <= i < |r| ==> r[i].title == TitleCell(issues[i].title) && r[i].labels == LabelsCell(issues[i].labels)
  {
    seq(|issues|, i requires 0 <= i < |issues| => Row(i + 1, TitleCell(issues[i].title), LabelsCell(issues[i].labels)))
  }

  /** `table.add_row` for each issue in turn. */
  method IssueTable(issues: seq<GitHub.Issue>) returns (rows: seq<Row>)
    ensures rows == TableRows(issues)
  {
    rows := [];
    for i := 0 to |issues|
      invariant rows == TableRows(issues)[..i]
    {
      var issue := issues[i];
      ghost var table := TableRows(issues);
      assert table[..i + 1] == table[..i] + [table[i]];
      rows := rows + [Row(i + 1, TitleCell(issue.title), LabelsCell(issue.labels))];
    }
  }

  // ---------------------------------------------------------------------
  // The dialogue
  // ---------------------------------------------------------------------

  /** What `Prompt.ask` returned (with its default already applied), or the Ctrl-C that interrupted it. */
  datatype Answer = Typed(text: string) | Interrupted

  /** What the picker prints while the dialogue goes on. */
  datatype Notice =
    | Details(number: int, title: string, preview: Option<string>)
    | InvalidSelection
    | InvalidInput
    | Cancelled

  /** How the dialogue ends: an issue, `None`, or (the source would keep asking) the answers ran out. */
  datatype Selection = Selected(issue: GitHub.Issue) | NotSelected | OutOfAnswers

  datatype Conversation = Conversation(notices: seq<Notice>, selection: Selection)

  /** What `select_issue` shows and returns. */
  datatype Session = Session(rows: seq<Row>, notices: seq<Notice>, selection: Selection)

  /** The body preview: shown only for a non-empty body, cut to 200 characters with an ellipsis. */
  function Preview(body: string): (r: Option<string>)
    ensures r.None? <==> body == []
    ensures r.Some? ==> |r.value| <= 203 && StartsWith(r.value, if |body| > 200 then body[..200] else body)
    ensures r.Some? ==> (|body| <= 200 ==> r.value == body) && (|body| > 200 ==> r.value == body[..200] + "...")
  {
    if body == [] then None else Some(Truncate(body, 200))
  }

  /** `choice.lower() == 'q'`, compared character by character (`IsQuitLower` relates the two). */
  predicate IsQuit(choice: string) {
    |choice| == 1 && LowerChar(choice[0]) == 'q'
  }

  /** `confirm.lower() in ['y', 'yes']`, compared character by character (`IsConfirmLower` relates the two). */
  predicate IsConfirm(answer: string) {
    || (|answer| == 1 && LowerChar(answer[0]) == 'y')
    || (|answer| == 3 && LowerChar(answer[0]) == 'y' && LowerChar(answer[1]) == 'e' && LowerChar(answer[2]) == 's')
  }

  /** The character-wise quit test is `lower() == 'q'`. */
  lemma IsQuitLower(choice: string)
    ensures IsQuit(choice) <==> Lower(choice) == "q"
  {
    if |choice| == 1 {
      assert Lower(choice) == [LowerChar(choice[0])];
    }
  }

  /** The character-wise confirmation test is `lower() in ['y', 'yes']`. */
  lemma IsConfirmLower(answer: string)
    ensures IsConfirm(answer) <==> Lower(answer) == "y" || Lower(answer) == "yes"
  {
    if |answer| == 1 {
      assert Lower(answer) == [LowerChar(answer[0])];
    } else if |answer| == 3 {
      assert Lower(answer) == [LowerChar(answer[0]), LowerChar(answer[1]), LowerChar(answer[2])];
    }
  }

  /**
   * What the loop makes of one answer: the Ctrl-C, or typed text with the
   * three tests the loop may apply to it (does it quit, what `int()`
   * reads from it, does it confirm).
   */
  datatype Reading = Interruption | Text(quits: bool, number: Option<int>, confirms: bool)

  /** The reading of one answer. */
  function Read(answer: Answer): Reading {
    match answer
    case Interrupted => Interruption
    case Typed(text) => Text(IsQuit(text), ParseInt(text), IsConfirm(text))
  }

  /** The readings of the answers, in order. */
  function Readings(answers: seq<Answer>): (r: seq<Reading>)
    ensures |r| == |answers|
  {
    if answers == [] then [] else [Read(answers[0])] + Readings(answers[1..])
  }

  /** Reading the answers from position `k` on is reading the answers left there. */
  lemma {:induction false} ReadingsFrom(answers: seq<Answer>, k: nat)
    requires k <= |answers|
    ensures Readings(answers)[k..] == Readings(answers[k..])
    decreases k
  {
    if k > 0 {
      ReadingsFrom(answers[1..], k - 1);
      assert answers[1..][k - 1..] == answers[k..];
    }
  }

  /** The reading at position `k` is the reading of answer `k`. */
  lemma ReadingAt(answers: seq<Answer>, k: nat)
    requires k < |answers|
    ensures Readings(answers)[k] == Read(answers[k])
  {
    ReadingsFrom(answers, k);
    assert Readings(answers)[k] == Readings(answers)[k..][0];
  }

  /** The index `int(choice) - 1`, when it is a valid index into the list. */
  function Position(issues: seq<GitHub.Issue>, number: Option<int>): (r: Option<nat>)
    ensures r.Some? <==> number.Some? && 1 <= number.value <= |issues|
    ensures r.Some? ==> r.value == number.value - 1
  {
    match number
    case None => None
    case Some(n) => if 0 <= n - 1 < |issues| then Some(n - 1) else None
  }

  /** The issue a typed choice names, by its 1-based position. */
  function ChosenIndex(issues: seq<GitHub.Issue>, choice: string): Option<nat> {
    Position(issues, ParseInt(choice))
  }

  /** The details printed for a chosen issue. */
  function DetailsOf(issue: GitHub.Issue): Notice {
    Details(issue.number, issue.title, Preview(issue.body))
  }

  /** The error printed for a choice that is not a number (the ValueError), or a number out of range. */
  function Rejection(number: Option<int>): Notice {
    if number.None? then InvalidInput else InvalidSelection
  }

  /** One pass of the prompt loop: it ends the dialogue, or prints its notices and asks again after `used` answers. */
  datatype Round = Finished(notices: seq<Notice>, selection: Selection) | Again(notices: seq<Notice>, used: nat)

  /** After a valid choice: its details are shown, then the confirmation answer decides. */
  function Confirm(selected: GitHub.Issue, rest: seq<Reading>): (r: Round)
    ensures r.Again? ==> r.used == 2 && rest != []
  {
    var shown := DetailsOf(selected);
    if rest == [] then Finished([shown], OutOfAnswers)
    else match rest[0]
      case Interruption => Finished([shown, Cancelled], NotSelected)
      case Text(_, _, confirms) =>
        if confirms then Finished([shown], Selected(selected)) else Again([shown], 2)
  }

  /**
   * The confirmation step always shows the chosen issue first; it selects
   * that issue exactly when the next answer confirms, and asks again
   * exactly when the next answer is typed but does not confirm.
   */
  lemma ConfirmOutcomes(selected: GitHub.Issue, rest: seq<Reading>)
    ensures var r := Confirm(selected, rest);
            && r.notices != [] && r.notices[0] == DetailsOf(selected)
            && (r.Finished? && r.selection.Selected? <==> rest != [] && rest[0].Text? && rest[0].confirms)
            && (r.Finished? && r.selection.Selected? ==> r.selection.issue == selected)
            && (r.Again? <==> rest != [] && rest[0].Text? && !rest[0].confirms)
            && (r.Again? ==> r.notices == [DetailsOf(selected)])
  {
  }

  /**
   * One pass of the prompt loop over the answers still to come: quit,
   * interruption, an unreadable or out-of-range choice, or a valid choice
   * followed by its confirmation answer.
   */
  function Ask(issues: seq<GitHub.Issue>, rs: seq<Reading>): (r: Round)
    requires rs != []
    ensures r.Again? ==> 1 <= r.used <= |rs|
  {
    match rs[0]
    case Interruption => Finished([Cancelled], NotSelected)
    case Text(quits, number, _) =>
      if quits then Finished([], NotSelected)
      else match Position(issues, number)
        case None => Again([Rejection(number)], 1)
        case Some(index) => Confirm(issues[index], rs[1..])
  }

  /** The prompt loop over the answers, pass after pass. */
  function Converse(issues: seq<GitHub.Issue>, rs: seq<Reading>): Conversation
    decreases |rs|
  {
    if rs == [] then Conversation([], OutOfAnswers)
    else match Ask(issues, rs)
      case Finished(notices, selection) => Conversation(notices, selection)
      case Again(notices, used) =>
        var later := Converse(issues, rs[used..]);
        Conversation(notices + later.notices, later.selection)
  }

  /** `select_issue`: nothing at all for an empty list, else the table and the dialogue. */
  function Picker(issues: seq<GitHub.Issue>, answers: seq<Answer>): Session {
    if issues == [] then Session([], [], NotSelected)
    else
      var c := Converse(issues, Readings(answers));
      Session(TableRows(issues), c.notices, c.selection)
  }

  /** The body of the `while True` loop, reading the answers from position `next` on. */
  method AskOnce(issues: seq<GitHub.Issue>, answers: seq<Answer>, next: nat) returns (round: Round)
    requires next < |answers|
    ensures round == Ask(issues, Readings(answers)[next..])
  {
    ghost var rest := Readings(answers)[next..];
    var reading := Readings(answers)[next];
    assert rest[0] == reading;
    if reading.Interruption? {
      return Finished([Cancelled], NotSelected);
    }
    if reading.quits {
      return Finished([], NotSelected);
    }
    if reading.number.None? {
      return Again([InvalidInput], 1);
    }
    var index := reading.number.value - 1;
    if !(0 <= index < |issues|) {
      return Again([InvalidSelection], 1);
    }
    assert rest[1..] == Readings(answers)[next + 1..];
    round := ConfirmChoice(issues[index], answers, next + 1);
  }

  /** Showing the chosen issue and reading the confirmation at position `next`. */
  method ConfirmChoice(selected: GitHub.Issue, answers: seq<Answer>, next: nat) returns (round: Round)
    requires next <= |answers|
    ensures round == Confirm(selected, Readings(answers)[next..])
  {
    var shown := DetailsOf(selected);
    if next == |answers| {
      return Finished([shown], OutOfAnswers);
    }
    var reading := Readings(answers)[next];
    assert Readings(answers)[next..][0] == reading;
    if reading.Interruption? {
      return Finished([shown, Cancelled], NotSelected);
    }
    if reading.confirms {
      return Finished([shown], Selected(selected));
    }
    round := Again([shown], 2);
  }

  /** Notices printed in three stretches, grouped either way. */
  lemma NoticesAssociate(a: seq<Notice>, b: seq<Notice>, c: seq<Notice>)
    ensures a + (b + c) == (a + b) + c
  {
  }

  /** A pass that ends the loop ends the conversation; one that asks again continues it with the answers after it. */
  lemma ConverseStep(issues: seq<GitHub.Issue>, rs: seq<Reading>, next: nat, round: Round)
    requires next < |rs| && round == Ask(issues, rs[next..])
    ensures round.Finished? ==> Converse(issues, rs[next..]) == Conversation(round.notices, round.selection)
    ensures round.Again? ==>
      && next + round.used <= |rs|
      && var later := Converse(issues, rs[next + round.used..]);
         Converse(issues, rs[next..]) == Conversation(round.notices + later.notices, later.selection)
  {
    var now := rs[next..];
    if round.Again? {
      assert now[round.used..] == rs[next + round.used..];
    }
  }

  /** The `while True` loop: ask until an issue is confirmed, the user quits, or the answers run out. */
  method Dialogue(issues: seq<GitHub.Issue>, answers: seq<Answer>) returns (c: Conversation)
    ensures c == Converse(issues, Readings(answers))
  {
    ghost var rs := Readings(answers);
    var notices: seq<Notice> := [];
    var next := 0;
    assert rs[0..] == rs;
    ghost var rest := Converse(issues, rs);
    while next < |answers|
      invariant 0 <= next <= |answers|
      invariant rest == Converse(issues, rs[next..])
      invariant Converse(issues, rs) == Conversation(notices + rest.notices, rest.selection)
      decreases |answers| - next
    {
      var round := AskOnce(issues, answers, next);
      ConverseStep(issues, rs, next, round);
      if round.Finished? {
        return Conversation(notices + round.notices, round.selection);
      }
      ghost var later := Converse(issues, rs[next + round.used..]);
      NoticesAssociate(notices, round.notices, later.notices);
      notices := notices + round.notices;
      next := next + round.used;
      rest := later;
    }
    assert rs[next..] == [];
    c := Conversation(notices, OutOfAnswers);
  }

  /** `select_issue`: nothing for an empty list; else print the table and run the dialogue. */
  method SelectIssue(issues: seq<GitHub.Issue>, answers: seq<Answer>) returns (session: Session)
    ensures session == Picker(issues, answers)
  {
    if issues == [] {
      return Session([], [], NotSelected);
    }
    var rows := IssueTable(issues);
    var c := Dialogue(issues, answers);
    session := Session(rows, c.notices, c.selection);
  }

  // ---------------------------------------------------------------------
  // Properties of the dialogue
  // ---------------------------------------------------------------------

  /** Only the two cases of a letter lower-case to it. */
  lemma LowerCharIs(c: char, lower: char, upper: char)
    requires 'a' <= lower <= 'z' && upper as int == lower as int - 32
    ensures LowerChar(c) == lower <==> c == lower || c == upper
  {
  }

  /** `q` quits in either case, and no other answer does. */
  lemma QuitAnswers(choice: string)
    ensures IsQuit(choice) <==> choice == "q" || choice == "Q"
  {
    if |choice| == 1 {
      LowerCharIs(choice[0], 'q', 'Q');
      assert choice == [choice[0]];
    }
  }

  /** The confirmation is `y` or `yes`, in any mix of cases. */
  lemma ConfirmAnswers(answer: string)
    ensures IsConfirm(answer) <==>
      (|answer| == 1 && answer[0] in "yY")
      || (|answer| == 3 && answer[0] in "yY" && answer[1] in "eE" && answer[2] in "sS")
  {
    if |answer| == 1 {
      LowerCharIs(answer[0], 'y', 'Y');
    } else if |answer| == 3 {
      LowerCharIs(answer[0], 'y', 'Y');
      LowerCharIs(answer[1], 'e', 'E');
      LowerCharIs(answer[2], 's', 'S');
    }
  }

  /** A printed number never reads as the quit answer. */
  lemma NumberIsNotQuit(n: int)
    ensures !IsQuit(Decimal(n))
  {
    var d := Decimal(n);
    if |d| == 1 {
      assert d[0] == '-' || IsDigit(d[0]);
    }
  }

  /** Reading `i` is a choice of a position in the list and the reading after it confirms. */
  predicate ConfirmedAt(issues: seq<GitHub.Issue>, rs: seq<Reading>, i: int) {
    && 0 <= i < |rs| - 1
    && rs[i].Text? && rs[i + 1].Text?
    && !rs[i].quits && Position(issues, rs[i].number).Some?
    && rs[i + 1].confirms
  }

  /**
   * An issue is selected only when some answer named its position in the
   * list and the answer right after it confirmed.
   */
  lemma {:induction false} SelectedOnlyWhenConfirmed(issues: seq<GitHub.Issue>, rs: seq<Reading>)
    requires Converse(issues, rs).selection.Selected?
    ensures exists i :: ConfirmedAt(issues, rs, i)
                        && Converse(issues, rs).selection.issue == issues[Position(issues, rs[i].number).value]
    decreases |rs|
  {
    var picked := Converse(issues, rs).selection.issue;
    match Ask(issues, rs)
    case Finished(_, _) =>
      assert ConfirmedAt(issues, rs, 0);
    case Again(_, used) =>
      var later := rs[used..];
      SelectedOnlyWhenConfirmed(issues, later);
      var j :| ConfirmedAt(issues, later, j) && picked == issues[Position(issues, later[j].number).value];
      assert later[j] == rs[j + used] && later[j + 1] == rs[j + used + 1];
      assert ConfirmedAt(issues, rs, j + used);
  }

  /** The picker returns an issue only after its number was typed and then confirmed with `y` or `yes`. */
  lemma PickedOnlyWhenConfirmed(issues: seq<GitHub.Issue>, answers: seq<Answer>)
    requires Picker(issues, answers).selection.Selected?
    ensures exists i :: 0 <= i < |answers| - 1 && answers[i].Typed? && answers[i + 1].Typed?
                        && ChosenIndex(issues, answers[i].text).Some? && IsConfirm(answers[i + 1].text)
                        && Picker(issues, answers).selection.issue == issues[ChosenIndex(issues, answers[i].text).value]
  {
    var rs := Readings(answers);
    SelectedOnlyWhenConfirmed(issues, rs);
    var i :| ConfirmedAt(issues, rs, i) && Converse(issues, rs).selection.issue == issues[Position(issues, rs[i].number).value];
    ReadingAt(answers, i);
    ReadingAt(answers, i + 1);
  }

  /** Typing a row's number and confirming selects the issue on that row. */
  lemma PickByPosition(issues: seq<GitHub.Issue>, k: int, confirm: string, rest: seq<Answer>)
    requires 1 <= k <= |issues|
    requires IsConfirm(confirm)
    ensures TableRows(issues)[k - 1].position == k
    ensures Picker(issues, [Typed(Decimal(k)), Typed(confirm)] + rest)
         == Session(TableRows(issues), [DetailsOf(issues[k - 1])], Selected(issues[k - 1]))
  {
    ParseDecimal(k);
    NumberIsNotQuit(k);
    var answers := [Typed(Decimal(k)), Typed(confirm)] + rest;
    var rs := Readings(answers);
    ReadingAt(answers, 0);
    ReadingAt(answers, 1);
    assert rs[0] == Text(false, Some(k), IsConfirm(Decimal(k)));
    assert rs[1..][0] == rs[1] && rs[1].Text? && rs[1].confirms;
    assert Ask(issues, rs) == Finished([DetailsOf(issues[k - 1])], Selected(issues[k - 1]));
  }

  /** The error notices of rejected choices, in order. */
  function Rejections(junk: seq<Reading>): (r: seq<Notice>)
    requires forall i :: 0 <= i < |junk| ==> junk[i].Text?
    ensures |r| == |junk|
    ensures forall i :: 0 <= i < |junk| ==> r[i] == Rejection(junk[i].number)
  {
    if junk == [] then [] else [Rejection(junk[0].number)] + Rejections(junk[1..])
  }

  /** A rejected choice prints its error and is followed by the next pass. */
  lemma RejectedChoice(issues: seq<GitHub.Issue>, junk: seq<Reading>, rest: seq<Reading>)
    requires junk != [] && junk[0].Text? && !junk[0].quits && Position(issues, junk[0].number).None?
    ensures var later := Converse(issues, junk[1..] + rest);
            Converse(issues, junk + rest) == Conversation([Rejection(junk[0].number)] + later.notices, later.selection)
  {
    var rs := junk + rest;
    assert rs[0] == junk[0] && rs[1..] == junk[1..] + rest;
  }

  /**
   * A valid choice that is not confirmed shows the chosen issue's details,
   * and the dialogue goes on with the answer after the confirmation.
   */
  lemma DeclinedChoice(issues: seq<GitHub.Issue>, choice: Reading, answer: Reading, rest: seq<Reading>)
    requires choice.Text? && !choice.quits && Position(issues, choice.number).Some?
    requires answer.Text? && !answer.confirms
    ensures var later := Converse(issues, rest);
            Converse(issues, [choice, answer] + rest)
              == Conversation([DetailsOf(issues[Position(issues, choice.number).value])] + later.notices, later.selection)
  {
    var rs := [choice, answer] + rest;
    assert rs[0] == choice && rs[1..] == [answer] + rest && rs[2..] == rest;
    assert rs[1..][0] == answer;
  }

  /**
   * Choices that neither quit, nor name a position in the list, nor are
   * interrupted only add their error notices: the dialogue goes on as if
   * they had not been given.
   */
  lemma {:induction false} InvalidChoicesReprompt(issues: seq<GitHub.Issue>, junk: seq<Reading>, rest: seq<Reading>)
    requires forall i :: 0 <= i < |junk| ==> junk[i].Text? && !junk[i].quits && Position(issues, junk[i].number).None?
    ensures Converse(issues, junk + rest).notices == Rejections(junk) + Converse(issues, rest).notices
    ensures Converse(issues, junk + rest).selection == Converse(issues, rest).selection
    decreases |junk|
  {
    if junk == [] {
      assert junk + rest == rest;
    } else {
      RejectedChoice(issues, junk, rest);
      InvalidChoicesReprompt(issues, junk[1..], rest);
      var first := Rejection(junk[0].number);
      var others := Rejections(junk[1..]);
      var notices := Converse(issues, rest).notices;
      assert Rejections(junk) == [first] + others;
      NoticesAssociate([first], others, notices);
    }
  }

  /** Reading answers one by one commutes with putting answer lists together. */
  lemma {:induction false} ReadingsAppend(a: seq<Answer>, b: seq<Answer>)
    ensures Readings(a + b) == Readings(a) + Readings(b)
  {
    if a == [] {
      assert a + b == b;
    } else {
      var first := Read(a[0]);
      assert (a + b)[0] == a[0] && (a + b)[1..] == a[1..] + b;
      assert Readings(a + b) == [first] + Readings(a[1..] + b);
      ReadingsAppend(a[1..], b);
      assert Readings(a) == [first] + Readings(a[1..]);
      assert [first] + (Readings(a[1..]) + Readings(b)) == [first] + Readings(a[1..]) + Readings(b);
    }
  }

  /**
   * Typed answers that neither quit nor name a position in the list only
   * add their "Invalid input" or "Invalid selection" notices before the
   * dialogue the remaining answers give.
   */
  lemma InvalidAnswersReprompt(issues: seq<GitHub.Issue>, junk: seq<Answer>, rest: seq<Answer>)
    requires issues != []
    requires forall i :: 0 <= i < |junk| ==> junk[i].Typed? && !IsQuit(junk[i].text) && ChosenIndex(issues, junk[i].text).None?
    ensures Picker(issues, junk + rest).selection == Picker(issues, rest).selection
    ensures |Picker(issues, junk + rest).notices| == |junk| + |Picker(issues, rest).notices|
    ensures forall i :: 0 <= i < |junk| ==> Picker(issues, junk + rest).notices[i] == Rejection(ParseInt(junk[i].text))
    ensures Picker(issues, junk + rest).notices[|junk|..] == Picker(issues, rest).notices
  {
    var rj := Readings(junk);
    forall i | 0 <= i < |junk|
      ensures rj[i] == Read(junk[i])
    {
      ReadingAt(junk, i);
    }
    ReadingsAppend(junk, rest);
    InvalidChoicesReprompt(issues, rj, Readings(rest));
  }

  /** `q` or `Q` ends the dialogue at once with no selection. */
  lemma QuitStops(issues: seq<GitHub.Issue>, choice: string, rest: seq<Answer>)
    requires issues != [] && IsQuit(choice)
    ensures Picker(issues, [Typed(choice)] + rest) == Session(TableRows(issues), [], NotSelected)
  {
    assert Readings([Typed(choice)] + rest)[0] == Text(true, ParseInt(choice), IsConfirm(choice));
  }

  /** An interrupted prompt ends the dialogue with `Cancelled.` and no selection. */
  lemma InterruptCancels(issues: seq<GitHub.Issue>, rest: seq<Answer>)
    requires issues != []
    ensures Picker(issues, [Interrupted] + rest) == Session(TableRows(issues), [Cancelled], NotSelected)
  {
    assert Readings([Interrupted] + rest)[0] == Interruption;
  }
}
