/** The terminal prompts of prompt.ts. The terminal is a sequence of answers,
    one per prompt("> ") call, where None is the null that prompt gives for
    an empty line or a closed input; once the sequence is used up every
    further call gives None. */
module Prompt {
  import opened Js
  import opened Types

  // ---------------------------------------------------------------------------
  // formatRecord

  const RecordKeys: seq<string> := ["name", "artists", "album", "release_date"]
  const FieldSeparator := "\n     "
  const FieldIndent := "     "
  /** What Array.prototype.join writes for an object that is not an array. */
  const ObjectText := "[object Object]"

  /** The fields formatRecord keeps, in the record's own key order. */
  function KeptFields(fields: seq<Field>): (kept: seq<Field>)
    ensures |kept| <= |fields|
  {
    if |fields| == 0 then []
    else
      var rest := KeptFields(fields[1..]);
      if fields[0].key in RecordKeys then [fields[0]] + rest else rest
  }

  /** A field is kept exactly when the record has it under one of the four
      keys. */
  lemma {:induction false} KeptFieldsMembers(fields: seq<Field>, f: Field)
    ensures f in KeptFields(fields) <==> f in fields && f.key in RecordKeys
  {
    if |fields| > 0 {
      KeptFieldsMembers(fields[1..], f);
      assert f in fields <==> f == fields[0] || f in fields[1..];
    }
  }

  /** Filtering keeps the relative order: the kept fields of a record are the
      kept fields of any front part followed by those of the rest. */
  lemma {:induction false} KeptFieldsAppend(a: seq<Field>, b: seq<Field>)
    ensures KeptFields(a + b) == KeptFields(a) + KeptFields(b)
  {
    if |a| > 0 {
      assert (a + b)[0] == a[0] && (a + b)[1..] == a[1..] + b;
      KeptFieldsAppend(a[1..], b);
    } else {
      assert a + b == b;
    }
  }

  /** How one kept field is written. The artists list is the artist names
      joined by ", "; artists that is not a list throws a TypeError (None).
      Any other value goes to Array.prototype.join as it is: a string stays,
      an object prints as [object Object], a list of objects as those joined
      by ",". */
  function RenderField(f: Field): (r: Option<string>)
    ensures r.None? <==> f.key == "artists" && !f.value.Artists?
    ensures f.key == "artists" && f.value.Artists? ==> r == Some(Join(f.value.names, ", "))
    ensures f.key != "artists" && f.value.Text? ==> r == Some(f.value.text)
    ensures f.key != "artists" && f.value.Obj? ==> r == Some(ObjectText)
    ensures f.key != "artists" && f.value.Artists? ==> r == Some(Join(ObjectTexts(|f.value.names|), ","))
  {
    if f.key == "artists" then
      match f.value
      case Artists(names) => Some(Join(names, ", "))
      case _ => None
    else
      match f.value
      case Text(s) => Some(s)
      case Artists(names) => Some(Join(ObjectTexts(|names|), ","))
      case Obj => Some(ObjectText)
  }

  /** What join makes of n objects that are not arrays. */
  function ObjectTexts(n: nat): (texts: seq<string>)
    ensures |texts| == n && forall i :: 0 <= i < n ==> texts[i] == ObjectText
  {
    seq(n, _ => ObjectText)
  }

  /** The texts of the kept fields, or None when one of them throws. */
  function RenderAll(kept: seq<Field>): (r: Option<seq<string>>)
    ensures r.Some? <==> forall i :: 0 <= i < |kept| ==> RenderField(kept[i]).Some?
    ensures r.Some? ==> |r.value| == |kept|
    ensures r.Some? ==> forall i :: 0 <= i < |kept| ==> r.value[i] == RenderField(kept[i]).value
  {
    if |kept| == 0 then Some([])
    else
      match RenderField(kept[0])
      case None => None
      case Some(head) =>
        match RenderAll(kept[1..])
        case None => None
        case Some(tail) => Some([head] + tail)
  }

  /** formatRecord(record): the kept fields, each written out, joined by a
      newline and five spaces; None is the TypeError thrown for an artists
      field that is not a list. */
  function FormatRecord(fields: seq<Field>): Option<string>
  {
    match RenderAll(KeptFields(fields))
    case None => None
    case Some(texts) => Some(Join(texts, FieldSeparator))
  }

  /** formatRecord throws exactly when a kept artists field is not a list. */
  lemma FormatRecordThrows(fields: seq<Field>)
    ensures FormatRecord(fields).None? <==> exists f :: f in fields && f.key == "artists" && !f.value.Artists?
  {
    var kept := KeptFields(fields);
    if FormatRecord(fields).None? {
      var i :| 0 <= i < |kept| && RenderField(kept[i]).None?;
      KeptFieldsMembers(fields, kept[i]);
    } else {
      forall f | f in fields && f.key == "artists"
        ensures f.value.Artists?
      {
        KeptFieldsMembers(fields, f);
        var i :| 0 <= i < |kept| && kept[i] == f;
      }
    }
  }

  /** Cutting the formatted record at its newlines gives the first kept field
      and then each later one behind five spaces, provided no written field
      holds a newline itself. */
  lemma FormatRecordLines(fields: seq<Field>)
    requires FormatRecord(fields).Some?
    requires |KeptFields(fields)| >= 1
    requires forall f :: f in KeptFields(fields) ==> '\n' !in RenderField(f).value
    ensures var texts := RenderAll(KeptFields(fields)).value;
            Split(FormatRecord(fields).value, '\n')
            == [texts[0]] + seq(|texts| - 1, i requires 0 <= i < |texts| - 1 => FieldIndent + texts[i + 1])
  {
    var kept := KeptFields(fields);
    var texts := RenderAll(kept).value;
    forall i | 0 <= i < |texts|
      ensures '\n' !in texts[i]
    {
      assert kept[i] in kept;
    }
    assert FieldSeparator == ['\n'] + FieldIndent;
    SplitJoin(texts, '\n', FieldIndent);
  }

  // ---------------------------------------------------------------------------
  // promptActions

  const RetryText := "Invalid input. Please retry:"

  /** An action of a menu. Only the actions offered for a possible match carry
      a search result; for the others `match` (here `result`) is undefined (None). */
  datatype Action = Action(id: string, text: string, result: Option<SearchResult>)

  /** The options of promptActions with the defaults of the destructuring
      applied (before and after default to ""). */
  datatype Options = Options(before: string, after: string, actions: seq<Action>, defaultValue: Option<int>, space: bool)

  /** What promptActions gives back: null, undefined (an invalid answer), an
      action, or the RangeError of an exhausted call stack (an invalid truthy
      default that every later prompt falls back on). */
  datatype Choice = Null | Undefined | Chosen(action: Action) | StackOverflow

  /** The choice and the options of every menu shown, in order. */
  datatype PromptRun = PromptRun(choice: Choice, shown: seq<Options>)

  function FirstAnswer(answers: seq<Option<string>>): Option<string>
  {
    if |answers| == 0 then None else answers[0]
  }

  /** prompt("> ") ?? defaultValue ?? null, in the text String() makes of it,
      or None when that value is falsy (null, "" or 0). */
  function Picked(answer: Option<string>, defaultValue: Option<int>): (r: Option<string>)
    ensures r.Some? ==> r.value != ""
    ensures answer.Some? ==> r == (if answer.value == "" then None else answer)
    ensures answer.None? ==> (r.None? <==> defaultValue.None? || defaultValue.value == 0)
    ensures answer.None? && defaultValue.Some? && defaultValue.value != 0 ==> r == Some(IntToString(defaultValue.value))
  {
    match answer
    case Some(s) => if s == "" then None else Some(s)
    case None =>
      match defaultValue
      case Some(d) => if d == 0 then None else Some(IntToString(d))
      case None => None
  }

  /** The action an input selects: parseInt of it must name an index of
      actions; NaN and anything out of range select nothing. */
  function Selected(actions: seq<Action>, text: string): (i: Option<nat>)
    ensures i.Some? ==> i.value < |actions|
    ensures i.Some? <==> ParseInt(text).Some? && 0 <= ParseInt(text).value < |actions|
    ensures i.Some? ==> i.value == ParseInt(text).value
  {
    match ParseInt(text)
    case Some(n) => if 0 <= n < |actions| then Some(n) else None
    case None => None
  }

  /** How promptActions reads one input: falsy (it returns null), the index
      of an action, or an input that names no action. */
  datatype Reading = Dismissed | Names(index: nat) | NamesNothing

  /** The reading of an input against a menu's actions and default. */
  function ReadInput(actions: seq<Action>, answer: Option<string>, defaultValue: Option<int>): (r: Reading)
    ensures r.Dismissed? <==> Picked(answer, defaultValue).None?
    ensures r.Names? <==> Picked(answer, defaultValue).Some? && Selected(actions, Picked(answer, defaultValue).value).Some?
    ensures r.Names? ==> r.index < |actions| && Selected(actions, Picked(answer, defaultValue).value) == Some(r.index)
  {
    match Picked(answer, defaultValue)
    case None => Dismissed
    case Some(text) =>
      match Selected(actions, text)
      case Some(i) => Names(i)
      case None => NamesNothing
  }

  /** Whether the first input names an action. */
  predicate ValidInput(options: Options, answers: seq<Option<string>>)
  {
    ReadInput(options.actions, FirstAnswer(answers), options.defaultValue).Names?
  }

  /** The prompt loop of promptActions, with read standing for how one input
      is read against the menu; a re-prompt keeps the actions and the
      default, so it reads its inputs the same way. An invalid input shows
      the menu again with the retry text in front, discards what that call
      gives and answers undefined; when the answers have run out the
      re-prompt sees the same input again, for ever, and the recursion
      exhausts the stack (only the first menu is recorded then). */
  function Prompting(options: Options, answers: seq<Option<string>>, read: Option<string> -> Reading): (run: PromptRun)
    requires forall a :: read(a).Names? ==> read(a).index < |options.actions|
    ensures |run.shown| >= 1 && run.shown[0] == options
    ensures forall i :: 1 <= i < |run.shown| ==> run.shown[i] == options.(before := RetryText)
    ensures |run.shown| <= |answers| + 1
    ensures run.choice.Null? <==> read(FirstAnswer(answers)).Dismissed?
    ensures run.choice.Chosen? <==> read(FirstAnswer(answers)).Names?
    ensures run.choice.Chosen? ==> run.choice.action == options.actions[read(FirstAnswer(answers)).index] && |run.shown| == 1
    ensures read(FirstAnswer(answers)).NamesNothing? ==> (run.choice.Undefined? || run.choice.StackOverflow?) && (|answers| > 0 ==> |run.shown| >= 2)
    ensures run.choice.StackOverflow? ==> read(None).NamesNothing?
    decreases |answers|
  {
    match read(FirstAnswer(answers))
    case Dismissed => PromptRun(Null, [options])
    case Names(i) => PromptRun(Chosen(options.actions[i]), [options])
    case NamesNothing =>
      if |answers| == 0 then PromptRun(StackOverflow, [options])
      else
        var again := options.(before := RetryText);
        var retry := Prompting(again, answers[1..], read);
        var shown := [options] + retry.shown;
        assert again.(before := RetryText) == again;
        assert forall i :: 1 <= i < |shown| ==> shown[i] == retry.shown[i - 1];
        PromptRun(if retry.choice.StackOverflow? then StackOverflow else Undefined, shown)
  }

  /** promptActions(options), reading its inputs from answers: the first menu
      is shown with the given options and every later one behind the retry
      text; an action comes back exactly when the first input names one, and
      null exactly when that input is falsy. */
  function PromptActions(options: Options, answers: seq<Option<string>>): (run: PromptRun)
    ensures |run.shown| >= 1 && run.shown[0] == options
    ensures forall i :: 1 <= i < |run.shown| ==> run.shown[i] == options.(before := RetryText)
    ensures |run.shown| <= |answers| + 1
    ensures run.choice.Chosen? <==> ValidInput(options, answers)
    ensures run.choice.Chosen? ==> run.choice.action in options.actions && |run.shown| == 1
    ensures run.choice.Null? <==> ReadInput(options.actions, FirstAnswer(answers), options.defaultValue).Dismissed?
    ensures run.choice.StackOverflow? ==> ReadInput(options.actions, None, options.defaultValue).NamesNothing?
    ensures options.defaultValue.None? && ReadInput(options.actions, FirstAnswer(answers), None).NamesNothing? ==>
              run.choice == Undefined
  {
    Prompting(options, answers, a => ReadInput(options.actions, a, options.defaultValue))
  }

  /** An empty or missing input with no truthy default gives null; a default
      of 0 is falsy, so it gives null too. */
  lemma NothingPickedIsNull(options: Options, answers: seq<Option<string>>)
    requires FirstAnswer(answers).None? || FirstAnswer(answers) == Some("")
    requires options.defaultValue.None? || options.defaultValue == Some(0)
    ensures PromptActions(options, answers) == PromptRun(Null, [options])
  {
  }

  /** Typing the number shown beside an action selects that action. */
  lemma TypedIndexSelects(options: Options, answers: seq<Option<string>>, i: nat)
    requires i < |options.actions|
    requires FirstAnswer(answers) == Some(IntToString(i))
    ensures PromptActions(options, answers) == PromptRun(Chosen(options.actions[i]), [options])
  {
    ParseIntToString(i);
  }

  /** With no input, a non-zero default index of an action selects it. */
  lemma DefaultIndexSelects(options: Options, answers: seq<Option<string>>)
    requires FirstAnswer(answers).None?
    requires options.defaultValue.Some? && 0 < options.defaultValue.value < |options.actions|
    ensures PromptActions(options, answers) == PromptRun(Chosen(options.actions[options.defaultValue.value]), [options])
  {
    ParseIntToString(options.defaultValue.value);
  }

  /** An input that names no action re-prompts with the retry text and never
      yields an action, whatever the re-prompt gets. */
  lemma InvalidInputReprompts(options: Options, answers: seq<Option<string>>)
    requires |answers| >= 1 && FirstAnswer(answers).Some? && FirstAnswer(answers) != Some("")
    requires ParseInt(FirstAnswer(answers).value).None?
    ensures var run := PromptActions(options, answers);
            (run.choice.Undefined? || run.choice.StackOverflow?)
            && (options.defaultValue.None? ==> run.choice == Undefined)
            && |run.shown| >= 2 && run.shown[1] == options.(before := RetryText)
  {
  }

  /** The line console.log writes for action i: "  i) text". */
  function ActionLine(i: nat, action: Action): string
  {
    "  " + NatToString(i) + ") " + action.text
  }

  /** The action lines of a menu, each followed by an empty line when space
      is set. */
  function ActionLines(actions: seq<Action>, space: bool): (lines: seq<string>)
    ensures space ==> |lines| == 2 * |actions|
    ensures !space ==> |lines| == |actions|
    ensures space ==> forall i :: 0 <= i < |actions| ==> lines[2 * i] == ActionLine(i, actions[i]) && lines[2 * i + 1] == ""
    ensures !space ==> forall i :: 0 <= i < |actions| ==> lines[i] == ActionLine(i, actions[i])
  {
    if space then
      var lines := seq(2 * |actions|, j requires 0 <= j < 2 * |actions| => if j % 2 == 0 then ActionLine(j / 2, actions[j / 2]) else "");
      assert forall i :: 0 <= i < |actions| ==> (2 * i) / 2 == i && (2 * i) % 2 == 0 && (2 * i + 1) % 2 == 1;
      lines
    else seq(|actions|, j requires 0 <= j < |actions| => ActionLine(j, actions[j]))
  }

  /** Everything a menu logs, one console.log per element. */
  function MenuLines(options: Options): (lines: seq<string>)
    ensures |lines| == 2 + (if options.space then 2 else 1) * |options.actions|
    ensures lines[0] == options.before + "\n" && lines[|lines| - 1] == "\n" + options.after
    ensures lines[1..|lines| - 1] == ActionLines(options.actions, options.space)
  {
    var lines := [options.before + "\n"] + ActionLines(options.actions, options.space) + ["\n" + options.after];
    assert lines[1..|lines| - 1] == ActionLines(options.actions, options.space);
    lines
  }

  // ---------------------------------------------------------------------------
  // definiteMatchPrompt

  /** How a prompt function ends: normally, or by throwing. */
  datatype Outcome = Completed | Threw(message: string)

  const SaveAlbumsMissing := "spotify.saveAlbums is not a function"
  const StackExhausted := "Maximum call stack size exceeded"
  const ArtistsNotAList := "value.map is not a function"

  /** What the chosen branch does besides logging. */
  datatype Effect = NoEffect | LogTodo | SaveAlbums(ids: seq<string>) | WriteMatchesJson

  datatype DefiniteRun = DefiniteRun(prompted: Option<PromptRun>, effect: Effect, outcome: Outcome)

  const DefiniteActions: seq<Action> := [
    Action("playlist", "Add to playlist", None),
    Action("library", "Save to library", None),
    Action("json", "Save as json file", None),
    Action("skip", "Skip", None)]

  function DefiniteIds(definite: seq<SearchResult>): (ids: seq<string>)
    ensures |ids| == |definite|
    ensures forall i :: 0 <= i < |definite| ==> ids[i] == definite[i].id
  {
    seq(|definite|, i requires 0 <= i < |definite| => definite[i].id)
  }

  function DefiniteOptions(count: nat): Options
  {
    Options(NatToString(count) + " definite matches found.", "", DefiniteActions, None, false)
  }

  /** definiteMatchPrompt(matches). The library branch calls saveAlbums,
      which the client does not define, so that call throws. */
  function DefiniteMatchPrompt(matches: Matches, answers: seq<Option<string>>): (r: DefiniteRun)
    ensures |matches.definite| == 0 <==> r.prompted.None?
    ensures |matches.definite| == 0 ==> r == DefiniteRun(None, NoEffect, Completed)
    ensures r.prompted.Some? ==> r.prompted.value == PromptActions(DefiniteOptions(|matches.definite|), answers)
    ensures r.effect.SaveAlbums? <==> r.prompted.Some? && r.prompted.value.choice == Chosen(DefiniteActions[1])
    ensures r.effect.SaveAlbums? ==> r.effect.ids == DefiniteIds(matches.definite) && r.outcome == Threw(SaveAlbumsMissing)
    ensures r.effect.WriteMatchesJson? <==> r.prompted.Some? && r.prompted.value.choice == Chosen(DefiniteActions[2])
    ensures r.outcome.Threw? <==> r.effect.SaveAlbums? || (r.prompted.Some? && r.prompted.value.choice.StackOverflow?)
  {
    if |matches.definite| == 0 then DefiniteRun(None, NoEffect, Completed)
    else
      var run := PromptActions(DefiniteOptions(|matches.definite|), answers);
      match run.choice
      case StackOverflow => DefiniteRun(Some(run), NoEffect, Threw(StackExhausted))
      case Chosen(action) =>
        if action.id == "playlist" then DefiniteRun(Some(run), LogTodo, Completed)
        else if action.id == "library" then DefiniteRun(Some(run), SaveAlbums(DefiniteIds(matches.definite)), Threw(SaveAlbumsMissing))
        else if action.id == "json" then DefiniteRun(Some(run), WriteMatchesJson, Completed)
        else DefiniteRun(Some(run), NoEffect, Completed)
      case _ => DefiniteRun(Some(run), NoEffect, Completed)
  }

  /** Answering 1 to the definite-match menu saves the definite ids. */
  lemma LibraryAnswerSavesIds(matches: Matches, answers: seq<Option<string>>)
    requires |matches.definite| > 0 && FirstAnswer(answers) == Some("1")
    ensures DefiniteMatchPrompt(matches, answers).effect == SaveAlbums(DefiniteIds(matches.definite))
  {
    assert IntToString(1) == "1";
    TypedIndexSelects(DefiniteOptions(|matches.definite|), answers, 1);
  }

  // ---------------------------------------------------------------------------
  // possibleMatchPrompt

  const SelectText := "Select the correct match."
  const SkipAction := Action("skip", "Skip (enter)", None)

  /** The actions offered for a match: its uri as the id, the formatted
      match as the text, and the match itself. */
  function MatchActions(results: seq<SearchResult>): (actions: Option<seq<Action>>)
    ensures actions.Some? <==> forall i :: 0 <= i < |results| ==> FormatRecord(results[i].fields).Some?
    ensures actions.Some? ==> |actions.value| == |results|
    ensures actions.Some? ==> forall i :: 0 <= i < |results| ==>
              actions.value[i] == Action(results[i].uri, FormatRecord(results[i].fields).value, Some(results[i]))
  {
    if |results| == 0 then Some([])
    else
      match FormatRecord(results[0].fields)
      case None => None
      case Some(text) =>
        match MatchActions(results[1..])
        case None => None
        case Some(rest) => Some([Action(results[0].uri, text, Some(results[0]))] + rest)
  }

  /** The menu for one possible match, or None when formatting throws. */
  function ItemOptions(item: PossibleMatch): (o: Option<Options>)
    ensures o.Some? <==> MatchActions(item.matches).Some? && FormatRecord(TargetFields(item.target)).Some?
    ensures o.Some? ==> o.value == Options(FormatRecord(TargetFields(item.target)).value, SelectText,
                                           MatchActions(item.matches).value + [SkipAction], None, true)
  {
    match MatchActions(item.matches)
    case None => None
    case Some(actions) =>
      match FormatRecord(TargetFields(item.target))
      case None => None
      case Some(before) => Some(Options(before, SelectText, actions + [SkipAction], None, true))
  }

  /** What one prompt pushes onto save: action.result for any chosen action
      with a non-empty id (the skip action's undefined included). */
  function Saved(choice: Choice): seq<Option<SearchResult>>
  {
    if choice.Chosen? && choice.action.id != "" then [choice.action.result] else []
  }

  /** The answers left once a run has shown its menus, one read per menu. */
  function Rest(answers: seq<Option<string>>, run: PromptRun): seq<Option<string>>
  {
    if |run.shown| <= |answers| then answers[|run.shown|..] else []
  }

  datatype PossibleRun = PossibleRun(menus: seq<Options>, save: seq<Option<SearchResult>>, outcome: Outcome)

  /** The prompt for one possible match, or None when formatting throws. */
  function ItemPrompt(item: PossibleMatch, answers: seq<Option<string>>): Option<PromptRun>
  {
    match ItemOptions(item)
    case None => None
    case Some(options) => Some(PromptActions(options, answers))
  }

  /** The action picked for a possible match carries one of its matches, or
      is the skip action, whose match is undefined. */
  lemma ItemChoice(item: PossibleMatch, answers: seq<Option<string>>)
    requires ItemPrompt(item, answers).Some? && ItemPrompt(item, answers).value.choice.Chosen?
    ensures var action := ItemPrompt(item, answers).value.choice.action;
            if action.result.Some? then action.result.value in item.matches && action.id == action.result.value.uri
            else action == SkipAction
  {
    var options := ItemOptions(item).value;
    var matchActions := MatchActions(item.matches).value;
    var action := ItemPrompt(item, answers).value.choice.action;
    var k :| 0 <= k < |options.actions| && options.actions[k] == action;
    if k < |matchActions| {
      assert action == matchActions[k];
    }
  }

  /** The forEach over the possible matches, item by item. */
  function PossibleRuns(items: seq<PossibleMatch>, answers: seq<Option<string>>): PossibleRun
    decreases |items|
  {
    if |items| == 0 then PossibleRun([], [], Completed)
    else
      match ItemPrompt(items[0], answers)
      case None => PossibleRun([], [], Threw(ArtistsNotAList))
      case Some(run) =>
        if run.choice.StackOverflow? then PossibleRun(run.shown, [], Threw(StackExhausted))
        else
          var rest := PossibleRuns(items[1..], Rest(answers, run));
          PossibleRun(run.shown + rest.menus, Saved(run.choice) + rest.save, rest.outcome)
  }

  /** At most one entry is saved per item, each the skip's undefined or one
      of that item's matches, and a run that completes prompts at least once
      per item. */
  lemma {:induction false} PossibleRunsBounds(items: seq<PossibleMatch>, answers: seq<Option<string>>)
    ensures |PossibleRuns(items, answers).save| <= |items|
    ensures PossibleRuns(items, answers).outcome.Completed? ==> |PossibleRuns(items, answers).menus| >= |items|
    ensures forall s :: s in PossibleRuns(items, answers).save && s.Some? ==>
              exists item :: item in items && s.value in item.matches
    decreases |items|
  {
    if |items| > 0 && ItemPrompt(items[0], answers).Some? {
      var run := ItemPrompt(items[0], answers).value;
      if !run.choice.StackOverflow? {
        var rest := Rest(answers, run);
        PossibleRunsBounds(items[1..], rest);
        var tail := PossibleRuns(items[1..], rest);
        assert PossibleRuns(items, answers) == PossibleRun(run.shown + tail.menus, Saved(run.choice) + tail.save, tail.outcome);
        forall s | s in Saved(run.choice) + tail.save && s.Some?
          ensures exists item :: item in items && s.value in item.matches
        {
          if s in Saved(run.choice) {
            ItemChoice(items[0], answers);
            assert items[0] in items;
          } else {
            var item :| item in items[1..] && s.value in item.matches;
            assert item in items;
          }
        }
      }
    }
  }

  /** A run that follows the menus already shown and the entries already saved. */
  function After(menus: seq<Options>, save: seq<Option<SearchResult>>, tail: PossibleRun): PossibleRun
  {
    PossibleRun(menus + tail.menus, save + tail.save, tail.outcome)
  }

  /** Prompting for item i moves its menus and its saved entry from the runs
      still to come to those already done. */
  lemma AfterStep(items: seq<PossibleMatch>, i: nat, rest: seq<Option<string>>, menus: seq<Options>, save: seq<Option<SearchResult>>)
    requires i < |items|
    requires ItemPrompt(items[i], rest).Some? && !ItemPrompt(items[i], rest).value.choice.StackOverflow?
    ensures var run := ItemPrompt(items[i], rest).value;
            After(menus, save, PossibleRuns(items[i..], rest))
            == After(menus + run.shown, save + Saved(run.choice), PossibleRuns(items[i + 1..], Rest(rest, run)))
  {
    var run := ItemPrompt(items[i], rest).value;
    assert items[i..][0] == items[i] && items[i..][1..] == items[i + 1..];
    var tail := PossibleRuns(items[i + 1..], Rest(rest, run));
    assert PossibleRuns(items[i..], rest) == PossibleRun(run.shown + tail.menus, Saved(run.choice) + tail.save, tail.outcome);
    assert menus + (run.shown + tail.menus) == (menus + run.shown) + tail.menus;
    assert save + (Saved(run.choice) + tail.save) == (save + Saved(run.choice)) + tail.save;
  }

  /** A throw while prompting for item i ends the runs still to come. */
  lemma ThrowsAt(items: seq<PossibleMatch>, i: nat, rest: seq<Option<string>>)
    requires i < |items|
    requires ItemPrompt(items[i], rest).None? || ItemPrompt(items[i], rest).value.choice.StackOverflow?
    ensures ItemPrompt(items[i], rest).None? ==> PossibleRuns(items[i..], rest) == PossibleRun([], [], Threw(ArtistsNotAList))
    ensures ItemPrompt(items[i], rest).Some? ==>
              PossibleRuns(items[i..], rest) == PossibleRun(ItemPrompt(items[i], rest).value.shown, [], Threw(StackExhausted))
  {
    assert items[i..][0] == items[i];
  }

  /** possibleMatchPrompt(matches): logs the count, then prompts for each
      possible match in turn and pushes the chosen match onto save. A throw
      (from formatRecord or the stack) ends the loop. */
  method PossibleMatchPrompt(matches: Matches, answers: seq<Option<string>>)
    returns (header: string, menus: seq<Options>, save: seq<Option<SearchResult>>, outcome: Outcome)
    ensures header == NatToString(|matches.possible|) + " possible matches."
    ensures PossibleRun(menus, save, outcome) == PossibleRuns(matches.possible, answers)
  {
    header := NatToString(|matches.possible|) + " possible matches.";
    var items := matches.possible;
    menus, save, outcome := [], [], Completed;
    var rest := answers;
    var i := 0;
    assert items[0..] == items;
    assert After([], [], PossibleRuns(items, answers)) == PossibleRuns(items, answers);
    while i < |items|
      invariant 0 <= i <= |items|
      invariant PossibleRuns(items, answers) == After(menus, save, PossibleRuns(items[i..], rest))
      invariant outcome == Completed
    {
      var prompted := ItemPrompt(items[i], rest);
      if prompted.None? {
        ThrowsAt(items, i, rest);
        outcome := Threw(ArtistsNotAList);
        assert menus + [] == menus && save + [] == save;
        return;
      }
      var run := prompted.value;
      if run.choice.StackOverflow? {
        ThrowsAt(items, i, rest);
        menus, outcome := menus + run.shown, Threw(StackExhausted);
        assert save + [] == save;
        return;
      }
      AfterStep(items, i, rest, menus, save);
      ghost var saved := save + Saved(run.choice);
      if run.choice.Chosen? && run.choice.action.id != "" {
        save := save + [run.choice.action.result];
      }
      assert save == saved;
      menus := menus + run.shown;
      rest := Rest(rest, run);
      i := i + 1;
    }
    assert items[i..] == [];
    assert menus + [] == menus && save + [] == save;
  }
}
