/**
 * `ConsoleClient`: the multi-module command-line loop. A line typed at
 * the prompt is normalised and split into tokens; the first token is
 * resolved, in a fixed order, as a built-in word (nothing, `help`,
 * `exit`), the name of another module, or a command of the current
 * module.
 *
 * The lines the user types are a parameter; what the client prints is
 * returned as a list of strings, one per `println`.
 */
module Console {
  import opened Wrappers
  import opened Lang
  import opened Strings
  import opened Splitting
  import opened Decimal
  import opened Commands
  import opened Modules

  // ------------------------------------------------------------------ prompt

  /**
   * The prompt shown before each line: the application name, the module's
   * prompt, then "$ ", with the number of history entries in front of it
   * when history logging is on.
   */
  function PromptString(appname: string, modulePrompt: string, historyEnabled: bool, historySize: nat): (r: string)
  {
    appname + ": " + modulePrompt + (if !historyEnabled then "$ " else IntToString(historySize) + "$ ")
  }

  /**
   * The prompt is the application name, ": ", the module's prompt, then
   * "$ "; with history logging on, the number in between reads back as
   * the history size.
   */
  lemma PromptLayout(appname: string, modulePrompt: string, historyEnabled: bool, historySize: nat)
    ensures var r := PromptString(appname, modulePrompt, historyEnabled, historySize);
      var head := appname + ": " + modulePrompt;
      && |r| >= |head| + 2 && r[..|head|] == head && r[|r| - 2..] == "$ "
      && (!historyEnabled ==> |r| == |head| + 2)
      && (historyEnabled ==> AllDigits(r[|head|..|r| - 2]) && ParseInt(r[|head|..|r| - 2]) == historySize)
  {
    var head := appname + ": " + modulePrompt;
    var r := PromptString(appname, modulePrompt, historyEnabled, historySize);
    if historyEnabled {
      assert r == head + (IntToString(historySize) + "$ ");
      assert r[|head|..|r| - 2] == IntToString(historySize);
      IntToStringRoundTrip(historySize);
    } else {
      assert r == head + "$ ";
    }
  }

  /** The tokens of a typed line: trimmed, runs of spaces collapsed, split at spaces. */
  function Tokens(line: string): (r: seq<string>)
    ensures |r| >= 1
  {
    TokensOfNormalized(Normalize(line));
    JavaSplit(Normalize(line), ' ')
  }

  /**
   * A blank line gives the single empty token; any other line gives
   * non-empty tokens without spaces, which joined by single spaces give
   * back the trimmed line with its runs of spaces collapsed.
   */
  lemma TokensOfLine(line: string)
    ensures Normalize(line) == [] ==> Tokens(line) == [""]
    ensures Normalize(line) != [] ==> forall i :: 0 <= i < |Tokens(line)| ==> Tokens(line)[i] != [] && ' ' !in Tokens(line)[i]
    ensures Join(Tokens(line), ' ') == Normalize(line)
  {
    TokensOfNormalized(Normalize(line));
  }

  // ---------------------------------------------------------------- dispatch

  /** The words `runModule` handles before anything else. */
  predicate IsBuiltin(reference: string) {
    reference == "" || reference == "help" || reference == "exit"
  }

  /** What the first token of a line asks for. */
  datatype Decision =
    | Reprompt
    | ShowHelp
    | Exit
    | SwitchTo(target: nat)
    | Execute(command: nat, args: seq<string>)
    | NotRecognized(reference: string)

  /** The index of the first name equal to the reference. */
  function FirstNamed(names: seq<string>, reference: string): (r: Option<nat>)
    ensures r.Some? ==> r.value < |names| && names[r.value] == reference
    ensures r.Some? ==> forall k :: 0 <= k < r.value ==> names[k] != reference
    ensures r.None? <==> reference !in names
  {
    if names == [] then None
    else if names[0] == reference then Some(0)
    else match FirstNamed(names[1..], reference)
      case None => None
      case Some(k) => Some(k + 1)
  }

  /** A command answers to its default reference and to each alternate reference. */
  predicate Answers(info: CommandInfo, reference: string) {
    reference == info.defaultReference || reference in info.alternateReferences
  }

  /** The index of the first command that answers to the reference. */
  function FirstAnswering(infos: seq<CommandInfo>, reference: string): (r: Option<nat>)
    ensures r.Some? ==> r.value < |infos| && Answers(infos[r.value], reference)
    ensures r.Some? ==> forall k :: 0 <= k < r.value ==> !Answers(infos[k], reference)
    ensures r.None? ==> forall k :: 0 <= k < |infos| ==> !Answers(infos[k], reference)
  {
    if infos == [] then None
    else if Answers(infos[0], reference) then Some(0)
    else match FirstAnswering(infos[1..], reference)
      case None => None
      case Some(k) => Some(k + 1)
  }

  /**
   * The resolution order of `runModule`: the built-in words; then the
   * first module with that name, unless it is the current module's name;
   * then the first command of the current module that answers to it,
   * which receives the remaining tokens; otherwise it is not recognised.
   */
  function Resolve(tokens: seq<string>, names: seq<string>, current: string, infos: seq<CommandInfo>): (d: Decision)
    requires |tokens| >= 1
    ensures d.Reprompt? <==> tokens[0] == ""
    ensures d.ShowHelp? <==> tokens[0] == "help"
    ensures d.Exit? <==> tokens[0] == "exit"
    ensures d.SwitchTo? ==> d.target < |names|
    ensures d.Execute? ==> d.command < |infos|
  {
    var reference := tokens[0];
    if reference == "" then Reprompt
    else if reference == "help" then ShowHelp
    else if reference == "exit" then Exit
    else
      var switchTo := if reference == current then None else FirstNamed(names, reference);
      if switchTo.Some? then SwitchTo(switchTo.value)
      else match FirstAnswering(infos, reference)
        case Some(k) => Execute(k, tokens[1..])
        case None => NotRecognized(reference)
  }

  /**
   * A reference that is not a built-in word switches to the first module
   * of that name when it is not the current module's; failing that, it
   * runs the first command that answers to it with the other tokens;
   * failing that, it is not recognised.
   */
  lemma ResolveOrder(tokens: seq<string>, names: seq<string>, current: string, infos: seq<CommandInfo>)
    requires |tokens| >= 1
    ensures var d := Resolve(tokens, names, current, infos);
      && (d.SwitchTo? <==> !IsBuiltin(tokens[0]) && tokens[0] != current && tokens[0] in names)
      && (d.SwitchTo? ==> names[d.target] == tokens[0] && forall k :: 0 <= k < d.target ==> names[k] != tokens[0])
      && (d.Execute? <==>
            !IsBuiltin(tokens[0]) && (tokens[0] == current || tokens[0] !in names)
            && exists k :: 0 <= k < |infos| && Answers(infos[k], tokens[0]))
      && (d.Execute? ==>
            Answers(infos[d.command], tokens[0]) && d.args == tokens[1..]
            && forall k :: 0 <= k < d.command ==> !Answers(infos[k], tokens[0]))
      && (d.NotRecognized? ==> d.reference == tokens[0])
  {
  }

  /** The name of each module, in order. */
  function Names(ms: seq<Module>): (r: seq<string>)
    ensures |r| == |ms|
    ensures forall i :: 0 <= i < |ms| ==> r[i] == ms[i].name
  {
    seq(|ms|, i requires 0 <= i < |ms| => ms[i].name)
  }

  // --------------------------------------------------------------- help page

  const MODULES_LINE: string := "Type the" + " name of" + " another" + " module" + " to switch" + " to that" + " module:"
  const EXIT_LINE: string := "Type" + " 'exit'" + " at any" + " time to" + " exit the" + " program"
  /** The exit hint, after an empty line. */
  const EXIT_HINT: string := "\n\n" + EXIT_LINE

  /** The modules of the list other than `m`, in list order. */
  function Others(ms: seq<Module>, m: Module): (r: seq<Module>)
    ensures |r| <= |ms|
    ensures m !in r
    ensures forall x :: x in r ==> x in ms
    ensures forall x :: x in ms && x != m ==> x in r
  {
    if ms == [] then []
    else
      var last := ms[|ms| - 1];
      Others(ms[..|ms| - 1], m) + (if last != m then [last] else [])
  }

  /** One line per module name, each after a line break and a tab. */
  function ModuleList(names: seq<string>): string
  {
    if names == [] then []
    else ModuleList(names[..|names| - 1]) + ListingLine(names[|names| - 1])
  }

  /** The line of one other module on the help page. */
  function ListingLine(name: string): string {
    "\n\t- " + "'" + name + "'"
  }

  /** The section that names the other modules, present only when the client has more than one. */
  function OthersSection(moduleCount: nat, names: seq<string>): string
  {
    if moduleCount > 1 then "\n" + MODULES_LINE + ModuleList(names) else ""
  }

  /** The help append, if there is one, on a line of its own. */
  function AppendText(append: Option<string>): string {
    if append.Some? then append.value + "\n" else ""
  }

  /** What `println(message)` receives in `printHelpMessage`. */
  function ConsoleHelp(reset: Option<string>, name: string, infos: seq<CommandInfo>,
                       moduleCount: nat, others: seq<string>, append: Option<string>): (r: Result<string, Exception>)
    ensures reset.Some? ==> r == Success(reset.value)
    ensures reset.None? ==> (r.Success? <==> AllUsagesSucceed(infos))
    ensures r.Failure? ==>
              exists i :: 0 <= i < |infos| && infos[i].usage == Failure(r.error)
                          && forall j :: 0 <= j < i ==> infos[j].usage.Success?
    ensures reset.None? && r.Success? ==> |r.value| >= |Header(name)| && r.value[..|Header(name)|] == Header(name)
  {
    if reset.Some? then Success(reset.value)
    else match Entries(infos, true)
      case Failure(e) => Failure(e)
      case Success(es) => Success(HelpText(name, es, moduleCount, others, append))
  }

  /** The page around the command entries `es`: it opens with the header. */
  function HelpText(name: string, es: string, moduleCount: nat, others: seq<string>, append: Option<string>)
    : (r: string)
    ensures |r| >= |Header(name)| && r[..|Header(name)|] == Header(name)
  {
    var os := OthersSection(moduleCount, others);
    HelpTextShape(Header(name), es, HELP_BLOCK, os, EXIT_HINT, AppendText(append));
    OpensWith(Header(name), es, HELP_BLOCK + os + (EXIT_HINT + "\n" + AppendText(append)));
    Header(name) + es + HELP_BLOCK + os + EXIT_HINT + "\n" + AppendText(append)
  }

  lemma OpensWith(h: string, a: string, b: string)
    ensures |h + a + b| >= |h| && (h + a + b)[..|h|] == h
  {
  }

  /** The lines of the module section: its heading, then one "- 'name'" line per other module. */
  function OtherLines(moduleCount: nat, names: seq<string>): seq<string> {
    if moduleCount > 1 then [MODULES_LINE] + Listed(names) else []
  }

  /** The line of each listed module. */
  function Listed(names: seq<string>): (r: seq<string>)
    ensures |r| == |names|
    ensures forall i :: 0 <= i < |names| ==> r[i] == ListedLine(names[i])
  {
    seq(|names|, i requires 0 <= i < |names| => ListedLine(names[i]))
  }

  function ListedLine(name: string): string {
    "\t- '" + name + "'"
  }

  /** The lines after the exit hint: the appended text, if any, then an empty line. */
  function AppendLines(append: Option<string>): seq<string> {
    if append.Some? then [append.value, ""] else [""]
  }

  lemma {:induction false} ModuleListLines(names: seq<string>)
    ensures ModuleList(names) == Lines(Listed(names))
    decreases |names|
  {
    if names != [] {
      var init := names[..|names| - 1];
      var n := names[|names| - 1];
      ModuleListLines(init);
      assert Listed(names) == Listed(init) + [ListedLine(n)];
      LinesSnoc(Listed(init), ListedLine(n));
      ListedNameShape(n);
      assert ModuleList(init) + ("\n" + ListedLine(n)) == ModuleList(init) + "\n" + ListedLine(n);
    }
  }

  lemma ListedNameShape(n: string)
    ensures ListingLine(n) == "\n" + ListedLine(n)
  {
  }

  lemma ModulesLineSingle()
    ensures '\n' !in MODULES_LINE
  {
  }

  lemma ExitLineSingle()
    ensures '\n' !in EXIT_LINE
  {
  }

  lemma OthersSectionLines(moduleCount: nat, names: seq<string>)
    requires forall i :: 0 <= i < |names| ==> '\n' !in names[i]
    ensures OthersSection(moduleCount, names) == Lines(OtherLines(moduleCount, names))
    ensures FreeOf(OtherLines(moduleCount, names), '\n')
  {
    if moduleCount > 1 {
      var ls := Listed(names);
      ModuleListLines(names);
      LinesConcat([MODULES_LINE], ls);
      LinesOne(MODULES_LINE);
      ModulesLineSingle();
      assert FreeOf(ls, '\n');
      FreeOfConcat([MODULES_LINE], ls, '\n');
    } else {
      assert OtherLines(moduleCount, names) == [];
    }
  }

  lemma TailLines(append: Option<string>)
    requires append.Some? ==> '\n' !in append.value
    ensures EXIT_HINT + "\n" + AppendText(append) == Lines(["", EXIT_LINE] + AppendLines(append))
    ensures FreeOf(["", EXIT_LINE] + AppendLines(append), '\n')
  {
    LinesTwoThen("", EXIT_LINE, AppendLines(append));
    AppendTextLines(append);
    ExitLineSingle();
    assert "\n" + "" + "\n" + EXIT_LINE == EXIT_HINT;
    AppendAssoc(EXIT_HINT, "\n", AppendText(append));
  }

  /** The help append, as lines: itself and an empty one, or just an empty one. */
  lemma AppendTextLines(append: Option<string>)
    requires append.Some? ==> '\n' !in append.value
    ensures "\n" + AppendText(append) == Lines(AppendLines(append))
    ensures FreeOf(AppendLines(append), '\n')
  {
    if append.Some? {
      LinesOne(append.value);
      LinesSnoc([append.value], "");
      assert [append.value] + [""] == [append.value, ""];
    } else {
      LinesOne("");
    }
  }

  lemma RestLines(moduleCount: nat, others: seq<string>, append: Option<string>)
    requires forall i :: 0 <= i < |others| ==> '\n' !in others[i]
    requires append.Some? ==> '\n' !in append.value
    ensures HELP_BLOCK + OthersSection(moduleCount, others) + (EXIT_HINT + "\n" + AppendText(append))
         == Lines(HELP_LINES + OtherLines(moduleCount, others) + (["", EXIT_LINE] + AppendLines(append)))
    ensures FreeOf(HELP_LINES + OtherLines(moduleCount, others) + (["", EXIT_LINE] + AppendLines(append)), '\n')
  {
    var ol := OtherLines(moduleCount, others);
    var tl := ["", EXIT_LINE] + AppendLines(append);
    HelpBlockLines();
    OthersSectionLines(moduleCount, others);
    TailLines(append);
    LinesConcat(HELP_LINES, ol);
    LinesConcat(HELP_LINES + ol, tl);
    FreeOfConcat(HELP_LINES, ol, '\n');
    FreeOfConcat(HELP_LINES + ol, tl, '\n');
  }

  lemma HelpTextShape(h: string, es: string, hb: string, os: string, hint: string, at: string)
    ensures h + es + hb + os + hint + "\n" + at == h + es + (hb + os + (hint + "\n" + at))
  {
  }

  lemma HelpLinesShape(a: seq<string>, b: seq<string>, c: seq<string>, d: seq<string>, e: seq<string>, f: seq<string>)
    ensures a + b + (c + d + (e + f)) == a + b + c + d + e + f
  {
  }

  /**
   * Without a help reset, and with single-line parts, the console's help
   * page is, line by line: an empty line, the title, the entries of the
   * commands with every usage line after a tab, the `help` entry, the
   * module section when there is more than one module, an empty line, the
   * exit hint, then the appended text if any.
   */
  lemma ConsoleHelpLines(name: string, infos: seq<CommandInfo>, moduleCount: nat, others: seq<string>,
                         append: Option<string>)
    requires '\n' !in name
    requires AllUsagesSucceed(infos)
    requires forall i :: 0 <= i < |infos| ==> SingleLineInfo(infos[i])
    requires forall i :: 0 <= i < |others| ==> '\n' !in others[i]
    requires append.Some? ==> '\n' !in append.value
    ensures Pieces(ConsoleHelp(None, name, infos, moduleCount, others, append).value, '\n')
         == ["", Title(name)] + EntriesLines(infos) + HELP_LINES + OtherLines(moduleCount, others)
            + ["", EXIT_LINE] + AppendLines(append)
  {
    var el := EntriesLines(infos);
    var ol := OtherLines(moduleCount, others);
    var rest := HELP_LINES + ol + (["", EXIT_LINE] + AppendLines(append));
    EntriesAsLines(infos, true);
    TitleSingleLine(name);
    RestLines(moduleCount, others, append);
    HelpTextShape(Header(name), Lines(el), HELP_BLOCK, OthersSection(moduleCount, others), EXIT_HINT, AppendText(append));
    PiecesAfterHeader(Title(name), el, rest);
    HelpLinesShape(["", Title(name)], el, HELP_LINES, ol, ["", EXIT_LINE], AppendLines(append));
  }

  // ----------------------------------------------------------------- session

  /** What `runModule` works with while it waits for lines: fixed for the whole call. */
  datatype View = View(
    appname: string,
    modulePrompt: string,
    historyEnabled: bool,
    names: seq<string>,
    current: string,
    infos: seq<CommandInfo>,
    help: Result<string, Exception>)

  /** How `runModule` ends; `OutOfInput` when the lines run out first. */
  datatype Outcome =
    | OutOfInput
    | Exited
    | Threw(error: Exception)
    | Switched(target: nat)
    | Executed(command: nat, args: seq<string>)

  /**
   * A call of `runModule`: its outcome, the number of lines read, the
   * prompt shown before each, the token lists added to the history and
   * the text printed.
   */
  datatype Run = Run(
    outcome: Outcome,
    consumed: nat,
    prompts: seq<string>,
    recorded: seq<seq<string>>,
    printed: seq<string>)

  /** What `println` prints on a switch: the module's name in quotes, then an empty line. */
  function SwitchMessage(name: string): (r: string)
  {
    "Switched to module '" + name + "'\n" + "\n"
  }

  /** What `println` prints for a reference nothing answers to: the reference in quotes, the hint, then an empty line. */
  function NotRecognizedMessage(reference: string): (r: string)
  {
    "Command '" + reference + "' not recognized. Use the 'help' command for details on usage.\n" + "\n"
  }

  /** The switch message names the module between the quotes and ends with an empty line. */
  lemma SwitchMessageNames(name: string)
    ensures var r := SwitchMessage(name);
      && |r| == 20 + |name| + 3 && r[20..20 + |name|] == name && r[|r| - 2..] == "\n\n"
  {
  }

  /** The not-recognized message quotes the reference typed and ends with an empty line. */
  lemma NotRecognizedMessageQuotes(reference: string)
    ensures var r := NotRecognizedMessage(reference);
      && |r| == 9 + |reference| + 64 && r[9..9 + |reference|] == reference && r[|r| - 2..] == "\n\n"
  {
  }

  /** How a decision ends `runModule`, or `None` when the loop goes on after it. */
  function Ending(v: View, d: Decision): (r: Option<Outcome>)
    ensures r != Some(OutOfInput)
  {
    match d
    case Exit => Some(Exited)
    case SwitchTo(k) => Some(Switched(k))
    case Execute(k, args) => Some(Executed(k, args))
    case ShowHelp => if v.help.Failure? then Some(Threw(v.help.error)) else None
    case Reprompt => None
    case NotRecognized(_) => None
  }

  /** What `runModule` prints for a decision. */
  function Printed(v: View, d: Decision): seq<string>
    requires d.SwitchTo? ==> d.target < |v.names|
  {
    match d
    case ShowHelp => if v.help.Success? then [v.help.value + "\n"] else []
    case SwitchTo(k) => [SwitchMessage(v.names[k])]
    case NotRecognized(reference) => [NotRecognizedMessage(reference)]
    case _ => []
  }

  /** A decision prints at most one message, and prints one exactly on a switch, an unknown reference or a help page that was built. */
  lemma PrintedWhen(v: View, d: Decision)
    requires d.SwitchTo? ==> d.target < |v.names|
    ensures var r := Printed(v, d);
      && |r| <= 1
      && (r != [] <==> d.SwitchTo? || d.NotRecognized? || (d.ShowHelp? && v.help.Success?))
  {
  }

  /** What `addHistory` receives for a line: its tokens, unless the first is a built-in word. */
  function HistoryEntry(tokens: seq<string>): (r: seq<seq<string>>)
    requires |tokens| >= 1
    ensures |r| <= 1
    ensures r != [] <==> !IsBuiltin(tokens[0])
  {
    if IsBuiltin(tokens[0]) then [] else [tokens]
  }

  /** The decision for a line's tokens in the current module. */
  function Decide(v: View, tokens: seq<string>): (d: Decision)
    requires |tokens| >= 1
    ensures d.SwitchTo? ==> d.target < |v.names|
    ensures d.Execute? ==> d.command < |v.infos|
    ensures IsBuiltin(tokens[0]) <==> d.Reprompt? || d.ShowHelp? || d.Exit?
  {
    Resolve(tokens, v.names, v.current, v.infos)
  }

  /** What one line does: whether it ends the call, what it adds to the history, what is printed. */
  datatype Step = Step(ending: Option<Outcome>, entry: seq<seq<string>>, printed: seq<string>)

  function StepOf(v: View, line: string): Step
  {
    var tokens := Tokens(line);
    var d := Decide(v, tokens);
    Step(Ending(v, d), HistoryEntry(tokens), Printed(v, d))
  }

  lemma StepOfLine(v: View, line: string, tokens: seq<string>, d: Decision)
    requires tokens == Tokens(line) && d == Decide(v, tokens)
    ensures StepOf(v, line) == Step(Ending(v, d), HistoryEntry(tokens), Printed(v, d))
  {
  }

  /** The step of each line, in order. */
  function Steps(v: View, lines: seq<string>): (r: seq<Step>)
    ensures |r| == |lines|
  {
    if lines == [] then [] else [StepOf(v, lines[0])] + Steps(v, lines[1..])
  }

  /** The step of a line is the step at its place. */
  lemma {:induction false} StepsAt(v: View, lines: seq<string>, k: nat)
    requires k < |lines|
    ensures Steps(v, lines)[k] == StepOf(v, lines[k])
    decreases k
  {
    if k > 0 {
      StepsAt(v, lines[1..], k - 1);
    }
  }

  /** The step of each line is the step at its place. */
  lemma StepsEach(v: View, lines: seq<string>)
    ensures forall k :: 0 <= k < |lines| ==> Steps(v, lines)[k] == StepOf(v, lines[k])
  {
    forall k | 0 <= k < |lines| ensures Steps(v, lines)[k] == StepOf(v, lines[k]) {
      StepsAt(v, lines, k);
    }
  }

  /** No step of a line runs out of input. */
  lemma StepsNeverRunOut(v: View, lines: seq<string>)
    ensures forall k :: 0 <= k < |lines| ==> Steps(v, lines)[k].ending != Some(OutOfInput)
  {
    forall k | 0 <= k < |lines| ensures Steps(v, lines)[k].ending != Some(OutOfInput) {
      StepsAt(v, lines, k);
    }
  }

  /** A run that starts with `consumed` lines that did not end it. */
  function Prepend(consumed: nat, prompts: seq<string>, recorded: seq<seq<string>>, printed: seq<string>, rest: Run): Run {
    Run(rest.outcome, consumed + rest.consumed, prompts + rest.prompts, recorded + rest.recorded, printed + rest.printed)
  }

  lemma PrependTwice(c1: nat, p1: seq<string>, r1: seq<seq<string>>, o1: seq<string>,
                     c2: nat, p2: seq<string>, r2: seq<seq<string>>, o2: seq<string>, rest: Run)
    ensures Prepend(c1, p1, r1, o1, Prepend(c2, p2, r2, o2, rest)) == Prepend(c1 + c2, p1 + p2, r1 + r2, o1 + o2, rest)
  {
    AppendAssoc(p1, p2, rest.prompts);
    AppendAssoc(r1, r2, rest.recorded);
    AppendAssoc(o1, o2, rest.printed);
  }

  /**
   * The lines `runModule` reads until one ends the call, given as the
   * step of each and the history size the call starts with: each line is
   * prompted for with the current history size, recorded, answered, and
   * ends the call or not.
   */
  function Session(v: View, historySize: nat, steps: seq<Step>): (r: Run)
    ensures r.consumed <= |steps| && |r.prompts| == r.consumed
    decreases |steps|
  {
    if steps == [] then Run(OutOfInput, 0, [], [], [])
    else
      var prompt := PromptString(v.appname, v.modulePrompt, v.historyEnabled, historySize);
      var s := steps[0];
      if s.ending.Some? then Run(s.ending.value, 1, [prompt], s.entry, s.printed)
      else Prepend(1, [prompt], s.entry, s.printed, Session(v, historySize + |s.entry|, steps[1..]))
  }

  /**
   * `runModule` reads lines up to the first one that ends it, and ends
   * as that line says; it runs out of input only when no line ends it.
   */
  lemma {:induction false} SessionStopsAtFirstEnding(v: View, historySize: nat, steps: seq<Step>)
    requires forall k :: 0 <= k < |steps| ==> steps[k].ending != Some(OutOfInput)
    ensures var r := Session(v, historySize, steps);
      && (r.outcome.OutOfInput? ==> r.consumed == |steps| && forall k :: 0 <= k < |steps| ==> steps[k].ending.None?)
      && (!r.outcome.OutOfInput? ==>
            && 1 <= r.consumed
            && steps[r.consumed - 1].ending == Some(r.outcome)
            && forall k :: 0 <= k < r.consumed - 1 ==> steps[k].ending.None?)
    decreases |steps|
  {
    if steps != [] && steps[0].ending.None? {
      SessionStopsAtFirstEnding(v, historySize + |steps[0].entry|, steps[1..]);
      assert forall k :: 0 < k < |steps| ==> steps[k] == steps[1..][k - 1];
    }
  }

  /** The history entries of the steps, in order. */
  function HistoryEntries(steps: seq<Step>): (r: seq<seq<string>>)
  {
    if steps == [] then [] else steps[0].entry + HistoryEntries(steps[1..])
  }

  /** The history gains exactly the entries of the lines read. */
  lemma {:induction false} SessionRecordsEntries(v: View, historySize: nat, steps: seq<Step>)
    ensures var r := Session(v, historySize, steps);
      r.recorded == HistoryEntries(steps[..r.consumed])
    decreases |steps|
  {
    if steps != [] {
      var r := Session(v, historySize, steps);
      var rest := Session(v, historySize + |steps[0].entry|, steps[1..]);
      assert steps[..r.consumed][0] == steps[0];
      if steps[0].ending.None? {
        SessionRecordsEntries(v, historySize + |steps[0].entry|, steps[1..]);
        assert steps[..r.consumed][1..] == steps[1..][..rest.consumed];
      } else {
        assert steps[..r.consumed][1..] == [];
      }
    }
  }

  lemma HistoryEntriesCons(steps: seq<Step>, k: nat)
    requires 1 <= k <= |steps|
    ensures HistoryEntries(steps[..k]) == steps[0].entry + HistoryEntries(steps[1..][..k - 1])
  {
    assert steps[..k][0] == steps[0];
    assert steps[..k][1..] == steps[1..][..k - 1];
  }

  /**
   * The prompt before each line shows the number of history entries: the
   * starting size plus the entries of the lines before it.
   */
  lemma {:induction false} SessionPromptsCountHistory(v: View, historySize: nat, steps: seq<Step>, k: nat)
    requires k < Session(v, historySize, steps).consumed
    ensures Session(v, historySize, steps).prompts[k]
         == PromptString(v.appname, v.modulePrompt, v.historyEnabled, historySize + |HistoryEntries(steps[..k])|)
    decreases k
  {
    if k == 0 {
      assert steps[..0] == [];
    } else {
      var h := historySize + |steps[0].entry|;
      SessionPromptsCountHistory(v, h, steps[1..], k - 1);
      HistoryEntriesCons(steps, k);
    }
  }

  /**
   * The rest of a call of `runModule` that has already read
   * `acc.consumed` lines, none of which ended it, and recorded, prompted
   * and printed what `acc` holds: it reads on, one line at a time, with
   * the history grown by what has been recorded so far.
   */
  function Resume(v: View, historySize: nat, steps: seq<Step>, acc: Run): (r: Run)
    requires acc.consumed <= |steps|
    decreases |steps| - acc.consumed
  {
    if acc.consumed == |steps| then acc
    else
      var s := steps[acc.consumed];
      var prompt := PromptString(v.appname, v.modulePrompt, v.historyEnabled, historySize + |acc.recorded|);
      var next := Run(acc.outcome, acc.consumed + 1, acc.prompts + [prompt], acc.recorded + s.entry, acc.printed + s.printed);
      if s.ending.Some? then next.(outcome := s.ending.value) else Resume(v, historySize, steps, next)
  }

  /** Resuming after some lines is reading the remaining ones after what was gathered. */
  lemma {:induction false} ResumeIsSession(v: View, historySize: nat, steps: seq<Step>, acc: Run)
    requires acc.consumed <= |steps| && acc.outcome == OutOfInput
    ensures Resume(v, historySize, steps, acc)
         == Prepend(acc.consumed, acc.prompts, acc.recorded, acc.printed,
                    Session(v, historySize + |acc.recorded|, steps[acc.consumed..]))
    decreases |steps| - acc.consumed
  {
    var i := acc.consumed;
    if i == |steps| {
      assert steps[i..] == [];
      assert acc.prompts + [] == acc.prompts && acc.recorded + [] == acc.recorded && acc.printed + [] == acc.printed;
    } else {
      var s := steps[i];
      var prompt := PromptString(v.appname, v.modulePrompt, v.historyEnabled, historySize + |acc.recorded|);
      var next := Run(OutOfInput, i + 1, acc.prompts + [prompt], acc.recorded + s.entry, acc.printed + s.printed);
      assert steps[i..][0] == s && steps[i..][1..] == steps[i + 1..];
      if s.ending.None? {
        ResumeIsSession(v, historySize, steps, next);
        var rest := Session(v, historySize + |acc.recorded| + |s.entry|, steps[i + 1..]);
        PrependTwice(i, acc.prompts, acc.recorded, acc.printed, 1, [prompt], s.entry, s.printed, rest);
      }
    }
  }

  /** A call is a resumption from nothing read. */
  lemma SessionResumes(v: View, historySize: nat, steps: seq<Step>)
    ensures Session(v, historySize, steps) == Resume(v, historySize, steps, Run(OutOfInput, 0, [], [], []))
  {
    var rest := Session(v, historySize, steps);
    ResumeIsSession(v, historySize, steps, Run(OutOfInput, 0, [], [], []));
    assert steps[0..] == steps;
    assert [] + rest.prompts == rest.prompts && [] + rest.recorded == rest.recorded && [] + rest.printed == rest.printed;
  }

  /** The tokens of the lines whose first token is not a built-in word, in order. */
  function Recorded(lines: seq<string>): (r: seq<seq<string>>)
    ensures |r| <= |lines|
    ensures forall k :: 0 <= k < |r| ==> |r[k]| >= 1 && !IsBuiltin(r[k][0])
  {
    if lines == [] then []
    else if IsBuiltin(Tokens(lines[0])[0]) then Recorded(lines[1..])
    else [Tokens(lines[0])] + Recorded(lines[1..])
  }

  /** Every line whose first token is not a built-in word is added to the history, and no other. */
  lemma {:induction false} EntriesAreNonBuiltinLines(v: View, lines: seq<string>)
    ensures HistoryEntries(Steps(v, lines)) == Recorded(lines)
    decreases |lines|
  {
    if lines != [] {
      EntriesAreNonBuiltinLines(v, lines[1..]);
    }
  }

  /**
   * What one line can end the call with: a switch to a module other than
   * the current one, named by the line's first token; an exception only on
   * `help` when the page cannot be built. Blank lines, and `help` while the
   * page can be built, neither end the call nor add to the history.
   */
  lemma LineEnding(v: View, line: string)
    ensures var s := StepOf(v, line);
      var reference := Tokens(line)[0];
      && (s.ending.Some? && s.ending.value.Switched? ==>
            s.ending.value.target < |v.names| && v.names[s.ending.value.target] != v.current
            && v.names[s.ending.value.target] == reference)
      && (s.ending.Some? && s.ending.value.Threw? ==> reference == "help" && v.help == Failure(s.ending.value.error))
      && (reference == "" || (reference == "help" && v.help.Success?) ==> s.ending.None? && s.entry == [])
  {
    ResolveOrder(Tokens(line), v.names, v.current, v.infos);
  }

  /** A call that does not run out of input ends as the last line it read says. */
  lemma SessionEndsOnLine(v: View, historySize: nat, lines: seq<string>)
    requires !Session(v, historySize, Steps(v, lines)).outcome.OutOfInput?
    ensures var r := Session(v, historySize, Steps(v, lines));
      1 <= r.consumed <= |lines| && Steps(v, lines)[r.consumed - 1].ending == Some(r.outcome)
  {
    StepsNeverRunOut(v, lines);
    SessionStopsAtFirstEnding(v, historySize, Steps(v, lines));
  }

  /** A switch goes to a module other than the current one, named by the last line read. */
  lemma SessionSwitchesElsewhere(v: View, historySize: nat, lines: seq<string>)
    requires Session(v, historySize, Steps(v, lines)).outcome.Switched?
    ensures var r := Session(v, historySize, Steps(v, lines));
      && r.outcome.target < |v.names|
      && v.names[r.outcome.target] != v.current
      && v.names[r.outcome.target] == Tokens(lines[r.consumed - 1])[0]
  {
    var r := Session(v, historySize, Steps(v, lines));
    SessionEndsOnLine(v, historySize, lines);
    StepsAt(v, lines, r.consumed - 1);
    LineEnding(v, lines[r.consumed - 1]);
  }

  /** A call that throws does so on a `help` line whose page cannot be built, with that page's exception. */
  lemma SessionThrowsOnlyOnHelp(v: View, historySize: nat, lines: seq<string>)
    requires Session(v, historySize, Steps(v, lines)).outcome.Threw?
    ensures var r := Session(v, historySize, Steps(v, lines));
      Tokens(lines[r.consumed - 1])[0] == "help" && v.help == Failure(r.outcome.error)
  {
    var r := Session(v, historySize, Steps(v, lines));
    SessionEndsOnLine(v, historySize, lines);
    StepsAt(v, lines, r.consumed - 1);
    LineEnding(v, lines[r.consumed - 1]);
  }

  /** A first line that neither ends the call nor adds to the history leaves both to the lines after it. */
  lemma QuietLineSkips(v: View, historySize: nat, steps: seq<Step>)
    requires |steps| >= 1 && steps[0].ending.None? && steps[0].entry == []
    ensures Session(v, historySize, steps).recorded == Session(v, historySize, steps[1..]).recorded
    ensures Session(v, historySize, steps).outcome == Session(v, historySize, steps[1..]).outcome
  {
    var rest := Session(v, historySize, steps[1..]);
    assert Session(v, historySize, steps).recorded == [] + rest.recorded;
  }

  /** The steps of all lines but the first are the steps after the first. */
  lemma StepsTail(v: View, lines: seq<string>)
    requires |lines| >= 1
    ensures Steps(v, lines)[0] == StepOf(v, lines[0])
    ensures Steps(v, lines)[1..] == Steps(v, lines[1..])
  {
    assert Steps(v, lines) == [StepOf(v, lines[0])] + Steps(v, lines[1..]);
  }

  /** Blank lines, and `help` while the page can be built, change neither the history nor how the call ends. */
  lemma HelpAndBlankLinesChangeNothing(v: View, historySize: nat, lines: seq<string>)
    requires |lines| >= 1
    requires Tokens(lines[0])[0] == "" || (Tokens(lines[0])[0] == "help" && v.help.Success?)
    ensures Session(v, historySize, Steps(v, lines)).recorded == Session(v, historySize, Steps(v, lines[1..])).recorded
    ensures Session(v, historySize, Steps(v, lines)).outcome == Session(v, historySize, Steps(v, lines[1..])).outcome
  {
    LineEnding(v, lines[0]);
    StepsTail(v, lines);
    QuietLineSkips(v, historySize, Steps(v, lines));
  }

  /** One more module of the list adds its line to the listing of the others, unless it is `m`. */
  lemma ListingGrows(ms: seq<Module>, m: Module, j: nat)
    requires j < |ms|
    ensures ModuleList(Names(Others(ms[..j + 1], m)))
         == ModuleList(Names(Others(ms[..j], m))) + (if ms[j] != m then ListingLine(ms[j].name) else "")
  {
    assert ms[..j + 1][..j] == ms[..j];
    var others := Others(ms[..j], m);
    if ms[j] != m {
      assert Others(ms[..j + 1], m) == others + [ms[j]];
      assert Names(others + [ms[j]]) == Names(others) + [ms[j].name];
      assert (Names(others) + [ms[j].name])[..|others|] == Names(others);
    } else {
      assert Others(ms[..j + 1], m) == others;
    }
  }

  // ---------------------------------------------------------- module removal

  /** `ArrayList.remove(Object)`: the first element equal to `m` is removed. */
  function RemoveFirst(ms: seq<Module>, m: Module): (r: seq<Module>)
    ensures m !in ms ==> r == ms
    ensures m in ms ==> |r| == |ms| - 1
  {
    if ms == [] then []
    else if ms[0] == m then ms[1..]
    else [ms[0]] + RemoveFirst(ms[1..], m)
  }

  /** The removal takes out exactly the first occurrence, keeping the rest in order. */
  lemma {:induction false} RemoveFirstAt(ms: seq<Module>, m: Module, i: nat)
    requires i < |ms| && ms[i] == m
    requires forall j :: 0 <= j < i ==> ms[j] != m
    ensures RemoveFirst(ms, m) == ms[..i] + ms[i + 1..]
  {
    if i > 0 {
      RemoveFirstAt(ms[1..], m, i - 1);
      assert ms[1..][..i - 1] == ms[1..i];
      assert ms[1..][i..] == ms[i + 1..];
      assert [ms[0]] + ms[1..i] == ms[..i];
    }
  }

  /** Exactly one copy of a module in the list is removed. */
  lemma {:induction false} RemoveFirstMultiset(ms: seq<Module>, m: Module)
    requires m in ms
    ensures multiset(RemoveFirst(ms, m)) == multiset(ms) - multiset{m}
  {
    assert ms == [ms[0]] + ms[1..];
    if ms[0] != m {
      RemoveFirstMultiset(ms[1..], m);
    }
  }

  class ConsoleClient {
    const appname: string
    const home: Module
    var modules: seq<Module>
    var historyEnabled: bool
    /** The command history that `InputUtil.addHistory` and `getHistory` keep; they are not part of this model. */
    var history: seq<seq<string>>

    /** `new ConsoleClient(appname, homeModule)`: the home module is the first of the modules. */
    constructor(appname: string, home: Module)
      ensures this.appname == appname && this.home == home
      ensures modules == [home] && !historyEnabled && history == []
    {
      this.appname := appname;
      this.home := home;
      modules := [home];
      historyEnabled := false;
      history := [];
    }

    /** `setHistoryLoggingEnabled`. */
    method SetHistoryLoggingEnabled(enable: bool)
      modifies this
      ensures historyEnabled == enable && modules == old(modules) && history == old(history)
    {
      historyEnabled := enable;
    }

    /** `addModule`: appends. */
    method AddModule(m: Module)
      modifies this
      ensures modules == old(modules) + [m]
      ensures historyEnabled == old(historyEnabled) && history == old(history)
    {
      modules := modules + [m];
    }

    /** `removeModule`: removes the first occurrence of that very module object, if any. */
    method RemoveModule(m: Module)
      modifies this
      ensures modules == RemoveFirst(old(modules), m)
      ensures historyEnabled == old(historyEnabled) && history == old(history)
    {
      modules := RemoveFirst(modules, m);
    }

    /** The help page `printHelpMessage(m)` prints, as a value. */
    function HelpPage(m: Module): Result<string, Exception>
      reads this`modules, m, m.commands
    {
      ConsoleHelp(m.helpReset, m.name, Infos(m.commands), |modules|, Names(Others(modules, m)), m.helpAppend)
    }

    /** What `runModule(m)` works with. */
    function ViewOf(m: Module): View
      reads this`modules, this`historyEnabled, m, m.commands
    {
      View(appname, m.prompt, historyEnabled, Names(modules), m.name, Infos(m.commands), HelpPage(m))
    }

    /**
     * `prompt(m)` for a typed line, with `historySize` entries in the history:
     * the prompt string shown, and the tokens of the line.
     */
    method Prompt(m: Module, line: string, historySize: nat) returns (prompt: string, args: seq<string>)
      ensures prompt == PromptString(appname, m.prompt, historyEnabled, historySize)
      ensures args == Tokens(line)
    {
      prompt := appname + ": " + m.prompt;
      prompt := prompt + if !historyEnabled then "$ " else IntToString(historySize) + "$ ";
      args := JavaSplit(Normalize(line), ' ');
    }

    /** The message of `printHelpMessage(m)`, without the line break `println` adds. */
    method PrintHelpMessage(m: Module) returns (r: Result<string, Exception>)
      ensures r == HelpPage(m)
    {
      if m.helpReset.Some? {
        return Success(m.helpReset.value);
      }
      var message := Header(m.name);
      var entries := CommandEntries(m.commands, true);
      if entries.Failure? {
        return Failure(entries.error);
      }
      message := message + entries.value;
      message := message + "\n'help'";
      message := message + "\n\t" + HELP_DESCRIPTION;
      message := message + "\n\tUsage: ~$ help\n";
      HelpAppended(Header(m.name) + entries.value);
      var section := "";
      if |modules| > 1 {
        var listing := OtherModuleList(m);
        section := "\n" + MODULES_LINE + listing;
      }
      message := message + section;
      message := message + EXIT_HINT;
      message := message + "\n";
      message := message + AppendText(m.helpAppend);
      r := Success(message);
    }

    /** The loop of `printHelpMessage` that lists every module other than `m`. */
    method OtherModuleList(m: Module) returns (listing: string)
      ensures listing == ModuleList(Names(Others(modules, m)))
    {
      var ms := modules;
      listing := "";
      for j := 0 to |ms|
        invariant listing == ModuleList(Names(Others(ms[..j], m)))
      {
        ListingGrows(ms, m, j);
        if ms[j] != m {
          listing := listing + ListingLine(ms[j].name);
        }
      }
      assert ms[..|ms|] == ms;
    }

    /** The resolution part of `runModule`: the built-in words, then the loop over the modules, then the loop over the commands. */
    method Dispatch(m: Module, tokens: seq<string>) returns (d: Decision)
      requires |tokens| >= 1
      ensures d == Resolve(tokens, Names(modules), m.name, Infos(m.commands))
    {
      var reference := tokens[0];
      if reference == "" {
        return Reprompt;
      } else if reference == "help" {
        return ShowHelp;
      } else if reference == "exit" {
        return Exit;
      }
      ghost var names := Names(modules);
      for i := 0 to |modules|
        invariant forall k :: 0 <= k < i ==> !(reference == names[k] && reference != m.name)
      {
        if reference == modules[i].name && reference != m.name {
          return SwitchTo(i);
        }
      }
      assert reference != m.name ==> reference !in names;
      var cmds := m.commands;
      ghost var infos := Infos(cmds);
      for j := 0 to |cmds|
        invariant forall k :: 0 <= k < j ==> !Answers(infos[k], reference)
      {
        if reference == cmds[j].defaultReference || reference in cmds[j].alternateReferences {
          assert Answers(infos[j], reference);
          return Execute(j, tokens[1..]);
        }
      }
      return NotRecognized(reference);
    }

    /**
     * `steps` are the steps the lines take in `m` as it is now, and `v` is
     * what `runModule(m)` sees of it (stated per line, so that it is only
     * unfolded where a line is answered).
     */
    ghost predicate Answering(m: Module, v: View, lines: seq<string>, steps: seq<Step>)
      reads this`modules, this`historyEnabled, m, m.commands
    {
      && |steps| == |lines|
      && v == ViewOf(m)
      && forall k {:trigger StepOf(v, lines[k])} :: 0 <= k < |lines| ==> steps[k] == StepOf(v, lines[k])
    }

    /**
     * One pass of the loop in `runModule`, with `historySize` entries in
     * the history: the prompt shown, and the step the line read takes.
     */
    method Answer(m: Module, ghost v: View, lines: seq<string>, ghost steps: seq<Step>, i: nat, historySize: nat)
      returns (prompt: string, step: Step)
      requires Answering(m, v, lines, steps) && i < |lines|
      ensures prompt == PromptString(v.appname, v.modulePrompt, v.historyEnabled, historySize)
      ensures step == steps[i]
    {
      var line := lines[i];
      assert v == ViewOf(m) && steps[i] == StepOf(v, line);
      assert v.help == HelpPage(m) && v.names == Names(modules) && v.current == m.name && v.infos == Infos(m.commands);
      var args;
      prompt, args := Prompt(m, line, historySize);
      var d := Dispatch(m, args);
      assert d == Decide(v, args);
      StepOfLine(v, line, args, d);
      step := Respond(m, v, args, d);
    }

    /** The switch in `runModule` on the decision for a line's tokens: the step the line takes. */
    method Respond(m: Module, ghost v: View, args: seq<string>, d: Decision) returns (step: Step)
      requires |args| >= 1
      requires v.help == HelpPage(m) && v.names == Names(modules)
      requires d.SwitchTo? ==> d.target < |modules|
      requires IsBuiltin(args[0]) <==> d.Reprompt? || d.ShowHelp? || d.Exit?
      ensures step == Step(Ending(v, d), HistoryEntry(args), Printed(v, d))
    {
      match d
      case Reprompt =>
        step := Step(None, [], []);
      case ShowHelp =>
        step := ShowHelpStep(m, v);
      case Exit =>
        step := Step(Some(Exited), [], []);
      case SwitchTo(k) =>
        step := Step(Some(Switched(k)), [args], [SwitchMessage(modules[k].name)]);
      case Execute(k, rest) =>
        step := Step(Some(Executed(k, rest)), [args], []);
      case NotRecognized(reference) =>
        step := Step(None, [args], [NotRecognizedMessage(reference)]);
    }

    /** The `help` case of `runModule`: the page is printed, or its exception ends the call. */
    method ShowHelpStep(m: Module, ghost v: View) returns (step: Step)
      requires v.help == HelpPage(m)
      ensures step == Step(Ending(v, ShowHelp), [], Printed(v, ShowHelp))
    {
      var help := PrintHelpMessage(m);
      if help.Failure? {
        step := Step(Some(Threw(help.error)), [], []);
      } else {
        step := Step(None, [], [help.value + "\n"]);
      }
    }

    /**
     * `runModule(m)` over the lines typed: it reads them one by one until
     * one ends the call, and the history gains what the call recorded.
     */
    method RunModule(m: Module, lines: seq<string>) returns (run: Run)
      modifies this`history
      ensures run == Session(old(ViewOf(m)), |old(history)|, Steps(old(ViewOf(m)), lines))
      ensures history == old(history) + run.recorded
    {
      ghost var v := ViewOf(m);
      StepsEach(v, lines);
      run := ReadLines(m, lines, v, Steps(v, lines));
      SessionResumes(v, |history|, Steps(v, lines));
      history := history + run.recorded;
    }

    /** The loop of `runModule`, given the step each line takes; the caller adds what it recorded to the history. */
    method ReadLines(m: Module, lines: seq<string>, ghost v: View, ghost steps: seq<Step>) returns (run: Run)
      requires Answering(m, v, lines, steps)
      ensures run == Resume(v, |history|, steps, Run(OutOfInput, 0, [], [], []))
    {
      ghost var goal := Resume(v, |history|, steps, Run(OutOfInput, 0, [], [], []));
      var recorded: seq<seq<string>> := [];
      var prompts: seq<string> := [];
      var printed: seq<string> := [];
      var i := 0;
      while i < |lines|
        invariant 0 <= i <= |lines|
        invariant goal == Resume(v, |history|, steps, Run(OutOfInput, i, prompts, recorded, printed))
        decreases |lines| - i
      {
        var prompt, step := Answer(m, v, lines, steps, i, |history| + |recorded|);
        prompts, recorded, printed := prompts + [prompt], recorded + step.entry, printed + step.printed;
        i := i + 1;
        if step.ending.Some? {
          return Run(step.ending.value, i, prompts, recorded, printed);
        }
      }
      run := Run(OutOfInput, i, prompts, recorded, printed);
    }
  }
}
