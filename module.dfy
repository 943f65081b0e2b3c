/**
 * `Module`: a named group of commands with its own prompt and help page.
 * The help-page building blocks here are shared with the console
 * client's version of the help page.
 */
module Modules {
  import opened Wrappers
  import opened Lang
  import opened Strings
  import opened Splitting
  import opened Commands

  /** The prompt of a module: its name lower-cased, then " $ ". */
  function ModulePrompt(name: string): (r: string)
    ensures |r| == |name| + 3 && r[|name|..] == " $ "
    ensures forall i :: 0 <= i < |name| ==> r[i] == LowerChar(name[i])
    ensures forall c :: c in r ==> !IsUpper(c)
  {
    ToLowerCase(name) + " $ "
  }

  // --------------------------------------------------------------- help pages

  /** The title line of a help page. */
  function Title(name: string): string {
    ToUpperCase(name) + " -- POSSIBLE COMMANDS"
  }

  function Header(name: string): string {
    "\n" + Title(name)
  }

  /** The description of the `help` command on every help page. */
  const HELP_DESCRIPTION: string := "Displays" + " the help" + " page for" + " the" + " current" + " module."
  const HELP_USAGE: string := "Usage: ~$ help"

  /** The fixed entry for the `help` command that closes the command list. */
  const HELP_BLOCK: string := "\n'help'" + "\n\t" + HELP_DESCRIPTION + "\n\tUsage: ~$ help\n"

  /** The lines of `HELP_BLOCK`; the last one is empty, as the block ends with a line break. */
  const HELP_LINES: seq<string> := ["'help'", "\t" + HELP_DESCRIPTION, "\t" + HELP_USAGE, ""]

  lemma HelpBlockLines()
    ensures HELP_BLOCK == Lines(HELP_LINES)
    ensures FreeOf(HELP_LINES, '\n')
  {
    HelpBlockText();
    LinesFour(HELP_LINES[0], HELP_LINES[1], HELP_LINES[2], HELP_LINES[3]);
    HelpLinesSingle();
  }

  lemma HelpBlockText()
    ensures HELP_BLOCK == "\n" + HELP_LINES[0] + "\n" + HELP_LINES[1] + "\n" + HELP_LINES[2] + "\n" + HELP_LINES[3]
  {
    var a, c := "\n'help'", "\n\tUsage: ~$ help\n";
    assert a == "\n" + HELP_LINES[0];
    assert c == "\n" + HELP_LINES[2] + "\n" + HELP_LINES[3];
    AppendAssoc(a, "\n\t", HELP_DESCRIPTION);
    BreakAndTab(HELP_DESCRIPTION);
    BlockShape(a, "\n\t" + HELP_DESCRIPTION, c, HELP_LINES[0], HELP_LINES[1], HELP_LINES[2], HELP_LINES[3]);
  }

  lemma BreakAndTab(d: string)
    ensures "\n\t" + d == "\n" + ("\t" + d)
  {
  }

  lemma BlockShape(a: string, b: string, c: string, l0: string, l1: string, l2: string, l3: string)
    requires a == "\n" + l0 && b == "\n" + l1 && c == "\n" + l2 + "\n" + l3
    ensures a + b + c == "\n" + l0 + "\n" + l1 + "\n" + l2 + "\n" + l3
  {
  }

  lemma HelpLinesSingle()
    ensures FreeOf(HELP_LINES, '\n')
  {
    forall i | 0 <= i < |HELP_LINES| ensures '\n' !in HELP_LINES[i] {
      assert i == 0 || i == 1 || i == 2 || i == 3;
    }
  }

  /** One command's entry: its quoted default reference, its description and its usage, each on a new line. */
  function Entry(info: CommandInfo, usage: string): string {
    "\n'" + info.defaultReference + "'" + "\n\t" + info.description + "\n\t" + usage
  }

  /**
   * The entries of all commands, in order. The console client's help page
   * indents the continuation lines of a usage; the module's does not. The
   * first usage that throws ends the page with its exception.
   */
  function Entries(infos: seq<CommandInfo>, indented: bool): (r: Result<string, Exception>)
    ensures r.Success? <==> forall i :: 0 <= i < |infos| ==> infos[i].usage.Success?
    ensures r.Failure? ==>
              exists i :: 0 <= i < |infos| && infos[i].usage == Failure(r.error)
                          && forall j :: 0 <= j < i ==> infos[j].usage.Success?
  {
    if infos == [] then Success([])
    else
      var init := infos[..|infos| - 1];
      var last := infos[|infos| - 1];
      match Entries(init, indented)
      case Failure(e) => Failure(e)
      case Success(s) =>
        match last.usage
        case Failure(e) => Failure(e)
        case Success(u) => Success(s + Entry(last, if indented then Indent(u) else u))
  }

  /** Once a usage has thrown, the later commands make no difference. */
  lemma {:induction false} EntriesFailureExtends(infos: seq<CommandInfo>, k: nat, indented: bool)
    requires k <= |infos| && Entries(infos[..k], indented).Failure?
    ensures Entries(infos, indented) == Entries(infos[..k], indented)
    decreases |infos| - k
  {
    if k < |infos| {
      var init := infos[..|infos| - 1];
      assert init[..k] == infos[..k];
      EntriesFailureExtends(init, k, indented);
    } else {
      assert infos[..k] == infos;
    }
  }

  /** One more command: its entry follows, unless an earlier usage or its own has thrown. */
  lemma EntriesStep(infos: seq<CommandInfo>, i: nat, indented: bool)
    requires i < |infos|
    ensures Entries(infos[..i + 1], indented)
         == match Entries(infos[..i], indented)
            case Failure(e) => Failure(e)
            case Success(s) =>
              match infos[i].usage
              case Failure(e) => Failure(e)
              case Success(u) => Success(s + Entry(infos[i], if indented then Indent(u) else u))
  {
    assert infos[..i + 1][..i] == infos[..i];
  }

  /** A usage that throws ends the page with its exception. */
  lemma EntriesStop(infos: seq<CommandInfo>, i: nat, indented: bool, text: string)
    requires i < |infos| && Entries(infos[..i], indented) == Success(text) && infos[i].usage.Failure?
    ensures Entries(infos, indented) == Failure(infos[i].usage.error)
  {
    EntriesStep(infos, i, indented);
    EntriesFailureExtends(infos, i + 1, indented);
  }

  /** A usage that does not throw appends the command's entry, line by line. */
  lemma EntriesGrow(infos: seq<CommandInfo>, i: nat, indented: bool, text: string)
    requires i < |infos| && Entries(infos[..i], indented) == Success(text) && infos[i].usage.Success?
    ensures var u := infos[i].usage.value;
      Entries(infos[..i + 1], indented)
      == Success(text + "\n'" + infos[i].defaultReference + "'" + "\n\t" + infos[i].description
                 + "\n\t" + (if indented then Indent(u) else u))
  {
    var u := infos[i].usage.value;
    EntriesStep(infos, i, indented);
    EntryAppended(text, infos[i], if indented then Indent(u) else u);
  }

  /** The three appends of one entry's lines build the entry. */
  lemma EntryAppended(message: string, info: CommandInfo, usage: string)
    ensures message + "\n'" + info.defaultReference + "'" + "\n\t" + info.description + "\n\t" + usage
         == message + Entry(info, usage)
  {
  }

  /** The three appends of the `help` entry's lines build the block. */
  lemma HelpAppended(message: string)
    ensures message + "\n'help'" + "\n\t" + HELP_DESCRIPTION + "\n\tUsage: ~$ help\n" == message + HELP_BLOCK
  {
    AppendFour(message, "\n'help'", "\n\t", HELP_DESCRIPTION, "\n\tUsage: ~$ help\n");
  }

  lemma AppendFour(m: string, a: string, b: string, c: string, d: string)
    ensures m + a + b + c + d == m + (a + b + c + d)
  {
  }

  predicate AllUsagesSucceed(infos: seq<CommandInfo>) {
    forall i :: 0 <= i < |infos| ==> infos[i].usage.Success?
  }

  /** The lines of one entry: the quoted reference, the description after a tab, each line of the usage after a tab. */
  function EntryLines(info: CommandInfo, usage: string): seq<string> {
    ["'" + info.defaultReference + "'", "\t" + info.description] + Tabbed(Pieces(usage, '\n'))
  }

  /** The lines of all entries, in command order. */
  function EntriesLines(infos: seq<CommandInfo>): seq<string>
    requires AllUsagesSucceed(infos)
  {
    if infos == [] then []
    else
      var last := infos[|infos| - 1];
      EntriesLines(infos[..|infos| - 1]) + EntryLines(last, last.usage.value)
  }

  /** The reference and description stay on their own lines. */
  predicate SingleLineInfo(info: CommandInfo) {
    '\n' !in info.defaultReference && '\n' !in info.description
  }

  /** The usage lines of an entry are the indented usage after a line break and a tab. */
  lemma TabbedUsage(usage: string)
    ensures Lines(Tabbed(Pieces(usage, '\n'))) == "\n" + ("\t" + Indent(usage))
    ensures FreeOf(Tabbed(Pieces(usage, '\n')), '\n')
  {
    IndentedLines(usage);
    LinesOfText("\t" + Indent(usage));
    PiecesAreSeparatorFree(usage, '\n');
    TabbedFree(Pieces(usage, '\n'), '\n');
  }

  lemma EntryShape(info: CommandInfo, usage: string)
    ensures Entry(info, usage)
         == "\n" + ("'" + info.defaultReference + "'") + "\n" + ("\t" + info.description) + ("\n" + ("\t" + usage))
  {
  }

  lemma EntryAsLines(info: CommandInfo, usage: string, indented: bool)
    requires SingleLineInfo(info)
    requires !indented ==> '\n' !in usage
    ensures Entry(info, if indented then Indent(usage) else usage) == Lines(EntryLines(info, usage))
    ensures FreeOf(EntryLines(info, usage), '\n')
  {
    if !indented {
      IndentSingleLine(usage);
    }
    TabbedUsage(usage);
    LinesTwoThen("'" + info.defaultReference + "'", "\t" + info.description, Tabbed(Pieces(usage, '\n')));
    EntryShape(info, Indent(usage));
  }

  /**
   * With single-line references and descriptions (and single-line usages
   * when they are not indented), the entries are exactly the entry lines,
   * each after a line break.
   */
  lemma {:induction false} EntriesAsLines(infos: seq<CommandInfo>, indented: bool)
    requires AllUsagesSucceed(infos)
    requires forall i :: 0 <= i < |infos| ==> SingleLineInfo(infos[i])
    requires !indented ==> forall i :: 0 <= i < |infos| ==> '\n' !in infos[i].usage.value
    ensures Entries(infos, indented) == Success(Lines(EntriesLines(infos)))
    ensures FreeOf(EntriesLines(infos), '\n')
    decreases |infos|
  {
    if infos != [] {
      var init := infos[..|infos| - 1];
      var last := infos[|infos| - 1];
      EntriesAsLines(init, indented);
      EntryAsLines(last, last.usage.value, indented);
      LinesConcat(EntriesLines(init), EntryLines(last, last.usage.value));
    }
  }

  /** `Module.getHelpMessage()`, as a value: the title, the entries with usages as they are, the `help` entry. */
  function ModuleHelp(name: string, infos: seq<CommandInfo>): (r: Result<string, Exception>)
    ensures r.Success? <==> AllUsagesSucceed(infos)
    ensures r.Success? ==> |r.value| >= |Header(name)| + |HELP_BLOCK|
    ensures r.Success? ==> r.value[..|Header(name)|] == Header(name)
    ensures r.Success? ==> r.value[|r.value| - |HELP_BLOCK|..] == HELP_BLOCK
  {
    match Entries(infos, false)
    case Failure(e) => Failure(e)
    case Success(es) => Success(Header(name) + es + HELP_BLOCK)
  }

  /** The title has no line break when the name has none. */
  lemma TitleSingleLine(name: string)
    requires '\n' !in name
    ensures '\n' !in Title(name)
  {
    var u := ToUpperCase(name);
    forall i | 0 <= i < |u| ensures u[i] != '\n' {
      assert u[i] == UpperChar(name[i]);
    }
    assert " -- POSSIBLE COMMANDS" == " -- POSSIBLE" + " COMMANDS";
  }

  /**
   * The module's help page, line by line: an empty line, the title, three
   * lines per command in command order, then the `help` entry.
   */
  lemma ModuleHelpLines(name: string, infos: seq<CommandInfo>)
    requires '\n' !in name
    requires AllUsagesSucceed(infos)
    requires forall i :: 0 <= i < |infos| ==> SingleLineInfo(infos[i]) && '\n' !in infos[i].usage.value
    ensures Pieces(ModuleHelp(name, infos).value, '\n') == ["", Title(name)] + EntriesLines(infos) + HELP_LINES
  {
    EntriesAsLines(infos, false);
    HelpBlockLines();
    TitleSingleLine(name);
    PiecesAfterHeader(Title(name), EntriesLines(infos), HELP_LINES);
  }

  // ------------------------------------------------------------------- Module

  class Module {
    const name: string
    const prompt: string
    var commands: seq<Command>
    /** What the help reset / help append accessors that the console client calls return; Module.java does not declare them. */
    var helpReset: Option<string>
    var helpAppend: Option<string>

    /** `new Module(name)`. */
    constructor(name: string)
      ensures this.name == name && prompt == ModulePrompt(name)
      ensures commands == [] && helpReset == None && helpAppend == None
    {
      this.name := name;
      this.prompt := ToLowerCase(name) + " $ ";
      commands := [];
      helpReset, helpAppend := None, None;
    }

    /** `addCommand`: appends, leaving the earlier commands in place. */
    method AddCommand(c: Command)
      modifies this
      ensures commands == old(commands) + [c]
      ensures helpReset == old(helpReset) && helpAppend == old(helpAppend)
    {
      commands := commands + [c];
    }

    /** `getHelpMessage()`: the title, the entries of the commands, the `help` entry. */
    method HelpMessage() returns (r: Result<string, Exception>)
      ensures r == ModuleHelp(name, Infos(commands))
    {
      var message := Header(name);
      var entries := CommandEntries(commands, false);
      if entries.Failure? {
        return Failure(entries.error);
      }
      message := message + entries.value;
      message := message + "\n'help'";
      message := message + "\n\t" + HELP_DESCRIPTION;
      message := message + "\n\tUsage: ~$ help\n";
      HelpAppended(Header(name) + entries.value);
      r := Success(message);
    }
  }

  /**
   * The loop over the commands that both help pages share: one entry per
   * command, in order, until a usage throws.
   */
  method CommandEntries(commands: seq<Command>, indented: bool) returns (r: Result<string, Exception>)
    ensures r == Entries(Infos(commands), indented)
  {
    var infos := Infos(commands);
    var text := "";
    for i := 0 to |commands|
      invariant Entries(infos[..i], indented) == Success(text)
    {
      var usage := commands[i].Usage();
      assert infos[i] == Info(commands[i]);
      if usage.Failure? {
        EntriesStop(infos, i, indented, text);
        return Failure(usage.error);
      }
      var shown := if indented then Indent(usage.value) else usage.value;
      EntriesGrow(infos, i, indented, text);
      text := text + "\n'" + commands[i].defaultReference + "'";
      text := text + "\n\t" + commands[i].description;
      text := text + "\n\t" + shown;
    }
    assert infos[..|commands|] == infos;
    r := Success(text);
  }
}
