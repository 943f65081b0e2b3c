# JModule command-line framework, modelled in Dafny

JModule builds interactive console applications out of *modules*. A module
has a name, a prompt and an ordered list of *commands*. The
`ConsoleClient` prompts for a line and normalises it: it trims the line and
collapses each run of spaces into one. It then splits the line into tokens
and resolves the first token, in a fixed order:

1. the built-in words (nothing at all, `help`, `exit`);
2. the name of another module, which the client switches to;
3. a command of the current module, matched by its default reference or by
   one of its alternate references.

If none of these matches, the client reports the reference as not
recognised.

The model covers the following parts of the framework:
- **Commands.** A command derives its default reference from its name and
  builds a usage line from its parameter list. An indefinite command builds
  its usage from a summary, one "OR" line per alternate reference and an
  appended text. A bounded command refuses an invalid parameter range.
- **Options.** An option is called by a short flag or by long references.
  It can be toggled on and off, and it can look for a conflict with another
  option.
- **Modules.** A module derives its prompt from its name and builds a help
  page.
- **The console client.** The client builds the prompt, splits a line into
  tokens, resolves the tokens and prints its own help page. It also covers
  a whole call of `runModule` over the typed lines, and adding and removing
  modules.
- **The raw-input line reader.** It collects bytes into a buffer until the
  enter key. A backspace or delete byte removes the last character and
  echoes "\b \b"; on an empty buffer it does nothing and echoes nothing.
  Every other byte is appended and echoed as itself.

Dafny modules:

- `Wrappers`: `Option`, which stands for Java's `null`, and `Result`, which
  stands for "returns or throws".
- `Lang`: Java's 32-bit `int`, `Integer.MAX_VALUE`, and the two exceptions
  the code throws.
- `Strings`: the `java.lang.String` operations the framework uses. These are
  case mapping, `trim`, `replaceAll(" +", " ")`, `replaceAll(" ", "")` and
  `replaceAll("\n", "\n\t")`.
- `Splitting`: `Pieces` (all the pieces between separators) and its inverse
  `Join`. It also holds Java's `String.split`, which drops trailing empty
  pieces.
- `Decimal`: the decimal rendering of an `int` (`"" + n`), and a parser
  that undoes it.
- `InputUtil`: `readUserInput`. It is a loop over the bytes typed, with a
  terminal model for its echo.
- `Commands`: `Command`, `IndefCommand` and `BoundedCommand`, as one class.
  A `kind` constant says which of the three classes an object was built
  as.
- `Options`: `Option`.
- `Modules`: `Module`, and the entry layout that both help pages share.
- `Console`: `ConsoleClient`, with the dispatch rule, the help page and
  `runModule`.

## Model

Paths are relative to the repository root.

| member | source | states |
|---|---|---|
| Strings.ToLowerCase | src/main/java/com/jModule/exec/Module.java:28 | the result has the length of the input, and each character is the lower-case form of the character at the same place |
| Strings.ToUpperCase | src/main/java/com/jModule/exec/Module.java:49 | the result has the length of the input, and each character is the upper-case form of the character at the same place |
| Strings.Without | src/main/java/com/jModule/def/Command.java:41 | the character no longer occurs; the result is shorter than the input by exactly the number of times the character occurs in it, and holds only characters of the input |
| Strings.WithoutOfChar | src/main/java/com/jModule/def/Command.java:41 | a single character is deleted when it is the given one and kept otherwise |
| Strings.WithoutConcat | src/main/java/com/jModule/def/Command.java:41 | deleting from a concatenation deletes from each part, so the kept characters stay in order; with the single-character case this fixes the result |
| Strings.TrimStart | src/main/java/com/jModule/util/InputUtil.java:59 | the result is a suffix of the input that does not start with a trimmable character; every character dropped is trimmable |
| Strings.TrimEnd | src/main/java/com/jModule/util/InputUtil.java:59 | the result is a prefix of the input that does not end with a trimmable character; every character dropped is trimmable |
| Strings.Trim | src/main/java/com/jModule/util/InputUtil.java:59 | neither end of the result is a character at or below U+0020 |
| Strings.TrimOfTrimmed | src/main/java/com/jModule/util/InputUtil.java:59 | trimming a string whose ends are not blank leaves it unchanged |
| Strings.Collapse | src/main/java/com/jModule/util/InputUtil.java:59 | the result never holds two spaces side by side; it is empty exactly when the input is; it keeps the first and last characters; it is no longer than the input |
| Strings.CollapseIsSqueeze | src/main/java/com/jModule/util/InputUtil.java:59 | collapsing runs of spaces equals a second definition: drop each space that is followed by another space |
| Strings.CollapseOfNoDoubleSpace | src/main/java/com/jModule/util/InputUtil.java:59 | a string without two adjacent spaces is left unchanged |
| Strings.CollapseKeepsNonSpaces | src/main/java/com/jModule/util/InputUtil.java:59 | collapsing deletes spaces only: the other characters survive, in order |
| Strings.Normalize | src/main/java/com/jModule/util/InputUtil.java:59 | the normalised line has no blank at either end, never two adjacent spaces, and is no longer than the input |
| Strings.NormalizeIdempotent | src/main/java/com/jModule/util/InputUtil.java:59 | normalising a normalised line changes nothing |
| Strings.NormalizeKeepsWords | src/main/java/com/jModule/exec/ConsoleClient.java:113 | after trimming, normalising deletes only spaces: the non-space characters survive, in order |
| Strings.Indent | src/main/java/com/jModule/exec/ConsoleClient.java:74 | the indented text is never shorter than the input |
| Strings.IndentSingleLine | src/main/java/com/jModule/exec/ConsoleClient.java:74 | a text without a line break is not changed by the indentation |
| Splitting.Pieces | src/main/java/com/jModule/exec/ConsoleClient.java:115 | there is always at least one piece, and a single piece is the whole string |
| Splitting.PiecesOfSeparatorFree | src/main/java/com/jModule/exec/ConsoleClient.java:115 | a string without the separator is its own only piece |
| Splitting.PiecesAreSeparatorFree | src/main/java/com/jModule/exec/ConsoleClient.java:115 | no piece holds the separator |
| Splitting.PiecesAround | src/main/java/com/jModule/exec/ConsoleClient.java:115 | one separator splits the pieces of what comes before it from the pieces of what comes after it |
| Splitting.PiecesOfJoin | src/main/java/com/jModule/exec/ConsoleClient.java:115 | splitting separator-free pieces joined by the separator gives the pieces back |
| Splitting.JoinOfPieces | src/main/java/com/jModule/exec/ConsoleClient.java:115 | joining the pieces of a string with the separator gives the string back |
| Splitting.DropTrailingEmpty | src/main/java/com/jModule/exec/ConsoleClient.java:115 | the result is a prefix of the pieces that does not end with an empty piece, and every piece dropped is empty |
| Splitting.JavaSplit | src/main/java/com/jModule/exec/ConsoleClient.java:115 | a string without the separator splits into itself; otherwise the result is the pieces with the trailing empty ones dropped, and no piece holds the separator |
| Splitting.PiecesNonEmpty | src/main/java/com/jModule/exec/ConsoleClient.java:115 | a non-empty string that neither starts nor ends with the separator, and never repeats it, has only non-empty pieces |
| Splitting.TokensOfNormalized | src/main/java/com/jModule/exec/ConsoleClient.java:113-115 | on a normalised line, an empty line gives the single token ""; otherwise every token is non-empty and space-free; the tokens join back to the line |
| Splitting.SplitOfJoin | src/main/java/com/jModule/exec/ConsoleClient.java:115 | non-empty, space-free tokens joined with spaces split back into the same tokens |
| Splitting.IndentLines | src/main/java/com/jModule/exec/ConsoleClient.java:74 | the indentation puts a tab at the start of every line but the first, and changes nothing else |
| Splitting.IndentedLines | src/main/java/com/jModule/exec/ConsoleClient.java:74 | a tab followed by the indented usage puts a tab at the start of each of the usage's lines |
| Decimal.NatToString | src/main/java/com/jModule/exec/ConsoleClient.java:110 | the rendering is a non-empty string of digits that starts with '0' only for zero |
| Decimal.IntToString | src/main/java/com/jModule/exec/ConsoleClient.java:110 | the rendering is never empty |
| Decimal.DigitsOfNat | src/main/java/com/jModule/exec/ConsoleClient.java:110 | the value of the digits of a natural number is that number |
| Decimal.IntToStringRoundTrip | src/main/java/com/jModule/exec/ConsoleClient.java:110 | the rendering is an optional minus followed by digits, and parsing it gives the number back |
| InputUtil.Apply | src/main/java/com/jModule/util/InputUtil.java:41-53 | a delete byte removes the last character, or leaves an empty buffer empty; any other byte is appended as a character, with the earlier characters unchanged |
| InputUtil.ReadUserInput | src/main/java/com/jModule/util/InputUtil.java:24-63 | bytes are read up to and including the first enter and no further; a line comes back exactly when the input holds an enter; the line is the normalised buffer of the bytes read, so it is trimmed and has no double spaces; the echo is the echo of the bytes read |
| InputUtil.EditsHoldNoDeletes | src/main/java/com/jModule/util/InputUtil.java:41-51 | a delete or backspace character never lands in the buffer |
| InputUtil.EditsLength | src/main/java/com/jModule/util/InputUtil.java:47-53 | the buffer never holds more characters than there were bytes |
| InputUtil.EditsWithoutDeletes | src/main/java/com/jModule/util/InputUtil.java:47-49 | without delete bytes, the buffer is the bytes typed as characters, and so is the echo |
| InputUtil.EchoStep | src/main/java/com/jModule/util/InputUtil.java:47-53 | a terminal that shows the buffer still shows it, with the byte applied, after that byte's echo ("\b \b" for an effective delete, nothing for a delete on an empty buffer) |
| InputUtil.EchoShowsBuffer | src/main/java/com/jModule/util/InputUtil.java:32-54 | for bytes typed one column each, the whole echo leaves the terminal showing the buffer, with deleted characters blanked out |
| Commands.DefaultReference | src/main/java/com/jModule/def/Command.java:41 | the default reference holds no space and no upper-case letter, and is shorter than the name by exactly the number of spaces in the name |
| Commands.DefaultReferenceConcat | src/main/java/com/jModule/def/Command.java:41 | the default reference of a name is that of each part of the name, in order |
| Commands.DefaultReferenceOfChar | src/main/java/com/jModule/def/Command.java:41 | a space contributes nothing, and any other character contributes its lower-case form |
| Commands.DefaultReferenceOfCommandOne | src/main/java/com/jModule/def/Command.java:41 | the command named "Command 1" answers to "command1" |
| Commands.DefaultReferenceIdempotent | src/main/java/com/jModule/def/Command.java:41 | a default reference is its own default reference |
| Commands.ListedUsage | src/main/java/com/jModule/def/Command.java:72-77 | the usage starts with "Usage: ~$ " and the default reference, and is just that when there are no parameters |
| Commands.ListedUsageWords | src/main/java/com/jModule/def/Command.java:72-77 | the usage is "Usage:", "~$", the reference and "<p>" for each parameter in order, separated by single spaces |
| Commands.ListedUsageSplits | src/main/java/com/jModule/def/Command.java:72-77 | for a space-free reference and space-free parameter names, splitting the usage at spaces gives back the reference and each parameter, in order |
| Commands.IndefiniteUsage | src/main/java/com/jModule/def/IndefiniteCommand.java:16-38 | a usage reset is returned verbatim; otherwise the usage starts with "Usage: ~$ ", the reference and the summary (" <Parameters> ..." when none is set) |
| Commands.IndefiniteUsageJoin | src/main/java/com/jModule/def/IndefiniteCommand.java:25-36 | without a reset, the usage is the usage line, one "OR" line per reference and the appended text if any, joined with line breaks |
| Commands.IndefiniteUsageLines | src/main/java/com/jModule/def/IndefiniteCommand.java:25-36 | with single-line parts, the usage's lines are exactly the usage line, the "OR" lines in reference order, and then the appended text when it is present |
| Commands.CheckLowerBound | src/main/java/com/jModule/def/BoundedCommand.java:31-33 | an IllegalArgumentException is thrown exactly when the minimum is negative |
| Commands.CheckRange | src/main/java/com/jModule/def/BoundedCommand.java:56-58 | an IllegalArgumentException is thrown exactly when min < 0 or min >= max; so an accepted range has 0 <= min < max, and equal bounds are refused |
| Commands.LowerBoundMessage | src/main/java/com/jModule/def/BoundedCommand.java:32 | the message is "[" and then two comma-separated parts: the minimum and the text "∞) is not a valid parameter range!" |
| Commands.RangeMessage | src/main/java/com/jModule/def/BoundedCommand.java:57 | the message is "[" and then two comma-separated parts: the minimum, and the maximum followed by "] is not a valid parameter range!" |
| Commands.CopyParams | src/main/java/com/jModule/def/Command.java:43-49 | the copy is absent when the logic supplies no list; otherwise it has the same elements in the same order |
| Commands.Command.constructor | src/main/java/com/jModule/def/Command.java:37-50 | the getters return the given name and description, the derived default reference and the copied parameters; there are no alternate references |
| Commands.Command.Indefinite | src/main/java/com/jModule/def/IndefiniteCommand.java:7-9 | the same fields as a plain command, with no parameter summary |
| Commands.Command.Bounded | src/main/java/com/jModule/def/BoundedCommand.java:59-71 | the command keeps the given minimum and maximum, which `getMin` and `getMax` return |
| Commands.Command.AddPossibleReference | src/main/java/com/jModule/def/Command.java:64-66 | the reference is appended, and the earlier references and other fields are unchanged |
| Commands.Command.SetParamSummary | src/main/java/com/jModule/def/IndefiniteCommand.java:11-14 | the summary is replaced, the same object is returned, and nothing else changes |
| Commands.Command.Usage | src/main/java/com/jModule/def/Command.java:72-78 | a plain command throws a NullPointerException exactly when it has no parameter list, and otherwise its usage starts with the prefix and the reference; for the other kinds a usage reset wins |
| Commands.NewBoundedCommand | src/main/java/com/jModule/def/BoundedCommand.java:29-38 | throws exactly when min < 0, with the "[min,∞)" message; otherwise the range is [min, Integer.MAX_VALUE], the name, description and parameters are kept, the reference is the default reference of the name, there are no alternate references, and no summary, usage reset or usage append is set |
| Commands.NewBoundedRangeCommand | src/main/java/com/jModule/def/BoundedCommand.java:54-63 | throws exactly when min < 0 or min >= max, with the "[min,max]" message; otherwise the command keeps exactly the given range, and 0 <= min < max; the name, description and parameters are kept, the reference is the default reference of the name, there are no alternate references, and no summary, usage reset or usage append is set |
| Options.FirstShared | src/main/java/com/jModule/def/Option.java:67-71 | the index found is the first element shared with the other list; no index is found exactly when no element is shared |
| Options.Conflict | src/main/java/com/jModule/def/Option.java:63-73 | equal flags give the flag; otherwise the result is null exactly when none of their references is one of mine, and a value found is a reference of both |
| Options.ConflictSymmetric | src/main/java/com/jModule/def/Option.java:63-73 | whether two options conflict does not depend on which one is asked |
| Options.CalledMeansReferenced | src/main/java/com/jModule/def/Option.java:41-53 | for a letter other than '-', the option is called by it exactly when it is active and referenced by "-" plus the letter |
| Options.Option.constructor | src/main/java/com/jModule/def/Option.java:18-22 | the flag is "-" followed by the character, the description is kept, and the option starts inactive with no references |
| Options.Option.AddReference | src/main/java/com/jModule/def/Option.java:24-27 | "--" + reference is appended, the same object is returned, and the active state is unchanged |
| Options.Option.Activate | src/main/java/com/jModule/def/Option.java:55-57 | the option becomes active; its references are unchanged |
| Options.Option.Reset | src/main/java/com/jModule/def/Option.java:59-61 | the option becomes inactive; its references are unchanged |
| Options.Option.Equals | src/main/java/com/jModule/def/Option.java:63-73 | the search returns what `Conflict` specifies: the flag, or the first of t's references that is also mine, or null |
| Modules.ModulePrompt | src/main/java/com/jModule/exec/Module.java:28 | the prompt is the lower-cased name followed by " $ ", and it holds no upper-case letter |
| Modules.HelpBlockLines | src/main/java/com/jModule/exec/Module.java:55-57 | the fixed `help` entry is the lines "'help'", the tabbed description, the tabbed usage and an empty line, each after a line break |
| Modules.Entries | src/main/java/com/jModule/exec/Module.java:50-54 | the entries are built exactly when every usage can be built; a failure is the exception of the first usage that throws |
| Modules.EntriesFailureExtends | src/main/java/com/jModule/exec/Module.java:50-54 | once a usage has thrown, the later commands make no difference |
| Modules.EntriesAsLines | src/main/java/com/jModule/exec/Module.java:50-54 | with single-line parts, the entries are three lines per command in command order (the quoted reference, the tabbed description, the tabbed usage lines) |
| Modules.TabbedUsage | src/main/java/com/jModule/exec/ConsoleClient.java:74 | after "\n\t", an indented usage is each usage line after a tab, on lines of its own |
| Modules.ModuleHelp | src/main/java/com/jModule/exec/Module.java:48-59 | the page is built exactly when every usage can be built; it starts with the line break and title, and ends with the fixed `help` entry |
| Modules.ModuleHelpLines | src/main/java/com/jModule/exec/Module.java:48-59 | with single-line parts, the page's lines are an empty line, the title, the entry lines of each command in order, then the `help` entry |
| Modules.Module.constructor | src/main/java/com/jModule/exec/Module.java:26-29 | the module keeps its name, its prompt is the derived prompt, and it has no commands |
| Modules.Module.AddCommand | src/main/java/com/jModule/exec/Module.java:61-63 | the command is appended and the earlier commands stay in place |
| Modules.Module.HelpMessage | src/main/java/com/jModule/exec/Module.java:48-59 | the message the loop builds is the page `ModuleHelp` describes, or the exception of the first usage that throws |
| Modules.CommandEntries | src/main/java/com/jModule/exec/Module.java:50-54 | the loop builds exactly the entries `Entries` describes, stopping at the first usage that throws |
| Console.PromptLayout | src/main/java/com/jModule/exec/ConsoleClient.java:109-110 | the prompt is the app name, ": ", the module prompt and "$ "; with history logging on, the digits in between read back as the history size |
| Console.Tokens | src/main/java/com/jModule/exec/ConsoleClient.java:113-115 | a line always has at least one token |
| Console.TokensOfLine | src/main/java/com/jModule/exec/ConsoleClient.java:113-115 | a blank line has the single token ""; otherwise every token is non-empty and space-free; the tokens joined by spaces are the normalised line |
| Console.FirstNamed | src/main/java/com/jModule/exec/ConsoleClient.java:148-153 | the index found is the first name equal to the reference; none is found exactly when no name is |
| Console.FirstAnswering | src/main/java/com/jModule/exec/ConsoleClient.java:158-163 | the index found is the first command that answers to the reference by its default or alternate references; none is found only when no command answers |
| Console.Resolve | src/main/java/com/jModule/exec/ConsoleClient.java:133-165 | "" re-prompts, "help" shows help and "exit" exits, each exactly for that token; a switch names a module and an execution names a command |
| Console.ResolveOrder | src/main/java/com/jModule/exec/ConsoleClient.java:136-165 | a switch happens exactly when the reference is not built in, is not the current module's name, and names a module; it goes to the first such module. Otherwise the first command that answers runs with the remaining tokens. Otherwise the reference is reported |
| Console.Others | src/main/java/com/jModule/exec/ConsoleClient.java:81-85 | the other modules never include the current one, and include every listed module but it |
| Console.ConsoleHelp | src/main/java/com/jModule/exec/ConsoleClient.java:62-95 | a help reset is printed as it is; otherwise the page is built exactly when every usage can be built, a failure is the first usage's exception, and the page starts with the header |
| Console.HelpText | src/main/java/com/jModule/exec/ConsoleClient.java:70-93 | the page starts with the line break and the title |
| Console.ModuleListLines | src/main/java/com/jModule/exec/ConsoleClient.java:81-85 | the listing is one line per other module, "\t- '" + name + "'", in list order |
| Console.OthersSectionLines | src/main/java/com/jModule/exec/ConsoleClient.java:79-86 | the module section is the switch hint and the listing with more than one module, and no lines otherwise |
| Console.AppendTextLines | src/main/java/com/jModule/exec/ConsoleClient.java:87-93 | the help append takes a line of its own followed by an empty line; without an append there is one empty line |
| Console.ConsoleHelpLines | src/main/java/com/jModule/exec/ConsoleClient.java:62-95 | without a reset and with single-line parts, the page's lines are: an empty line, the title, each command's entry with every usage line tabbed, the `help` entry, the module section, an empty line, the exit hint, then the append |
| Console.SwitchMessageNames | src/main/java/com/jModule/exec/ConsoleClient.java:150 | the switch message holds the module's name between the quotes and ends with an empty line |
| Console.NotRecognizedMessageQuotes | src/main/java/com/jModule/exec/ConsoleClient.java:164-165 | the not-recognised message holds the reference typed between the quotes and ends with an empty line |
| Console.PrintedWhen | src/main/java/com/jModule/exec/ConsoleClient.java:136-165 | a line prints at most one message, and prints one exactly on a switch, an unknown reference, or a `help` whose page can be built |
| Console.Ending | src/main/java/com/jModule/exec/ConsoleClient.java:136-165 | a decision never ends the call for lack of input |
| Console.HistoryEntry | src/main/java/com/jModule/exec/ConsoleClient.java:136-146 | a line's tokens go to the history exactly when the first token is not a built-in word |
| Console.Decide | src/main/java/com/jModule/exec/ConsoleClient.java:133-165 | a switch or execution names a module or command that exists; the decision is built-in exactly when the first token is a built-in word |
| Console.Steps | src/main/java/com/jModule/exec/ConsoleClient.java:129-166 | there is one step per line |
| Console.Session | src/main/java/com/jModule/exec/ConsoleClient.java:128-167 | a call reads no more lines than there are, and shows one prompt per line read |
| Console.SessionStopsAtFirstEnding | src/main/java/com/jModule/exec/ConsoleClient.java:129-166 | the call runs out of input only when no line ends it; otherwise it ends on the first line that ends it, as that line says |
| Console.SessionRecordsEntries | src/main/java/com/jModule/exec/ConsoleClient.java:146 | the history gains exactly the entries of the lines read, in order |
| Console.SessionPromptsCountHistory | src/main/java/com/jModule/exec/ConsoleClient.java:109-110 | the prompt before each line shows the starting history size plus the entries recorded by the lines before it |
| Console.ResumeIsSession | src/main/java/com/jModule/exec/ConsoleClient.java:129-166 | going on after some lines that did not end the call is reading the rest, after what was gathered |
| Console.SessionResumes | src/main/java/com/jModule/exec/ConsoleClient.java:129-166 | a call is a resumption from nothing read |
| Console.Recorded | src/main/java/com/jModule/exec/ConsoleClient.java:146 | every recorded entry is a token list whose first token is not a built-in word |
| Console.EntriesAreNonBuiltinLines | src/main/java/com/jModule/exec/ConsoleClient.java:136-146 | the history entries of the lines are the tokens of exactly those lines whose first token is not a built-in word |
| Console.LineEnding | src/main/java/com/jModule/exec/ConsoleClient.java:136-165 | a line can switch only to a module named by its first token, other than the current one; it throws only on `help` with the page's exception; a blank line, or `help` while the page can be built, neither ends the call nor records anything |
| Console.SessionEndsOnLine | src/main/java/com/jModule/exec/ConsoleClient.java:129-166 | a call that does not run out of input ends as the last line read says |
| Console.SessionSwitchesElsewhere | src/main/java/com/jModule/exec/ConsoleClient.java:148-153 | a call that switches goes to a module other than the current one, named by the last line read |
| Console.SessionThrowsOnlyOnHelp | src/main/java/com/jModule/exec/ConsoleClient.java:139-141 | a call that throws does so on a `help` line whose page cannot be built, with that page's exception |
| Console.QuietLineSkips | src/main/java/com/jModule/exec/ConsoleClient.java:137-141 | a first line that neither ends the call nor records anything leaves both the history and the outcome to the lines after it |
| Console.HelpAndBlankLinesChangeNothing | src/main/java/com/jModule/exec/ConsoleClient.java:136-141 | a blank first line, or `help` while the page can be built, changes neither the history nor how the call ends |
| Console.RemoveFirst | src/main/java/com/jModule/exec/ConsoleClient.java:173-175 | an absent module leaves the list as it is; a present one makes it one shorter |
| Console.RemoveFirstAt | src/main/java/com/jModule/exec/ConsoleClient.java:173-175 | exactly the first occurrence is removed, and the rest keep their order |
| Console.RemoveFirstMultiset | src/main/java/com/jModule/exec/ConsoleClient.java:173-175 | exactly one copy of the module leaves the list |
| Console.ConsoleClient.constructor | src/main/java/com/jModule/exec/ConsoleClient.java:39-43 | the home module is the only module, history logging is off, and the history is empty |
| Console.ConsoleClient.SetHistoryLoggingEnabled | src/main/java/com/jModule/exec/ConsoleClient.java:51-53 | sets the flag and leaves the modules and the history as they were |
| Console.ConsoleClient.AddModule | src/main/java/com/jModule/exec/ConsoleClient.java:169-171 | appends the module and changes nothing else |
| Console.ConsoleClient.RemoveModule | src/main/java/com/jModule/exec/ConsoleClient.java:173-175 | the modules become `RemoveFirst` of the old list, and nothing else changes |
| Console.ConsoleClient.Prompt | src/main/java/com/jModule/exec/ConsoleClient.java:107-116 | the prompt shown is the prompt string for the current history size, and the result is the tokens of the normalised line |
| Console.ConsoleClient.PrintHelpMessage | src/main/java/com/jModule/exec/ConsoleClient.java:62-95 | the message built step by step is the help page for the module and the current module list, or the exception of the first usage that throws |
| Console.ConsoleClient.OtherModuleList | src/main/java/com/jModule/exec/ConsoleClient.java:81-85 | the loop lists exactly the modules other than `m`, in list order |
| Console.ConsoleClient.Dispatch | src/main/java/com/jModule/exec/ConsoleClient.java:133-165 | the switch and the two search loops reach exactly the decision `Resolve` specifies |
| Console.ConsoleClient.Answer | src/main/java/com/jModule/exec/ConsoleClient.java:131-165 | one pass of the loop shows the prompt for the given history size and takes the step its line takes |
| Console.ConsoleClient.Respond | src/main/java/com/jModule/exec/ConsoleClient.java:136-165 | for each decision: whether the call ends and how, what is recorded (the tokens, unless built in), and what is printed |
| Console.ConsoleClient.ShowHelpStep | src/main/java/com/jModule/exec/ConsoleClient.java:139-141 | `help` prints the page and goes on, or ends the call with the page's exception |
| Console.ConsoleClient.RunModule | src/main/java/com/jModule/exec/ConsoleClient.java:128-167 | the call is the `Session` over the steps of the lines in the module as it was, and the history gains exactly what the call recorded |
| Console.ConsoleClient.ReadLines | src/main/java/com/jModule/exec/ConsoleClient.java:129-166 | the loop gathers exactly what `Resume` describes from nothing read: it stops on the first line that ends the call |

## Left out

- Raw terminal mode (`ConsoleUtil`, which runs `stty` in a shell) is not part of this model. Neither is the switch back to regular input before `exit`.
- `System.in` and `System.out` are not modelled as I/O:
  - the bytes that `readUserInput` reads are a parameter, and its echo is returned as a string;
  - the lines typed at the console's prompt are a parameter;
  - what the console prints is returned, one string per `println`.
- `System.exit(0)` on `exit` becomes the outcome `Exited`.
- The endless loop of `runConsole` is left out; one call of `runModule` is modelled.
- Running the user's command logic (`cmd.execute`) is left out. A call that finds a command ends with `Executed(command, args)`.
- `InputUtil.promptUserInput`, `getHistory` and `addHistory` are called by the console but not declared in `InputUtil.java`:
  - the typed line is taken as a parameter;
  - the history is a field of the client;
  - the history size is passed in;
  - `RunModule` appends everything the call recorded when it ends. Each prompt still shows the size the history has at that point.
- At the end of input, `readUserInput` would go on reading forever, because `read()` returns -1 and the loop never sees an enter. The model stops and returns no line. Likewise, `runModule` ends with `OutOfInput` when the typed lines run out.
- `Strings.ToLowerCase`, `Strings.ToUpperCase`: only the ASCII letters are mapped. Java's locale-dependent Unicode case mapping is not modelled.
- The three command classes are one class with a `kind` constant, because Java overriding of `getUsage` has no counterpart here. `IndefiniteCommand.java` declares the class `IndefCommand`.
- Several collaborators are not declared anywhere in the repository:
  - `BoundedCommand` calls `setMin`/`setMax`, which `Command` does not declare. The range is kept in `kind` only.
  - `IndefCommand` calls `getUsageReset`, `getUsageAppend` and `getReferences`, which are not declared either. The first two are fields; the third is taken to be the alternate references.
  - `Module`'s help reset and help append accessors are fields as well.
- `CommandLogic` does not match its callers: it offers `getParams(): String[]`, while `Command` expects a `List`. What the logic supplies is passed in as an optional list.
- Getters are `const` fields of the classes, read directly.
- `getAltReferences` hands out the list itself, so callers can change it through aliasing. In the model the list is a value.
- `Console.ConsoleClient.Answer`, `Console.ConsoleClient.ReadLines`: the lines are answered against the module as it is when the call starts. Command logic that changed modules or commands during a call is not modelled.
- `Options.Option.IsCalled`, `Options.Option.IsReferencedBy`: these are predicates read as the source defines them. `Options.CalledMeansReferenced` states what they mean together.
- Arrow keys, history recall, tab completion and cursor movement are only byte constants in `EscapeChar.java`; no code implements them, so they are not modelled. The line reader here handles only enter, backspace/delete and plain bytes.
