# cli_utils core, modelled in Dafny

This project models the sequential logic of four files of the `cli_utils`
command-line toolkit and proves properties of it.

- **Wrapping text for a mono-space terminal** (`utils/strutil.py`).
  - `print_length` counts a CJK unified ideograph (U+4E00 to U+9FFF) as two columns.
  - `str_to_lines` cuts text greedily into lines that fit a column budget. A word split at the end of a line is moved onto the next line.
- **The message box** (`utils/message.py`). It keeps one list of messages per message type, in the order the types were first used, plus a summary text per type. It supports `push`, `pop`, `count`, `list`, the summary property, `clear` and the printed report.
- **Tree listing** (`nescli/commands/tree.py`).
  - `_print_structure` runs over an in-memory directory tree, filtered as `_filtered_contents` filters.
  - `_format_sublines` and `_remove_detached_pipes` draw the box-drawing prefixes.
- **Echo helpers** (`utils/echoutils/echo_manager.py`).
  - `EchoManager` decides what one `echo` call prints: the prefix, the separator rule, the title and `done`.
  - `EchoStatment` builds a line from a statement and its attachments.

Files:

- `wrappers.dfy`: `Option` and `Result`.
- `strutil.dfy`: module `StrUtil`.
- `message.dfy`: module `Messages`.
- `tree.dfy`: module `Tree`.
- `echo_manager.dfy`: module `Echo`.

Code that loops or updates state is modelled as methods, each proved equal to a specification function:

- `PrintLength`, `StrToLines`, `RemoveDetachedPipes`, `FormatSublines` and `PrintStructure`.
- The class `MessageBox`, whose fields are the two dictionaries. Its lemmas are stated about the value `Table` its fields stand for.
- The class `Statement`, whose attachments form a heap structure with a ghost footprint `Repr`.

The properties are lemmas about those specification functions.

Python's `str.isalpha` is the parameter `isAlpha`. What `click.echo` would print is returned instead of being printed:

- `Echo` returns `Echoed` records: the text, whether a newline follows, and the resolved style.
- `Messages` returns the printed lines.

Points where the model follows the code rather than the docstrings:

- **`push` with `show_type` or `show_prefix` replaces the message.** The conditional expressions on lines 49-50 of `utils/message.py` parse as `x if flag else ("" + msg)`. So with `show_type` the stored string is `[<type>] ` alone, and with `show_prefix` it is the prefix alone. The model keeps this, in `Messages.Stored`.
- **The short `echo` report ignores `types`.** It prints one summary per type in the table, whatever `types` is.
- **`clear` can stop half-way.** When a listed type is absent, it raises `KeyError` after emptying the types listed before it. The model returns that type as `missing` and keeps the partly cleared table.
- **`str_to_lines` can fail.** Empty text succeeds at every width, and any text succeeds at a width of two or more. Non-empty text fails in three cases:
  - Width 0 indexes an empty line (`IndexError`).
  - Negative widths never leave the inner loop.
  - Width 1 fails exactly when the text holds a wide character; narrow text wraps one character per line.
- **`end` passes the statement's own prefix string as `show_prefix`.** So an attachment, whose prefix is `''`, prints no prefix.

## Model

| member | source | states |
|---|---|---|
| StrUtil.WidthAppend | utils/strutil.py:52-59 | the printed length of a concatenation is the sum of the printed lengths |
| StrUtil.WidthBounds | utils/strutil.py:52-59 | `len(s) <= print_length(s) <= 2*len(s)`, and the length is 0 exactly for the empty string |
| StrUtil.WidthPrefix | utils/strutil.py:52-59 | a prefix is never wider than the whole string |
| StrUtil.NarrowWidth | utils/strutil.py:52-59 | without ideographs the printed length is the length |
| StrUtil.WidthExamples | utils/strutil.py:52-59 | `中文` is 4 columns and `中文word` is 8 |
| StrUtil.PrintLength | utils/strutil.py:38-59 | the counting loop returns the printed length |
| StrUtil.LastIndexOf | utils/strutil.py:90-92 | `rsplit(' ', 1)` cuts at the last space: a space, with none after it |
| StrUtil.Fit | utils/strutil.py:85-86 | dropping the last character until the text fits gives a prefix that fits, and no longer prefix fits |
| StrUtil.Take | utils/strutil.py:84-86 | `text[:w]` shortened until it fits is the longest prefix of the text that fits |
| StrUtil.TakeEmpty | utils/strutil.py:84-86 | the fitted piece is empty exactly when the text is empty or starts with a character wider than the budget |
| StrUtil.TakeIs | utils/strutil.py:84-86 | a prefix that fits, followed by a character that does not, is the fitted piece |
| StrUtil.NextCut | utils/strutil.py:84-117 | one pass of the outer loop loses nothing except the single space of a rewind; the line fits; the rest is shorter; it rewinds exactly when `is_last_word_break` holds (the next text is non-empty, the piece's last and the next text's first character are letters, and the piece holds a space), and otherwise the line is the longest fitting prefix |
| StrUtil.RewindSplit | utils/strutil.py:89-92 | the rewind splits the piece at its last space and loses only that space |
| StrUtil.StrToLines | utils/strutil.py:62-96 | the nested loops return `Wrapped(text, w)`, including both ways of failing |
| StrUtil.FitLine | utils/strutil.py:84-86 | the inner loop returns the longest prefix that fits |
| StrUtil.RewindLine | utils/strutil.py:87-92 | the rewind step yields the line and the rest of one pass of the outer loop |
| StrUtil.OuterStep | utils/strutil.py:83-94 | one iteration of the outer loop moves one cut from the remaining text to the lines done |
| StrUtil.WrappedFromCuts | utils/strutil.py:83-96 | when the loop stops, its result (or its failure) is `Wrapped` |
| StrUtil.CutsFit | utils/strutil.py:84-92 | every cut line fits the budget |
| StrUtil.CutsRejoin | utils/strutil.py:87-94 | the cut lines, with one space put back after each rewound line, rebuild the text |
| StrUtil.WrappedFits | utils/strutil.py:77-96 | every returned line has `print_length(line) <= line_width` |
| StrUtil.WrappedRejoins | utils/strutil.py:77-96 | the returned lines, with one space put back after some of them, concatenate to the input |
| StrUtil.CutsProgress | utils/strutil.py:83-94 | with a budget of at least 2 the outer loop ends with lines |
| StrUtil.WrappedProgress | utils/strutil.py:77-96 | with a budget of at least 2 `str_to_lines` returns |
| StrUtil.WrappedExactFit | utils/strutil.py:77-94 | text exactly as wide as the budget misses the strict shortcut, and the loop returns it as one line |
| StrUtil.WrappedEmpty | utils/strutil.py:77-83 | empty text gives `['']` for a positive width and `[]` otherwise |
| StrUtil.WrappedNoBudget | utils/strutil.py:83-89 | non-empty text with width 0 fails at `line[-1]`; with a negative width the loop never ends |
| StrUtil.CutsWidthOne | utils/strutil.py:83-94 | at width 1 the outer loop fails exactly when the text holds an ideograph |
| StrUtil.WrappedWidthOne | utils/strutil.py:62-116 | at width 1 `str_to_lines` fails exactly when the text holds an ideograph |
| StrUtil.WrappedWideAtWidthOne | utils/strutil.py:84-89 | `str_to_lines('中', 1)` fails with `IndexError` |
| StrUtil.DocExampleTakes | utils/strutil.py:66-70 | the fitted pieces of the docstring example |
| StrUtil.WrappedDocExample | utils/strutil.py:66-70 | `'目标文字text'` at width 4 gives `'目标', '文字', 'text'` |
| StrUtil.TestExampleTakes | utils/strutil.py:84-86 | the fitted pieces of the test text at width 6 |
| StrUtil.CutsFirstTwo | utils/strutil.py:83-94 | the first two lines come from the first two passes |
| StrUtil.TestExampleCuts | utils/strutil.py:84-94 | the first two passes over the test text cut `这是一` and `段目标` without rewinding |
| StrUtil.WrappedSixIdeographs | utils/strutil.py:77-96 | any text starting with `这是一段目标` wraps at width 6 to `这是一`, `段目标`, … |
| StrUtil.WrappedTestExample | utils/strutil.py:77-96 | the test's wrapping at width 6 starts with `这是一`, `段目标`, and every line fits |
| Messages.Stored | utils/message.py:48-50 | the stored string: the prefix when `show_prefix`, else `[<type>] ` when `show_type`, else the message |
| Messages.SumLengthsOther | utils/message.py:66-68 | changing a list whose key is not summed leaves the sum unchanged |
| Messages.SumLengthsUpdate | utils/message.py:66-68 | replacing one list changes the sum by the difference in length |
| Messages.SumLengthsMember | utils/message.py:66-68 | one list is never longer than the sum |
| Messages.AppendedCounts | utils/message.py:45-51 | appending to a type extends its list by exactly the appended strings, leaves every other list alone, adds the type at the end of the key order if it is new, and raises the total by the number appended |
| Messages.AppendedWellformed | utils/message.py:45-46 | after an append every key is in the key order exactly once |
| Messages.AppendedTotal | utils/message.py:45-51 | the total rises by the number of strings appended |
| Messages.AppendedTwice | utils/message.py:54-55 | two appends to the same type are one append of both runs |
| Messages.PushEachStep | utils/message.py:54-55 | pushing the next element extends the list by that element's stored string |
| Messages.PushCounts | utils/message.py:45-52 | pushing one string raises `count(type)` and `count()` by one; the count of any other truthy type is unchanged; an empty type name counts like `count()` |
| Messages.PushEachCounts | utils/message.py:54-55 | pushing an iterable of n strings adds n to its type's list and to `count()` |
| Messages.PoppedCases | utils/message.py:57-60 | `pop` removes and returns the last message of its type only, keeps the key order, and lowers the total by one; on a missing or empty type it returns `None` and changes nothing |
| Messages.PopAfterPush | utils/message.py:45-60 | `pop` after `push` returns the pushed string, and every list is as before |
| Messages.CountBounds | utils/message.py:62-68 | `count(t) <= count()`; an unknown truthy type counts 0; `count()` is the sum of all list lengths |
| Messages.ClearAllCounts | utils/message.py:102-105 | `clear(('all',))` leaves the empty table, with no keys and an empty key order, whose counts are all 0 |
| Messages.ClearListedKeys | utils/message.py:107-108 | clearing listed types keeps every key and the key order |
| Messages.ClearListedPresent | utils/message.py:107-108 | when every listed type is present, exactly the listed types are emptied |
| Messages.ClearListedStops | utils/message.py:107-108 | the first absent listed type raises `KeyError`, after the types before it were emptied |
| Messages.Printed | utils/click_util.py:15-21 | an echoed message is printed as it is; an empty one as a rule of 40 `=` |
| Messages.NatText | utils/message.py:94 | `str(n)` is a non-empty string of decimal digits that starts with `0` only for 0 |
| Messages.NatTextValue | utils/message.py:94 | the digits of `str(n)` spell `n` |
| Messages.ListLinesCount | utils/message.py:96-100 | `_echo_list` prints one line per stored message of the listed types |
| Messages.EchoLinesCount | utils/message.py:81-89 | the verbose report of all types prints `count()` lines; the short report prints one line per type |
| Messages.MessageBox.constructor | utils/message.py:35-37 | a new box holds no types and no summaries |
| Messages.MessageBox.EnsureList | utils/message.py:45-46 | a missing or empty type gets an empty list |
| Messages.MessageBox.Push | utils/message.py:39-52 | `push` of a string appends its stored string to the type's list |
| Messages.MessageBox.PushEach | utils/message.py:54-55 | `push` of an iterable appends each element's stored string in order |
| Messages.MessageBox.Pop | utils/message.py:57-60 | `pop` changes the table and returns as `Popped` says |
| Messages.MessageBox.List | utils/message.py:70-71 | `list(t)` is the stored list of `t`, and `[]` for a type never pushed, which it does not add |
| Messages.MessageBox.SetSummary | utils/message.py:77-79 | the summary setter stores the text under the type and changes nothing else |
| Messages.MessageBox.Clear | utils/message.py:102-108 | `clear` leaves the table as `ClearedTable` says, with the `KeyError` type when one is absent |
| Messages.MessageBox.EchoList | utils/message.py:96-100 | `_echo_list` prints the messages of each listed type in turn |
| Messages.MessageBox.Echo | utils/message.py:81-94 | `echo` prints the verbose or the short report |
| Tree.Visible | nescli/commands/tree.py:180-181 | the filter keeps only entries of the listing |
| Tree.VisibleAppend | nescli/commands/tree.py:180-181 | the filter distributes over concatenation, so it keeps the listing order |
| Tree.VisibleMembers | nescli/commands/tree.py:180-181 | an entry survives the filter exactly when it neither starts with `.` nor is a Python cache name |
| Tree.FilteredContentsCases | nescli/commands/tree.py:176-183 | with `show_hidden` the listing is unchanged; otherwise exactly the shown entries are kept |
| Tree.PipeRunStart | nescli/commands/tree.py:154-163 | the trailing run of lines starting with `│` begins there and no earlier |
| Tree.RemoveDetachedPipes | nescli/commands/tree.py:142-165 | the backward walk returns `Detached(lines)` |
| Tree.DetachedStep | nescli/commands/tree.py:154-163 | one line more at the end either extends the run of pipes or ends it |
| Tree.RemoveDetachedStep | nescli/commands/tree.py:154-163 | one step of the backward walk keeps the loop's account of the result |
| Tree.DetachedShape | nescli/commands/tree.py:152-165 | the length is kept, lines before the trailing run of pipes are unchanged, and each line of the run has its `│` replaced by a space, keeping `fg` |
| Tree.DetachedLast | nescli/commands/tree.py:147-163 | afterwards the last line does not start with `│` |
| Tree.DetachedIdempotent | nescli/commands/tree.py:142-165 | applying the pass twice is applying it once |
| Tree.DetachedUnchanged | nescli/commands/tree.py:144-150 | an empty list, or one whose last line does not start with `│`, is returned unchanged |
| Tree.FormatSublines | nescli/commands/tree.py:127-139 | the loop returns `Formatted(sublines)` |
| Tree.FormattedShape | nescli/commands/tree.py:127-139 | the line count is kept; each line keeps its colour, and its content gets `├─` for a head line, `└─` for a head line that is last, and `│ ` (or `  ` once the detached pipes are removed) otherwise |
| Tree.FormattedAt | nescli/commands/tree.py:129-139 | the same for one subline |
| Tree.FormattedNoHeads | nescli/commands/tree.py:127-139 | no formatted subline reads as a head line |
| Tree.EntriesLast | nescli/commands/tree.py:103-122 | the listing of one entry more is the listing so far plus that entry's block |
| Tree.BlockCases | nescli/commands/tree.py:105-122 | a file gives `─name` in white; a directory gives `┬name` in blue when its sublines are non-empty, else `─name` in blue, followed by its formatted sublines |
| Tree.StructureCases | nescli/commands/tree.py:83-99 | past `max_depth` (when positive) nothing; a file is one line, or an error at depth 0; a directory lists its shown entries, and none when there are none |
| Tree.PrintStructure | nescli/commands/tree.py:83-124 | the recursive loop returns `Structure(node, depth)` |
| Tree.HeadNamesAppend | nescli/commands/tree.py:119-122 | head lines of a concatenation are those of each part |
| Tree.BlockHeads | nescli/commands/tree.py:105-122 | one entry's block holds exactly one head line: its own |
| Tree.EntriesHeads | nescli/commands/tree.py:103-124 | the head lines of the listing name the entries in order |
| Tree.ListingHeads | nescli/commands/tree.py:96-124 | each shown entry yields exactly one head line, in listing order |
| Tree.ListingDepthLimit | nescli/commands/tree.py:85-99 | `max_depth` 0 means no limit; a listing is empty exactly past the limit or for a directory with no shown entries |
| Echo.OutputAppend | utils/echoutils/echo_manager.py:226 | successive `click.echo` calls print their texts one after another |
| Echo.OrElse | utils/echoutils/echo_manager.py:220-221 | Python's `a or b`: a non-empty `a` itself, otherwise `b` |
| Echo.RepeatChar | utils/echoutils/echo_manager.py:231 | `c * n` is `n` copies of `c`, and nothing for `n <= 0` |
| Echo.GetPrefix | utils/echoutils/echo_manager.py:238-247 | the prefix is `(prefix or self.prefix) + ' '` or nothing, and it is non-empty exactly when `show_prefix` is true, or `None` with the manager's flag set |
| Echo.GetPrefixExamples | utils/echoutils/echo_manager.py:238-247 | the cases of the test suite, and that an empty prefix falls back to the manager's |
| Echo.Say | utils/echoutils/echo_manager.py:215-226 | the text is the prefix `_get_prefix` gives followed by the message; the style is the resolved one; `nl` defaults to the manager's |
| Echo.Separator | utils/echoutils/echo_manager.py:228-231 | the separator character repeated the separator length, with falsy arguments falling back to the defaults, and no prefix |
| Echo.SeparatorExamples | utils/echoutils/echo_manager.py:228-231 | `print_sep()` prints 60 `=`, `print_sep(20, '*')` prints 20 `*` |
| Echo.EchoLine | utils/echoutils/echo_manager.py:203-226 | no message prints only the separator; otherwise the prefix and the message |
| Echo.EchoLineExample | utils/echoutils/echo_manager.py:187-226 | `echo('test')` prints `>> test` and a newline |
| Echo.Title | utils/echoutils/echo_manager.py:233-236 | `print_title` prints the title, then the separator |
| Echo.Done | utils/echoutils/echo_manager.py:249-250 | `done` prints `Done!` |
| Echo.Statement.constructor | utils/echoutils/echo_manager.py:24-33 | a new statement has the defaults and no attachments |
| Echo.Statement.Record | utils/echoutils/echo_manager.py:62-68 | the statement prints its prefix (when its prefix is truthy) and its message, with its own `nl` and style |
| Echo.Statement.Print | utils/echoutils/echo_manager.py:62-71 | `_echo` prints the statement and then each attachment, depth first |
| Echo.Statement.EmittedSmall | utils/echoutils/echo_manager.py:62-71 | the printing of a statement with up to two attachments |
| Echo.Statement.PrintedSmall | utils/echoutils/echo_manager.py:62-71 | the same, as the printed text |
| Echo.Statement.PrintedTwoLeaves | utils/echoutils/echo_manager.py:62-71 | a statement with two attachments that have none prints its own text, then theirs |
| Echo.Statement.PrintedFirst | utils/echoutils/echo_manager.py:62-71 | for any number of attachments, the statement's own text is printed first, then what its attachments print |
| Echo.Statement.PrintedAttachs | utils/echoutils/echo_manager.py:70-71 | each attachment prints, with all of its own attachments, after the attachments before it |
| Echo.Statement.PrintedNested | utils/echoutils/echo_manager.py:62-71 | when the first attachment has one of its own, that one prints before the second attachment: pre-order |
| Echo.Statement.SetPrefix | utils/echoutils/echo_manager.py:43-45 | `prefix(p)` sets the prefix and returns the statement |
| Echo.Statement.Add | utils/echoutils/echo_manager.py:50-54 | `add(stmt)` appends exactly one attachment and returns the statement |
| Echo.Statement.AddText | utils/echoutils/echo_manager.py:50-54 | `add(text)` appends one new default-styled statement |
| Echo.Statement.Bold | utils/echoutils/echo_manager.py:73-76 | `bold` sets only the bold flag |
| Echo.Statement.Underline | utils/echoutils/echo_manager.py:78-81 | `underline` sets only the underline flag |
| Echo.Statement.Foreground | utils/echoutils/echo_manager.py:83-161 | a colour property sets only `fg` |
| Echo.Statement.Background | utils/echoutils/echo_manager.py:83-161 | a `_bg` property sets only `bg` |
| Echo.Statement.End | utils/echoutils/echo_manager.py:56-60 | `end` sets the prefix, sets `nl` on the last attachment only, and prints everything; without attachments it fails |
| Echo.EndExample | utils/echoutils/echo_manager.py:50-71 | `es('aaa').add('bbb').add(es('ccc')).end(with_prefix='>>')` prints `>> aaabbbccc` and a newline |
| Echo.StyledLooks | utils/echoutils/echo_manager.py:83-161 | `es('test ').cyan.bold`, `es('stmt').magenta.underline`, `es(' ')` and `es('text').white.red_bg` resolve to cyan bold, magenta underlined, the manager's yellow, and white on red |
| Echo.StyledShown | utils/echoutils/echo_manager.py:62-161 | the styled statements print `>> test stmt text` and a newline, each piece in its own style |
| Echo.StyledEndExample | utils/echoutils/echo_manager.py:50-161 | building and ending the styled statements prints `>> test stmt text` and a newline, its pieces in cyan bold, magenta underlined, the manager's yellow, and white on red |

## Left out

- The box-table renderer and column-width negotiation (`echo.table`, `echo.statments`, `_adjust_column_width`, `_adjust_line_width`, `max_length`): they are not defined in `echo_manager.py`.
- `click.style` and `click.echo`: they are a foreign library. Output is returned as records or lines. Colour codes are not produced, and the colour names are not validated (the `TypeError` cases).
- `EchoManager.confirm`: it reads standard input.
- `+` on an `EchoStatment`: the class defines no `__add__`, so Python raises `TypeError` for the operator. The model has no operator to match.
- `add` with a value that is neither a string nor a statement: Python appends it, and `_echo` fails later. The model's `Add` takes a statement and `AddText` a string.
- Echo.Statement.constructor: models only `EchoStatment(msg)`. The other dataclass fields a caller may pass (`fg`, `bg`, `_bold`, `_underline`, `_nl`, `_prefix`) always take their defaults. `None` for the boolean fields is not modelled either, since they are `bool` here.
- `EchoStatment.__eq__` compares by identity, which is Dafny's reference equality.
- `tree()`: it is I/O.
  - The filesystem is a `Node` value instead of `os.listdir`, `isdir` and `isfile`.
  - Entries that are neither files nor directories are not modelled.
  - The global `config` is the parameter `Settings`.
- `_build_line` is unused code and is not modelled.
- `push` of a nested iterable, and of a string-like `types` iterated by character: `PushEach` takes a sequence of strings and `Clear` a sequence of keys.
- `list` in Python returns the stored list object, which callers could then mutate. The model returns a value.
- `msgbox` and `echo` are module-level singletons. Here they are one `MessageBox` object and the constant `Echo.Default`.
- Echo.Statement.Add: requires that the statement is not already reachable from the one added. Python would let a statement be attached to itself, and `_echo` would then recurse without end.
- Echo.Statement.Add: a statement may not be extended after it has been attached. A statement's footprint `Repr` is fixed when it is attached, so giving the attached one a new attachment leaves its parent without `Valid()`. Python accepts `b = es('b'); a = es('a').add(b); b.add('c')`.
- Echo.Statement.End: for the same reason it cannot be called on a parent whose attachment was extended after it was attached. Python prints `>> abc` and a newline for `a.end(with_prefix='>>')` in the example above.
- Messages.MessageBox.Clear: `types` stands for a tuple. Python compares `types == ('all',)`, so a list `['all']` goes through the loop and raises `KeyError` unless `'all'` was pushed. The model cannot tell a list from a tuple and treats `[Custom("all")]` as every type.
- Messages.MessageBox.Echo: likewise, `echo(['all'], verbose=True)` in Python lists only the messages stored under `'all'`. The model treats it as every type.
- StrUtil.StrToLines: a negative width, on which the source's inner loop never ends, is reported as the error `Diverges`.
- StrUtil.StrToLines: the inner loop and the rewind step are written as the helper methods `FitLine` and `RewindLine`.
- `str.isalpha` is the parameter `isAlpha`. Lemmas that need a space not to be a letter say so in their `requires`.
