/**
 * The directory-structure printer behind `nescli tree`
 * (nescli/commands/tree.py), over an in-memory directory tree that stands
 * in for `os.listdir`, `os.path.isdir` and `os.path.isfile`.
 *
 * Every entry of a directory gives one head line: `─name`, or `┬name` for a
 * directory whose own listing is not empty.  A directory's head line is
 * followed by its listing, each line prefixed with `├─`, `└─` or `│ `, and
 * pipes that would dangle below the last entry are blanked out.
 */
module Tree {
  import opened Wrappers
  import opened StrUtil

  /** `Line(content, fg)`: one printed line and its colour. */
  datatype Line = Line(content: string, fg: string)

  const White: string := "white"
  const Blue: string := "blue"

  /** A file, or a directory with its entries in `os.listdir` order. */
  datatype Node = File(name: string) | Dir(name: string, contents: seq<Node>)

  /** The two settings the source reads from the global `config`. */
  datatype Settings = Settings(maxDepth: int, showHidden: bool)

  /** `click.BadParameter` raised for a file given as the root (nescli/commands/tree.py:90-92). */
  datatype TreeError = NotADirectory

  predicate StartsWith(s: string, c: char) {
    |s| > 0 && s[0] == c
  }

  /** `_is_child_for_current_directory`: a head line of the directory just listed. */
  predicate IsChildForCurrentDirectory(content: string) {
    StartsWith(content, Indent) || StartsWith(content, BranchTop)
  }

  /** `_is_python_cache`: the name starts with `__` and ends with `__`. */
  predicate IsPythonCache(name: string) {
    |name| >= 2 && name[..2] == "__" && name[|name| - 2..] == "__"
  }

  /** The names the filter of `_filtered_contents` keeps when hidden entries are not shown. */
  predicate IsShown(name: string) {
    !StartsWith(name, '.') && !IsPythonCache(name)
  }

  // ---- The content filter ----

  function Visible(contents: seq<Node>): (r: seq<Node>)
    ensures forall x :: x in r ==> x in contents
  {
    if contents == [] then []
    else
      var last := contents[|contents| - 1];
      Visible(contents[..|contents| - 1]) + (if IsShown(last.name) then [last] else [])
  }

  /** `_filtered_contents` applied to a listing already read. */
  function FilteredContents(contents: seq<Node>, showHidden: bool): (r: seq<Node>)
    ensures forall x :: x in r ==> x in contents
  {
    if showHidden then contents else Visible(contents)
  }

  /** The filter distributes over concatenation, so it keeps the listing order. */
  lemma {:induction false} VisibleAppend(a: seq<Node>, b: seq<Node>)
    ensures Visible(a + b) == Visible(a) + Visible(b)
    decreases |b|
  {
    if b == [] {
      assert a + b == a;
    } else {
      var b' := b[..|b| - 1];
      assert (a + b)[..|a + b| - 1] == a + b';
      VisibleAppend(a, b');
    }
  }

  /** The filter keeps exactly the shown entries. */
  lemma {:induction false} VisibleMembers(contents: seq<Node>, x: Node)
    ensures x in Visible(contents) <==> x in contents && IsShown(x.name)
  {
    if contents != [] {
      var init := contents[..|contents| - 1];
      assert contents == init + [contents[|contents| - 1]];
      VisibleMembers(init, x);
    }
  }

  /** With `show_hidden` the listing is kept as it is; otherwise as the filter above. */
  lemma FilteredContentsCases(contents: seq<Node>, showHidden: bool)
    ensures showHidden ==> FilteredContents(contents, showHidden) == contents
    ensures !showHidden ==> forall x :: x in FilteredContents(contents, showHidden) <==> x in contents && IsShown(x.name)
  {
    forall x {
      VisibleMembers(contents, x);
    }
  }

  // ---- _remove_detached_pipes ----

  /** The first character, a pipe, replaced by a space. */
  function Unpipe(line: Line): Line
    requires StartsWith(line.content, Pipe)
  {
    Line([Space] + line.content[1..], line.fg)
  }

  /** Blank out the pipes of the trailing run of lines that start with `│`. */
  function Detached(lines: seq<Line>): seq<Line> {
    if lines == [] then []
    else
      var last := lines[|lines| - 1];
      if StartsWith(last.content, Pipe) then Detached(lines[..|lines| - 1]) + [Unpipe(last)]
      else lines
  }

  /** Where the trailing run of lines starting with `│` begins. */
  function PipeRunStart(lines: seq<Line>): (k: nat)
    ensures k <= |lines|
    ensures forall j :: k <= j < |lines| ==> StartsWith(lines[j].content, Pipe)
    ensures k > 0 ==> !StartsWith(lines[k - 1].content, Pipe)
  {
    if lines == [] || !StartsWith(lines[|lines| - 1].content, Pipe) then |lines|
    else PipeRunStart(lines[..|lines| - 1])
  }

  function Reversed<T>(s: seq<T>): (r: seq<T>)
    ensures |r| == |s|
  {
    if s == [] then [] else [s[|s| - 1]] + Reversed(s[..|s| - 1])
  }

  /** `_remove_detached_pipes`: walks the lines backwards while the run of pipes lasts. */
  method RemoveDetachedPipes(lines: seq<Line>) returns (r: seq<Line>)
    ensures r == Detached(lines)
  {
    if |lines| == 0 {
      return lines;
    }
    var hasDetachedPipes := StartsWith(lines[|lines| - 1].content, Pipe);
    if !hasDetachedPipes {
      return lines;
    }
    var formatted: seq<Line> := [];
    var i := |lines|;
    assert lines[..i] == lines;
    assert Detached(lines) + Reversed(formatted) == Detached(lines);
    while i > 0
      invariant 0 <= i <= |lines|
      invariant hasDetachedPipes ==> Detached(lines) == Detached(lines[..i]) + Reversed(formatted)
      invariant !hasDetachedPipes ==> Detached(lines) == lines[..i] + Reversed(formatted)
    {
      var line := lines[i - 1];
      RemoveDetachedStep(lines, i, hasDetachedPipes, formatted);
      if hasDetachedPipes && StartsWith(line.content, Pipe) {
        formatted := formatted + [Unpipe(line)];
      } else {
        hasDetachedPipes := false;
        formatted := formatted + [line];
      }
      i := i - 1;
    }
    r := Reversed(formatted);
  }

  lemma DetachedStep(lines: seq<Line>, i: nat)
    requires 0 < i <= |lines|
    ensures lines[..i] == lines[..i - 1] + [lines[i - 1]]
    ensures StartsWith(lines[i - 1].content, Pipe) ==>
      Detached(lines[..i]) == Detached(lines[..i - 1]) + [Unpipe(lines[i - 1])]
    ensures !StartsWith(lines[i - 1].content, Pipe) ==> Detached(lines[..i]) == lines[..i]
  {
    assert lines[..i][..i - 1] == lines[..i - 1];
  }

  /** One step of the backward walk keeps the loop's account of the result. */
  lemma RemoveDetachedStep(lines: seq<Line>, i: nat, has: bool, formatted: seq<Line>)
    requires 0 < i <= |lines|
    requires has ==> Detached(lines) == Detached(lines[..i]) + Reversed(formatted)
    requires !has ==> Detached(lines) == lines[..i] + Reversed(formatted)
    ensures var has' := has && StartsWith(lines[i - 1].content, Pipe);
      var f' := formatted + [if has' then Unpipe(lines[i - 1]) else lines[i - 1]];
      (has' ==> Detached(lines) == Detached(lines[..i - 1]) + Reversed(f')) &&
      (!has' ==> Detached(lines) == lines[..i - 1] + Reversed(f'))
  {
    var has' := has && StartsWith(lines[i - 1].content, Pipe);
    var x := if has' then Unpipe(lines[i - 1]) else lines[i - 1];
    DetachedStep(lines, i);
    ReversedSnoc(formatted, x);
  }

  lemma ReversedSnoc<T>(s: seq<T>, x: T)
    ensures Reversed(s + [x]) == [x] + Reversed(s)
  {
    assert (s + [x])[..|s|] == s;
  }

  /**
   * What `_remove_detached_pipes` does: the lines before the trailing pipe
   * run are kept, each line of the run has its pipe blanked; colours and the
   * number of lines are kept.
   */
  lemma {:induction false} DetachedShape(lines: seq<Line>)
    ensures |Detached(lines)| == |lines|
    ensures Detached(lines)[..PipeRunStart(lines)] == lines[..PipeRunStart(lines)]
    ensures forall j :: PipeRunStart(lines) <= j < |lines| ==> Detached(lines)[j] == Unpipe(lines[j])
  {
    if lines != [] && StartsWith(lines[|lines| - 1].content, Pipe) {
      var init := lines[..|lines| - 1];
      DetachedShape(init);
      assert PipeRunStart(lines) == PipeRunStart(init);
      forall j | PipeRunStart(lines) <= j < |lines|
        ensures Detached(lines)[j] == Unpipe(lines[j])
      {
        if j < |init| {
          assert init[j] == lines[j];
        }
      }
    }
  }

  /** After the pass the last line never starts with `│`. */
  lemma DetachedLast(lines: seq<Line>)
    requires lines != []
    ensures Detached(lines) != [] && !StartsWith(Detached(lines)[|Detached(lines)| - 1].content, Pipe)
  {
    DetachedShape(lines);
  }

  /** Applying the pass twice is applying it once. */
  lemma DetachedIdempotent(lines: seq<Line>)
    ensures Detached(Detached(lines)) == Detached(lines)
  {
    if lines != [] {
      DetachedLast(lines);
    }
  }

  /** Nothing changes when the list is empty or its last line does not start with `│`. */
  lemma DetachedUnchanged(lines: seq<Line>)
    requires lines == [] || !StartsWith(lines[|lines| - 1].content, Pipe)
    ensures Detached(lines) == lines
  {
  }

  // ---- _format_sublines ----

  /** The two characters put in front of a subline. */
  function BranchPrefix(content: string, isLast: bool): string {
    if IsChildForCurrentDirectory(content) then
      (if isLast then [CornerBottomLeft, Indent] else [BranchLeft, Indent])
    else [Pipe, Space]
  }

  function Marked(sublines: seq<Line>): seq<Line> {
    seq(|sublines|, j requires 0 <= j < |sublines| =>
      Line(BranchPrefix(sublines[j].content, j == |sublines| - 1) + sublines[j].content, sublines[j].fg))
  }

  function Formatted(sublines: seq<Line>): seq<Line> {
    Detached(Marked(sublines))
  }

  /** `_format_sublines`: prefixes each line, then removes the detached pipes. */
  method FormatSublines(sublines: seq<Line>) returns (lines: seq<Line>)
    ensures lines == Formatted(sublines)
  {
    var marked: seq<Line> := [];
    for j := 0 to |sublines|
      invariant marked == Marked(sublines)[..j]
    {
      var content := sublines[j].content;
      var prefix: string;
      if IsChildForCurrentDirectory(content) {
        prefix := [BranchLeft, Indent];
        if j == |sublines| - 1 {
          prefix := [CornerBottomLeft, Indent];
        }
      } else {
        prefix := [Pipe, Space];
      }
      marked := marked + [Line(prefix + content, sublines[j].fg)];
    }
    assert Marked(sublines)[..|sublines|] == Marked(sublines);
    lines := RemoveDetachedPipes(marked);
  }

  /**
   * What `_format_sublines` made of subline `s`: the colour is kept, and the
   * content follows a two-character prefix that is `├─` for a head line,
   * `└─` for a head line that is the last line, and `│ ` or `  ` otherwise.
   */
  predicate PrefixedAs(f: Line, s: Line, isLast: bool) {
    f.fg == s.fg && |f.content| == |s.content| + 2 && f.content[2..] == s.content &&
    (IsChildForCurrentDirectory(s.content) ==>
      f.content[..2] == (if isLast then [CornerBottomLeft, Indent] else [BranchLeft, Indent])) &&
    (!IsChildForCurrentDirectory(s.content) ==>
      f.content[..2] == [Pipe, Space] || f.content[..2] == [Space, Space])
  }

  /** `_format_sublines` keeps the number of lines and prefixes each as `PrefixedAs` says. */
  lemma FormattedShape(sublines: seq<Line>)
    ensures |Formatted(sublines)| == |sublines|
    ensures forall j :: 0 <= j < |sublines| ==> PrefixedAs(Formatted(sublines)[j], sublines[j], j == |sublines| - 1)
  {
    DetachedShape(Marked(sublines));
    forall j | 0 <= j < |sublines|
      ensures PrefixedAs(Formatted(sublines)[j], sublines[j], j == |sublines| - 1)
    {
      FormattedAt(sublines, j);
    }
  }

  lemma FormattedAt(sublines: seq<Line>, j: nat)
    requires j < |sublines|
    ensures |Formatted(sublines)| == |sublines|
    ensures PrefixedAs(Formatted(sublines)[j], sublines[j], j == |sublines| - 1)
  {
    var m := Marked(sublines);
    DetachedShape(m);
    var k := PipeRunStart(m);
    var s := sublines[j];
    var p := BranchPrefix(s.content, j == |sublines| - 1);
    assert m[j] == Line(p + s.content, s.fg);
    assert (p + s.content)[2..] == s.content && (p + s.content)[..2] == p;
    if j < k {
      assert Formatted(sublines)[..k][j] == m[..k][j];
      assert Formatted(sublines)[j] == m[j];
    } else {
      var f := Formatted(sublines)[j];
      assert f == Unpipe(m[j]);
      assert p == [Pipe, Space];
      assert f.content == [Space, Space] + s.content;
    }
  }

  /** No formatted subline reads as a head line of the directory being listed. */
  lemma FormattedNoHeads(sublines: seq<Line>)
    ensures forall f :: f in Formatted(sublines) ==> !IsChildForCurrentDirectory(f.content)
  {
    FormattedShape(sublines);
    forall f | f in Formatted(sublines)
      ensures !IsChildForCurrentDirectory(f.content)
    {
      var j :| 0 <= j < |Formatted(sublines)| && Formatted(sublines)[j] == f;
      assert f.content[0] == f.content[..2][0];
    }
  }

  // ---- _print_structure ----

  /** The head line of an entry and the formatted listing below it. */
  function Block(entry: Node, sub: seq<Line>): seq<Line> {
    match entry
    case File(name) => [Line([Indent] + name, White)]
    case Dir(name, _) => [Line([if sub == [] then Indent else BranchTop] + name, Blue)] + Formatted(sub)
  }

  /** The lines `_print_structure` returns for `node` at `depth`. */
  function Listing(node: Node, depth: nat, cfg: Settings): seq<Line>
    decreases node, 1
  {
    if depth > cfg.maxDepth > 0 then []
    else
      match node
      case File(name) => [Line([Indent] + name, White)]
      case Dir(_, contents) => Entries(node, FilteredContents(contents, cfg.showHidden), depth, cfg)
  }

  /** The blocks of `entries`, a part of the listing of `parent`, in order. */
  function Entries(parent: Node, entries: seq<Node>, depth: nat, cfg: Settings): seq<Line>
    requires parent.Dir? && forall e :: e in entries ==> e in parent.contents
    decreases parent, 0, |entries|
  {
    if entries == [] then []
    else
      var e := entries[|entries| - 1];
      assert e in parent.contents;
      Entries(parent, entries[..|entries| - 1], depth, cfg) + Block(e, SubListing(parent, e, depth, cfg))
  }

  /** The listing one level down, below the head line of a directory entry. */
  function SubListing(parent: Node, e: Node, depth: nat, cfg: Settings): seq<Line>
    requires parent.Dir? && e in parent.contents
    decreases parent, 0, 0
  {
    if e.Dir? then Listing(e, depth + 1, cfg) else []
  }

  lemma EntriesLast(parent: Node, entries: seq<Node>, i: nat, depth: nat, cfg: Settings)
    requires parent.Dir? && forall e :: e in entries ==> e in parent.contents
    requires i < |entries|
    ensures entries[i] in parent.contents
    ensures Entries(parent, entries[..i + 1], depth, cfg)
         == Entries(parent, entries[..i], depth, cfg) + Block(entries[i], SubListing(parent, entries[i], depth, cfg))
  {
    assert entries[i] in entries;
    assert entries[..i + 1][..i] == entries[..i];
  }

  lemma BlockCases(parent: Node, e: Node, depth: nat, cfg: Settings)
    requires parent.Dir? && e in parent.contents
    ensures e.File? ==> Block(e, SubListing(parent, e, depth, cfg)) == [Line([Indent] + e.name, White)]
    ensures e.Dir? ==> Structure(e, depth + 1, cfg) == Success(SubListing(parent, e, depth, cfg))
    ensures e.Dir? ==> var sub := SubListing(parent, e, depth, cfg);
      Block(e, sub) == [Line([if |sub| > 0 then BranchTop else Indent] + e.name, Blue)] + Formatted(sub)
  {
  }

  /** `_print_structure(path, depth)`, failing for a file given as the root. */
  function Structure(node: Node, depth: nat, cfg: Settings): Result<seq<Line>, TreeError> {
    if depth == 0 && node.File? then Failure(NotADirectory) else Success(Listing(node, depth, cfg))
  }

  lemma StructureCases(node: Node, depth: nat, cfg: Settings)
    ensures depth > cfg.maxDepth > 0 ==> Structure(node, depth, cfg) == Success([])
    ensures !(depth > cfg.maxDepth > 0) && node.File? ==>
      Structure(node, depth, cfg) == if depth == 0 then Failure(NotADirectory) else Success([Line([Indent] + node.name, White)])
    ensures !(depth > cfg.maxDepth > 0) && node.Dir? ==>
      Structure(node, depth, cfg) == Success(Entries(node, FilteredContents(node.contents, cfg.showHidden), depth, cfg))
    ensures node.Dir? && FilteredContents(node.contents, cfg.showHidden) == [] ==>
      Entries(node, FilteredContents(node.contents, cfg.showHidden), depth, cfg) == []
  {
  }

  method PrintStructure(node: Node, depth: nat, cfg: Settings) returns (r: Result<seq<Line>, TreeError>)
    ensures r == Structure(node, depth, cfg)
    decreases node
  {
    StructureCases(node, depth, cfg);
    if depth > cfg.maxDepth > 0 {
      return Success([]);
    }
    if node.File? {
      if depth == 0 {
        return Failure(NotADirectory);
      }
      return Success([Line([Indent] + node.name, White)]);
    }
    var contents := FilteredContents(node.contents, cfg.showHidden);
    if |contents| == 0 {
      return Success([]);
    }
    var lines: seq<Line> := [];
    for i := 0 to |contents|
      invariant lines == Entries(node, contents[..i], depth, cfg)
    {
      var content := contents[i];
      EntriesLast(node, contents, i, depth, cfg);
      var prefix := Indent;
      var fg := White;
      var block: seq<Line>;
      if content.Dir? {
        fg := Blue;
        var sub := PrintStructure(content, depth + 1, cfg);
        var sublines := sub.value;
        if |sublines| > 0 {
          prefix := BranchTop;
        }
        var formatted := FormatSublines(sublines);
        block := [Line([prefix] + content.name, fg)] + formatted;
      } else {
        block := [Line([prefix] + content.name, fg)];
      }
      BlockCases(node, content, depth, cfg);
      lines := lines + block;
    }
    assert contents[..|contents|] == contents;
    return Success(lines);
  }

  // ---- Properties of the listing ----

  /** The names of the head lines, in order. */
  function HeadNames(lines: seq<Line>): seq<string> {
    if lines == [] then []
    else
      var last := lines[|lines| - 1];
      HeadNames(lines[..|lines| - 1]) + (if IsChildForCurrentDirectory(last.content) then [last.content[1..]] else [])
  }

  function Names(entries: seq<Node>): seq<string> {
    seq(|entries|, i requires 0 <= i < |entries| => entries[i].name)
  }

  lemma {:induction false} HeadNamesAppend(a: seq<Line>, b: seq<Line>)
    ensures HeadNames(a + b) == HeadNames(a) + HeadNames(b)
    decreases |b|
  {
    if b == [] {
      assert a + b == a;
    } else {
      var b' := b[..|b| - 1];
      assert (a + b)[..|a + b| - 1] == a + b';
      HeadNamesAppend(a, b');
    }
  }

  lemma {:induction false} HeadNamesNone(lines: seq<Line>)
    requires forall l :: l in lines ==> !IsChildForCurrentDirectory(l.content)
    ensures HeadNames(lines) == []
  {
    if lines != [] {
      assert lines[|lines| - 1] in lines;
      HeadNamesNone(lines[..|lines| - 1]);
    }
  }

  /** A block holds one head line: the entry's own. */
  lemma BlockHeads(e: Node, sub: seq<Line>)
    ensures HeadNames(Block(e, sub)) == [e.name]
  {
    var head := Block(e, sub)[0];
    assert IsChildForCurrentDirectory(head.content) && head.content[1..] == e.name;
    assert HeadNames([head]) == [e.name] by {
      assert [head][..0] == [];
    }
    if e.Dir? {
      FormattedNoHeads(sub);
      HeadNamesNone(Formatted(sub));
      HeadNamesAppend([head], Formatted(sub));
    } else {
      assert Block(e, sub) == [head];
    }
  }

  lemma {:induction false} EntriesHeads(parent: Node, entries: seq<Node>, depth: nat, cfg: Settings)
    requires parent.Dir? && forall e :: e in entries ==> e in parent.contents
    ensures HeadNames(Entries(parent, entries, depth, cfg)) == Names(entries)
    decreases |entries|
  {
    if entries == [] {
      assert Names(entries) == [];
    } else {
      var init := entries[..|entries| - 1];
      var e := entries[|entries| - 1];
      assert e in entries;
      var sub := SubListing(parent, e, depth, cfg);
      var a := Entries(parent, init, depth, cfg);
      assert Entries(parent, entries, depth, cfg) == a + Block(e, sub);
      EntriesHeads(parent, init, depth, cfg);
      HeadNamesAppend(a, Block(e, sub));
      BlockHeads(e, sub);
      NamesSnoc(entries);
    }
  }

  lemma NamesSnoc(entries: seq<Node>)
    requires entries != []
    ensures Names(entries) == Names(entries[..|entries| - 1]) + [entries[|entries| - 1].name]
  {
  }

  /**
   * Each shown entry of a directory gives exactly one head line, in listing
   * order; the lines below a head line never read as head lines.
   */
  lemma ListingHeads(node: Node, depth: nat, cfg: Settings)
    requires node.Dir? && !(depth > cfg.maxDepth > 0)
    ensures HeadNames(Listing(node, depth, cfg)) == Names(FilteredContents(node.contents, cfg.showHidden))
  {
    EntriesHeads(node, FilteredContents(node.contents, cfg.showHidden), depth, cfg);
  }

  /** Past `max_depth` nothing is listed, unless `max_depth` is 0 or less, which means no limit. */
  lemma ListingDepthLimit(node: Node, depth: nat, cfg: Settings)
    ensures depth > cfg.maxDepth > 0 ==> Listing(node, depth, cfg) == []
    ensures Listing(node, depth, cfg) == [] <==>
      depth > cfg.maxDepth > 0 || (node.Dir? && FilteredContents(node.contents, cfg.showHidden) == [])
  {
    if node.Dir? && !(depth > cfg.maxDepth > 0) {
      var shown := FilteredContents(node.contents, cfg.showHidden);
      ListingHeads(node, depth, cfg);
      if Listing(node, depth, cfg) == [] {
        assert |Names(shown)| == 0;
      }
    }
  }
}
