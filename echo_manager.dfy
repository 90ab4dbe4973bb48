/**
 * The echo helpers of utils/echoutils/echo_manager.py: `EchoManager`, which
 * decides the prefix, colours and line ending of each printed message, and
 * `EchoStatment`, a builder that prints a message and its attachments on one
 * line.
 *
 * What `click.echo` would print is returned as a list of `Echoed` records,
 * each the text, whether a newline follows it, and the resolved style.
 */
module Echo {
  import opened Wrappers

  /** The style `click.style` is given. */
  datatype Style = Style(fg: string, bg: string, bold: bool, underline: bool)

  /** One `click.echo` call: the text, whether it ends the line, and its style. */
  datatype Echoed = Echoed(text: string, nl: bool, style: Style)

  /** What one record puts on the terminal, without the colour codes. */
  function Shown(r: Echoed): string {
    r.text + (if r.nl then "\n" else "")
  }

  /** What the records put on the terminal, in order. */
  function Output(records: seq<Echoed>): string {
    if records == [] then []
    else Output(records[..|records| - 1]) + Shown(records[|records| - 1])
  }

  lemma {:induction false} OutputAppend(a: seq<Echoed>, b: seq<Echoed>)
    ensures Output(a + b) == Output(a) + Output(b)
    decreases |b|
  {
    if b == [] {
      assert a + b == a;
    } else {
      var b' := b[..|b| - 1];
      assert (a + b)[..|a + b| - 1] == a + b';
      OutputAppend(a, b');
    }
  }

  lemma OutputOne(r: Echoed)
    ensures Output([r]) == Shown(r)
  {
    assert [r][..0] == [];
  }

  /** The fields of the `EchoManager` dataclass. */
  datatype Manager = Manager(
    showPrefix: bool, prefix: string, nl: bool, fg: string, bg: string,
    bold: bool, underline: bool, sepLength: int, sepChar: string, title: string)

  /** The module's `echo = EchoManager()`, with the dataclass defaults. */
  const Default: Manager := Manager(true, ">>", true, "yellow", "reset", false, false, 60, "=", "Message:")

  /** Python's `a or b` for an optional string: `None` and `''` give `b`. */
  function OrElse(a: Option<string>, b: string): (r: string)
    ensures a.Some? && a.value != "" ==> r == a.value
    ensures a.None? || a.value == "" ==> r == b
  {
    if a.None? || a.value == "" then b else a.value
  }

  /** `s * n`: `s` repeated `n` times, nothing for `n <= 0`. */
  function Repeat(s: string, n: int): string
    decreases n
  {
    if n <= 0 then [] else Repeat(s, n - 1) + s
  }

  lemma {:induction false} RepeatChar(c: char, n: int)
    ensures |Repeat([c], n)| == (if n <= 0 then 0 else n)
    ensures forall i :: 0 <= i < |Repeat([c], n)| ==> Repeat([c], n)[i] == c
    decreases n
  {
    if n > 0 {
      RepeatChar(c, n - 1);
    }
  }

  /**
   * `_get_prefix(prefix, show_prefix)`: the prefix and a space, or nothing.
   * An explicit `show_prefix` decides; `None` defers to the manager's flag.
   * An empty or missing prefix falls back to the manager's prefix.
   */
  function GetPrefix(m: Manager, prefix: Option<string>, showPrefix: Option<bool>): (r: string)
    ensures r == "" || r == OrElse(prefix, m.prefix) + " "
    ensures r != "" <==> showPrefix == Some(true) || (showPrefix.None? && m.showPrefix)
  {
    if showPrefix.None? && m.showPrefix then OrElse(prefix, m.prefix) + " "
    else if showPrefix == Some(true) then OrElse(prefix, m.prefix) + " "
    else ""
  }

  /** The cases `tests/test_echo_manager.py` checks, and the fallback of an empty prefix. */
  lemma GetPrefixExamples(prefix: Option<string>, showPrefix: Option<bool>)
    ensures GetPrefix(Default, None, None) == ">> "
    ensures GetPrefix(Default, None, Some(false)) == ""
    ensures GetPrefix(Default, Some("ppp"), None) == "ppp "
    ensures GetPrefix(Default.(showPrefix := false), None, Some(true)) == ">> "
    ensures GetPrefix(Default.(showPrefix := false), prefix, None) == ""
    ensures GetPrefix(Default, Some(""), showPrefix) == GetPrefix(Default, None, showPrefix)
  {
  }

  /** The style `__echo` resolves: missing or empty colours and missing flags come from the manager. */
  function Resolve(m: Manager, fg: Option<string>, bg: Option<string>, bold: Option<bool>, underline: Option<bool>): Style {
    Style(OrElse(fg, m.fg), OrElse(bg, m.bg),
      if bold.Some? then bold.value else m.bold,
      if underline.Some? then underline.value else m.underline)
  }

  /** `__echo` for a message that is not `None`. */
  function Say(m: Manager, msg: string, fg: Option<string>, bg: Option<string>, prefix: Option<string>,
               showPrefix: Option<bool>, bold: Option<bool>, underline: Option<bool>, nl: Option<bool>): (r: Echoed)
    ensures |GetPrefix(m, prefix, showPrefix)| <= |r.text|
    ensures r.text[..|GetPrefix(m, prefix, showPrefix)|] == GetPrefix(m, prefix, showPrefix)
    ensures r.text[|GetPrefix(m, prefix, showPrefix)|..] == msg
    ensures r.style == Resolve(m, fg, bg, bold, underline)
    ensures nl.Some? ==> r.nl == nl.value
    ensures nl.None? ==> r.nl == m.nl
  {
    Echoed(GetPrefix(m, prefix, showPrefix) + msg, if nl.Some? then nl.value else m.nl, Resolve(m, fg, bg, bold, underline))
  }

  /** `print_sep(length, separator)`: a zero or missing length and an empty or missing separator take the defaults. */
  function Separator(m: Manager, length: Option<int>, sep: Option<string>): (r: Echoed)
    ensures r.text == Repeat(OrElse(sep, m.sepChar), if length.None? || length.value == 0 then m.sepLength else length.value)
    ensures r.nl == m.nl && r.style == Resolve(m, None, None, None, None)
  {
    var n := if length.None? || length.value == 0 then m.sepLength else length.value;
    Say(m, Repeat(OrElse(sep, m.sepChar), n), None, None, None, Some(false), None, None, None)
  }

  /** `print_sep()` prints 60 `=`; `print_sep(20, '*')` prints 20 `*`; both end the line. */
  lemma SeparatorExamples()
    ensures Output([Separator(Default, None, None)]) == seq(60, _ => '=') + "\n"
    ensures Output([Separator(Default, Some(20), Some("*"))]) == seq(20, _ => '*') + "\n"
  {
    RepeatChar('=', 60);
    RepeatChar('*', 20);
    assert Repeat("=", 60) == seq(60, _ => '=');
    assert Repeat("*", 20) == seq(20, _ => '*');
    assert [Separator(Default, None, None)][..0] == [];
    assert [Separator(Default, Some(20), Some("*"))][..0] == [];
  }

  /**
   * `__echo(msg, ...)` and so `echo(msg, ...)`: no message prints the
   * separator; otherwise the prefix `_get_prefix` decides comes before the
   * message.
   */
  function EchoLine(m: Manager, msg: Option<string>, fg: Option<string>, bg: Option<string>, prefix: Option<string>,
                    showPrefix: Option<bool>, bold: Option<bool>, underline: Option<bool>, nl: Option<bool>): (r: Echoed)
    ensures msg.None? ==> r == Separator(m, None, None)
    ensures msg.Some? ==> r.text == GetPrefix(m, prefix, showPrefix) + msg.value
  {
    if msg.None? then Separator(m, None, None)
    else Say(m, msg.value, fg, bg, prefix, showPrefix, bold, underline, nl)
  }

  /** `echo('test')` prints `>> test` and ends the line. */
  lemma EchoLineExample()
    ensures Output([EchoLine(Default, Some("test"), None, None, None, None, None, None, None)]) == ">> test\n"
  {
    var r := EchoLine(Default, Some("test"), None, None, None, None, None, None, None);
    assert [r][..0] == [];
  }

  /** `print_title(title)`: the title without prefix, then the separator. */
  function Title(m: Manager, title: Option<string>): (rs: seq<Echoed>)
    ensures |rs| == 2 && rs[0].text == OrElse(title, m.title) && rs[1] == Separator(m, None, None)
  {
    [EchoLine(m, Some(OrElse(title, m.title)), None, None, None, Some(false), None, None, None), EchoLine(m, None, None, None, None, None, None, None, None)]
  }

  /** `done()`: `Done!` without prefix. */
  function Done(m: Manager): (r: Echoed)
    ensures r.text == "Done!" && r.nl == m.nl
  {
    EchoLine(m, Some("Done!"), None, None, None, Some(false), None, None, None)
  }

  /** The colour names of the style properties. */
  datatype Color = White | Cyan | Magenta | Green | Red | Yellow | Blue | Black

  function ColorName(c: Color): string {
    match c
    case White => "white"
    case Cyan => "cyan"
    case Magenta => "magenta"
    case Green => "green"
    case Red => "red"
    case Yellow => "yellow"
    case Blue => "blue"
    case Black => "black"
  }

  /** `end` on a statement without attachments fails at `self.__attachs[-1]`. */
  datatype EndError = IndexError

  /** Python truthiness of the statement's prefix, which `_echo` passes as `show_prefix`. */
  function ShowOf(prefix: Option<string>): Option<bool> {
    if prefix.None? then None else Some(prefix.value != "")
  }

  /**
   * `EchoStatment`: a message with its style and the statements attached
   * to it.  `Repr` is the statement and everything reachable through its
   * attachments; `Valid` rules out a statement attached, directly or not,
   * to itself.
   */
  class Statement {
    var msg: string
    var fg: Option<string>
    var bg: Option<string>
    var bold: bool
    var underline: bool
    var nl: bool
    var prefix: Option<string>
    var attachs: seq<Statement>
    ghost var Repr: set<Statement>

    ghost predicate Valid()
      reads this`attachs, this`Repr, Repr`attachs, Repr`Repr
      decreases Repr
    {
      this in Repr &&
      forall s :: s in attachs ==> s in Repr && s.Repr <= Repr && this !in s.Repr && s.Valid()
    }

    /** `EchoStatment(msg)` with every other field at its default. */
    constructor (msg: string)
      ensures Valid() && Repr == {this}
      ensures this.msg == msg && fg == None && bg == None && !bold && !underline && !nl
      ensures prefix == Some("") && attachs == []
    {
      this.msg := msg;
      fg := None;
      bg := None;
      bold := false;
      underline := false;
      nl := false;
      prefix := Some("");
      attachs := [];
      Repr := {this};
    }

    /** The style `_echo` gives this statement: missing or empty colours come from the manager. */
    function StyleOf(m: Manager): Style
      reads this`fg, this`bg, this`bold, this`underline
    {
      Style(OrElse(fg, m.fg), OrElse(bg, m.bg), bold, underline)
    }

    /** The record `_echo` prints for this statement alone. */
    function Record(m: Manager): (r: Echoed)
      reads this
      ensures r.text == GetPrefix(m, prefix, ShowOf(prefix)) + msg && r.nl == nl
      ensures r.style == StyleOf(m)
    {
      EchoLine(m, Some(msg), fg, bg, prefix, ShowOf(prefix), Some(bold), Some(underline), Some(nl))
    }

    /** What `_echo` prints: this statement, then each attachment with its own attachments, in order. */
    function Emitted(m: Manager): seq<Echoed>
      reads this, Repr
      requires Valid()
      decreases Repr, 1
    {
      [Record(m)] + EmittedAttachs(m, |attachs|)
    }

    /** What the first `n` attachments print. */
    function EmittedAttachs(m: Manager, n: nat): seq<Echoed>
      reads this, Repr
      requires Valid() && n <= |attachs|
      decreases Repr, 0, n
    {
      if n == 0 then []
      else
        var s := attachs[n - 1];
        EmittedAttachs(m, n - 1) + s.Emitted(m)
    }

    /** `_echo()`: prints this statement and then its attachments, depth first. */
    method Print(m: Manager) returns (out: seq<Echoed>)
      requires Valid()
      ensures out == Emitted(m)
      decreases Repr
    {
      out := [EchoLine(m, Some(msg), fg, bg, prefix, ShowOf(prefix), Some(bold), Some(underline), Some(nl))];
      for i := 0 to |attachs|
        invariant out == [Record(m)] + EmittedAttachs(m, i)
      {
        var s := attachs[i];
        var more := s.Print(m);
        out := out + more;
      }
    }

    /** The printing of a statement without attachments, with one, and with two. */
    lemma EmittedSmall(m: Manager)
      requires Valid() && |attachs| <= 2
      ensures attachs == [] ==> Emitted(m) == [Record(m)]
      ensures |attachs| == 1 ==> Emitted(m) == [Record(m)] + attachs[0].Emitted(m)
      ensures |attachs| == 2 ==> Emitted(m) == [Record(m)] + attachs[0].Emitted(m) + attachs[1].Emitted(m)
    {
      if |attachs| > 0 {
        assert EmittedAttachs(m, 1) == attachs[0].Emitted(m);
      }
    }

    /** The same, as the text put on the terminal. */
    lemma PrintedSmall(m: Manager)
      requires Valid() && |attachs| <= 2
      ensures attachs == [] ==> Output(Emitted(m)) == Shown(Record(m))
      ensures |attachs| == 1 ==> Output(Emitted(m)) == Shown(Record(m)) + Output(attachs[0].Emitted(m))
      ensures |attachs| == 2 ==>
        Output(Emitted(m)) == Shown(Record(m)) + Output(attachs[0].Emitted(m)) + Output(attachs[1].Emitted(m))
    {
      EmittedSmall(m);
      OutputOne(Record(m));
      if |attachs| > 0 {
        OutputAppend([Record(m)], attachs[0].Emitted(m));
      }
      if |attachs| == 2 {
        OutputAppend([Record(m)] + attachs[0].Emitted(m), attachs[1].Emitted(m));
      }
    }

    /** The text a statement with two attachments of its own prints, when those have none. */
    lemma PrintedTwoLeaves(m: Manager)
      requires Valid() && |attachs| == 2 && attachs[0].attachs == [] && attachs[1].attachs == []
      ensures Output(Emitted(m)) == Shown(Record(m)) + Shown(attachs[0].Record(m)) + Shown(attachs[1].Record(m))
    {
      PrintedSmall(m);
      attachs[0].PrintedSmall(m);
      attachs[1].PrintedSmall(m);
    }

    /** The same when the first attachment has one attachment of its own and the second none. */
    lemma PrintedNested(m: Manager)
      requires Valid() && |attachs| == 2 && |attachs[0].attachs| == 1
      requires attachs[0].attachs[0].attachs == [] && attachs[1].attachs == []
      ensures Output(Emitted(m)) ==
        Shown(Record(m)) + (Shown(attachs[0].Record(m)) + Shown(attachs[0].attachs[0].Record(m))) + Shown(attachs[1].Record(m))
    {
      PrintedSmall(m);
      attachs[0].PrintedSmall(m);
      attachs[0].attachs[0].PrintedSmall(m);
      attachs[1].PrintedSmall(m);
    }

    /** Pre-order, for any number of attachments: the statement's own text comes first, then what its attachments print. */
    lemma PrintedFirst(m: Manager)
      requires Valid()
      ensures Output(Emitted(m)) == Shown(Record(m)) + Output(EmittedAttachs(m, |attachs|))
    {
      OutputOne(Record(m));
      OutputAppend([Record(m)], EmittedAttachs(m, |attachs|));
    }

    /** Each attachment prints, with all of its own attachments, after the attachments before it. */
    lemma PrintedAttachs(m: Manager, n: nat)
      requires Valid() && 0 < n <= |attachs|
      ensures Output(EmittedAttachs(m, n)) == Output(EmittedAttachs(m, n - 1)) + Output(attachs[n - 1].Emitted(m))
    {
      OutputAppend(EmittedAttachs(m, n - 1), attachs[n - 1].Emitted(m));
    }

    /** `prefix(prefix)`. */
    method SetPrefix(p: Option<string>) returns (r: Statement)
      modifies this`prefix
      ensures r == this && prefix == p
    {
      prefix := p;
      r := this;
    }

    /** `add(stmt)` for a statement: attaches exactly `stmt`, last. */
    method Add(stmt: Statement) returns (r: Statement)
      requires Valid() && stmt.Valid() && this !in stmt.Repr
      modifies this`attachs, this`Repr
      ensures r == this && Valid()
      ensures attachs == old(attachs) + [stmt] && Repr == old(Repr) + stmt.Repr
    {
      attachs := attachs + [stmt];
      Repr := Repr + stmt.Repr;
      r := this;
    }

    /** `add(text)` for a string: attaches a new default-styled statement holding `text`. */
    method AddText(text: string) returns (r: Statement)
      requires Valid()
      modifies this`attachs, this`Repr
      ensures r == this && Valid()
      ensures |attachs| == |old(attachs)| + 1 && attachs[..|old(attachs)|] == old(attachs)
      ensures var s := attachs[|attachs| - 1];
        fresh(s) && s.msg == text && s.fg == None && s.bg == None && !s.bold && !s.underline && !s.nl &&
        s.prefix == Some("") && s.attachs == [] && Repr == old(Repr) + {s}
    {
      var s := new Statement(text);
      r := Add(s);
      assert attachs[..|old(attachs)|] == old(attachs);
    }

    /** The `bold` property. */
    method Bold() returns (r: Statement)
      modifies this`bold
      ensures r == this && bold
    {
      bold := true;
      r := this;
    }

    /** The `underline` property. */
    method Underline() returns (r: Statement)
      modifies this`underline
      ensures r == this && underline
    {
      underline := true;
      r := this;
    }

    /** The foreground properties `white`, `cyan`, `magenta`, `green`, `red`, `yellow`, `blue`, `black`. */
    method Foreground(c: Color) returns (r: Statement)
      modifies this`fg
      ensures r == this && fg == Some(ColorName(c))
    {
      fg := Some(ColorName(c));
      r := this;
    }

    /** The background properties `white_bg`, `cyan_bg`, and so on. */
    method Background(c: Color) returns (r: Statement)
      modifies this`bg
      ensures r == this && bg == Some(ColorName(c))
    {
      bg := Some(ColorName(c));
      r := this;
    }

    /**
     * `end(with_prefix=p)`: sets this statement's prefix, makes the last
     * attachment end the line, and prints everything.  Without attachments
     * it fails after setting the prefix.
     */
    method End(m: Manager, withPrefix: Option<string>) returns (r: Result<seq<Echoed>, EndError>)
      requires Valid()
      modifies this`prefix, Repr`nl
      ensures Valid() && prefix == withPrefix
      ensures old(attachs) == [] ==> r == Failure(IndexError) && forall s :: s in Repr ==> s.nl == old(s.nl)
      ensures old(attachs) != [] ==>
        var last := attachs[|attachs| - 1];
        last.nl && (forall s :: s in Repr && s != last ==> s.nl == old(s.nl)) &&
        r == Success(Emitted(m))
    {
      var _ := SetPrefix(withPrefix);
      if |attachs| == 0 {
        return Failure(IndexError);
      }
      var last := attachs[|attachs| - 1];
      last.nl := true;
      var out := Print(m);
      assert Valid();
      r := Success(out);
    }
  }

  lemma PrefixTexts()
    ensures GetPrefix(Default, Some(">>"), ShowOf(Some(">>"))) == ">> "
    ensures GetPrefix(Default, Some(""), ShowOf(Some(""))) == ""
  {
  }

  /** `es('aaa').add('bbb').add(es('ccc'))`: the statements before `end`. */
  method ThreeStatements() returns (a: Statement, b: Statement, c: Statement)
    ensures fresh(a.Repr) && a.Valid() && a.Repr == {a, b, c}
    ensures a.attachs == [b, c] && b.attachs == [] && c.attachs == []
    ensures a.msg == "aaa" && !a.nl && a.fg == None && a.bg == None && !a.bold && !a.underline
    ensures b.msg == "bbb" && b.prefix == Some("") && !b.nl && b.fg == None && b.bg == None && !b.bold && !b.underline
    ensures c.msg == "ccc" && c.prefix == Some("") && !c.nl && c.fg == None && c.bg == None && !c.bold && !c.underline
  {
    a := new Statement("aaa");
    var _ := a.AddText("bbb");
    b := a.attachs[0];
    c := new Statement("ccc");
    var _ := a.Add(c);
  }

  /** Ending those statements with the prefix `>>` prints `>> aaabbbccc` and a newline. */
  method EndExample() returns (out: string)
    ensures out == ">> aaabbbccc\n"
  {
    var a, b, c := ThreeStatements();
    var r := a.End(Default, Some(">>"));
    assert a.prefix == Some(">>") && !a.nl && !b.nl && c.nl;
    a.PrintedTwoLeaves(Default);
    PrefixTexts();
    assert Shown(a.Record(Default)) == ">> " + "aaa" + "";
    assert Shown(b.Record(Default)) == "" + "bbb" + "";
    assert Shown(c.Record(Default)) == "" + "ccc" + "\n";
    JoinThree(Shown(a.Record(Default)), Shown(b.Record(Default)), Shown(c.Record(Default)));
    out := Output(r.value);
  }

  lemma JoinThree(x: string, y: string, z: string)
    requires x == ">> " + "aaa" + "" && y == "" + "bbb" + "" && z == "" + "ccc" + "\n"
    ensures x + y + z == ">> aaabbbccc\n"
  {
  }

  /** The styles of the statements below, resolved against the default manager. */
  lemma StyledLooks(a: Statement, b: Statement, c: Statement, d: Statement)
    requires a.fg == Some("cyan") && a.bg == None && a.bold && !a.underline
    requires b.fg == Some("magenta") && b.bg == None && !b.bold && b.underline
    requires c.fg == None && c.bg == None && !c.bold && !c.underline
    requires d.fg == Some("white") && d.bg == Some("red") && !d.bold && !d.underline
    ensures Looks(a, b, c, d) == StyledLooksExpected
  {
  }

  /** The styles four statements resolve to against the default manager. */
  function Looks(a: Statement, b: Statement, c: Statement, d: Statement): seq<Style>
    reads a`fg, a`bg, a`bold, a`underline, b`fg, b`bg, b`bold, b`underline
    reads c`fg, c`bg, c`bold, c`underline, d`fg, d`bg, d`bold, d`underline
  {
    [a.StyleOf(Default), b.StyleOf(Default), c.StyleOf(Default), d.StyleOf(Default)]
  }

  const StyledLooksExpected: seq<Style> := [
    Style("cyan", "reset", true, false), Style("magenta", "reset", false, true),
    Style("yellow", "reset", false, false), Style("white", "red", false, false)]

  lemma JoinFour(w: Echoed, x: Echoed, y: Echoed, z: Echoed)
    requires w.text == GetPrefix(Default, Some(">>"), ShowOf(Some(">>"))) + "test " && !w.nl
    requires x.text == GetPrefix(Default, Some(""), ShowOf(Some(""))) + "stmt" && !x.nl
    requires y.text == GetPrefix(Default, Some(""), ShowOf(Some(""))) + " " && !y.nl
    requires z.text == GetPrefix(Default, Some(""), ShowOf(Some(""))) + "text" && z.nl
    ensures Shown(w) + (Shown(x) + Shown(y)) + Shown(z) == ">> test stmt text\n"
  {
    PrefixTexts();
    assert Shown(w) == ">> " + "test ";
    assert Shown(x) + Shown(y) == "stmt" + " ";
    assert Shown(z) == "text" + "\n";
  }

  /**
   * `es('test ').cyan.bold.add(es('stmt').magenta.underline.add(' ')).add(es('text').white.red_bg)`:
   * the statements before `end`.
   */
  method StyledStatements() returns (a: Statement, b: Statement, c: Statement, d: Statement)
    ensures fresh(a.Repr) && a.Valid() && a.Repr == {a, b, c, d}
    ensures a.attachs == [b, d] && b.attachs == [c] && c.attachs == [] && d.attachs == []
    ensures a.msg == "test " && !a.nl && a.fg == Some("cyan") && a.bg == None && a.bold && !a.underline
    ensures b.msg == "stmt" && b.prefix == Some("") && !b.nl && b.fg == Some("magenta") && b.bg == None && !b.bold && b.underline
    ensures c.msg == " " && c.prefix == Some("") && !c.nl && c.fg == None && c.bg == None && !c.bold && !c.underline
    ensures d.msg == "text" && d.prefix == Some("") && d.fg == Some("white") && d.bg == Some("red") && !d.bold && !d.underline
  {
    b, c := StyledInner();
    d := StyledLast();
    a := StyledHead();
    var _ := a.Add(b);
    var _ := a.Add(d);
  }

  /** `es('test ').cyan.bold`. */
  method StyledHead() returns (a: Statement)
    ensures fresh(a) && a.Valid() && a.Repr == {a} && a.attachs == []
    ensures a.msg == "test " && !a.nl && a.fg == Some("cyan") && a.bg == None && a.bold && !a.underline
  {
    a := new Statement("test ");
    var _ := a.Foreground(Cyan);
    var _ := a.Bold();
  }

  /** `es('text').white.red_bg`. */
  method StyledLast() returns (d: Statement)
    ensures fresh(d) && d.Valid() && d.Repr == {d} && d.attachs == []
    ensures d.msg == "text" && d.prefix == Some("") && d.fg == Some("white") && d.bg == Some("red") && !d.bold && !d.underline
  {
    d := new Statement("text");
    var _ := d.Foreground(White);
    var _ := d.Background(Red);
  }

  /** `es('stmt').magenta.underline.add(' ')`. */
  method StyledInner() returns (b: Statement, c: Statement)
    ensures fresh(b.Repr) && b.Valid() && b.Repr == {b, c} && b.attachs == [c] && c.attachs == []
    ensures b.msg == "stmt" && b.prefix == Some("") && !b.nl && b.fg == Some("magenta") && b.bg == None && !b.bold && b.underline
    ensures c.msg == " " && c.prefix == Some("") && !c.nl && c.fg == None && c.bg == None && !c.bold && !c.underline
    ensures c.Valid() && c.Repr == {c}
  {
    b := new Statement("stmt");
    var _ := b.Foreground(Magenta);
    var _ := b.Underline();
    var _ := b.AddText(" ");
    c := b.attachs[0];
  }

  /**
   * Ending the statements above with the prefix `>>` prints `>> test stmt text`
   * and a newline; `styles` are the styles the four pieces are printed in.
   */
  method StyledEndExample() returns (out: string, styles: seq<Style>)
    ensures out == ">> test stmt text\n"
    ensures styles == [Style("cyan", "reset", true, false), Style("magenta", "reset", false, true),
                       Style("yellow", "reset", false, false), Style("white", "red", false, false)]
  {
    var a, b, c, d := StyledStatements();
    StyledLooks(a, b, c, d);
    assert StyledShape(a, b, c, d);
    var r := a.End(Default, Some(">>"));
    StyledShown(a, b, c, d);
    styles := Looks(a, b, c, d);
    out := Output(r.value);
  }

  /** The messages, attachments and attachment prefixes of the statements above, which `end` keeps. */
  ghost predicate StyledShape(a: Statement, b: Statement, c: Statement, d: Statement)
    reads a`msg, a`attachs, b`msg, b`attachs, b`prefix, c`msg, c`attachs, c`prefix, d`msg, d`attachs, d`prefix
  {
    a.attachs == [b, d] && b.attachs == [c] && c.attachs == [] && d.attachs == [] &&
    a.msg == "test " && b.msg == "stmt" && c.msg == " " && d.msg == "text" &&
    b.prefix == Some("") && c.prefix == Some("") && d.prefix == Some("")
  }

  /** What the statements above print once ended. */
  lemma StyledShown(a: Statement, b: Statement, c: Statement, d: Statement)
    requires a.Valid() && StyledShape(a, b, c, d)
    requires a.prefix == Some(">>") && !a.nl && !b.nl && !c.nl && d.nl
    ensures Output(a.Emitted(Default)) == ">> test stmt text\n"
  {
    a.PrintedNested(Default);
    JoinFour(a.Record(Default), b.Record(Default), c.Record(Default), d.Record(Default));
  }
}
