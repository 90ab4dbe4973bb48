/**
 * Display width and greedy line wrapping for terminals with a mono-space font
 * (utils/strutil.py).
 *
 * A character in the CJK Unified Ideographs block (U+4E00 to U+9FFF) occupies
 * two columns, every other character one.  `StrToLines` cuts a string into
 * lines no wider than a budget, moving a word that would be split across two
 * lines onto the second one.
 */
module StrUtil {
  import opened Wrappers

  // The single-line box-drawing characters of `TabChar`.
  const Indent: char := '─'
  const BranchLeft: char := '├'
  const BranchRight: char := '┤'
  const BranchTop: char := '┬'
  const BranchBottom: char := '┴'
  const Cross: char := '┼'
  const Pipe: char := '│'
  const CornerTopLeft: char := '┌'
  const CornerBottomLeft: char := '└'
  const CornerBottomRight: char := '┘'
  const CornerTopRight: char := '┐'
  const Space: char := ' '

  /** A CJK unified ideograph, drawn two columns wide. */
  predicate IsWide(c: char) {
    '\U{4E00}' <= c <= '\U{9FFF}'
  }

  function CharWidth(c: char): nat {
    if IsWide(c) then 2 else 1
  }

  /** The number of terminal columns `s` occupies. */
  function Width(s: string): nat {
    if s == [] then 0 else Width(s[..|s| - 1]) + CharWidth(s[|s| - 1])
  }

  function Min(a: int, b: int): int {
    if a <= b then a else b
  }

  /** Width is additive over concatenation. */
  lemma {:induction false} WidthAppend(a: string, b: string)
    ensures Width(a + b) == Width(a) + Width(b)
    decreases |b|
  {
    if b == [] {
      assert a + b == a;
    } else {
      var b' := b[..|b| - 1];
      assert (a + b)[..|a + b| - 1] == a + b';
      WidthAppend(a, b');
    }
  }

  /** Every character takes one or two columns. */
  lemma {:induction false} WidthBounds(s: string)
    ensures |s| <= Width(s) <= 2 * |s|
    ensures Width(s) == 0 <==> s == []
  {
    if s != [] {
      WidthBounds(s[..|s| - 1]);
    }
  }

  /** A prefix is never wider than the whole string. */
  lemma WidthPrefix(s: string, k: nat)
    requires k <= |s|
    ensures Width(s[..k]) <= Width(s)
  {
    assert s == s[..k] + s[k..];
    WidthAppend(s[..k], s[k..]);
  }

  /** Without wide characters the width is the length. */
  lemma {:induction false} NarrowWidth(s: string)
    requires forall i :: 0 <= i < |s| ==> !IsWide(s[i])
    ensures Width(s) == |s|
  {
    if s != [] {
      NarrowWidth(s[..|s| - 1]);
    }
  }

  lemma WidthExamples()
    ensures Width("中文") == 4
    ensures Width("中文word") == 8
  {
    assert "中文word" == "中文" + "word";
    WidthAppend("中文", "word");
    NarrowWidth("word");
  }

  /** `print_length`: counts the columns one character at a time. */
  method PrintLength(text: string) returns (count: nat)
    ensures count == Width(text)
  {
    count := 0;
    for i := 0 to |text|
      invariant count == Width(text[..i])
    {
      assert text[..i + 1][..i] == text[..i];
      if IsWide(text[i]) {
        count := count + 2;
      } else {
        count := count + 1;
      }
    }
    assert text[..|text|] == text;
  }

  /**
   * `is_last_word_break`: the last character of `line` and the first of
   * `newLine` are both letters and `line` holds a space to break at instead.
   * Python's `str.isalpha` is the parameter `isAlpha`.  An empty `line`
   * followed by text cannot be asked about: the source raises IndexError.
   */
  predicate IsLastWordBreak(line: string, newLine: string, isAlpha: char -> bool)
    requires newLine == [] || line != []
  {
    if |newLine| == 0 then false
    else isAlpha(line[|line| - 1]) && isAlpha(newLine[0]) && Space in line
  }

  /** The position of the last `c` in `s`: where `rsplit(c, 1)` cuts. */
  function LastIndexOf(s: string, c: char): (k: nat)
    requires c in s
    ensures k < |s| && s[k] == c
    ensures c !in s[k + 1..]
  {
    if s[|s| - 1] == c then |s| - 1
    else
      assert s == s[..|s| - 1] + [s[|s| - 1]];
      var k := LastIndexOf(s[..|s| - 1], c);
      assert s[k + 1..] == s[..|s| - 1][k + 1..] + [s[|s| - 1]];
      k
  }

  /**
   * The inner loop of `str_to_lines`: drop the last character of `t` until
   * it fits in `w` columns.  The result is the longest prefix of `t` that fits.
   */
  function Fit(t: string, w: int): (r: string)
    requires w >= 0
    ensures r <= t && Width(r) <= w
    ensures forall k :: |r| < k <= |t| ==> Width(t[..k]) > w
    decreases |t|
  {
    if Width(t) <= w then t
    else
      var t' := t[..|t| - 1];
      assert t[..|t|] == t;
      assert forall k :: 0 <= k <= |t'| ==> t'[..k] == t[..k];
      Fit(t', w)
  }

  /**
   * `text[:line_width]` backed off until it fits: the longest prefix of
   * `text` whose width is at most `w`.
   */
  function Take(text: string, w: int): (r: string)
    requires w >= 0
    ensures r <= text && Width(r) <= w
    ensures forall k :: |r| < k <= |text| ==> Width(text[..k]) > w
  {
    var head := text[..Min(w, |text|)];
    var r := Fit(head, w);
    assert forall k :: |r| < k <= |text| ==> Width(text[..k]) > w by {
      forall k | |r| < k <= |text|
        ensures Width(text[..k]) > w
      {
        if k <= |head| {
          assert head[..k] == text[..k];
        } else {
          WidthBounds(text[..k]);
        }
      }
    }
    r
  }

  /** Nothing fits exactly when the text is empty or starts with a character wider than `w`. */
  lemma TakeEmpty(text: string, w: int)
    requires w >= 0
    ensures Take(text, w) == [] <==> text == [] || CharWidth(text[0]) > w
  {
    if text != [] {
      assert Width(text[..1]) == CharWidth(text[0]) by {
        assert text[..1][..0] == [];
      }
    }
  }

  /** One step of the outer loop: the line emitted, whether it rewound to a space, and the remaining text. */
  datatype Cut = Cut(line: string, rewound: bool, rest: string)

  /** The single space a rewind consumed after a line, if any. */
  function Gap(rewound: bool): string {
    if rewound then [Space] else []
  }

  /**
   * One pass of the outer loop of `str_to_lines` over the non-empty remaining
   * `text`: take the longest prefix that fits and, if that splits a word,
   * give the trailing word back to the remaining text.
   */
  function NextCut(text: string, w: int, isAlpha: char -> bool): (c: Cut)
    requires w >= 0 && Take(text, w) != []
    ensures text == c.line + Gap(c.rewound) + c.rest
    ensures Width(c.line) <= w
    ensures |c.rest| < |text|
    ensures c.rewound <==> IsLastWordBreak(Take(text, w), text[|Take(text, w)|..], isAlpha)
    ensures !c.rewound ==> c.line == Take(text, w)
    ensures c.rewound ==> |c.line| < |Take(text, w)| && Space !in text[|c.line| + 1..|Take(text, w)|]
  {
    var temp := Take(text, w);
    var rest := text[|temp|..];
    assert text == temp + rest;
    if IsLastWordBreak(temp, rest, isAlpha) then
      var k := LastIndexOf(temp, Space);
      RewindSplit(text, temp, k);
      WidthPrefix(temp, k);
      Cut(temp[..k], true, temp[k + 1..] + rest)
    else
      Cut(temp, false, rest)
  }

  /** Cutting the piece `temp` of `text` at its last space `k` loses nothing but that space. */
  lemma RewindSplit(text: string, temp: string, k: nat)
    requires temp <= text && k < |temp| && temp[k] == Space && Space !in temp[k + 1..]
    ensures text == temp[..k] + Gap(true) + (temp[k + 1..] + text[|temp|..])
    ensures Space !in text[k + 1..|temp|]
  {
    var tail := text[|temp|..];
    assert text == temp + tail;
    assert temp == temp[..k] + [Space] + temp[k + 1..];
    assert text[k + 1..|temp|] == temp[k + 1..];
  }

  /** How `str_to_lines` fails instead of returning. */
  datatype WrapError =
    | LineIndexError   // `line[-1]` on an empty line (utils/strutil.py:116)
    | Diverges         // the inner `while` never ends for a negative width (utils/strutil.py:85-86)

  /** The outer loop of `str_to_lines` run to the end on `text`. */
  function Cuts(text: string, w: int, isAlpha: char -> bool): Result<seq<Cut>, WrapError>
    decreases |text|
  {
    if text == [] then Success([])
    else if w < 0 then Failure(Diverges)
    else if Take(text, w) == [] then Failure(LineIndexError)
    else
      var c := NextCut(text, w, isAlpha);
      Prepend([c], Cuts(c.rest, w, isAlpha))
  }

  function Prepend<T, E>(done: seq<T>, r: Result<seq<T>, E>): Result<seq<T>, E> {
    match r
    case Success(s) => Success(done + s)
    case Failure(e) => Failure(e)
  }

  lemma CutsStep(text: string, w: int, isAlpha: char -> bool)
    requires text != [] && w >= 0 && Take(text, w) != []
    ensures Cuts(text, w, isAlpha)
         == Prepend([NextCut(text, w, isAlpha)], Cuts(NextCut(text, w, isAlpha).rest, w, isAlpha))
  {
  }

  lemma PrependTwice<T, E>(a: seq<T>, b: seq<T>, r: Result<seq<T>, E>)
    ensures Prepend(a, Prepend(b, r)) == Prepend(a + b, r)
  {
    if r.Success? {
      assert a + (b + r.value) == (a + b) + r.value;
    }
  }

  function Lines(cs: seq<Cut>): seq<string> {
    seq(|cs|, i requires 0 <= i < |cs| => cs[i].line)
  }

  function Gaps(cs: seq<Cut>): seq<bool> {
    seq(|cs|, i requires 0 <= i < |cs| => cs[i].rewound)
  }

  /** The lines joined back together, with a single space after each line flagged in `gaps`. */
  function Rejoin(lines: seq<string>, gaps: seq<bool>): string
    requires |gaps| == |lines|
  {
    if lines == [] then [] else lines[0] + Gap(gaps[0]) + Rejoin(lines[1..], gaps[1..])
  }

  /** What `str_to_lines(text, w)` returns, or how it fails. */
  function Wrapped(text: string, w: int, isAlpha: char -> bool): Result<seq<string>, WrapError> {
    if Width(text) < w then Success([text])
    else
      match Cuts(text, w, isAlpha)
      case Success(cs) => Success(Lines(cs))
      case Failure(e) => Failure(e)
  }

  /** `str_to_lines`: the nested loops of the source, with its two ways of failing. */
  method StrToLines(text: string, lineWidth: int, isAlpha: char -> bool)
    returns (r: Result<seq<string>, WrapError>)
    ensures r == Wrapped(text, lineWidth, isAlpha)
  {
    var length := PrintLength(text);
    if length < lineWidth {
      return Success([text]);
    }
    var result: seq<string> := [];
    ghost var done: seq<Cut> := [];
    var rest := text;
    PrependNone(Cuts(text, lineWidth, isAlpha));
    while length > 0
      invariant length == Width(rest)
      invariant result == Lines(done)
      invariant Cuts(text, lineWidth, isAlpha) == Prepend(done, Cuts(rest, lineWidth, isAlpha))
      decreases |rest|
    {
      WidthBounds(rest);
      if lineWidth < 0 {
        WrappedFromCuts(text, lineWidth, isAlpha, done, rest);
        return Failure(Diverges);
      }
      var temp := FitLine(rest, lineWidth);
      if temp == [] {
        WrappedFromCuts(text, lineWidth, isAlpha, done, rest);
        return Failure(LineIndexError);
      }
      var next;
      temp, next := RewindLine(rest, temp, lineWidth, isAlpha);
      ghost var c := NextCut(rest, lineWidth, isAlpha);
      OuterStep(text, rest, lineWidth, isAlpha, done);
      done := done + [c];
      result := result + [temp];
      rest := next;
      length := PrintLength(rest);
    }
    WidthBounds(rest);
    WrappedFromCuts(text, lineWidth, isAlpha, done, rest);
    return Success(result);
  }

  /** The rewind of `str_to_lines`: a line that splits a word gives that word back to the remaining text. */
  method RewindLine(rest: string, fitted: string, lineWidth: int, isAlpha: char -> bool)
    returns (temp: string, next: string)
    requires lineWidth >= 0 && fitted == Take(rest, lineWidth) && fitted != []
    ensures temp == NextCut(rest, lineWidth, isAlpha).line && next == NextCut(rest, lineWidth, isAlpha).rest
  {
    temp := fitted;
    next := rest[|temp|..];
    if IsLastWordBreak(temp, next, isAlpha) {
      var k := LastIndexOf(temp, Space);
      next := temp[k + 1..] + next;
      temp := temp[..k];
    }
  }

  /** The inner loop of `str_to_lines`: `text[:line_width]`, shortened until it fits. */
  method FitLine(text: string, lineWidth: int) returns (temp: string)
    requires lineWidth >= 0
    ensures temp == Take(text, lineWidth)
  {
    temp := text[..Min(lineWidth, |text|)];
    var tempLength := PrintLength(temp);
    while tempLength > lineWidth
      invariant tempLength == Width(temp)
      invariant Fit(temp, lineWidth) == Take(text, lineWidth)
      decreases |temp|
    {
      temp := temp[..|temp| - 1];
      tempLength := PrintLength(temp);
    }
  }

  lemma PrependNone<T, E>(r: Result<seq<T>, E>)
    ensures Prepend([], r) == r
  {
    if r.Success? {
      assert [] + r.value == r.value;
    }
  }

  /** One pass of the outer loop moves one cut from the remaining text to the lines done. */
  lemma OuterStep(text: string, rest: string, w: int, isAlpha: char -> bool, done: seq<Cut>)
    requires rest != [] && w >= 0 && Take(rest, w) != []
    requires Cuts(text, w, isAlpha) == Prepend(done, Cuts(rest, w, isAlpha))
    ensures var c := NextCut(rest, w, isAlpha);
      Cuts(text, w, isAlpha) == Prepend(done + [c], Cuts(c.rest, w, isAlpha)) &&
      Lines(done + [c]) == Lines(done) + [c.line]
  {
    var c := NextCut(rest, w, isAlpha);
    CutsStep(rest, w, isAlpha);
    PrependTwice(done, [c], Cuts(c.rest, w, isAlpha));
  }

  /** What the loop's account of the cuts says about the result, when it stops. */
  lemma WrappedFromCuts(text: string, w: int, isAlpha: char -> bool, done: seq<Cut>, rest: string)
    requires !(Width(text) < w)
    requires Cuts(text, w, isAlpha) == Prepend(done, Cuts(rest, w, isAlpha))
    ensures rest == [] ==> Wrapped(text, w, isAlpha) == Success(Lines(done))
    ensures rest != [] && w < 0 ==> Wrapped(text, w, isAlpha) == Failure(Diverges)
    ensures rest != [] && w >= 0 && Take(rest, w) == [] ==> Wrapped(text, w, isAlpha) == Failure(LineIndexError)
  {
    if rest == [] {
      assert done + [] == done;
    }
  }

  // ---- Properties of the wrapping ----

  lemma {:induction false} CutsFit(text: string, w: int, isAlpha: char -> bool)
    requires Cuts(text, w, isAlpha).Success?
    ensures forall c :: c in Cuts(text, w, isAlpha).value ==> Width(c.line) <= w
    decreases |text|
  {
    if text != [] {
      var c := NextCut(text, w, isAlpha);
      CutsFit(c.rest, w, isAlpha);
    }
  }

  lemma {:induction false} CutsRejoin(text: string, w: int, isAlpha: char -> bool)
    requires Cuts(text, w, isAlpha).Success?
    ensures Rejoin(Lines(Cuts(text, w, isAlpha).value), Gaps(Cuts(text, w, isAlpha).value)) == text
    decreases |text|
  {
    if text != [] {
      var c := NextCut(text, w, isAlpha);
      var r := Cuts(c.rest, w, isAlpha);
      assert Cuts(text, w, isAlpha) == Prepend([c], r);
      CutsRejoin(c.rest, w, isAlpha);
      RejoinCons(c, r.value);
    }
  }

  lemma RejoinCons(c: Cut, cs: seq<Cut>)
    ensures Rejoin(Lines([c] + cs), Gaps([c] + cs)) == c.line + Gap(c.rewound) + Rejoin(Lines(cs), Gaps(cs))
  {
    assert Lines([c] + cs)[1..] == Lines(cs);
    assert Gaps([c] + cs)[1..] == Gaps(cs);
  }

  /** Every line returned fits the width budget. */
  lemma WrappedFits(text: string, w: int, isAlpha: char -> bool)
    requires Wrapped(text, w, isAlpha).Success?
    ensures forall line :: line in Wrapped(text, w, isAlpha).value ==> Width(line) <= w
  {
    if Width(text) >= w {
      CutsFit(text, w, isAlpha);
      var cs := Cuts(text, w, isAlpha).value;
      forall line | line in Lines(cs)
        ensures Width(line) <= w
      {
        var i :| 0 <= i < |cs| && Lines(cs)[i] == line;
        assert cs[i] in cs;
      }
    }
  }

  /**
   * Reconstruction: re-inserting one space after the lines that ended at a
   * word-break rewind gives back the input exactly.
   */
  lemma WrappedRejoins(text: string, w: int, isAlpha: char -> bool)
    requires Wrapped(text, w, isAlpha).Success?
    ensures exists gaps :: |gaps| == |Wrapped(text, w, isAlpha).value|
                        && Rejoin(Wrapped(text, w, isAlpha).value, gaps) == text
  {
    var ls := Wrapped(text, w, isAlpha).value;
    if Width(text) < w {
      assert Rejoin(ls, [false]) == text;
    } else {
      var cs := Cuts(text, w, isAlpha).value;
      CutsRejoin(text, w, isAlpha);
      assert Rejoin(ls, Gaps(cs)) == text;
    }
  }

  lemma {:induction false} CutsProgress(text: string, w: int, isAlpha: char -> bool)
    requires w >= 2
    ensures Cuts(text, w, isAlpha).Success?
    decreases |text|
  {
    if text != [] {
      TakeEmpty(text, w);
      CutsProgress(NextCut(text, w, isAlpha).rest, w, isAlpha);
    }
  }

  /** With a budget of at least two columns the wrapping always terminates with lines. */
  lemma WrappedProgress(text: string, w: int, isAlpha: char -> bool)
    requires w >= 2
    ensures Wrapped(text, w, isAlpha).Success?
  {
    CutsProgress(text, w, isAlpha);
  }

  /** Empty input: `[""]` for a positive budget, `[]` otherwise, because the first test is strict. */
  lemma WrappedEmpty(w: int, isAlpha: char -> bool)
    ensures Wrapped("", w, isAlpha) == Success(if w > 0 then [""] else [])
  {
    assert Lines([]) == [];
  }

  /**
   * Text exactly as wide as the budget misses the strict shortcut, yet the
   * loop cuts it into the same single line.
   */
  lemma WrappedExactFit(text: string, w: int, isAlpha: char -> bool)
    requires text != [] && Width(text) == w
    ensures Wrapped(text, w, isAlpha) == Success([text])
  {
    assert text[..|text|] == text;
    TakeIs(text, w, |text|);
    var c := NextCut(text, w, isAlpha);
    assert c == Cut(text, false, []);
    WidthBounds(text);
    CutsStep(text, w, isAlpha);
    assert Cuts(c.rest, w, isAlpha) == Success([]);
    assert [c] + [] == [c];
    assert Lines([c]) == [text];
  }

  /** A budget of zero or less fails on any non-empty text. */
  lemma WrappedNoBudget(text: string, w: int, isAlpha: char -> bool)
    requires text != [] && w <= 0
    ensures Wrapped(text, w, isAlpha) == Failure(if w == 0 then LineIndexError else Diverges)
  {
    WidthBounds(text);
    if w == 0 {
      TakeEmpty(text, w);
    }
  }

  lemma {:induction false} CutsWidthOne(text: string, isAlpha: char -> bool)
    requires !isAlpha(Space)
    ensures Cuts(text, 1, isAlpha).Failure? <==> exists i :: 0 <= i < |text| && IsWide(text[i])
    decreases |text|
  {
    if text != [] {
      TakeEmpty(text, 1);
      if !IsWide(text[0]) {
        var t := Take(text, 1);
        assert |t| <= 1 by { WidthBounds(t); }
        assert t == [text[0]];
        assert !IsLastWordBreak(t, text[1..], isAlpha);
        var c := NextCut(text, 1, isAlpha);
        assert c.rest == text[1..];
        CutsWidthOne(text[1..], isAlpha);
        assert forall i :: 1 <= i < |text| ==> text[i] == text[1..][i - 1];
      }
    }
  }

  /**
   * Width one: the wrapping fails exactly when the text holds a wide
   * character, which can never fit (the source docstring asks for an even width).
   */
  lemma WrappedWidthOne(text: string, isAlpha: char -> bool)
    requires !isAlpha(Space)
    ensures Wrapped(text, 1, isAlpha).Failure? <==> exists i :: 0 <= i < |text| && IsWide(text[i])
  {
    WidthBounds(text);
    CutsWidthOne(text, isAlpha);
  }

  lemma WrappedWideAtWidthOne(isAlpha: char -> bool)
    ensures Wrapped("中", 1, isAlpha) == Failure(LineIndexError)
  {
    TakeEmpty("中", 1);
  }

  lemma DocExampleTakes()
    ensures Take("目标文字text", 4) == "目标"
    ensures Take("文字text", 4) == "文字"
    ensures Take("text", 4) == "text"
  {
    assert "目标文字text"[..4] == "目标文字";
    assert "目标文字"[..3] == "目标文" && "目标文"[..2] == "目标";
    assert Width("目标文字") == 8 && Width("目标文") == 6 && Width("目标") == 4;
    assert "文字text"[..4] == "文字te";
    assert "文字te"[..3] == "文字t" && "文字t"[..2] == "文字";
    assert Width("文字te") == 6 && Width("文字t") == 5 && Width("文字") == 4;
    NarrowWidth("text");
    assert "text"[..4] == "text";
  }

  /** The example of the `str_to_lines` docstring. */
  lemma WrappedDocExample(isAlpha: char -> bool)
    ensures Wrapped("目标文字text", 4, isAlpha) == Success(["目标", "文字", "text"])
  {
    DocExampleTakes();
    var c1 := NextCut("目标文字text", 4, isAlpha);
    assert c1 == Cut("目标", false, "文字text");
    var c2 := NextCut("文字text", 4, isAlpha);
    assert c2 == Cut("文字", false, "text");
    var c3 := NextCut("text", 4, isAlpha);
    assert c3 == Cut("text", false, "");
    CutsStep("目标文字text", 4, isAlpha);
    CutsStep("文字text", 4, isAlpha);
    CutsStep("text", 4, isAlpha);
    assert Cuts(c3.rest, 4, isAlpha) == Success([]);
    assert [c3] + [] == [c3];
    assert Cuts("text", 4, isAlpha) == Success([c3]);
    assert Cuts(c2.rest, 4, isAlpha) == Success([c3]);
    assert [c2] + [c3] == [c2, c3];
    assert Cuts("文字text", 4, isAlpha) == Success([c2, c3]);
    assert Cuts(c1.rest, 4, isAlpha) == Success([c2, c3]);
    assert [c1] + [c2, c3] == [c1, c2, c3];
    assert Cuts("目标文字text", 4, isAlpha) == Success([c1, c2, c3]);
    assert Lines([c1, c2, c3]) == ["目标", "文字", "text"];
  }

  /** `Take` is the unique longest fitting prefix: a prefix that fits, followed by a character that does not. */
  lemma TakeIs(text: string, w: int, k: nat)
    requires w >= 0 && k <= |text| && Width(text[..k]) <= w
    requires k == |text| || Width(text[..k + 1]) > w
    ensures Take(text, w) == text[..k]
  {
    var r := Take(text, w);
    if |r| > k {
      assert r[..k + 1] == text[..k + 1];
      WidthPrefix(r, k + 1);
    }
  }

  lemma TestExampleTakes(s: string)
    ensures Take("这是一段目标" + s, 6) == "这是一"
    ensures Take("段目标" + s, 6) == "段目标"
    ensures Width("这是一段目标" + s) >= 6
  {
    var t := "这是一段目标" + s;
    assert t[..3] == "这是一" && t[..4] == "这是一段";
    assert Width("这是") == 4;
    assert Width("这是一") == 6;
    assert "这是一段"[..3] == "这是一";
    assert Width("这是一段") == 8;
    TakeIs(t, 6, 3);
    WidthPrefix(t, 3);
    var r := "段目标" + s;
    assert r[..3] == "段目标";
    assert Width("段目") == 4;
    assert Width("段目标") == 6;
    if s != [] {
      assert r[..4] == "段目标" + [s[0]];
      WidthAppend("段目标", [s[0]]);
      assert Width([s[0]]) >= 1;
    } else {
      assert r == "段目标";
    }
    TakeIs(r, 6, 3);
  }

  /** With a budget of two or more, the first two cuts are the first two `NextCut` steps. */
  lemma CutsFirstTwo(text: string, w: int, isAlpha: char -> bool)
    requires w >= 2 && text != []
    ensures Take(text, w) != []
    ensures var c1 := NextCut(text, w, isAlpha);
            c1.rest != [] ==>
              Take(c1.rest, w) != [] &&
              Cuts(text, w, isAlpha).Success? && |Cuts(text, w, isAlpha).value| >= 2 &&
              Cuts(text, w, isAlpha).value[0] == c1 &&
              Cuts(text, w, isAlpha).value[1] == NextCut(c1.rest, w, isAlpha)
  {
    TakeEmpty(text, w);
    var c1 := NextCut(text, w, isAlpha);
    if c1.rest != [] {
      TakeEmpty(c1.rest, w);
      var c2 := NextCut(c1.rest, w, isAlpha);
      CutsProgress(c2.rest, w, isAlpha);
      CutsStep(text, w, isAlpha);
      CutsStep(c1.rest, w, isAlpha);
    }
  }

  lemma TestExampleCuts(s: string, isAlpha: char -> bool)
    ensures Take("这是一段目标" + s, 6) == "这是一"
    ensures NextCut("这是一段目标" + s, 6, isAlpha) == Cut("这是一", false, "段目标" + s)
    ensures Take("段目标" + s, 6) == "段目标"
    ensures NextCut("段目标" + s, 6, isAlpha) == Cut("段目标", false, s)
  {
    TestExampleTakes(s);
    var t := "这是一段目标" + s;
    assert t[|"这是一"|..] == "段目标" + s;
    assert ("段目标" + s)[|"段目标"|..] == s;
  }

  /**
   * Any text that starts with these six ideographs wraps at width 6 into
   * lines whose first two hold three ideographs each.
   */
  lemma WrappedSixIdeographs(s: string, isAlpha: char -> bool)
    ensures Wrapped("这是一段目标" + s, 6, isAlpha).Success?
    ensures var ls := Wrapped("这是一段目标" + s, 6, isAlpha).value;
            |ls| >= 2 && ls[0] == "这是一" && ls[1] == "段目标"
  {
    TestExampleTakes(s);
    TestExampleCuts(s, isAlpha);
    CutsFirstTwo("这是一段目标" + s, 6, isAlpha);
  }

  /** The wrapping scenario of the test suite. */
  lemma WrappedTestExample(isAlpha: char -> bool)
    ensures Wrapped("这是一段目标文字, this is a test text", 6, isAlpha).Success?
    ensures var ls := Wrapped("这是一段目标文字, this is a test text", 6, isAlpha).value;
            |ls| >= 2 && ls[0] == "这是一" && ls[1] == "段目标"
    ensures forall l :: l in Wrapped("这是一段目标文字, this is a test text", 6, isAlpha).value ==> Width(l) <= 6
  {
    assert "这是一段目标文字, this is a test text" == "这是一段目标" + "文字, this is a test text";
    WrappedSixIdeographs("文字, this is a test text", isAlpha);
    WrappedFits("这是一段目标文字, this is a test text", 6, isAlpha);
  }
}
