/**
 * The message box of utils/message.py: a table of message lists, one list
 * per message type, kept in the order the types were first used, with a
 * summary text per type for the printed report.
 *
 * The table itself is the value `Table`; the class `MessageBox` holds it in
 * fields that its methods update, as `Message` does with `self._msg` and
 * `self._summary`.  The printed report is returned as the list of lines
 * `click_util.echo` would print, without colours.
 */
module Messages {
  import opened Wrappers

  /** The members of the `MessageType` enumeration. */
  datatype MessageType = INFO | ERROR | CREATE | EXISTS | UPDATE

  /**
   * A dictionary key: a member of `MessageType` or any string.  The two are
   * never equal: `MessageType.INFO` and `'INFO'` are different keys.
   */
  datatype Key = Kind(kind: MessageType) | Custom(name: string)

  /** `str(msg_type)`: the member's value, or the string itself. */
  function KeyText(t: Key): string {
    match t
    case Kind(INFO) => "INFO"
    case Kind(ERROR) => "ERROR"
    case Kind(CREATE) => "CREATE"
    case Kind(EXISTS) => "EXISTS"
    case Kind(UPDATE) => "UPDATE"
    case Custom(name) => name
  }

  /** Python truthiness of a key: only the empty string is falsy. */
  predicate Truthy(t: Key) {
    t != Custom("")
  }

  /** The tuple `('all',)` that stands for every type in `echo` and `clear`. */
  predicate IsAll(types: seq<Key>) {
    types == [Custom("all")]
  }

  predicate Distinct(keys: seq<Key>) {
    forall i, j :: 0 <= i < j < |keys| ==> keys[i] != keys[j]
  }

  /** `self._msg`: the lists by type and the dictionary's key order. */
  datatype Table = Table(lists: map<Key, seq<string>>, order: seq<Key>)

  /** The key order lists each key of the dictionary exactly once. */
  predicate Wellformed(tb: Table) {
    (forall k :: k in tb.lists ==> k in tb.order) && (forall k :: k in tb.order ==> k in tb.lists) &&
    Distinct(tb.order)
  }

  /** `self._msg.get(t, [])`. */
  function ListOf(tb: Table, t: Key): seq<string> {
    if t in tb.lists then tb.lists[t] else []
  }

  /** The sum of the lengths of the lists stored under `keys`. */
  function SumLengths(lists: map<Key, seq<string>>, keys: seq<Key>): nat {
    if keys == [] then 0
    else
      var k := keys[|keys| - 1];
      SumLengths(lists, keys[..|keys| - 1]) + (if k in lists then |lists[k]| else 0)
  }

  /** The `reduce` of `count()`: every message of every type. */
  function Total(tb: Table): nat {
    SumLengths(tb.lists, tb.order)
  }

  /** `count(msg_type)`: a truthy type counts its own list, otherwise everything is counted. */
  function Count(tb: Table, t: Option<Key>): nat {
    if t.Some? && Truthy(t.value) then |ListOf(tb, t.value)| else Total(tb)
  }

  // ---- push ----

  /**
   * The string `push` stores.  Line 49 parses as `msg = (f'[{t}] ') if
   * show_type else ("" + msg)` and line 50 likewise, so a set flag replaces
   * the message rather than prefixing it.
   */
  function Stored(msg: string, t: Key, showType: bool, prefix: string, showPrefix: bool): (s: string)
    ensures showPrefix ==> s == prefix
    ensures !showPrefix && showType ==> s == "[" + KeyText(t) + "] "
    ensures !showPrefix && !showType ==> s == msg
  {
    var tagged := if showType then "[" + KeyText(t) + "] " else msg;
    if showPrefix then prefix else tagged
  }

  function StoredEach(ms: seq<string>, t: Key, showType: bool, prefix: string, showPrefix: bool): seq<string> {
    seq(|ms|, i requires 0 <= i < |ms| => Stored(ms[i], t, showType, prefix, showPrefix))
  }

  /**
   * The table after `ss` is appended to the list of `t`; a type not yet in
   * the dictionary is added at its end, even when `ss` is empty.
   */
  function Appended(tb: Table, t: Key, ss: seq<string>): Table {
    Table(tb.lists[t := ListOf(tb, t) + ss], if t in tb.lists then tb.order else tb.order + [t])
  }

  /** The lists of keys other than `t` do not add up differently after `t`'s list changes. */
  lemma {:induction false} SumLengthsOther(lists: map<Key, seq<string>>, keys: seq<Key>, t: Key, v: seq<string>)
    requires t !in keys
    ensures SumLengths(lists[t := v], keys) == SumLengths(lists, keys)
  {
    if keys != [] {
      assert keys[|keys| - 1] in keys;
      assert forall k :: k in keys[..|keys| - 1] ==> k in keys;
      SumLengthsOther(lists, keys[..|keys| - 1], t, v);
    }
  }

  /** Replacing the list of a key that occurs once in `keys` changes the sum by the difference. */
  lemma {:induction false} SumLengthsUpdate(lists: map<Key, seq<string>>, keys: seq<Key>, t: Key, v: seq<string>)
    requires Distinct(keys) && t in keys && t in lists
    ensures SumLengths(lists[t := v], keys) + |lists[t]| == SumLengths(lists, keys) + |v|
  {
    var init := keys[..|keys| - 1];
    var k := keys[|keys| - 1];
    if k == t {
      assert t !in init by {
        forall j | 0 <= j < |init| ensures init[j] != t {
          assert init[j] == keys[j];
        }
      }
      SumLengthsOther(lists, init, t, v);
    } else {
      assert t in init by {
        var j :| 0 <= j < |keys| && keys[j] == t;
        assert j < |keys| - 1 && init[j] == t;
      }
      SumLengthsUpdate(lists, init, t, v);
    }
  }

  lemma {:induction false} SumLengthsMember(lists: map<Key, seq<string>>, keys: seq<Key>, t: Key)
    requires Distinct(keys) && t in keys && t in lists
    ensures |lists[t]| <= SumLengths(lists, keys)
  {
    SumLengthsUpdate(lists, keys, t, []);
  }

  /**
   * What `push` does to the table: the list of `t` grows by exactly `ss`,
   * every other list is unchanged, each count and the total grow by `|ss|`,
   * and the key order stays well formed: a known type keeps the order, a new
   * one goes at its end.
   */
  lemma AppendedCounts(tb: Table, t: Key, ss: seq<string>)
    requires Wellformed(tb)
    ensures Wellformed(Appended(tb, t, ss))
    ensures t in tb.lists ==> Appended(tb, t, ss).order == tb.order
    ensures t !in tb.lists ==> Appended(tb, t, ss).order == tb.order + [t]
    ensures ListOf(Appended(tb, t, ss), t) == ListOf(tb, t) + ss
    ensures forall k :: k != t ==> ListOf(Appended(tb, t, ss), k) == ListOf(tb, k)
    ensures t in Appended(tb, t, ss).lists
    ensures Total(Appended(tb, t, ss)) == Total(tb) + |ss|
  {
    AppendedWellformed(tb, t, ss);
    AppendedTotal(tb, t, ss);
    AppendedLists(tb, t, ss);
  }

  lemma AppendedLists(tb: Table, t: Key, ss: seq<string>)
    ensures ListOf(Appended(tb, t, ss), t) == ListOf(tb, t) + ss
    ensures forall k :: k != t ==> ListOf(Appended(tb, t, ss), k) == ListOf(tb, k)
    ensures t in Appended(tb, t, ss).lists
  {
  }

  lemma AppendedWellformed(tb: Table, t: Key, ss: seq<string>)
    requires Wellformed(tb)
    ensures Wellformed(Appended(tb, t, ss))
  {
    var r := Appended(tb, t, ss);
    if t !in tb.lists {
      forall i, j | 0 <= i < j < |r.order| ensures r.order[i] != r.order[j] {
        if j == |tb.order| {
          assert r.order[i] == tb.order[i] && tb.order[i] in tb.lists;
        }
      }
    }
  }

  lemma AppendedTotal(tb: Table, t: Key, ss: seq<string>)
    requires Wellformed(tb)
    ensures Total(Appended(tb, t, ss)) == Total(tb) + |ss|
  {
    var r := Appended(tb, t, ss);
    if t in tb.lists {
      SumLengthsUpdate(tb.lists, tb.order, t, tb.lists[t] + ss);
    } else {
      assert r.order[..|r.order| - 1] == tb.order;
      assert ListOf(tb, t) + ss == ss;
      SumLengthsOther(tb.lists, tb.order, t, ss);
    }
  }

  /** Appending twice to the same type is appending both runs at once. */
  lemma AppendedTwice(tb: Table, t: Key, a: seq<string>, b: seq<string>)
    ensures Appended(Appended(tb, t, a), t, b) == Appended(tb, t, a + b)
  {
    assert ListOf(tb, t) + a + b == ListOf(tb, t) + (a + b);
  }

  /** One more message of the run appended after the ones before it. */
  lemma PushEachStep(tb: Table, ms: seq<string>, j: nat, t: Key, showType: bool, prefix: string, showPrefix: bool)
    requires j < |ms|
    ensures Appended(Appended(tb, t, StoredEach(ms[..j], t, showType, prefix, showPrefix)), t,
                     [Stored(ms[j], t, showType, prefix, showPrefix)])
         == Appended(tb, t, StoredEach(ms[..j + 1], t, showType, prefix, showPrefix))
  {
    StoredEachSnoc(ms, j, t, showType, prefix, showPrefix);
    AppendedTwice(tb, t, StoredEach(ms[..j], t, showType, prefix, showPrefix), [Stored(ms[j], t, showType, prefix, showPrefix)]);
  }

  lemma StoredEachSnoc(ms: seq<string>, j: nat, t: Key, showType: bool, prefix: string, showPrefix: bool)
    requires j < |ms|
    ensures StoredEach(ms[..j + 1], t, showType, prefix, showPrefix)
         == StoredEach(ms[..j], t, showType, prefix, showPrefix) + [Stored(ms[j], t, showType, prefix, showPrefix)]
  {
    var a := StoredEach(ms[..j], t, showType, prefix, showPrefix);
    var b := StoredEach(ms[..j + 1], t, showType, prefix, showPrefix);
    assert |b| == |a| + 1;
    forall i | 0 <= i < j ensures b[i] == a[i] {
      assert ms[..j + 1][i] == ms[..j][i];
    }
    assert b[j] == Stored(ms[j], t, showType, prefix, showPrefix);
  }

  /**
   * Pushing one string raises the count of its type and the total by one and
   * leaves the count of every other type as it was.
   */
  lemma PushCounts(tb: Table, t: Key, s: string, k: Key)
    requires Wellformed(tb)
    ensures Count(Appended(tb, t, [s]), Some(t)) == Count(tb, Some(t)) + 1
    ensures Count(Appended(tb, t, [s]), None) == Count(tb, None) + 1
    ensures k != t ==> Count(Appended(tb, t, [s]), Some(k)) == Count(tb, Some(k)) + (if Truthy(k) then 0 else 1)
  {
    AppendedTotal(tb, t, [s]);
    AppendedLists(tb, t, [s]);
  }

  /** Pushing a run of strings adds one message per element to its type. */
  lemma PushEachCounts(tb: Table, ms: seq<string>, t: Key, showType: bool, prefix: string, showPrefix: bool)
    requires Wellformed(tb)
    ensures var after := Appended(tb, t, StoredEach(ms, t, showType, prefix, showPrefix));
      |ListOf(after, t)| == |ListOf(tb, t)| + |ms| && Count(after, None) == Count(tb, None) + |ms|
  {
    AppendedCounts(tb, t, StoredEach(ms, t, showType, prefix, showPrefix));
  }

  // ---- pop ----

  /** `pop(t)`: the table afterwards and the message returned, `None` for a missing or empty type. */
  function Popped(tb: Table, t: Key): (Table, Option<string>) {
    if t in tb.lists && tb.lists[t] != [] then
      var l := tb.lists[t];
      (Table(tb.lists[t := l[..|l| - 1]], tb.order), Some(l[|l| - 1]))
    else (tb, None)
  }

  /**
   * `pop` takes the most recent message of its type, and only that one,
   * off the table; with nothing to pop it changes nothing.
   */
  lemma PoppedCases(tb: Table, t: Key)
    requires Wellformed(tb)
    ensures var (after, m) := Popped(tb, t);
      Wellformed(after) && after.order == tb.order &&
      (forall k :: k != t ==> ListOf(after, k) == ListOf(tb, k)) &&
      (ListOf(tb, t) == [] ==> after == tb && m == None) &&
      (ListOf(tb, t) != [] ==>
        m == Some(ListOf(tb, t)[|ListOf(tb, t)| - 1]) &&
        ListOf(after, t) == ListOf(tb, t)[..|ListOf(tb, t)| - 1] &&
        Total(after) + 1 == Total(tb))
  {
    if t in tb.lists && tb.lists[t] != [] {
      var l := tb.lists[t];
      SumLengthsUpdate(tb.lists, tb.order, t, l[..|l| - 1]);
    }
  }

  /** Last in, first out: `pop` after `push` returns the stored string and restores every list. */
  lemma PopAfterPush(tb: Table, t: Key, s: string)
    requires Wellformed(tb)
    ensures var (after, m) := Popped(Appended(tb, t, [s]), t);
      m == Some(s) && forall k :: ListOf(after, k) == ListOf(tb, k)
  {
    var pushed := Appended(tb, t, [s]);
    var l := ListOf(tb, t) + [s];
    assert pushed.lists[t] == l && l != [];
    assert l[..|l| - 1] == ListOf(tb, t);
    var after := Table(pushed.lists[t := ListOf(tb, t)], pushed.order);
    assert Popped(pushed, t) == (after, Some(s));
    forall k ensures ListOf(after, k) == ListOf(tb, k) {
      if k != t {
        assert ListOf(after, k) == ListOf(pushed, k);
      }
    }
  }

  /** A type's own count never exceeds the total, and an unknown truthy type counts 0. */
  lemma CountBounds(tb: Table, t: Key)
    requires Wellformed(tb)
    ensures Count(tb, Some(t)) <= Total(tb)
    ensures Truthy(t) && t !in tb.lists ==> Count(tb, Some(t)) == 0
    ensures Count(tb, None) == Total(tb)
  {
    if t in tb.lists {
      SumLengthsMember(tb.lists, tb.order, t);
    }
  }

  // ---- clear ----

  /** The table after a `clear` and the type whose absence raised `KeyError`, if any. */
  datatype Cleared = Cleared(table: Table, missing: Option<Key>)

  /** The loop of `clear`: empties each listed type in turn, stopping at the first missing one. */
  function ClearListed(tb: Table, types: seq<Key>): Cleared
    decreases |types|
  {
    if types == [] then Cleared(tb, None)
    else if types[0] !in tb.lists then Cleared(tb, Some(types[0]))
    else ClearListed(Table(tb.lists[types[0] := []], tb.order), types[1..])
  }

  /** `clear(types)`: `('all',)` removes every type; any other tuple goes through the loop. */
  function ClearedTable(tb: Table, types: seq<Key>): Cleared {
    if IsAll(types) then Cleared(Table(map[], []), None) else ClearListed(tb, types)
  }

  /** `clear(('all',))` removes every type, so nothing is left to count. */
  lemma ClearAllCounts(tb: Table, t: Key)
    ensures ClearedTable(tb, [Custom("all")]).table == Table(map[], [])
    ensures ClearedTable(tb, [Custom("all")]).missing == None
    ensures Wellformed(ClearedTable(tb, [Custom("all")]).table)
    ensures Count(ClearedTable(tb, [Custom("all")]).table, Some(t)) == 0
    ensures Count(ClearedTable(tb, [Custom("all")]).table, None) == 0
  {
  }

  /** Clearing listed types keeps every key and the key order. */
  lemma {:induction false} ClearListedKeys(tb: Table, types: seq<Key>)
    ensures ClearListed(tb, types).table.order == tb.order
    ensures ClearListed(tb, types).table.lists.Keys == tb.lists.Keys
    decreases |types|
  {
    if types != [] && types[0] in tb.lists {
      ClearListedKeys(Table(tb.lists[types[0] := []], tb.order), types[1..]);
    }
  }

  /** When every listed type is present they, and only they, are emptied. */
  lemma {:induction false} ClearListedPresent(tb: Table, types: seq<Key>)
    requires forall t :: t in types ==> t in tb.lists
    ensures ClearListed(tb, types).missing == None
    ensures forall k :: k in tb.lists ==>
      k in ClearListed(tb, types).table.lists &&
      ClearListed(tb, types).table.lists[k] == (if k in types then [] else tb.lists[k])
    decreases |types|
  {
    if types != [] {
      var next := Table(tb.lists[types[0] := []], tb.order);
      assert types[0] in types;
      forall t | t in types[1..] ensures t in next.lists {
        assert t in types;
      }
      ClearListedPresent(next, types[1..]);
      forall k | k in tb.lists
        ensures ClearListed(tb, types).table.lists[k] == (if k in types then [] else tb.lists[k])
      {
        assert k in types <==> k == types[0] || k in types[1..];
      }
    }
  }

  /**
   * At the first listed type that is absent `clear` raises `KeyError`; the
   * types before it have already been emptied.
   */
  lemma {:induction false} ClearListedStops(tb: Table, types: seq<Key>, i: nat)
    requires i < |types| && types[i] !in tb.lists
    requires forall j :: 0 <= j < i ==> types[j] in tb.lists
    ensures ClearListed(tb, types).missing == Some(types[i])
    ensures ClearListed(tb, types).table == ClearListed(tb, types[..i]).table
    decreases i
  {
    if i > 0 {
      var next := Table(tb.lists[types[0] := []], tb.order);
      assert types[1..][..i - 1] == types[..i][1..];
      ClearListedStops(next, types[1..], i - 1);
    }
  }

  // ---- echo ----

  /** What `click_util.echo(msg)` prints: the message, or a rule of 40 `=` for an empty one. */
  function Printed(msg: string): (line: string)
    ensures line != []
    ensures msg != [] ==> line == msg
    ensures msg == [] ==> |line| == 40 && forall c :: c in line ==> c == '='
  {
    if msg == [] then seq(40, _ => '=') else msg
  }

  /** `str(n)` for a natural number: decimal digits with no leading zero. */
  function NatText(n: nat): (s: string)
    ensures s != [] && forall i :: 0 <= i < |s| ==> '0' <= s[i] <= '9'
    ensures (s[0] == '0') == (n == 0)
  {
    var d := [(n % 10) as char + '0'];
    if n < 10 then d else NatText(n / 10) + d
  }

  /** The number a string of decimal digits spells. */
  function DigitsValue(s: string): nat
    requires forall i :: 0 <= i < |s| ==> '0' <= s[i] <= '9'
  {
    if s == [] then 0
    else DigitsValue(s[..|s| - 1]) * 10 + (s[|s| - 1] as int - '0' as int)
  }

  /** `str(n)` spells `n`. */
  lemma {:induction false} NatTextValue(n: nat)
    ensures DigitsValue(NatText(n)) == n
  {
    if n >= 10 {
      NatTextValue(n / 10);
      var s := NatText(n / 10) + [(n % 10) as char + '0'];
      assert s[..|s| - 1] == NatText(n / 10);
    }
  }

  /** `_echo_summary(key)`: the type's summary text, or `<type> message`, and its count. */
  function SummaryLine(tb: Table, summaries: map<Key, string>, key: Key): string {
    var summary := if key in summaries then summaries[key] else KeyText(key) + " message";
    summary + ": " + NatText(|ListOf(tb, key)|) + "."
  }

  function SummaryLines(tb: Table, summaries: map<Key, string>, keys: seq<Key>): seq<string> {
    seq(|keys|, i requires 0 <= i < |keys| => SummaryLine(tb, summaries, keys[i]))
  }

  /** `_echo_list(keys)`: every message of each type in turn, as printed. */
  function ListLines(tb: Table, keys: seq<Key>): seq<string> {
    if keys == [] then []
    else
      var ms := ListOf(tb, keys[|keys| - 1]);
      ListLines(tb, keys[..|keys| - 1]) + seq(|ms|, i requires 0 <= i < |ms| => Printed(ms[i]))
  }

  /**
   * `echo(types, verbose)`: the verbose report lists the messages of the
   * selected types; the short report gives one summary line per type in the
   * table, whatever `types` says.
   */
  function EchoLines(tb: Table, summaries: map<Key, string>, types: seq<Key>, verbose: bool): seq<string> {
    if verbose then ListLines(tb, if IsAll(types) then tb.order else types)
    else SummaryLines(tb, summaries, tb.order)
  }

  /** The verbose report prints one line per stored message of the selected types. */
  lemma {:induction false} ListLinesCount(tb: Table, keys: seq<Key>)
    ensures |ListLines(tb, keys)| == SumLengths(tb.lists, keys)
    decreases |keys|
  {
    if keys != [] {
      ListLinesCount(tb, keys[..|keys| - 1]);
    }
  }

  /**
   * `echo(verbose=True)` over all types prints `count()` lines; the short
   * report prints one line per type.
   */
  lemma EchoLinesCount(tb: Table, summaries: map<Key, string>)
    ensures |EchoLines(tb, summaries, [Custom("all")], true)| == Count(tb, None)
    ensures |EchoLines(tb, summaries, [Custom("all")], false)| == |tb.order|
  {
    ListLinesCount(tb, tb.order);
  }

  /** The message box: `Message` with its dictionaries as fields. */
  class MessageBox {
    var lists: map<Key, seq<string>>
    var order: seq<Key>
    var summaries: map<Key, string>

    predicate Valid()
      reads this
    {
      Wellformed(Table(lists, order))
    }

    /** The table the fields stand for. */
    function Contents(): Table
      reads this
    {
      Table(lists, order)
    }

    constructor ()
      ensures Valid() && Contents() == Table(map[], []) && summaries == map[]
    {
      lists := map[];
      order := [];
      summaries := map[];
    }

    /** Lines 45-46 of `push`: a type that is missing or has an empty list gets a new empty list. */
    method EnsureList(t: Key)
      requires Valid()
      modifies this`lists, this`order
      ensures Valid() && Contents() == Appended(old(Contents()), t, [])
    {
      AppendedWellformed(Contents(), t, []);
      ghost var was := Contents();
      if !(t in lists && lists[t] != []) {
        assert ListOf(was, t) + [] == [];
        if t !in lists {
          order := order + [t];
        }
        lists := lists[t := []];
      } else {
        assert ListOf(was, t) + [] == lists[t];
        assert lists[t := lists[t]] == lists;
      }
    }

    /** `push(msg, msg_type, show_type, prefix, show_prefix)` for a string `msg`. */
    method Push(msg: string, t: Key, showType: bool, prefix: string, showPrefix: bool)
      requires Valid()
      modifies this`lists, this`order
      ensures Valid()
      ensures Contents() == Appended(old(Contents()), t, [Stored(msg, t, showType, prefix, showPrefix)])
    {
      ghost var tb := Contents();
      EnsureList(t);
      var s := Stored(msg, t, showType, prefix, showPrefix);
      AppendedTwice(tb, t, [], [s]);
      assert [] + [s] == [s];
      AppendedWellformed(Contents(), t, [s]);
      lists := lists[t := lists[t] + [s]];
    }

    /** `push` of a sequence of strings: each is pushed in order with the same options. */
    method PushEach(ms: seq<string>, t: Key, showType: bool, prefix: string, showPrefix: bool)
      requires Valid()
      modifies this`lists, this`order
      ensures Valid()
      ensures Contents() == Appended(old(Contents()), t, StoredEach(ms, t, showType, prefix, showPrefix))
    {
      ghost var tb := Contents();
      EnsureList(t);
      for j := 0 to |ms|
        invariant Valid()
        invariant Contents() == Appended(tb, t, StoredEach(ms[..j], t, showType, prefix, showPrefix))
      {
        Push(ms[j], t, showType, prefix, showPrefix);
        PushEachStep(tb, ms, j, t, showType, prefix, showPrefix);
      }
      assert ms[..|ms|] == ms;
    }

    /** `pop(msg_type)`. */
    method Pop(t: Key) returns (m: Option<string>)
      requires Valid()
      modifies this`lists
      ensures Valid()
      ensures (Contents(), m) == Popped(old(Contents()), t)
    {
      PoppedCases(Contents(), t);
      if t in lists && |lists[t]| > 0 {
        var l := lists[t];
        m := Some(l[|l| - 1]);
        lists := lists[t := l[..|l| - 1]];
      } else {
        m := None;
      }
    }

    /** `list(msg_type)`: the stored list, `[]` for an unset type, which stays unset. */
    function List(t: Key): (r: seq<string>)
      reads this
      ensures t in lists ==> r == lists[t]
      ensures t !in lists ==> r == []
    {
      ListOf(Contents(), t)
    }

    /** The `summary` getter. */
    function Summary(): map<Key, string>
      reads this
    {
      summaries
    }

    /** The `summary` setter, given the pair `(t, text)`. */
    method SetSummary(t: Key, text: string)
      modifies this`summaries
      ensures summaries == old(summaries)[t := text]
    {
      summaries := summaries[t := text];
    }

    /** `clear(types)`; `missing` is the type whose absence raised `KeyError`. */
    method Clear(types: seq<Key>) returns (missing: Option<Key>)
      requires Valid()
      modifies this`lists, this`order
      ensures Valid()
      ensures Cleared(Contents(), missing) == ClearedTable(old(Contents()), types)
    {
      if types == [Custom("all")] {
        lists := map[];
        order := [];
        return None;
      }
      ClearListedKeys(Contents(), types);
      for i := 0 to |types|
        invariant order == old(order) && lists.Keys == old(lists).Keys
        invariant ClearListed(old(Contents()), types) == ClearListed(Contents(), types[i..])
      {
        var t := types[i];
        assert types[i..][1..] == types[i + 1..];
        if t !in lists {
          return Some(t);
        }
        lists := lists[t := []];
      }
      return None;
    }

    /** `_echo_list(keys)`. */
    method EchoList(keys: seq<Key>) returns (out: seq<string>)
      ensures out == ListLines(Contents(), keys)
    {
      out := [];
      for i := 0 to |keys|
        invariant out == ListLines(Contents(), keys[..i])
      {
        var ms := if keys[i] in lists then lists[keys[i]] else [];
        ghost var start := out;
        for j := 0 to |ms|
          invariant out == start + seq(j, k requires 0 <= k < j => Printed(ms[k]))
        {
          var line := if ms[j] == [] then seq(40, _ => '=') else ms[j];
          out := out + [line];
        }
        assert keys[..i + 1][..i] == keys[..i];
      }
      assert keys[..|keys|] == keys;
    }

    /** `echo(types, verbose)`. */
    method Echo(types: seq<Key>, verbose: bool) returns (out: seq<string>)
      ensures out == EchoLines(Contents(), summaries, types, verbose)
    {
      var keys := if types == [Custom("all")] then order else types;
      if verbose {
        out := EchoList(keys);
        return;
      }
      out := [];
      for i := 0 to |order|
        invariant out == SummaryLines(Contents(), summaries, order[..i])
      {
        var key := order[i];
        var summary := if key in summaries then summaries[key] else KeyText(key) + " message";
        var n := if key in lists then |lists[key]| else 0;
        out := out + [summary + ": " + NatText(n) + "."];
      }
      assert order[..|order|] == order;
    }
  }
}
