/**
 The rule editor: the parser of static/app-delivery-editor.js:119-137, the printer inside
 addRuleRow (static/app-delivery-rules.js:37) and collectValidRules (static/app-delivery-rules.js:126-143).
 */
module RuleMatch {
  import opened Text
  import opened Wrappers

  type Match = map<string, string>

  /** Where the editor's message points; lines are counted from one. */
  datatype Problem = BadLine(line: nat) | DuplicateKey(line: nat, key: string) | NoEntry

  // ---- Parsing ----

  /** Splitting at every LF, taking a CR in front of it away as well. */
  function SplitLines(s: string): (r: seq<string>)
    ensures r != []
  {
    if s == "" then [""]
    else if s[0] == '\n' then [""] + SplitLines(s[1..])
    else if s[0] == '\r' && |s| >= 2 && s[1] == '\n' then [""] + SplitLines(s[2..])
    else var rest := SplitLines(s[1..]); [[s[0]] + rest[0]] + rest[1..]
  }

  /** Position of the first '=', or -1. */
  function IndexOfEquals(s: string): (r: int)
    ensures -1 <= r < |s|
    ensures r >= 0 ==> s[r] == '=' && '=' !in s[..r]
    ensures r < 0 ==> '=' !in s
  {
    if s == "" then -1
    else if s[0] == '=' then 0
    else
      var r := IndexOfEquals(s[1..]);
      assert r >= 0 ==> s[..r + 1] == [s[0]] + s[1..][..r];
      if r < 0 then -1 else r + 1
  }

  function Stripped(s: string): string {
    Trim(s, JsSpace)
  }

  datatype Entry = Entry(key: string, value: string) | NotAnEntry

  /** A trimmed line that is not blank. */
  function EntryOf(line: string): Entry {
    var separator := IndexOfEquals(line);
    if separator <= 0 || Stripped(line[separator + 1..]) == "" then NotAnEntry
    else Entry(Stripped(line[..separator]), Stripped(line[separator + 1..]))
  }

  function ParseLines(lines: seq<string>, index: nat, found: Match): Result<Match, Problem> {
    if lines == [] then
      if found == map[] then Err(NoEntry) else Ok(found)
    else
      var line := Stripped(lines[0]);
      if line == "" then ParseLines(lines[1..], index + 1, found)
      else
        match EntryOf(line)
        case NotAnEntry => Err(BadLine(index + 1))
        case Entry(key, value) =>
          if key in found then Err(DuplicateKey(index + 1, key))
          else ParseLines(lines[1..], index + 1, found[key := value])
  }

  function Parse(raw: string): Result<Match, Problem> {
    ParseLines(SplitLines(raw), 0, map[])
  }

  method ParseRuleMatch(raw: string) returns (r: Result<Match, Problem>)
    ensures r == Parse(raw)
  {
    var found: Match := map[];
    var lines := SplitLines(raw);
    for index := 0 to |lines|
      invariant ParseLines(lines[index..], index, found) == Parse(raw)
    {
      var line := Stripped(lines[index]);
      assert lines[index..][0] == lines[index] && lines[index..][1..] == lines[index + 1..];
      if line == "" {
        continue;
      }
      var separator := IndexOfEquals(line);
      if separator <= 0 || Stripped(line[separator + 1..]) == "" {
        return Err(BadLine(index + 1));
      }
      var key := Stripped(line[..separator]);
      if key in found {
        return Err(DuplicateKey(index + 1, key));
      }
      found := found[key := Stripped(line[separator + 1..])];
    }
    r := if found == map[] then Err(NoEntry) else Ok(found);
  }

  // ---- What the parser answers, line by line ----

  predicate Blank(line: string) {
    Trim(line, JsSpace) == ""
  }

  /** The trimmed line has text before its first '=', which makes the key, and a value behind it that is not blank. */
  ghost predicate IsEntry(line: string, key: string, value: string) {
    exists a: string, b: string ::
      && Trim(line, JsSpace) == a + "=" + b && '=' !in a && a != ""
      && key == Trim(a, JsSpace) && value == Trim(b, JsSpace) && value != ""
  }

  /** What a line says. */
  datatype Reading = Nothing | Pair(key: string, value: string) | Nonsense

  ghost predicate Says(line: string, r: Reading) {
    match r
    case Nothing => Blank(line)
    case Pair(key, value) => IsEntry(line, key, value)
    case Nonsense => !Blank(line) && forall key: string, value: string :: !IsEntry(line, key, value)
  }

  /** The first n lines say no nonsense and no key twice, and these are their pairs. */
  predicate Gathered(said: seq<Reading>, n: nat, found: Match)
    requires n <= |said|
  {
    && (forall i | 0 <= i < n :: !said[i].Nonsense?)
    && (forall i, j | 0 <= i < j < n && said[i].Pair? && said[j].Pair? :: said[i].key != said[j].key)
    && (forall i | 0 <= i < n && said[i].Pair? :: said[i].key in found && found[said[i].key] == said[i].value)
    && (forall key | key in found :: SaidBefore(said, n, key))
  }

  predicate SaidBefore(said: seq<Reading>, n: nat, key: string)
    requires n <= |said|
  {
    exists i | 0 <= i < n :: said[i].Pair? && said[i].key == key
  }

  lemma {:induction false} EqualsSplits(t: string, a: string, b: string)
    requires t == a + "=" + b && '=' !in a
    ensures IndexOfEquals(t) == |a|
  {
    if a != "" {
      assert t[1..] == a[1..] + "=" + b;
      assert t[0] == a[0];
      EqualsSplits(t[1..], a[1..], b);
    }
  }

  lemma EntryParts(t: string, a: string, b: string)
    requires t == a + "=" + b && '=' !in a && a != "" && Trim(b, JsSpace) != ""
    ensures EntryOf(t) == Entry(Trim(a, JsSpace), Trim(b, JsSpace))
  {
    EqualsSplits(t, a, b);
    assert t[..|a|] == a && t[|a| + 1..] == b;
  }

  lemma EntryIff(line: string, key: string, value: string)
    ensures IsEntry(line, key, value) <==> EntryOf(Stripped(line)) == Entry(key, value)
  {
    var t := Stripped(line);
    if IsEntry(line, key, value) {
      var a: string, b: string :| t == a + "=" + b && '=' !in a && a != ""
        && key == Trim(a, JsSpace) && value == Trim(b, JsSpace) && value != "";
      EntryParts(t, a, b);
    }
    if EntryOf(t) == Entry(key, value) {
      EntryHasParts(line, key, value);
    }
  }

  lemma EntryHasParts(line: string, key: string, value: string)
    requires EntryOf(Stripped(line)) == Entry(key, value)
    ensures IsEntry(line, key, value)
  {
    var t := Stripped(line);
    var r := IndexOfEquals(t);
    var a, b := t[..r], t[r + 1..];
    assert t == a + "=" + b && '=' !in a && a != "";
  }

  function ReadingOf(line: string): Reading {
    if Stripped(line) == "" then Nothing
    else
      match EntryOf(Stripped(line))
      case Entry(key, value) => Pair(key, value)
      case NotAnEntry => Nonsense
  }

  lemma SaysReading(line: string)
    ensures Says(line, ReadingOf(line))
  {
    forall key: string, value: string
      ensures IsEntry(line, key, value) <==> EntryOf(Stripped(line)) == Entry(key, value)
    {
      EntryIff(line, key, value);
    }
  }

  lemma GatherNothing(said: seq<Reading>, n: nat, found: Match)
    requires n < |said| && Gathered(said, n, found) && said[n].Nothing?
    ensures Gathered(said, n + 1, found)
  {
    forall key | key in found ensures SaidBefore(said, n + 1, key) {
      assert SaidBefore(said, n, key);
    }
  }

  lemma GatherPair(said: seq<Reading>, n: nat, found: Match, next: Match)
    requires n < |said| && Gathered(said, n, found) && said[n].Pair? && said[n].key !in found
    requires next == found[said[n].key := said[n].value]
    ensures Gathered(said, n + 1, next)
  {
    forall key | key in next ensures SaidBefore(said, n + 1, key) {
      assert key == said[n].key || SaidBefore(said, n, key);
    }
  }

  ghost predicate FineBefore(said: seq<Reading>, n: nat)
    requires n <= |said|
  {
    exists before :: Gathered(said, n, before)
  }

  /** What each answer means; the four cases exclude one another. */
  ghost predicate Means(said: seq<Reading>, r: Result<Match, Problem>) {
    match r
    case Ok(m) => m != map[] && Gathered(said, |said|, m)
    case Err(NoEntry) => forall i | 0 <= i < |said| :: said[i].Nothing?
    case Err(BadLine(line)) =>
      1 <= line <= |said| && said[line - 1].Nonsense? && FineBefore(said, line - 1)
    case Err(DuplicateKey(line, key)) =>
      && 1 <= line <= |said| && said[line - 1].Pair? && said[line - 1].key == key
      && SaidBefore(said, line - 1, key) && FineBefore(said, line - 1)
  }

  ghost predicate AllSay(lines: seq<string>, said: seq<Reading>) {
    |said| == |lines| && forall i | 0 <= i < |lines| :: said[i] == ReadingOf(lines[i])
  }

  /** One line of the parser, by what it says. */
  lemma ParseStep(lines: seq<string>, n: nat, found: Match, said: seq<Reading>)
    requires n < |lines| && AllSay(lines, said)
    ensures ParseLines(lines[n..], n, found) ==
            match said[n]
            case Nothing => ParseLines(lines[n + 1..], n + 1, found)
            case Nonsense => Err(BadLine(n + 1))
            case Pair(key, value) =>
              if key in found then Err(DuplicateKey(n + 1, key))
              else ParseLines(lines[n + 1..], n + 1, found[key := value])
  {
    assert lines[n..][0] == lines[n] && lines[n..][1..] == lines[n + 1..];
  }

  /** The end of the lines, a line of nonsense and a key that stands twice end the parser with what they mean. */
  lemma StopMeans(said: seq<Reading>, n: nat, found: Match)
    requires n <= |said| && Gathered(said, n, found)
    ensures n == |said| ==> Means(said, if found == map[] then Err(NoEntry) else Ok(found))
    ensures n < |said| && said[n].Nonsense? ==> Means(said, Err(BadLine(n + 1)))
    ensures n < |said| && said[n].Pair? && said[n].key in found ==> Means(said, Err(DuplicateKey(n + 1, said[n].key)))
  {
    assert FineBefore(said, n);
  }

  /** The parser on what the lines say. */
  function ParseSaid(said: seq<Reading>, n: nat, found: Match): Result<Match, Problem>
    requires n <= |said|
    decreases |said| - n
  {
    if n == |said| then if found == map[] then Err(NoEntry) else Ok(found)
    else
      match said[n]
      case Nothing => ParseSaid(said, n + 1, found)
      case Nonsense => Err(BadLine(n + 1))
      case Pair(key, value) =>
        if key in found then Err(DuplicateKey(n + 1, key)) else ParseSaid(said, n + 1, found[key := value])
  }

  lemma {:induction false} ParseLinesSaid(lines: seq<string>, n: nat, found: Match, said: seq<Reading>)
    requires n <= |lines| && AllSay(lines, said)
    ensures ParseLines(lines[n..], n, found) == ParseSaid(said, n, found)
    decreases |lines| - n
  {
    if n < |lines| {
      ParseStep(lines, n, found, said);
      if said[n].Nothing? {
        ParseLinesSaid(lines, n + 1, found, said);
      } else if said[n].Pair? && said[n].key !in found {
        ParseLinesSaid(lines, n + 1, found[said[n].key := said[n].value], said);
      }
    }
  }

  lemma {:induction false} ParseSaidMeans(said: seq<Reading>, n: nat, found: Match)
    requires n <= |said| && Gathered(said, n, found)
    ensures Means(said, ParseSaid(said, n, found))
    decreases |said| - n
  {
    StopMeans(said, n, found);
    if n < |said| {
      if said[n].Nothing? {
        GatherNothing(said, n, found);
        ParseSaidMeans(said, n + 1, found);
      } else if said[n].Pair? && said[n].key !in found {
        var next := found[said[n].key := said[n].value];
        GatherPair(said, n, found, next);
        ParseSaidMeans(said, n + 1, next);
      }
    }
  }

  /**
   The table holds exactly the pairs that the lines say, when there is one, none is nonsense and no key stands twice;
   else the answer names the first line where that fails, or says that all lines are blank.
   */
  lemma ParseMeans(raw: string) returns (said: seq<Reading>)
    ensures |said| == |SplitLines(raw)| && forall i | 0 <= i < |said| :: Says(SplitLines(raw)[i], said[i])
    ensures Means(said, Parse(raw))
  {
    var lines := SplitLines(raw);
    said := seq(|lines|, i requires 0 <= i < |lines| => ReadingOf(lines[i]));
    forall i | 0 <= i < |lines| ensures Says(lines[i], said[i]) {
      SaysReading(lines[i]);
    }
    assert lines[0..] == lines;
    ParseLinesSaid(lines, 0, map[], said);
    ParseSaidMeans(said, 0, map[]);
  }

  // ---- Printing ----

  /** The editor's text for these keys, in this order. */
  function Print(order: seq<string>, m: Match): string
    requires forall k | k in order :: k in m
  {
    if order == [] then ""
    else if |order| == 1 then order[0] + "=" + m[order[0]]
    else order[0] + "=" + m[order[0]] + "\n" + Print(order[1..], m)
  }

  /** An order in which a JavaScript object may list its entries: every key once. */
  predicate Enumerates(order: seq<string>, m: Match) {
    && (forall i, j | 0 <= i < j < |order| :: order[i] != order[j])
    && (forall k | k in order :: k in m)
    && (forall k | k in m :: k in order)
  }

  // ---- What survives ----

  predicate GoodKey(k: string) {
    k != "" && Trimmed(k, JsSpace) && '=' !in k && '\n' !in k
  }

  predicate GoodValue(v: string) {
    v != "" && Trimmed(v, JsSpace) && '\n' !in v
  }

  predicate Printable(m: Match) {
    m != map[] && forall k | k in m :: GoodKey(k) && GoodValue(m[k])
  }

  lemma {:induction false} LinesHaveNoBreaks(s: string)
    ensures forall i | 0 <= i < |SplitLines(s)| :: '\n' !in SplitLines(s)[i]
  {
    if s == "" {
    } else if s[0] == '\r' && |s| >= 2 && s[1] == '\n' {
      LinesHaveNoBreaks(s[2..]);
    } else {
      LinesHaveNoBreaks(s[1..]);
    }
  }

  lemma EntryIsGood(line: string)
    requires Trimmed(line, JsSpace) && '\n' !in line
    ensures EntryOf(line).Entry? ==> GoodKey(EntryOf(line).key) && GoodValue(EntryOf(line).value)
  {
    var separator := IndexOfEquals(line);
    if EntryOf(line).Entry? {
      var left, right := line[..separator], line[separator + 1..];
      TrimTrims(left, JsSpace);
      TrimTrims(right, JsSpace);
      StartsSolid(left);
    }
  }

  /** Text with a solid first character is not blank. */
  lemma StartsSolid(s: string)
    requires s != "" && !JsSpace(s[0])
    ensures Stripped(s) != ""
  {
    TrimEndKeepsSolid(s);
  }

  lemma {:induction false} TrimEndKeepsSolid(s: string)
    requires s != "" && !JsSpace(s[0])
    ensures TrimEnd(s, JsSpace) != ""
  {
    if JsSpace(s[|s| - 1]) {
      TrimEndKeepsSolid(s[..|s| - 1]);
    }
  }

  lemma {:induction false} ParsedIsPrintable(lines: seq<string>, index: nat, found: Match)
    requires forall i | 0 <= i < |lines| :: '\n' !in lines[i]
    requires forall k | k in found :: GoodKey(k) && GoodValue(found[k])
    ensures var r := ParseLines(lines, index, found); r.Ok? ==> Printable(r.value)
  {
    if lines != [] {
      var line := Stripped(lines[0]);
      TrimTrims(lines[0], JsSpace);
      EntryIsGood(line);
      if line == "" {
        ParsedIsPrintable(lines[1..], index + 1, found);
      } else if EntryOf(line).Entry? && EntryOf(line).key !in found {
        ParsedIsPrintable(lines[1..], index + 1, found[EntryOf(line).key := EntryOf(line).value]);
      }
    }
  }

  lemma {:induction false} SplitAtBreak(a: string, rest: string)
    requires '\n' !in a && (a != "" ==> a[|a| - 1] != '\r')
    ensures SplitLines(a + "\n" + rest) == [a] + SplitLines(rest)
  {
    var s := a + "\n" + rest;
    if a == "" {
      assert s[1..] == rest;
    } else {
      SplitAtBreak(a[1..], rest);
      assert s[1..] == a[1..] + "\n" + rest;
      assert a == [a[0]] + a[1..];
    }
  }

  lemma {:induction false} SplitSingle(a: string)
    requires '\n' !in a
    ensures SplitLines(a) == [a]
  {
    if a != "" {
      SplitSingle(a[1..]);
      assert a == [a[0]] + a[1..];
    }
  }

  lemma PrintedEntry(k: string, v: string)
    requires GoodKey(k) && GoodValue(v)
    ensures var line := k + "=" + v; Stripped(line) == line && EntryOf(line) == Entry(k, v) && '\n' !in line
  {
    var line := k + "=" + v;
    assert line[0] == k[0] && line[|line| - 1] == v[|v| - 1];
    TrimKeeps(line, JsSpace);
    TrimKeeps(k, JsSpace);
    TrimKeeps(v, JsSpace);
    FirstEquals(k, v);
    assert line[..|k|] == k && line[|k| + 1..] == v;
  }

  lemma {:induction false} FirstEquals(k: string, v: string)
    requires '=' !in k
    ensures IndexOfEquals(k + "=" + v) == |k|
  {
    if k == "" {
      assert (k + "=" + v)[0] == '=';
    } else {
      FirstEquals(k[1..], v);
      assert (k + "=" + v)[1..] == k[1..] + "=" + v;
    }
  }

  /** The entries already read: those of the keys not still to come. */
  function Without(m: Match, order: seq<string>): Match {
    map k | k in m && k !in order :: m[k]
  }

  lemma WithoutStep(m: Match, order: seq<string>)
    requires order != [] && order[0] in m && order[0] !in order[1..]
    ensures order[0] !in Without(m, order)
    ensures Without(m, order)[order[0] := m[order[0]]] == Without(m, order[1..])
  {}

  lemma ParsePrintedLine(k: string, v: string, rest: seq<string>, index: nat, found: Match)
    requires GoodKey(k) && GoodValue(v) && k !in found
    ensures ParseLines([k + "=" + v] + rest, index, found) == ParseLines(rest, index + 1, found[k := v])
  {
    PrintedEntry(k, v);
    assert ([k + "=" + v] + rest)[1..] == rest;
  }

  lemma PrintedLines(order: seq<string>, m: Match)
    requires order != [] && forall k | k in order :: k in m
    requires GoodKey(order[0]) && GoodValue(m[order[0]])
    ensures SplitLines(Print(order, m))
         == [order[0] + "=" + m[order[0]]] + if |order| == 1 then [] else SplitLines(Print(order[1..], m))
  {
    var line := order[0] + "=" + m[order[0]];
    PrintedEntry(order[0], m[order[0]]);
    if |order| == 1 {
      SplitSingle(line);
    } else {
      SplitAtBreak(line, Print(order[1..], m));
    }
  }

  lemma {:induction false} PrintedLinesParse(order: seq<string>, m: Match, index: nat)
    requires Printable(m) && order != []
    requires forall k | k in order :: k in m
    requires forall i, j | 0 <= i < j < |order| :: order[i] != order[j]
    ensures ParseLines(SplitLines(Print(order, m)), index, Without(m, order)) == Ok(m)
  {
    var k, rest := order[0], order[1..];
    var found := Without(m, order);
    PrintedLines(order, m);
    WithoutStep(m, order);
    if |order| == 1 {
      ParsePrintedLine(k, m[k], [], index, found);
      assert Without(m, rest) == m;
    } else {
      ParsePrintedLine(k, m[k], SplitLines(Print(rest, m)), index, found);
      PrintedLinesParse(rest, m, index + 1);
    }
  }

  /**
   A match table survives printing and parsing, in whatever order its keys are listed, exactly when it is
   printable.
   */
  lemma PrintThenParseIff(m: Match, order: seq<string>)
    requires Enumerates(order, m)
    ensures Parse(Print(order, m)) == Ok(m) <==> Printable(m)
  {
    if Printable(m) {
      var k :| k in m;
      assert k in order;
      PrintedLinesParse(order, m, 0);
      assert Without(m, order) == map[];
    }
    if Parse(Print(order, m)) == Ok(m) {
      LinesHaveNoBreaks(Print(order, m));
      ParsedIsPrintable(SplitLines(Print(order, m)), 0, map[]);
    }
  }

  /** So whatever the editor accepts it shows again as a text with the same meaning. */
  lemma AcceptedSurvives(raw: string, m: Match, order: seq<string>)
    requires Parse(raw) == Ok(m) && Enumerates(order, m)
    ensures Parse(Print(order, m)) == Ok(m)
  {
    LinesHaveNoBreaks(raw);
    ParsedIsPrintable(SplitLines(raw), 0, map[]);
    PrintThenParseIff(m, order);
  }

  // ---- The whole table ----

  datatype Row = Row(text: string, policy: string)
  datatype Rule = Rule(conditions: Match, policy: string)

  /** The rules in the table, or None as soon as one row does not parse. */
  function Collected(rows: seq<Row>): Option<seq<Rule>> {
    if rows == [] then Some([])
    else
      var first, rest := Parse(rows[0].text), Collected(rows[1..]);
      if first.Err? || rest.None? then None else Some([Rule(first.value, rows[0].policy)] + rest.value)
  }

  function Prepended(before: seq<Rule>, rest: Option<seq<Rule>>): Option<seq<Rule>> {
    if rest.None? then None else Some(before + rest.value)
  }

  lemma NothingPrepended(rest: Option<seq<Rule>>)
    ensures Prepended([], rest) == rest
  {
    assert rest.Some? ==> [] + rest.value == rest.value;
  }

  lemma PrependedMore(before: seq<Rule>, rule: Rule, rest: Option<seq<Rule>>)
    ensures Prepended(before, Prepended([rule], rest)) == Prepended(before + [rule], rest)
  {
    assert rest.Some? ==> before + ([rule] + rest.value) == before + [rule] + rest.value;
  }

  lemma CollectedFrom(rows: seq<Row>, index: nat)
    requires index < |rows|
    ensures var parsed := Parse(rows[index].text);
            Collected(rows[index..]) ==
            if parsed.Err? then None
            else Prepended([Rule(parsed.value, rows[index].policy)], Collected(rows[index + 1..]))
  {
    var rest := rows[index..];
    assert rest[0] == rows[index] && rest[1..] == rows[index + 1..];
  }

  /** The message for one row, counted from zero. */
  datatype Complaint = Complaint(row: nat, problem: Problem)

  /** The complaint is about the first row that does not parse. */
  predicate IsFirstProblem(rows: seq<Row>, c: Complaint) {
    && c.row < |rows|
    && Parse(rows[c.row].text) == Err(c.problem)
    && forall i | 0 <= i < c.row :: Parse(rows[i].text).Ok?
  }

  /** Either all the rules, or the complaint that the editor shows. */
  method CollectValidRules(rows: seq<Row>) returns (r: Result<seq<Rule>, Complaint>)
    ensures r.Ok? ==> Collected(rows) == Some(r.value)
    ensures r.Err? ==> Collected(rows) == None && IsFirstProblem(rows, r.error)
  {
    var collected: seq<Rule> := [];
    assert rows[0..] == rows;
    NothingPrepended(Collected(rows));
    for index := 0 to |rows|
      invariant Collected(rows) == Prepended(collected, Collected(rows[index..]))
      invariant forall i | 0 <= i < index :: Parse(rows[i].text).Ok?
    {
      var parsed := ParseRuleMatch(rows[index].text);
      CollectedFrom(rows, index);
      if parsed.Err? {
        return Err(Complaint(index, parsed.error));
      }
      PrependedMore(collected, Rule(parsed.value, rows[index].policy), Collected(rows[index + 1..]));
      collected := collected + [Rule(parsed.value, rows[index].policy)];
    }
    assert collected + [] == collected;
    return Ok(collected);
  }

  /** The rows shown for these rules, with the keys of each rule listed in the given order. */
  function Shown(rules: seq<Rule>, orders: seq<seq<string>>): seq<Row>
    requires |orders| == |rules|
    requires forall i | 0 <= i < |rules| :: Enumerates(orders[i], rules[i].conditions)
  {
    if rules == [] then []
    else
      assert Enumerates(orders[0], rules[0].conditions);
      [Row(Print(orders[0], rules[0].conditions), rules[0].policy)] + Shown(rules[1..], orders[1..])
  }

  lemma ShownCons(rules: seq<Rule>, orders: seq<seq<string>>)
    requires |orders| == |rules| && rules != []
    requires forall i | 0 <= i < |rules| :: Enumerates(orders[i], rules[i].conditions)
    ensures Enumerates(orders[0], rules[0].conditions)
    ensures Shown(rules, orders)
         == [Row(Print(orders[0], rules[0].conditions), rules[0].policy)] + Shown(rules[1..], orders[1..])
  {}

  /** The row is that of this rule. */
  predicate RowOf(row: Row, rule: Rule) {
    Parse(row.text) == Ok(rule.conditions) && row.policy == rule.policy
  }

  lemma ShownRow(rule: Rule, order: seq<string>)
    requires Enumerates(order, rule.conditions) && Printable(rule.conditions)
    ensures RowOf(Row(Print(order, rule.conditions), rule.policy), rule)
  {
    PrintThenParseIff(rule.conditions, order);
  }

  lemma PrependedFirst(rules: seq<Rule>, rest: Option<seq<Rule>>)
    requires rules != [] && rest == Some(rules[1..])
    ensures Prepended([rules[0]], rest) == Some(rules)
  {
    assert rules == [rules[0]] + rules[1..];
  }

  lemma CollectedRow(row: Row, rest: seq<Row>, rules: seq<Rule>, rule: Rule, more: Option<seq<Rule>>)
    requires rules != [] && rule == rules[0] && RowOf(row, rule) && more == Collected(rest) == Some(rules[1..])
    ensures Collected([row] + rest) == Some(rules)
  {
    CollectedCons(row, rest);
    assert Collected([row] + rest) == Prepended([rule], more);
    PrependedFirst(rules, more);
  }

  /** Saving an untouched table writes back the rules it was filled from. */
  lemma {:induction false} ShownRulesAreCollected(rules: seq<Rule>, orders: seq<seq<string>>)
    requires |orders| == |rules|
    requires forall i | 0 <= i < |rules| :: Enumerates(orders[i], rules[i].conditions) && Printable(rules[i].conditions)
    ensures Collected(Shown(rules, orders)) == Some(rules)
  {
    if rules != [] {
      var row := Row(Print(orders[0], rules[0].conditions), rules[0].policy);
      ShownCons(rules, orders);
      ShownRow(rules[0], orders[0]);
      ShownRulesAreCollected(rules[1..], orders[1..]);
      var rest := Shown(rules[1..], orders[1..]);
      CollectedRow(row, rest, rules, rules[0], Collected(rest));
    }
  }

  lemma CollectedCons(row: Row, rest: seq<Row>)
    ensures Collected([row] + rest) ==
            if Parse(row.text).Err? then None
            else Prepended([Rule(Parse(row.text).value, row.policy)], Collected(rest))
  {
    assert ([row] + rest)[1..] == rest;
  }
}
