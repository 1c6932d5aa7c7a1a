/** The phrases view: a formatter that assembles one row out of several log lines, remembering stages in its context. */
module Phrases {
  import opened Lua

  /** The fields of an entry the formatter reads, and the format it was read by. */
  datatype Line = Line(format: string, app: string, fromHandler: bool, uuid: Value, content: string)

  /** A compiled extractor: `None` when it does not match, else its first capture (`False` if that took no part). */
  type Extractor = string -> Option<Value>

  datatype Extractors = Extractors(phrase: Extractor, skipped: Extractor, digest: Extractor,
                                   trans: Extractor, translated: Extractor, linked: Extractor)

  /** The view's context; `False` stands for an absent field too. */
  datatype Context = Context(phrase: Value, uuid: Value, digest: Value, trans: Value, status: Value, linked: Value,
                             translated: bool, checkedForSkipping: bool, done: bool)

  const EMPTY := Context(False, False, False, False, False, False, false, false, false)

  datatype Row = Row(uuid: Value, phrase: Value, digest: Value, trans: Value, linked: Value, status: Value)

  function CreateEntry(c: Context): Row {
    Row(c.uuid, c.phrase, c.digest, c.trans, c.linked, c.status)
  }

  /** Lines of other formats, programs and modules are ignored. */
  predicate Ours(l: Line) {
    l.format == "requests" && l.app == "dakapi" && l.fromHandler
  }

  predicate Hit(x: Extractor, l: Line) {
    x(l.content).Some? && x(l.content).value.Text?
  }

  function Worded(v: Value, word: string, yes: string, no: string): Value {
    if v == Text(word) then Text(yes) else Text(no)
  }

  /** One call of the formatter: the context it leaves behind, and the row it commits, if any. */
  function Format(x: Extractors, c: Context, l: Line): (Context, Option<Row>) {
    if !Ours(l) then (c, None)
    else if c.phrase.Text? && !c.checkedForSkipping && x.skipped(l.content).Some? then
      var skipped := x.skipped(l.content).value;
      var c' := if skipped.Text? then c.(digest := skipped, status := Text("Skipped"))
        else c.(status := Text("Filtered"));
      (c', Some(CreateEntry(c')))
    else
      var c := if c.phrase.Text? then c.(checkedForSkipping := true) else c;
      var c' := Advance(x, c, l);
      (c', if c'.done then Some(CreateEntry(c')) else None)
  }

  /** At most one stage is filled per call. */
  function Advance(x: Extractors, c: Context, l: Line): Context {
    if c.phrase.False? then
      var m := x.phrase(l.content);
      if m.Some? then c.(phrase := m.value, uuid := l.uuid) else c
    else if c.digest.False? then
      var m := x.digest(l.content);
      if m.Some? then c.(digest := m.value) else c
    else if c.trans.False? then
      var m := x.trans(l.content);
      if m.Some? then c.(trans := m.value) else c
    else if !c.translated then
      var m := x.translated(l.content);
      if m.Some? then c.(status := Worded(m.value, "was", "Translated", "Proxied"), translated := true) else c
    else if c.linked.False? then
      var m := x.linked(l.content);
      if m.Some? then c.(linked := Worded(m.value, "is", "Yes", "No"), done := true) else c
    else c
  }

  /** A committed row and the position of the line it was committed on. */
  datatype Commit = Commit(at: nat, row: Row)

  /** The engine's use of the view, from line `i` on: the context is emptied after every commit. */
  function Rows(x: Extractors, c: Context, lines: seq<Line>, i: nat): seq<Commit>
    requires i <= |lines|
    decreases |lines| - i
  {
    if i == |lines| then []
    else
      var (c', row) := Format(x, c, lines[i]);
      if row.Some? then [Commit(i, row.value)] + Rows(x, EMPTY, lines, i + 1) else Rows(x, c', lines, i + 1)
  }

  // ----- the reference: read rows off the lines -----

  datatype Kind = Any | Phrase | Digest | Trans | Status | Link

  predicate Is(x: Extractors, kind: Kind, l: Line) {
    l.format == "requests" && l.app == "dakapi" && l.fromHandler && match kind
      case Any => true
      case Phrase => Hit(x.phrase, l)
      case Digest => Hit(x.digest, l)
      case Trans => Hit(x.trans, l)
      case Status => x.translated(l.content).Some?
      case Link => x.linked(l.content).Some?
  }

  /** Least position from `i` on of a line of this kind; the number of lines if there is none. */
  function Next(x: Extractors, lines: seq<Line>, i: nat, kind: Kind): (r: nat)
    requires i <= |lines|
    ensures i <= r <= |lines|
    ensures r < |lines| ==> Is(x, kind, lines[r])
    decreases |lines| - i
  {
    if i == |lines| || Is(x, kind, lines[i]) then i else Next(x, lines, i + 1, kind)
  }

  lemma {:induction false} NextIsLeast(x: Extractors, lines: seq<Line>, i: nat, kind: Kind, m: nat)
    requires i <= |lines| && i <= m < Next(x, lines, i, kind)
    ensures !Is(x, kind, lines[m])
    decreases |lines| - i
  {
    if i < m { NextIsLeast(x, lines, i + 1, kind, m); }
  }

  /** Where a row's parts come from. */
  datatype Source =
    | SkippedAt(phrase: nat, skip: nat)
    | FullAt(phrase: nat, digest: nat, trans: nat, translated: nat, linked: nat)

  function LastLine(s: Source): nat {
    match s case SkippedAt(_, skip) => skip case FullAt(_, _, _, _, linked) => linked
  }

  /** The first digest, translation id, status and link lines after a phrase line, each after the one before. */
  function Complete(x: Extractors, lines: seq<Line>, p: nat): (r: Option<Source>)
    requires p < |lines|
    ensures r.Some? ==> p < LastLine(r.value) < |lines|
  {
    var d := Next(x, lines, p + 1, Digest);
    if d == |lines| then None else
    var t := Next(x, lines, d + 1, Trans);
    if t == |lines| then None else
    var r := Next(x, lines, t + 1, Status);
    if r == |lines| then None else
    var k := Next(x, lines, r + 1, Link);
    if k == |lines| then None else Some(FullAt(p, d, t, r, k))
  }

  /** A phrase line; then either the very next of our lines reports it skipped, or four more lines complete it. */
  function Parse(x: Extractors, lines: seq<Line>, i: nat): seq<Source>
    requires i <= |lines|
    decreases |lines| - i
  {
    var p := Next(x, lines, i, Phrase);
    if p == |lines| then []
    else
      var n := Next(x, lines, p + 1, Any);
      if n < |lines| && x.skipped(lines[n].content).Some? then [SkippedAt(p, n)] + Parse(x, lines, n + 1)
      else match Complete(x, lines, p)
        case None => []
        case Some(s) => [s] + Parse(x, lines, LastLine(s) + 1)
  }

  ghost predicate InRange(lines: seq<Line>, x: Extractors, s: Source) {
    match s
    case SkippedAt(p, n) =>
      p < n < |lines| && Is(x, Phrase, lines[p]) && Is(x, Any, lines[n]) && x.skipped(lines[n].content).Some?
    case FullAt(p, d, t, r, k) =>
      && p < d < t < r < k < |lines|
      && Is(x, Phrase, lines[p]) && Is(x, Digest, lines[d]) && Is(x, Trans, lines[t])
      && Is(x, Status, lines[r]) && Is(x, Link, lines[k])
  }

  /** The row assembled from the lines a source names. */
  ghost function RowOf(x: Extractors, lines: seq<Line>, s: Source): Row
    requires InRange(lines, x, s)
  {
    match s
    case SkippedAt(p, n) =>
      var skipped := x.skipped(lines[n].content).value;
      Row(lines[p].uuid, x.phrase(lines[p].content).value, skipped, False, False,
          if skipped.Text? then Text("Skipped") else Text("Filtered"))
    case FullAt(p, d, t, r, k) =>
      Row(lines[p].uuid, x.phrase(lines[p].content).value, x.digest(lines[d].content).value,
        x.trans(lines[t].content).value,
          if x.linked(lines[k].content).value == Text("is") then Text("Yes") else Text("No"),
          if x.translated(lines[r].content).value == Text("was") then Text("Translated") else Text("Proxied"))
  }

  /** The machine has committed exactly the rows the reference reads off. */
  ghost predicate Matches(x: Extractors, lines: seq<Line>, rows: seq<Commit>, sources: seq<Source>) {
    |rows| == |sources| && forall j :: 0 <= j < |rows| ==>
      InRange(lines, x, sources[j]) && rows[j] == Commit(LastLine(sources[j]), RowOf(x, lines, sources[j]))
  }

  // ----- stage by stage -----

  lemma {:induction false} Stage0(x: Extractors, uuid: Value, lines: seq<Line>, i: nat)
    requires i <= |lines|
    ensures var p := Next(x, lines, i, Phrase);
      Rows(x, EMPTY.(uuid := uuid), lines, i)
        == if p == |lines| then [] else Rows(x, AfterPhrase(x, lines[p]), lines, p + 1)
    decreases |lines| - i
  {
    if i < |lines| && !Is(x, Phrase, lines[i]) {
      Stage0(x, Format(x, EMPTY.(uuid := uuid), lines[i]).0.uuid, lines, i + 1);
    }
  }

  function AfterPhrase(x: Extractors, l: Line): Context
    requires x.phrase(l.content).Some?
  {
    EMPTY.(phrase := x.phrase(l.content).value, uuid := l.uuid)
  }

  /** Right after the phrase: the next of our lines either reports it skipped or starts the search for the digest. */
  lemma {:induction false} Stage1(x: Extractors, c: Context, lines: seq<Line>, i: nat)
    requires i <= |lines| && c.phrase.Text? && c == EMPTY.(phrase := c.phrase, uuid := c.uuid)
    ensures var n := Next(x, lines, i, Any);
      Rows(x, c, lines, i)
        == if n == |lines| then []
           else if x.skipped(lines[n].content).Some? then
             var v := x.skipped(lines[n].content).value;
             [Commit(n, Row(c.uuid, c.phrase, v, False, False, if v.Text? then Text("Skipped") else Text("Filtered")))]
               + Rows(x, EMPTY, lines, n + 1)
           else Rows(x, c.(checkedForSkipping := true), lines, n)
    decreases |lines| - i
  {
    if i < |lines| && !Ours(lines[i]) {
      Stage1(x, c, lines, i + 1);
    }
  }

  /** The context waits for the digest, the translation id, the status or the link. */
  ghost predicate Waits(c: Context, kind: Kind) {
    && c.phrase.Text? && c.checkedForSkipping && !c.done && c.linked.False?
    && match kind
       case Digest => c.digest.False? && c.trans.False? && !c.translated
       case Trans => c.digest.Text? && c.trans.False? && !c.translated
       case Status => c.digest.Text? && c.trans.Text? && !c.translated
       case Link => c.digest.Text? && c.trans.Text? && c.translated
       case _ => false
  }

  lemma {:induction false} StageWaiting(x: Extractors, c: Context, kind: Kind, lines: seq<Line>, i: nat)
    requires i <= |lines| && Waits(c, kind)
    ensures var n := Next(x, lines, i, kind);
      && (n == |lines| ==> Rows(x, c, lines, i) == [])
      && (n < |lines| ==> Rows(x, c, lines, i) == Rows(x, c, lines, n))
    decreases |lines| - i
  {
    if i < |lines| && !Is(x, kind, lines[i]) {
      StageWaiting(x, c, kind, lines, i + 1);
      assert Format(x, c, lines[i]) == (c, None);
    }
  }

  lemma {:induction false} NextOfOurs(x: Extractors, lines: seq<Line>, i: nat, kind: Kind)
    requires i <= |lines|
    ensures Next(x, lines, Next(x, lines, i, Any), kind) == Next(x, lines, i, kind)
    decreases |lines| - i
  {
    if i < |lines| && !Ours(lines[i]) {
      NextOfOurs(x, lines, i + 1, kind);
    }
  }

  // ----- the machine and the reference agree -----

  lemma Linking(x: Extractors, c: Context, lines: seq<Line>, i: nat)
    requires i <= |lines| && Waits(c, Link)
    ensures var k := Next(x, lines, i, Link);
      Rows(x, c, lines, i)
        == if k == |lines| then []
           else
             [Commit(k, CreateEntry(c.(linked := Worded(x.linked(lines[k].content).value, "is", "Yes", "No"))))]
             + Rows(x, EMPTY, lines, k + 1)
  {
    StageWaiting(x, c, Link, lines, i);
  }

  lemma Translating(x: Extractors, c: Context, lines: seq<Line>, i: nat)
    requires i <= |lines| && Waits(c, Status)
    ensures var r := Next(x, lines, i, Status);
      Rows(x, c, lines, i)
        == if r == |lines| then []
           else
             var status := Worded(x.translated(lines[r].content).value, "was", "Translated", "Proxied");
             Rows(x, c.(status := status, translated := true), lines, r + 1)
  {
    StageWaiting(x, c, Status, lines, i);
  }

  lemma Identifying(x: Extractors, c: Context, lines: seq<Line>, i: nat)
    requires i <= |lines| && Waits(c, Trans)
    ensures var t := Next(x, lines, i, Trans);
      Rows(x, c, lines, i)
        == if t == |lines| then [] else Rows(x, c.(trans := x.trans(lines[t].content).value), lines, t + 1)
  {
    StageWaiting(x, c, Trans, lines, i);
  }

  lemma Digesting(x: Extractors, c: Context, lines: seq<Line>, i: nat)
    requires i <= |lines| && Waits(c, Digest)
    ensures var d := Next(x, lines, i, Digest);
      Rows(x, c, lines, i)
        == if d == |lines| then [] else Rows(x, c.(digest := x.digest(lines[d].content).value), lines, d + 1)
  {
    StageWaiting(x, c, Digest, lines, i);
  }

  /** The last two stages. */
  lemma CompletingStatus(x: Extractors, lines: seq<Line>, i: nat, c: Context)
    requires i <= |lines| && Waits(c, Status)
    ensures var r := Next(x, lines, i, Status);
      if r == |lines| then Rows(x, c, lines, i) == [] else
      var k := Next(x, lines, r + 1, Link);
      if k == |lines| then Rows(x, c, lines, i) == [] else
        Rows(x, c, lines, i) == [Commit(k, Row(c.uuid, c.phrase, c.digest, c.trans,
            Worded(x.linked(lines[k].content).value, "is", "Yes", "No"),
            Worded(x.translated(lines[r].content).value, "was", "Translated", "Proxied")))]
              + Rows(x, EMPTY, lines, k + 1)
  {
    hide Rows, Next, Worded;
    Translating(x, c, lines, i);
    var r := Next(x, lines, i, Status);
    if r < |lines| {
      var c5 := c.(status := Worded(x.translated(lines[r].content).value, "was", "Translated", "Proxied"),
        translated := true);
      Linking(x, c5, lines, r + 1);
    }
  }

  /** The four stages that follow an unskipped phrase. */
  lemma Completing(x: Extractors, lines: seq<Line>, p: nat, c: Context)
    requires p < |lines| && Is(x, Phrase, lines[p]) && c == AfterPhrase(x, lines[p]).(checkedForSkipping := true)
    ensures match Complete(x, lines, p)
      case None => Rows(x, c, lines, p + 1) == []
      case Some(s) =>
        && InRange(lines, x, s)
        && Rows(x, c, lines, p + 1)
          == [Commit(LastLine(s), RowOf(x, lines, s))] + Rows(x, EMPTY, lines, LastLine(s) + 1)
  {
    hide Rows, Next;
    Digesting(x, c, lines, p + 1);
    var d := Next(x, lines, p + 1, Digest);
    if d < |lines| {
      var c3 := c.(digest := x.digest(lines[d].content).value);
      Identifying(x, c3, lines, d + 1);
      var t := Next(x, lines, d + 1, Trans);
      if t < |lines| {
        CompletingStatus(x, lines, t + 1, c3.(trans := x.trans(lines[t].content).value));
      }
    }
  }

  /** After a skip check that found nothing, waiting from the checked line on is waiting from the phrase on. */
  lemma WaitingFromPhrase(x: Extractors, lines: seq<Line>, p: nat, c: Context)
    requires p < |lines| && Waits(c, Digest)
    ensures var n := Next(x, lines, p + 1, Any);
      Rows(x, c, lines, p + 1) == if n == |lines| then [] else Rows(x, c, lines, n)
  {
    var n := Next(x, lines, p + 1, Any);
    NextOfOurs(x, lines, p + 1, Digest);
    StageWaiting(x, c, Digest, lines, p + 1);
    StageWaiting(x, c, Digest, lines, n);
  }

  lemma MatchesMore(x: Extractors, lines: seq<Line>, row: Commit, rows: seq<Commit>, source: Source,
                    sources: seq<Source>)
    requires Matches(x, lines, rows, sources)
    requires InRange(lines, x, source) && row == Commit(LastLine(source), RowOf(x, lines, source))
    ensures Matches(x, lines, [row] + rows, [source] + sources)
  {}

  lemma SkippedRow(x: Extractors, lines: seq<Line>, p: nat, n: nat)
    requires p < n < |lines| && Is(x, Phrase, lines[p]) && Is(x, Any, lines[n]) && x.skipped(lines[n].content).Some?
    ensures InRange(lines, x, SkippedAt(p, n))
    ensures var c := AfterPhrase(x, lines[p]);
      var v := x.skipped(lines[n].content).value;
      RowOf(x, lines, SkippedAt(p, n))
        == Row(c.uuid, c.phrase, v, False, False, if v.Text? then Text("Skipped") else Text("Filtered"))
  {}

  lemma RowsNowhere(x: Extractors, lines: seq<Line>)
    ensures Matches(x, lines, [], [])
  {}

  /** The machine commits exactly the rows the reference reads off the lines, each on the last line it uses. */
  lemma {:induction false} RowsAreParsed(x: Extractors, lines: seq<Line>, i: nat)
    requires i <= |lines|
    ensures Matches(x, lines, Rows(x, EMPTY, lines, i), Parse(x, lines, i))
    decreases |lines| - i
  {
    hide Rows, Next, RowOf, Matches, InRange, Complete;
    RowsNowhere(x, lines);
    Stage0(x, False, lines, i);
    assert EMPTY.(uuid := False) == EMPTY;
    var p := Next(x, lines, i, Phrase);
    if p < |lines| {
      var c := AfterPhrase(x, lines[p]);
      Stage1(x, c, lines, p + 1);
      var n := Next(x, lines, p + 1, Any);
      var c2 := c.(checkedForSkipping := true);
      Completing(x, lines, p, c2);
      if n < |lines| && x.skipped(lines[n].content).Some? {
        RowsAreParsed(x, lines, n + 1);
        SkippedRow(x, lines, p, n);
        MatchesMore(x, lines, Commit(n, RowOf(x, lines, SkippedAt(p, n))), Rows(x, EMPTY, lines, n + 1),
                    SkippedAt(p, n), Parse(x, lines, n + 1));
      } else {
        WaitingFromPhrase(x, lines, p, c2);
        match Complete(x, lines, p)
        case None =>
        case Some(s) =>
          RowsAreParsed(x, lines, LastLine(s) + 1);
          var next := LastLine(s) + 1;
          MatchesMore(x, lines, Commit(LastLine(s), RowOf(x, lines, s)), Rows(x, EMPTY, lines, next), s,
            Parse(x, lines, next));
      }
    }
  }

  /** The words in a committed row: of a row that was skipped or filtered, and of one that was completed. */
  lemma RowWords(x: Extractors, lines: seq<Line>, i: nat, j: nat)
    requires i <= |lines| && j < |Rows(x, EMPTY, lines, i)|
    ensures j < |Parse(x, lines, i)| && InRange(lines, x, Parse(x, lines, i)[j])
    ensures var row := Rows(x, EMPTY, lines, i)[j].row;
      match Parse(x, lines, i)[j]
      case SkippedAt(p, n) =>
        var reported := x.skipped(lines[n].content).value;
        && (reported.Text? ==> row.status == Text("Skipped") && row.digest == reported)
        && (reported.False? ==> row.status == Text("Filtered") && row.digest == False)
        && row.trans == False && row.linked == False
      case FullAt(p, d, t, r, k) =>
        var translated, linked := x.translated(lines[r].content).value, x.linked(lines[k].content).value;
        && (row.status == Text("Translated") <==> translated == Text("was"))
        && (row.status == Text("Proxied") <==> translated != Text("was"))
        && (row.linked == Text("Yes") <==> linked == Text("is"))
        && (row.linked == Text("No") <==> linked != Text("is"))
  {
    hide Rows, Parse;
    RowsAreParsed(x, lines, i);
  }

  function FirstLine(s: Source): nat {
    match s case SkippedAt(phrase, _) => phrase case FullAt(phrase, _, _, _, _) => phrase
  }

  lemma ParseUnfolds(x: Extractors, lines: seq<Line>, i: nat)
    requires i <= |lines| && Parse(x, lines, i) != []
    ensures var s := Parse(x, lines, i)[0];
      && i <= FirstLine(s) < LastLine(s) < |lines|
      && Parse(x, lines, i)[1..] == Parse(x, lines, LastLine(s) + 1)
  {
    hide Complete, Next, Is;
    CompleteStarts(x, lines, Next(x, lines, i, Phrase));
  }

  lemma CompleteStarts(x: Extractors, lines: seq<Line>, p: nat)
    requires p <= |lines|
    ensures p < |lines| && Complete(x, lines, p).Some? ==> FirstLine(Complete(x, lines, p).value) == p
  {}

  /** Rows come in the order of their lines. */
  lemma {:induction false} RowsAfter(x: Extractors, lines: seq<Line>, i: nat, m: nat)
    requires i <= |lines| && m < |Parse(x, lines, i)|
    ensures i <= FirstLine(Parse(x, lines, i)[m]) < LastLine(Parse(x, lines, i)[m])
    decreases |lines| - i
  {
    hide Parse, FirstLine, LastLine, Complete, Next, Is;
    ParseUnfolds(x, lines, i);
    if m > 0 {
      var from := LastLine(Parse(x, lines, i)[0]) + 1;
      assert Parse(x, lines, i)[m] == Parse(x, lines, i)[1..][m - 1];
      RowsAfter(x, lines, from, m - 1);
    }
  }

  /** No line feeds two rows: each row starts after the one before has been committed. */
  lemma {:induction false} RowsSeparate(x: Extractors, lines: seq<Line>, i: nat, j: nat, m: nat)
    requires i <= |lines| && j < m < |Parse(x, lines, i)|
    ensures LastLine(Parse(x, lines, i)[j]) < FirstLine(Parse(x, lines, i)[m])
    decreases |lines| - i
  {
    hide Parse, FirstLine, LastLine, Complete, Next, Is;
    ParseUnfolds(x, lines, i);
    var from := LastLine(Parse(x, lines, i)[0]) + 1;
    if j > 0 {
      RowsSeparate(x, lines, from, j - 1, m - 1);
    } else {
      RowsAfter(x, lines, from, m - 1);
    }
  }

  // ----- when the formatter runs several times per line -----

  /** As `Rows`, with the formatter run `times` times on every line: once per entry of the view in the active list. */
  function RowsRepeated(x: Extractors, c: Context, lines: seq<Line>, i: nat, times: nat, left: nat): seq<Commit>
    requires i <= |lines| && left <= times
    decreases |lines| - i, left
  {
    if i == |lines| then []
    else if left == 0 then RowsRepeated(x, c, lines, i + 1, times, times)
    else
      var (c', row) := Format(x, c, lines[i]);
      if row.Some? then [Commit(i, row.value)] + RowsRepeated(x, EMPTY, lines, i, times, left - 1)
      else RowsRepeated(x, c', lines, i, times, left - 1)
  }

  lemma {:induction false} OnceIsRows(x: Extractors, c: Context, lines: seq<Line>, i: nat, left: nat)
    requires i <= |lines| && left <= 1
    ensures RowsRepeated(x, c, lines, i, 1, left)
         == if left == 1 || i == |lines| then Rows(x, c, lines, i) else Rows(x, c, lines, i + 1)
    decreases |lines| - i, left
  {
    if i < |lines| {
      if left == 0 {
        OnceIsRows(x, c, lines, i + 1, 1);
      } else {
        var (c', row) := Format(x, c, lines[i]);
        OnceIsRows(x, if row.Some? then EMPTY else c', lines, i, 0);
      }
    }
  }

  /** A phrase line reports nothing as skipped and completes no row. */
  ghost predicate PhrasesApart(x: Extractors, lines: seq<Line>) {
    forall i :: 0 <= i < |lines| && Ours(lines[i]) && x.phrase(lines[i].content).Some? ==>
      x.skipped(lines[i].content) == None && x.linked(lines[i].content) == None
  }

  /** The phrase is set and the skip check is still due. */
  predicate SkipCheckDue(c: Context) {
    c.phrase.Text? && !c.checkedForSkipping
  }

  ghost predicate NoSkipRow(rows: seq<Commit>) {
    forall j :: 0 <= j < |rows| ==> rows[j].row.linked.Text?
  }

  /** Run more than once per line, the view never reports a phrase as skipped or filtered:
      the second run spends the skip check on the phrase line itself. */
  lemma {:induction false} SkipsLost(x: Extractors, c: Context, lines: seq<Line>, i: nat, times: nat, left: nat)
    requires i <= |lines| && left <= times && times >= 2 && PhrasesApart(x, lines)
    requires !c.done && c.linked.False?
    requires SkipCheckDue(c) ==> left == times - 1 && i < |lines| && Is(x, Phrase, lines[i])
    requires left < times && i < |lines| && Is(x, Phrase, lines[i]) ==> c.phrase.Text?
    ensures NoSkipRow(RowsRepeated(x, c, lines, i, times, left))
    decreases |lines| - i, left
  {
    if i < |lines| {
      if left == 0 {
        SkipsLost(x, c, lines, i + 1, times, times);
      } else {
        var (c', row) := Format(x, c, lines[i]);
        SkipsLost(x, if row.Some? then EMPTY else c', lines, i, times, left - 1);
      }
    }
  }

  /** How many stages the line can fill. */
  function Roles(x: Extractors, l: Line): nat {
    (if x.phrase(l.content).Some? then 1 else 0) + (if x.skipped(l.content).Some? then 1 else 0)
    + (if Hit(x.digest, l) then 1 else 0) + (if Hit(x.trans, l) then 1 else 0)
    + (if x.translated(l.content).Some? then 1 else 0) + (if x.linked(l.content).Some? then 1 else 0)
  }

  /** No line of ours can fill two stages. */
  ghost predicate OneRole(x: Extractors, lines: seq<Line>) {
    forall i :: 0 <= i < |lines| && Ours(lines[i]) ==> Roles(x, lines[i]) <= 1
  }

  /** The context between two lines. */
  ghost predicate Open(c: Context) {
    !c.done && c.linked.False?
  }

  /** What the context becomes when the formatter is run again on the same line. */
  function Spent(c: Context): Context {
    if SkipCheckDue(c) then c.(checkedForSkipping := true) else c
  }

  function AfterRun(x: Extractors, c: Context, l: Line): Context {
    if Format(x, c, l).1.Some? then EMPTY else Format(x, c, l).0
  }

  /** A second run on a line only spends the skip check, and further runs do nothing. */
  lemma SecondRun(x: Extractors, c: Context, l: Line)
    requires Open(c) && Ours(l) && Roles(x, l) <= 1
    ensures var c' := AfterRun(x, c, l);
      && Open(c') && Format(x, c', l) == (Spent(c'), None) && Format(x, Spent(c'), l) == (Spent(c'), None)
  {}

  /** A spent skip check makes a difference only on a line that reports the phrase skipped. */
  lemma SpentRuns(x: Extractors, c: Context, l: Line)
    requires Open(c)
    requires Ours(l) && SkipCheckDue(c) ==> x.skipped(l.content) == None
    ensures if Ours(l) then Format(x, Spent(c), l) == Format(x, c, l)
            else Format(x, c, l) == (c, None) && Format(x, Spent(c), l) == (Spent(c), None)
  {}

  lemma {:induction false} IdleRuns(x: Extractors, c: Context, lines: seq<Line>, i: nat, times: nat, left: nat)
    requires i < |lines| && left <= times && Format(x, c, lines[i]) == (c, None)
    ensures RowsRepeated(x, c, lines, i, times, left) == RowsRepeated(x, c, lines, i + 1, times, times)
    decreases left
  {
    if left > 0 { IdleRuns(x, c, lines, i, times, left - 1); }
  }

  /** One line, run several times: the row of one run, and then the spent context of one run. */
  lemma RunsOnOneLine(x: Extractors, c: Context, lines: seq<Line>, i: nat, times: nat)
    requires i < |lines| && times >= 2 && Open(c)
    requires Ours(lines[i]) ==> Roles(x, lines[i]) <= 1
    requires Ours(lines[i]) && SkipCheckDue(c) ==> x.skipped(lines[i].content) == None
    ensures var (c', row) := (AfterRun(x, c, lines[i]), Format(x, c, lines[i]).1);
      && Open(c')
      && RowsRepeated(x, Spent(c), lines, i, times, times)
           == (if row.Some? then [Commit(i, row.value)] else [])
             + RowsRepeated(x, Spent(c'), lines, i + 1, times, times)
  {
    var l := lines[i];
    var c' := AfterRun(x, c, l);
    SpentRuns(x, c, l);
    if Ours(l) {
      SecondRun(x, c, l);
      hide Format, RowsRepeated;
      OneRun(x, Spent(c), lines, i, times, times);
      OneRun(x, c', lines, i, times, times - 1);
      IdleRuns(x, Spent(c'), lines, i, times, times - 2);
    } else {
      hide Format, RowsRepeated;
      IdleRuns(x, Spent(c), lines, i, times, times);
    }
  }

  lemma OneRun(x: Extractors, c: Context, lines: seq<Line>, i: nat, times: nat, left: nat)
    requires i < |lines| && 0 < left <= times
    ensures RowsRepeated(x, c, lines, i, times, left)
         == (if Format(x, c, lines[i]).1.Some? then [Commit(i, Format(x, c, lines[i]).1.value)] else [])
            + RowsRepeated(x, AfterRun(x, c, lines[i]), lines, i, times, left - 1)
  {}

  lemma OneLine(x: Extractors, c: Context, lines: seq<Line>, i: nat)
    requires i < |lines|
    ensures Rows(x, c, lines, i)
         == (if Format(x, c, lines[i]).1.Some? then [Commit(i, Format(x, c, lines[i]).1.value)] else [])
            + Rows(x, AfterRun(x, c, lines[i]), lines, i + 1)
  {}

  /** A phrase reported skipped commits a row without a link. */
  lemma SkipCommits(x: Extractors, c: Context, lines: seq<Line>, i: nat)
    requires i < |lines| && Open(c) && NoSkipRow(Rows(x, c, lines, i))
    ensures Ours(lines[i]) && SkipCheckDue(c) ==> x.skipped(lines[i].content) == None
  {
    assert |Rows(x, c, lines, i)| > 0 ==> Rows(x, c, lines, i)[0].row.linked.Text?;
  }

  lemma NoMoreLines(x: Extractors, c: Context, lines: seq<Line>, times: nat)
    ensures Rows(x, c, lines, |lines|) == [] == RowsRepeated(x, c, lines, |lines|, times, times)
  {}

  lemma NoSkipAfter(first: seq<Commit>, rest: seq<Commit>)
    requires NoSkipRow(first + rest)
    ensures NoSkipRow(rest)
  {
    assert forall j :: 0 <= j < |rest| ==> rest[j] == (first + rest)[|first| + j];
  }

  /** As long as no phrase is reported skipped, running the formatter several times per line changes nothing. */
  lemma {:induction false} Lockstep(x: Extractors, c: Context, lines: seq<Line>, i: nat, times: nat)
    requires i <= |lines| && times >= 2 && Open(c) && OneRole(x, lines) && NoSkipRow(Rows(x, c, lines, i))
    ensures RowsRepeated(x, Spent(c), lines, i, times, times) == Rows(x, c, lines, i)
    decreases |lines| - i
  {
    hide Format, Roles, AfterRun, Rows, RowsRepeated, NoSkipRow, Spent, SkipCheckDue;
    if i == |lines| {
      NoMoreLines(x, c, lines, times);
      NoMoreLines(x, Spent(c), lines, times);
    } else {
      SkipCommits(x, c, lines, i);
      RunsOnOneLine(x, c, lines, i, times);
      OneLine(x, c, lines, i);
      var c' := AfterRun(x, c, lines[i]);
      var first := if Format(x, c, lines[i]).1.Some? then [Commit(i, Format(x, c, lines[i]).1.value)] else [];
      NoSkipAfter(first, Rows(x, c', lines, i + 1));
      Lockstep(x, c', lines, i + 1, times);
    }
  }

  /** The reference reads a skipped phrase off the lines. */
  ghost predicate SomeSkipped(sources: seq<Source>) {
    exists j :: 0 <= j < |sources| && sources[j].SkippedAt?
  }

  lemma SkipRows(x: Extractors, lines: seq<Line>)
    ensures NoSkipRow(Rows(x, EMPTY, lines, 0)) <==> !SomeSkipped(Parse(x, lines, 0))
  {
    hide Rows, Parse;
    RowsAreParsed(x, lines, 0);
    var rows, sources := Rows(x, EMPTY, lines, 0), Parse(x, lines, 0);
    if SomeSkipped(sources) {
      var j :| 0 <= j < |sources| && sources[j].SkippedAt?;
      assert rows[j].row.linked == False;
    } else {
      forall j | 0 <= j < |rows| ensures rows[j].row.linked.Text? { assert sources[j].FullAt?; }
    }
  }

  /** On lines that each fill at most one stage, running the formatter more than once per line commits the same rows
      exactly when no phrase is skipped. */
  lemma RepeatedAgreesIff(x: Extractors, lines: seq<Line>, times: nat)
    requires times >= 2 && OneRole(x, lines)
    ensures RowsRepeated(x, EMPTY, lines, 0, times, times) == Rows(x, EMPTY, lines, 0)
         <==> !SomeSkipped(Parse(x, lines, 0))
  {
    SkipRows(x, lines);
    SkipsLost(x, EMPTY, lines, 0, times, times);
    if !SomeSkipped(Parse(x, lines, 0)) {
      Lockstep(x, EMPTY, lines, 0, times);
    }
  }

  datatype Role = PhraseLine | SkipLine | DigestLine | TransLine | StatusLine | LinkLine

  /** One of our lines that matches the extractor of its role and no other. */
  ghost predicate Plays(x: Extractors, l: Line, role: Role) {
    && Ours(l)
    && (if role.PhraseLine? then Hit(x.phrase, l) else x.phrase(l.content) == None)
    && (if role.SkipLine? then Hit(x.skipped, l) else x.skipped(l.content) == None)
    && (if role.DigestLine? then Hit(x.digest, l) else x.digest(l.content) == None)
    && (if role.TransLine? then Hit(x.trans, l) else x.trans(l.content) == None)
    && (if role.StatusLine? then x.translated(l.content).Some? else x.translated(l.content) == None)
    && (if role.LinkLine? then x.linked(l.content).Some? else x.linked(l.content) == None)
  }

  lemma TwiceQuiet(x: Extractors, c: Context, lines: seq<Line>, i: nat)
    requires i < |lines| && Format(x, c, lines[i]).1 == None
    requires Format(x, Format(x, c, lines[i]).0, lines[i]).1 == None
    ensures RowsRepeated(x, c, lines, i, 2, 2)
         == RowsRepeated(x, Format(x, Format(x, c, lines[i]).0, lines[i]).0, lines, i + 1, 2, 2)
  {
    var c1 := Format(x, c, lines[i]).0;
    assert RowsRepeated(x, c, lines, i, 2, 2) == RowsRepeated(x, c1, lines, i, 2, 1);
    assert RowsRepeated(x, c1, lines, i, 2, 1) == RowsRepeated(x, Format(x, c1, lines[i]).0, lines, i, 2, 0);
  }

  ghost predicate SkippedThenComplete(x: Extractors, lines: seq<Line>) {
    && |lines| == 7
    && Plays(x, lines[0], PhraseLine) && Plays(x, lines[1], SkipLine) && Plays(x, lines[2], PhraseLine)
    && Plays(x, lines[3], DigestLine) && Plays(x, lines[4], TransLine)
    && Plays(x, lines[5], StatusLine) && Plays(x, lines[6], LinkLine)
  }

  lemma {:induction false} NextIs(x: Extractors, lines: seq<Line>, i: nat, kind: Kind, r: nat)
    requires i <= r <= |lines| && (r < |lines| ==> Is(x, kind, lines[r]))
    requires forall m :: i <= m < r ==> !Is(x, kind, lines[m])
    ensures Next(x, lines, i, kind) == r
    decreases r - i
  {
    if i < r { NextIs(x, lines, i + 1, kind, r); }
  }

  /** A skipped phrase followed by a complete one makes two rows. */
  lemma TwoRows(x: Extractors, lines: seq<Line>)
    requires SkippedThenComplete(x, lines)
    ensures Parse(x, lines, 0) == [SkippedAt(0, 1), FullAt(2, 3, 4, 5, 6)]
  {
    hide Next, Complete;
    NextIs(x, lines, 0, Phrase, 0);
    NextIs(x, lines, 1, Any, 1);
    OneFullRow(x, lines);
  }

  lemma OneFullRow(x: Extractors, lines: seq<Line>)
    requires SkippedThenComplete(x, lines)
    ensures Parse(x, lines, 2) == [FullAt(2, 3, 4, 5, 6)]
  {
    hide Next;
    NextIs(x, lines, 2, Phrase, 2);
    NextIs(x, lines, 3, Any, 3);
    NextIs(x, lines, 3, Digest, 3);
    NextIs(x, lines, 4, Trans, 4);
    NextIs(x, lines, 5, Status, 5);
    NextIs(x, lines, 6, Link, 6);
    NextIs(x, lines, 7, Phrase, 7);
    assert Parse(x, lines, 7) == [];
  }

  /** Run twice per line, the view makes one row of them: the skipped phrase with the other phrase's digest. */
  lemma RepeatedRunsMixRows(x: Extractors, lines: seq<Line>)
    requires SkippedThenComplete(x, lines)
    ensures var rows := RowsRepeated(x, EMPTY, lines, 0, 2, 2);
      && |rows| == 1
      && rows[0].row.phrase == x.phrase(lines[0].content).value
      && rows[0].row.digest == x.digest(lines[3].content).value
  {
    var c1 := AfterPhrase(x, lines[0]).(checkedForSkipping := true);
    TwiceQuiet(x, EMPTY, lines, 0);
    TwiceQuiet(x, c1, lines, 1);
    TwiceQuiet(x, c1, lines, 2);
    TwiceQuiet(x, c1, lines, 3);
    var c3 := c1.(digest := x.digest(lines[3].content).value);
    TwiceQuiet(x, c3, lines, 4);
    var c4 := c3.(trans := x.trans(lines[4].content).value);
    TwiceQuiet(x, c4, lines, 5);
    var c5 := c4.(status := Worded(x.translated(lines[5].content).value, "was", "Translated", "Proxied"),
      translated := true);
    assert RowsRepeated(x, EMPTY, lines, 0, 2, 2) == RowsRepeated(x, c5, lines, 6, 2, 2);
    var row := Format(x, c5, lines[6]).1.value;
    assert RowsRepeated(x, c5, lines, 6, 2, 2) == [Commit(6, row)] + RowsRepeated(x, EMPTY, lines, 6, 2, 1);
    assert Format(x, EMPTY, lines[6]) == (EMPTY, None);
    assert RowsRepeated(x, EMPTY, lines, 6, 2, 1) == RowsRepeated(x, EMPTY, lines, 6, 2, 0) == [];
  }

  // ----- the formatter as written -----

  class PhrasesView {
    const x: Extractors
    var context: Context

    constructor (x: Extractors)
      ensures this.x == x && context == EMPTY
    {
      this.x := x;
      context := EMPTY;
    }

    /** The formatter: `true` and a row to commit, or `false`. */
    method FormatLine(l: Line) returns (commit: bool, row: Option<Row>)
      modifies this
      ensures (context, row) == Format(x, old(context), l) && commit == row.Some?
    {
      if !Ours(l) {
        return false, None;
      }
      if context.phrase.Text? && !context.checkedForSkipping {
        var skipped := x.skipped(l.content);
        if skipped.Some? {
          if skipped.value.Text? {
            context := context.(digest := skipped.value);
            context := context.(status := Text("Skipped"));
          } else {
            context := context.(status := Text("Filtered"));
          }
          return true, Some(CreateEntry(context));
        }
        context := context.(checkedForSkipping := true);
      }
      if context.phrase.False? {
        var m := x.phrase(l.content);
        if m.Some? {
          context := context.(phrase := m.value);
          context := context.(uuid := l.uuid);
        }
      } else if context.digest.False? {
        var m := x.digest(l.content);
        if m.Some? { context := context.(digest := m.value); }
      } else if context.trans.False? {
        var m := x.trans(l.content);
        if m.Some? { context := context.(trans := m.value); }
      } else if !context.translated {
        var m := x.translated(l.content);
        if m.Some? {
          context := context.(status := if m.value == Text("was") then Text("Translated") else Text("Proxied"));
          context := context.(translated := true);
        }
      } else if context.linked.False? {
        var m := x.linked(l.content);
        if m.Some? {
          context := context.(linked := if m.value == Text("is") then Text("Yes") else Text("No"));
          context := context.(done := true);
        }
      }
      if context.done {
        return true, Some(CreateEntry(context));
      }
      return false, None;
    }

    /** The engine's loop: one call per line, the context emptied after a commit. */
    method FormatLines(lines: seq<Line>) returns (rows: seq<Commit>)
      modifies this
      ensures rows == Rows(x, old(context), lines, 0)
    {
      rows := [];
      var i := 0;
      while i < |lines|
        invariant 0 <= i <= |lines| && rows + Rows(x, context, lines, i) == Rows(x, old(context), lines, 0)
      {
        ghost var rest := Rows(x, context, lines, i);
        var commit, row := FormatLine(lines[i]);
        if commit {
          context := EMPTY;
          assert rows + ([Commit(i, row.value)] + rest[1..]) == (rows + [Commit(i, row.value)]) + rest[1..];
          rows := rows + [Commit(i, row.value)];
        }
        i := i + 1;
      }
      assert rows + [] == rows;
    }
  }
}
