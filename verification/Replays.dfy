/** The phrases view when a block of lines comes once more: when that leaves the rows as they were. */
module Replays {
  import opened Phrases

  /** The row one run commits, if any. */
  function Output(x: Extractors, c: Context, l: Line): seq<Row> {
    match Format(x, c, l).1
    case None => []
    case Some(row) => [row]
  }

  /** The context after these lines. */
  function Ended(x: Extractors, c: Context, lines: seq<Line>): Context
    decreases |lines|
  {
    if lines == [] then c else Ended(x, AfterRun(x, c, lines[0]), lines[1..])
  }

  /** The rows committed over these lines. */
  function Committed(x: Extractors, c: Context, lines: seq<Line>): seq<Row>
    decreases |lines|
  {
    if lines == [] then [] else Output(x, c, lines[0]) + Committed(x, AfterRun(x, c, lines[0]), lines[1..])
  }

  lemma {:induction false} Continued(x: Extractors, c: Context, lines: seq<Line>, more: seq<Line>)
    ensures Ended(x, c, lines + more) == Ended(x, Ended(x, c, lines), more)
    ensures Committed(x, c, lines + more) == Committed(x, c, lines) + Committed(x, Ended(x, c, lines), more)
    decreases |lines|
  {
    hide AfterRun, Output;
    if lines == [] {
      assert lines + more == more;
    } else {
      assert (lines + more)[1..] == lines[1..] + more;
      Continued(x, AfterRun(x, c, lines[0]), lines[1..], more);
    }
  }

  function RowsOnly(commits: seq<Commit>): seq<Row> {
    seq(|commits|, i requires 0 <= i < |commits| => commits[i].row)
  }

  /** These are the rows of the machine. */
  lemma {:induction false} RowsCommitted(x: Extractors, c: Context, lines: seq<Line>, i: nat)
    requires i <= |lines|
    ensures RowsOnly(Rows(x, c, lines, i)) == Committed(x, c, lines[i..])
    decreases |lines| - i
  {
    if i < |lines| {
      OneLine(x, c, lines, i);
      assert lines[i..][0] == lines[i] && lines[i..][1..] == lines[i + 1..];
      hide Format, AfterRun, Rows;
      RowsCommitted(x, AfterRun(x, c, lines[i]), lines, i + 1);
    }
  }

  // ----- stages -----

  /** The contexts the view gets into between two lines. */
  ghost predicate Proper(c: Context) {
    && Open(c)
    && (c.phrase.False? ==> c == EMPTY.(uuid := c.uuid))
    && (c.digest.False? ==> c.trans.False?)
    && (c.trans.False? ==> !c.translated)
    && (!c.checkedForSkipping ==> c.digest.False?)
  }

  /** How far it has got with a row; 1 means that the skip check is due. */
  function Stage(c: Context): nat {
    if c.phrase.False? then 0
    else if !c.checkedForSkipping then 1
    else if c.digest.False? then 2
    else if c.trans.False? then 3
    else if !c.translated then 4
    else 5
  }

  /** The line is one that the view waits for at this stage; right after a phrase, any line of ours is. */
  predicate Awaited(x: Extractors, stage: nat, l: Line) {
    Ours(l) && match stage
      case 0 => Hit(x.phrase, l)
      case 1 => true
      case 2 => Hit(x.digest, l)
      case 3 => Hit(x.trans, l)
      case 4 => x.translated(l.content).Some?
      case _ => x.linked(l.content).Some?
  }

  /** No line of the block is one that the view waits for. */
  ghost predicate Idle(x: Extractors, c: Context, block: seq<Line>) {
    forall l :: l in block ==> !Awaited(x, Stage(c), l)
  }

  /** Equal, but for the identifier left by a phrase line that captured no phrase. */
  ghost predicate Same(c: Context, c': Context) {
    c' == c.(uuid := c'.uuid) && (c.phrase.Text? ==> c' == c)
  }

  lemma {:induction false} EndedProper(x: Extractors, c: Context, lines: seq<Line>)
    requires Proper(c)
    ensures Proper(Ended(x, c, lines))
    decreases |lines|
  {
    if lines != [] {
      OneProper(x, c, lines[0]);
      hide AfterRun, Proper;
      EndedProper(x, AfterRun(x, c, lines[0]), lines[1..]);
    }
  }

  lemma OneProper(x: Extractors, c: Context, l: Line)
    requires Proper(c)
    ensures Proper(AfterRun(x, c, l))
  {}

  /** A line that is awaited ends the row or brings it a stage further; any other does nothing. */
  lemma AwaitedMoves(x: Extractors, c: Context, l: Line)
    requires Proper(c)
    ensures Awaited(x, Stage(c), l) ==> Output(x, c, l) != [] || Stage(AfterRun(x, c, l)) > Stage(c)
    ensures !Awaited(x, Stage(c), l) ==> Output(x, c, l) == [] && Same(c, AfterRun(x, c, l))
  {}

  lemma OneSame(x: Extractors, c: Context, c': Context, l: Line)
    requires Proper(c) && Proper(c') && Same(c, c')
    ensures Output(x, c, l) == Output(x, c', l) && Same(AfterRun(x, c, l), AfterRun(x, c', l))
  {}

  /** The difference is never seen. */
  lemma {:induction false} SameForever(x: Extractors, c: Context, c': Context, lines: seq<Line>)
    requires Proper(c) && Proper(c') && Same(c, c')
    ensures Committed(x, c, lines) == Committed(x, c', lines) && Same(Ended(x, c, lines), Ended(x, c', lines))
    decreases |lines|
  {
    if lines != [] {
      OneSame(x, c, c', lines[0]);
      OneProper(x, c, lines[0]);
      OneProper(x, c', lines[0]);
      hide AfterRun, Proper, Same, Output;
      SameForever(x, AfterRun(x, c, lines[0]), AfterRun(x, c', lines[0]), lines[1..]);
    }
  }

  lemma {:induction false} IdleStays(x: Extractors, c: Context, block: seq<Line>)
    requires Proper(c) && Idle(x, c, block)
    ensures Committed(x, c, block) == [] && Same(c, Ended(x, c, block))
    decreases |block|
  {
    if block != [] {
      AwaitedMoves(x, c, block[0]);
      OneProper(x, c, block[0]);
      assert forall l :: l in block[1..] ==> l in block;
      hide AfterRun, Proper, Output, Awaited;
      IdleStays(x, AfterRun(x, c, block[0]), block[1..]);
    }
  }

  /** Without a row committed, no stage is given up, and an awaited line brings a further one. */
  lemma {:induction false} StagesGrow(x: Extractors, c: Context, block: seq<Line>)
    requires Proper(c) && Committed(x, c, block) == []
    ensures Stage(Ended(x, c, block)) >= Stage(c)
    ensures !Idle(x, c, block) ==> Stage(Ended(x, c, block)) > Stage(c)
    decreases |block|
  {
    if block != [] {
      AwaitedMoves(x, c, block[0]);
      OneProper(x, c, block[0]);
      assert block == [block[0]] + block[1..];
      hide AfterRun, Proper, Output, Awaited;
      StagesGrow(x, AfterRun(x, c, block[0]), block[1..]);
    }
  }

  // ----- telling stages apart -----

  /** A line for each stage after the phrase, and one that reports a phrase skipped. */
  datatype Probe = Probe(skip: Line, digest: Line, trans: Line, status: Line, link: Line)

  ghost predicate Live(x: Extractors, w: Probe) {
    && Plays(x, w.skip, SkipLine) && Plays(x, w.digest, DigestLine) && Plays(x, w.trans, TransLine)
    && Plays(x, w.status, StatusLine) && Plays(x, w.link, LinkLine)
  }

  /** The lines that complete a row from a stage after the skip check. */
  function Completion(w: Probe, stage: nat): seq<Line> {
    match stage
    case 2 => [w.digest, w.trans, w.status, w.link]
    case 3 => [w.trans, w.status, w.link]
    case 4 => [w.status, w.link]
    case _ => [w.link]
  }

  lemma OneStageOn(x: Extractors, w: Probe, c: Context)
    requires Live(x, w) && Proper(c) && 2 <= Stage(c) <= 4
    ensures var l := Completion(w, Stage(c))[0];
      && Output(x, c, l) == [] && Stage(AfterRun(x, c, l)) == Stage(c) + 1 && Proper(AfterRun(x, c, l))
  {}

  lemma {:induction false} Completes(x: Extractors, w: Probe, c: Context)
    requires Live(x, w) && Proper(c) && Stage(c) >= 2
    ensures Committed(x, c, Completion(w, Stage(c))) != []
    decreases 5 - Stage(c)
  {
    var lines := Completion(w, Stage(c));
    if Stage(c) == 5 {
      assert Output(x, c, w.link) != [];
    } else {
      OneStageOn(x, w, c);
      hide Output, AfterRun, Plays, Proper;
      Completes(x, w, AfterRun(x, c, lines[0]));
      assert lines[1..] == Completion(w, Stage(c) + 1);
    }
  }

  /** Lines over which contexts of these two stages commit different rows. */
  function Probing(w: Probe, low: nat, high: nat): seq<Line> {
    if low == 1 || high == 1 then [w.skip] else Completion(w, high)
  }

  lemma StagesDiffer(x: Extractors, w: Probe, c: Context, c': Context)
    requires Live(x, w) && Proper(c) && Proper(c') && Stage(c) < Stage(c')
    ensures Committed(x, c, Probing(w, Stage(c), Stage(c'))) != Committed(x, c', Probing(w, Stage(c), Stage(c')))
  {
    if Stage(c) == 1 || Stage(c') == 1 {
      SkipProbe(x, w, c);
      SkipProbe(x, w, c');
    } else {
      Completes(x, w, c');
      CompletionIgnored(x, w, Stage(c), Stage(c'));
      IdleStays(x, c, Completion(w, Stage(c')));
    }
  }

  lemma SkipProbe(x: Extractors, w: Probe, c: Context)
    requires Live(x, w) && Proper(c)
    ensures Committed(x, c, [w.skip]) != [] <==> Stage(c) == 1
  {
    assert Committed(x, c, [w.skip]) == Output(x, c, w.skip) + [];
  }

  lemma CompletionIgnored(x: Extractors, w: Probe, low: nat, high: nat)
    requires Live(x, w) && low < high <= 5 && low != 1 && high != 1
    ensures forall l :: l in Completion(w, high) ==> !Awaited(x, low, l)
  {}

  // ----- the main result -----

  /** Whatever lines follow, those seen and the block commit the rows that those seen commit without it. */
  ghost predicate Harmless(x: Extractors, seen: seq<Line>, block: seq<Line>) {
    forall more :: Committed(x, EMPTY, seen + block + more) == Committed(x, EMPTY, seen + more)
  }

  lemma WithBlock(x: Extractors, seen: seq<Line>, block: seq<Line>, more: seq<Line>)
    ensures var c := Ended(x, EMPTY, seen);
      Committed(x, EMPTY, seen + block + more)
        == Committed(x, EMPTY, seen) + Committed(x, c, block) + Committed(x, Ended(x, c, block), more)
    ensures Committed(x, EMPTY, seen + more) == Committed(x, EMPTY, seen) + Committed(x, Ended(x, EMPTY, seen), more)
  {
    hide Ended, Committed;
    Continued(x, EMPTY, seen, block);
    Continued(x, EMPTY, seen + block, more);
    Continued(x, EMPTY, seen, more);
  }

  lemma IdleIsHarmless(x: Extractors, seen: seq<Line>, block: seq<Line>)
    requires Idle(x, Ended(x, EMPTY, seen), block)
    ensures Harmless(x, seen, block)
  {
    var c := Ended(x, EMPTY, seen);
    hide Ended, Committed, Idle;
    EndedProper(x, EMPTY, seen);
    EndedProper(x, c, block);
    IdleStays(x, c, block);
    forall more ensures Committed(x, EMPTY, seen + block + more) == Committed(x, EMPTY, seen + more) {
      WithBlock(x, seen, block, more);
      SameForever(x, c, Ended(x, c, block), more);
    }
  }

  /** A block of lines that comes in between, such as the last lines once more, leaves all rows as they were if and
      only if the view waits for none of its lines. */
  lemma HarmlessIffIdle(x: Extractors, w: Probe, seen: seq<Line>, block: seq<Line>)
    requires Live(x, w)
    ensures Harmless(x, seen, block) <==> Idle(x, Ended(x, EMPTY, seen), block)
  {
    var c := Ended(x, EMPTY, seen);
    if Idle(x, c, block) {
      IdleIsHarmless(x, seen, block);
    } else {
      var more := Shows(x, w, seen, block);
    }
  }

  /** Lines after which the block shows. */
  lemma Shows(x: Extractors, w: Probe, seen: seq<Line>, block: seq<Line>) returns (more: seq<Line>)
    requires Live(x, w) && !Idle(x, Ended(x, EMPTY, seen), block)
    ensures Committed(x, EMPTY, seen + block + more) != Committed(x, EMPTY, seen + more)
  {
    var c := Ended(x, EMPTY, seen);
    hide Ended, Committed, Idle, Live;
    EndedProper(x, EMPTY, seen);
    EndedProper(x, c, block);
    if Committed(x, c, block) == [] {
      StagesGrow(x, c, block);
      more := Probing(w, Stage(c), Stage(Ended(x, c, block)));
      StagesDiffer(x, w, c, Ended(x, c, block));
      WithBlock(x, seen, block, more);
      Apart(Committed(x, EMPTY, seen), [], Committed(x, Ended(x, c, block), more), Committed(x, c, more));
    } else {
      more := [];
      NothingMore(x, c);
      NothingMore(x, Ended(x, c, block));
      WithBlock(x, seen, block, []);
      Apart(Committed(x, EMPTY, seen), Committed(x, c, block), [], []);
    }
  }

  lemma Apart(front: seq<Row>, mid: seq<Row>, rest: seq<Row>, rest': seq<Row>)
    requires mid + rest != rest'
    ensures front + mid + rest != front + rest'
  {
    assert (front + mid + rest)[|front|..] == mid + rest && (front + rest')[|front|..] == rest';
  }

  lemma NothingMore(x: Extractors, c: Context)
    ensures Committed(x, c, []) == []
  {}

  // ----- one block after another -----

  /** Two sequences of lines have committed the same rows, and what follows will commit the same after both. */
  ghost predicate Alike(x: Extractors, e: seq<Line>, s: seq<Line>) {
    Committed(x, EMPTY, e) == Committed(x, EMPTY, s) && Same(Ended(x, EMPTY, e), Ended(x, EMPTY, s))
  }

  lemma BlockBetween(x: Extractors, c: Context, c': Context, block: seq<Line>, more: seq<Line>)
    requires Proper(c) && Proper(c') && Same(c, c') && Idle(x, c', block)
    ensures Committed(x, c, block + more) == Committed(x, c', more)
    ensures Same(Ended(x, c, block + more), Ended(x, c', more))
  {
    assert Stage(c) == Stage(c');
    EndedProper(x, c, block);
    IdleStays(x, c, block);
    assert Same(Ended(x, c, block), c');
    hide Ended, Committed, Proper, Same, Idle;
    SameForever(x, Ended(x, c, block), c', more);
    Continued(x, c, block, more);
  }

  /** A harmless block and then new lines, against the new lines alone. */
  lemma AlikeMore(x: Extractors, e: seq<Line>, s: seq<Line>, block: seq<Line>, more: seq<Line>)
    requires Alike(x, e, s) && Idle(x, Ended(x, EMPTY, s), block)
    ensures Alike(x, e + (block + more), s + more)
  {
    assert Proper(EMPTY);
    hide Ended, Committed, Proper, Same, Idle;
    EndedProper(x, EMPTY, e);
    EndedProper(x, EMPTY, s);
    BlockBetween(x, Ended(x, EMPTY, e), Ended(x, EMPTY, s), block, more);
    Continued(x, EMPTY, e, block + more);
    Continued(x, EMPTY, s, more);
  }

  // ----- a row lost -----

  /** A phrase line, repeated before the line that reports it skipped: the row is lost. */
  lemma RepeatedPhraseLosesSkip(x: Extractors, p: Line, s: Line)
    requires Plays(x, p, PhraseLine) && Plays(x, s, SkipLine)
    ensures Committed(x, EMPTY, [p, p, s]) == [] && |Committed(x, EMPTY, [p, s])| == 1
  {
    var c1 := AfterPhrase(x, p);
    var c2 := c1.(checkedForSkipping := true);
    assert AfterRun(x, EMPTY, p) == c1 && Output(x, EMPTY, p) == [];
    assert AfterRun(x, c1, p) == c2 && Output(x, c1, p) == [];
    assert Output(x, c2, s) == [] && |Output(x, c1, s)| == 1;
    hide Format, AfterRun, Output;
    OneOf(x, c2, s, []);
    OneOf(x, c1, s, []);
    OneOf(x, c1, p, [s]);
    OneOf(x, EMPTY, p, [p, s]);
    OneOf(x, EMPTY, p, [s]);
  }

  lemma OneOf(x: Extractors, c: Context, l: Line, lines: seq<Line>)
    ensures Committed(x, c, [l] + lines) == Output(x, c, l) + Committed(x, AfterRun(x, c, l), lines)
    ensures [l] + [] == [l]
  {
    assert ([l] + lines)[1..] == lines;
  }
}
