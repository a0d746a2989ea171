/**
 The logger's double buffer as a step machine: log calls append to the active buffer under the lock, the
 flush thread swaps it out and writes it to the file and to stdout, rotating the file by size, and the
 destructor drains what is left.
 */
module LogStream {
  // FATAL is 0, TRACE is 5.
  type Level = l: int | 0 <= l <= 5

  function LevelName(level: Level): (name: string)
    ensures name != ""
  {
    match level
    case 0 => "[..FATAL] *** "
    case 1 => "[..ERROR] *** "
    case 2 => "[WARNING] *** "
    case 3 => "[...INFO] "
    case 4 => "[..DEBUG] "
    case _ => "[..TRACE] "
  }

  function Line(level: Level, message: string): string {
    LevelName(level) + message + "\n"
  }

  // The flush thread; a held batch is its local buffer.
  datatype Flusher = NotStarted | AtLoop | Waiting | Holding(batch: string) | Done

  // The log file, the file it was last rotated to, and the size the logger believes the log file has.
  datatype Files = Files(open: bool, current: string, backup: string, tracked: nat)

  // Which accepted lines are where: [..flushed] written, [flushed..swapped] in flight, [swapped..] in the active
  // buffer; of the written ones [curFrom..] are in the current file and [bakFrom..curFrom] in the backup. Once the
  // file has been rotated, [curFrom..firstTo] is the batch it was rotated for.
  datatype History = History(
    accepted: seq<string>,
    swapped: nat,
    flushed: nat,
    curFrom: nat,
    bakFrom: nat,
    lastBatch: nat,
    rotated: bool,
    firstTo: nat)

  datatype Log = Log(
    level: Level,
    maxSize: nat,
    initialized: bool,
    running: bool,
    drained: bool,
    active: string,
    flusher: Flusher,
    files: Files,
    stdout: string,
    log: History)

  datatype Event =
    | Init(level: Level, open: bool, megabytes: nat)
    | Append(level: Level, message: string)
    | SetLevel(level: Level)
    | Check
    | Swap
    | Write
    | Stop
    | Drain

  const MEGABYTE: nat := 1024 * 1024

  // The logger as constructed: level INFO, no file, no flush thread.
  const FRESH := Log(3, 100 * MEGABYTE, false, false, false, "", NotStarted, Files(false, "", "", 0), "",
                     History([], 0, 0, 0, 0, 0, false, 0))

  predicate Enabled(s: Log, e: Event) {
    && !s.drained
    && match e
       case Init(_, _, _) => true
       case Append(_, _) => true
       case SetLevel(_) => true
       case Check => s.flusher.AtLoop?
       case Swap => s.flusher.Waiting?
       case Write => s.flusher.Holding?
       case Stop => true
       case Drain => !s.running && (s.flusher.Done? || s.flusher.NotStarted?)
  }

  // Only the first init does anything; it truncates the log file and starts the flush thread.
  function AfterInit(s: Log, level: Level, open: bool, megabytes: nat): Log {
    if s.initialized then s
    else s.(level := level, maxSize := megabytes * MEGABYTE, initialized := true, running := true, flusher := AtLoop,
            files := if open then Files(true, "", s.files.backup, 0) else s.files)
  }

  function AfterAppend(s: Log, level: Level, message: string): Log {
    if level <= s.level then
      s.(active := s.active + Line(level, message), log := s.log.(accepted := s.log.accepted + [Line(level, message)]))
    else s
  }

  // rotate_logs is due before a batch of this length is written.
  predicate RotationDue(f: Files, length: nat, maxSize: nat) {
    f.open && f.tracked + length > maxSize
  }

  function Rotated(f: Files): Files {
    Files(f.open, "", f.current, 0)
  }

  function Appended(f: Files, batch: string): Files {
    if f.open then Files(true, f.current + batch, f.backup, f.tracked + |batch|) else f
  }

  function AfterWrite(s: Log): Log
    requires s.flusher.Holding?
  {
    var b := s.flusher.batch;
    var due := b != "" && RotationDue(s.files, |b|, s.maxSize);
    if b == "" then s.(flusher := AtLoop, log := s.log.(flushed := s.log.swapped))
    else
      s.(flusher := AtLoop,
         files := Appended(if due then Rotated(s.files) else s.files, b),
         stdout := s.stdout + b,
         log := s.log.(flushed := s.log.swapped,
                       curFrom := if due then s.log.flushed else s.log.curFrom,
                       bakFrom := if due then s.log.curFrom else s.log.bakFrom,
                       lastBatch := |b|,
                       rotated := s.log.rotated || due,
                       firstTo := if due then s.log.swapped else s.log.firstTo))
  }

  // The destructor writes the active buffer without rotating and without tracking the size.
  function AfterDrain(s: Log): Log {
    s.(drained := true, stdout := s.stdout + s.active,
       files := if s.files.open then s.files.(current := s.files.current + s.active) else s.files)
  }

  function Next(s: Log, e: Event): Log
    requires Enabled(s, e)
  {
    match e
    case Init(level, open, megabytes) => AfterInit(s, level, open, megabytes)
    case Append(level, message) => AfterAppend(s, level, message)
    case SetLevel(level) => s.(level := level)
    case Check => s.(flusher := if s.running then Waiting else Done)
    case Swap => s.(flusher := Holding(s.active), active := "", log := s.log.(swapped := |s.log.accepted|))
    case Write => AfterWrite(s)
    case Stop => s.(running := false)
    case Drain => AfterDrain(s)
  }

  // ---- what the streams hold ----

  function Join(lines: seq<string>): string {
    if lines == [] then "" else lines[0] + Join(lines[1..])
  }

  lemma Associative(a: string, b: string, c: string)
    ensures a + (b + c) == (a + b) + c
  {
  }

  lemma {:induction false} JoinConcat(a: seq<string>, b: seq<string>)
    ensures Join(a + b) == Join(a) + Join(b)
  {
    if a == [] {
      assert a + b == b;
    } else {
      assert (a + b)[0] == a[0] && (a + b)[1..] == a[1..] + b;
      JoinConcat(a[1..], b);
      Associative(a[0], Join(a[1..]), Join(b));
    }
  }

  lemma JoinSlices(lines: seq<string>, i: nat, j: nat, k: nat)
    requires i <= j <= k <= |lines|
    ensures Join(lines[i..k]) == Join(lines[i..j]) + Join(lines[j..k])
  {
    assert lines[i..k] == lines[i..j] + lines[j..k];
    JoinConcat(lines[i..j], lines[j..k]);
  }

  predicate Ranges(h: History) {
    h.bakFrom <= h.curFrom <= h.flushed <= h.swapped <= |h.accepted|
  }

  function InFlight(f: Flusher): string {
    if f.Holding? then f.batch else ""
  }

  ghost predicate StreamInv(s: Log) {
    && Ranges(s.log)
    && s.active == Join(s.log.accepted[s.log.swapped..])
    && InFlight(s.flusher) == Join(s.log.accepted[s.log.flushed..s.log.swapped])
    && (!s.flusher.Holding? ==> s.log.flushed == s.log.swapped)
    && (!s.initialized ==> s.log.swapped == 0 && s.files.backup == "")
    && (s.flusher.NotStarted? <==> !s.initialized)
    && s.stdout == (if s.drained then Join(s.log.accepted) else Join(s.log.accepted[..s.log.flushed]))
  }

  function Max(a: nat, b: nat): nat {
    if a < b then b else a
  }

  // How many accepted lines have been written; the destructor writes what was left.
  function Written(s: Log): nat {
    if s.drained then |s.log.accepted| else s.log.flushed
  }

  ghost predicate FilesInv(s: Log) {
    && Ranges(s.log)
    && (s.files.open ==>
          && s.files.current == Join(s.log.accepted[s.log.curFrom..Written(s)])
          && s.files.backup == Join(s.log.accepted[s.log.bakFrom..s.log.curFrom])
          && (!s.drained ==> s.files.tracked == |s.files.current| <= Max(s.maxSize, s.log.lastBatch)))
  }

  // Lines are only rotated out of a file that they and the next batch would have overfilled.
  ghost predicate RotationInv(s: Log) {
    && Ranges(s.log)
    && (!s.initialized ==> !s.log.rotated && !s.files.open && s.log.flushed == 0)
    && (!s.log.rotated ==> s.log.curFrom == 0 && s.log.bakFrom == 0)
    && (s.log.rotated ==>
          && s.log.curFrom < s.log.firstTo <= s.log.flushed
          && |Join(s.log.accepted[s.log.bakFrom..s.log.firstTo])| > s.maxSize)
  }

  ghost predicate Inv(s: Log) {
    StreamInv(s) && FilesInv(s) && RotationInv(s)
  }

  lemma AppendKeepsStream(s: Log, level: Level, message: string)
    requires StreamInv(s) && !s.drained
    ensures StreamInv(AfterAppend(s, level, message))
  {
    if level <= s.level {
      var line, h := Line(level, message), s.log;
      var all := h.accepted + [line];
      assert all[h.swapped..] == h.accepted[h.swapped..] + [line];
      JoinConcat(h.accepted[h.swapped..], [line]);
      assert Join([line]) == line + Join([]) == line;
      assert all[h.flushed..h.swapped] == h.accepted[h.flushed..h.swapped];
      assert all[..h.flushed] == h.accepted[..h.flushed];
    }
  }

  lemma AppendKeepsFiles(s: Log, level: Level, message: string)
    requires FilesInv(s) && !s.drained
    ensures FilesInv(AfterAppend(s, level, message))
  {
    if level <= s.level {
      var h := s.log;
      var all := h.accepted + [Line(level, message)];
      assert all[h.curFrom..h.flushed] == h.accepted[h.curFrom..h.flushed];
      assert all[h.bakFrom..h.curFrom] == h.accepted[h.bakFrom..h.curFrom];
    }
  }

  lemma AppendKeepsRotation(s: Log, level: Level, message: string)
    requires RotationInv(s)
    ensures RotationInv(AfterAppend(s, level, message))
  {
    if level <= s.level && s.log.rotated {
      var h := s.log;
      var all := h.accepted + [Line(level, message)];
      assert all[h.bakFrom..h.firstTo] == h.accepted[h.bakFrom..h.firstTo];
    }
  }

  lemma SwapKeepsStream(s: Log)
    requires StreamInv(s) && Enabled(s, Swap)
    ensures StreamInv(Next(s, Swap))
  {
    var h, n := s.log, |s.log.accepted|;
    assert h.accepted[h.flushed..n] == h.accepted[h.swapped..] by {
      assert h.flushed == h.swapped;
    }
    assert h.accepted[n..] == [];
  }

  lemma SwapKeepsFiles(s: Log)
    requires FilesInv(s) && Enabled(s, Swap)
    ensures FilesInv(Next(s, Swap))
  {
    assert Next(s, Swap).log.accepted == s.log.accepted;
  }

  lemma WriteKeepsStream(s: Log)
    requires StreamInv(s) && Enabled(s, Write)
    ensures StreamInv(AfterWrite(s))
  {
    var h := s.log;
    JoinSlices(h.accepted, 0, h.flushed, h.swapped);
    assert h.accepted[0..h.flushed] == h.accepted[..h.flushed] && h.accepted[0..h.swapped] == h.accepted[..h.swapped];
    assert h.accepted[h.swapped..h.swapped] == [];
  }

  lemma WriteKeepsFiles(s: Log)
    requires Inv(s) && Enabled(s, Write)
    ensures FilesInv(AfterWrite(s))
  {
    var h, b := s.log, s.flusher.batch;
    JoinSlices(h.accepted, h.curFrom, h.flushed, h.swapped);
    if b != "" && RotationDue(s.files, |b|, s.maxSize) {
      assert AfterWrite(s).files == Files(true, b, s.files.current, |b|);
    } else if b != "" && s.files.open {
      assert AfterWrite(s).files == Files(true, s.files.current + b, s.files.backup, s.files.tracked + |b|);
    }
  }

  lemma WriteKeepsRotation(s: Log)
    requires Inv(s) && Enabled(s, Write)
    ensures RotationInv(AfterWrite(s))
  {
    var h, b := s.log, s.flusher.batch;
    if b != "" && RotationDue(s.files, |b|, s.maxSize) {
      JoinSlices(h.accepted, h.curFrom, h.flushed, h.swapped);
      assert h.flushed < h.swapped;
    }
  }

  lemma DrainKeepsInv(s: Log)
    requires Inv(s) && Enabled(s, Drain)
    ensures Inv(AfterDrain(s))
  {
    var h := s.log;
    JoinSlices(h.accepted, 0, h.flushed, |h.accepted|);
    assert h.accepted[0..h.flushed] == h.accepted[..h.flushed] && h.accepted[0..|h.accepted|] == h.accepted;
    assert h.accepted[h.flushed..|h.accepted|] == h.accepted[h.swapped..];
    JoinSlices(h.accepted, h.curFrom, h.flushed, |h.accepted|);
  }

  lemma StepKeepsInv(s: Log, e: Event)
    requires Inv(s) && Enabled(s, e)
    ensures Inv(Next(s, e))
  {
    match e
    case Init(_, _, _) =>
    case Append(level, message) =>
      AppendKeepsStream(s, level, message);
      AppendKeepsFiles(s, level, message);
      AppendKeepsRotation(s, level, message);
    case SetLevel(_) =>
    case Check =>
    case Swap =>
      SwapKeepsStream(s);
      SwapKeepsFiles(s);
    case Write =>
      WriteKeepsStream(s);
      WriteKeepsFiles(s);
      WriteKeepsRotation(s);
    case Stop =>
    case Drain => DrainKeepsInv(s);
  }

  predicate IsRun(s: Log, es: seq<Event>)
    decreases |es|
  {
    es == [] || (Enabled(s, es[0]) && IsRun(Next(s, es[0]), es[1..]))
  }

  function Exec(s: Log, es: seq<Event>): Log
    requires IsRun(s, es)
    decreases |es|
  {
    if es == [] then s else Exec(Next(s, es[0]), es[1..])
  }

  lemma {:induction false} RunKeepsInv(s: Log, es: seq<Event>)
    requires Inv(s) && IsRun(s, es)
    ensures Inv(Exec(s, es))
    decreases |es|
  {
    if es != [] {
      StepKeepsInv(s, es[0]);
      RunKeepsInv(Next(s, es[0]), es[1..]);
    }
  }

  // The lines that the log calls of a run append: those at or below the level then set.
  function AcceptedBy(level: Level, initialized: bool, es: seq<Event>): seq<string>
    decreases |es|
  {
    if es == [] then []
    else match es[0]
      case Init(l, _, _) => AcceptedBy(if initialized then level else l, true, es[1..])
      case Append(l, message) =>
        (if l <= level then [Line(l, message)] else []) + AcceptedBy(level, initialized, es[1..])
      case SetLevel(l) => AcceptedBy(l, initialized, es[1..])
      case _ => AcceptedBy(level, initialized, es[1..])
  }

  function Accepted(es: seq<Event>): seq<string> {
    AcceptedBy(3, false, es)
  }

  lemma {:induction false} RunAccepts(s: Log, es: seq<Event>)
    requires IsRun(s, es)
    ensures Exec(s, es).log.accepted == s.log.accepted + AcceptedBy(s.level, s.initialized, es)
    decreases |es|
  {
    if es != [] {
      RunAccepts(Next(s, es[0]), es[1..]);
    }
  }

  /** Conservation, in every interleaving of log calls with the flush thread: stdout, the batch in flight and the active
      buffer together are the accepted lines in lock order; after the destructor stdout is all of them. */
  lemma NothingLostOrReordered(es: seq<Event>)
    requires IsRun(FRESH, es)
    ensures var s := Exec(FRESH, es);
      if s.drained then s.stdout == Join(Accepted(es))
      else s.stdout + InFlight(s.flusher) + s.active == Join(Accepted(es))
  {
    RunKeepsInv(FRESH, es);
    RunAccepts(FRESH, es);
    var h := Exec(FRESH, es).log;
    JoinSlices(h.accepted, 0, h.flushed, h.swapped);
    JoinSlices(h.accepted, 0, h.swapped, |h.accepted|);
    assert h.accepted[0..h.flushed] == h.accepted[..h.flushed] && h.accepted[0..|h.accepted|] == h.accepted;
    assert h.accepted[h.swapped..|h.accepted|] == h.accepted[h.swapped..];
    assert h.accepted == Accepted(es);
  }

  /** Rotation: the tracked size is the length of the current file and stays within the limit or, beyond it, within one
      batch; backup and current file together are the last whole lines written, each line wholly in one of them. After
      the destructor they end with the last line accepted; only that last write is neither tracked nor limited. */
  lemma RotationKeepsWholeLines(es: seq<Event>)
    requires IsRun(FRESH, es) && Exec(FRESH, es).files.open
    ensures var s := Exec(FRESH, es);
      && (!s.drained ==> s.files.tracked == |s.files.current| <= Max(s.maxSize, s.log.lastBatch))
      && exists i: nat, j: nat, k: nat ::
           && i <= j <= k <= |Accepted(es)| && (s.drained ==> k == |Accepted(es)|)
           && s.stdout == Join(Accepted(es)[..k])
           && s.files.backup == Join(Accepted(es)[i..j])
           && s.files.current == Join(Accepted(es)[j..k])
  {
    RunKeepsInv(FRESH, es);
    RunAccepts(FRESH, es);
    var h := Exec(FRESH, es).log;
    assert h.accepted == Accepted(es);
    var k := Written(Exec(FRESH, es));
    assert h.bakFrom <= h.curFrom <= k <= |Accepted(es)|;
    assert h.accepted[..|h.accepted|] == h.accepted;
  }

  /** A batch is written to the file it finds exactly when it fits: the backup is replaced, by what the file held, only
      for a batch that file and batch together would have taken beyond the limit. */
  lemma WriteRotatesIff(s: Log)
    requires Inv(s) && Enabled(s, Write) && s.files.open && s.flusher.batch != ""
    ensures var f, g, b := s.files, AfterWrite(s).files, s.flusher.batch;
      if |f.current| + |b| <= s.maxSize then g.current == f.current + b && g.backup == f.backup
      else g.current == b && g.backup == f.current
    ensures AfterWrite(s).log.rotated <==> s.log.rotated || |s.files.current| + |s.flusher.batch| > s.maxSize
  {
  }

  // The current file begins with these lines, which did not fit behind what is now the backup.
  predicate RotatedFor(s: Log, lines: seq<string>, limit: nat) {
    Join(lines) <= s.files.current && |s.files.backup| + |Join(lines)| > limit
  }

  // The size limit that the first init of a run sets, in megabytes of 1048576 bytes.
  function Limit(es: seq<Event>): nat {
    if es == [] then 100 * 1048576
    else if es[0].Init? then es[0].megabytes * 1048576
    else Limit(es[1..])
  }

  lemma {:induction false} RunSetsLimit(s: Log, es: seq<Event>)
    requires IsRun(s, es) && (!s.initialized ==> s.maxSize == 100 * 1048576)
    ensures Exec(s, es).maxSize == if s.initialized then s.maxSize else Limit(es)
    decreases |es|
  {
    if es != [] {
      RunSetsLimit(Next(s, es[0]), es[1..]);
    }
  }

  /** Nothing is rotated out early. Until the file has been rotated, it holds every line written and there is no backup;
      afterwards backup and current file, in fact the backup and the batch that made it, exceed the limit. So while the
      lines accepted in all do not exceed the limit, the file holds all that are written. */
  lemma RotatesOnlyWhenFull(es: seq<Event>)
    requires IsRun(FRESH, es) && Exec(FRESH, es).files.open
    ensures var s := Exec(FRESH, es);
      && (!s.log.rotated ==> s.files.backup == "" && s.files.current == s.stdout)
      && (s.log.rotated ==> exists j: nat, m: nat ::
            j < m <= |Accepted(es)| && RotatedFor(s, Accepted(es)[j..m], Limit(es)))
      && (|Join(Accepted(es))| <= Limit(es) ==> s.files.backup == "" && s.files.current == s.stdout)
  {
    RunKeepsInv(FRESH, es);
    RunAccepts(FRESH, es);
    RunSetsLimit(FRESH, es);
    var s := Exec(FRESH, es);
    var h := s.log;
    assert h.accepted == Accepted(es);
    if h.rotated {
      RotatedBeyondLimit(s);
      assert RotatedFor(s, Accepted(es)[h.curFrom..h.firstTo], Limit(es));
    } else {
      NotYetRotated(s);
    }
  }

  lemma NotYetRotated(s: Log)
    requires Inv(s) && s.files.open && !s.log.rotated
    ensures s.files.backup == "" && s.files.current == s.stdout
  {
    var h := s.log;
    assert h.accepted[0..0] == [];
    assert h.accepted[0..Written(s)] == h.accepted[..Written(s)];
    assert h.accepted[..|h.accepted|] == h.accepted;
  }

  lemma RotatedBeyondLimit(s: Log)
    requires Inv(s) && s.files.open && s.log.rotated
    ensures s.log.curFrom < s.log.firstTo <= |s.log.accepted|
    ensures RotatedFor(s, s.log.accepted[s.log.curFrom..s.log.firstTo], s.maxSize)
    ensures |Join(s.log.accepted)| > s.maxSize
  {
    var h := s.log;
    JoinSlices(h.accepted, h.bakFrom, h.curFrom, h.firstTo);
    JoinSlices(h.accepted, h.curFrom, h.firstTo, Written(s));
    JoinSlices(h.accepted, 0, h.bakFrom, |h.accepted|);
    JoinSlices(h.accepted, h.bakFrom, h.firstTo, |h.accepted|);
    assert h.accepted[0..|h.accepted|] == h.accepted;
  }

  // ---- what a line says ----

  /** A line is the name of its level, the message and a newline, and can be read back: no two levels or messages give
      the same line. */
  lemma LineSaysItAll(level: Level, message: string, level': Level, message': string)
    ensures Line(level, message) == LevelName(level) + message + "\n"
    ensures Line(level, message) == Line(level', message') ==> level == level' && message == message'
    ensures LevelName(0) == "[..FATAL] *** " && LevelName(1) == "[..ERROR] *** " && LevelName(2) == "[WARNING] *** "
    ensures LevelName(3) == "[...INFO] " && LevelName(4) == "[..DEBUG] " && LevelName(5) == "[..TRACE] "
  {
    var l, l' := Line(level, message), Line(level', message');
    if l == l' {
      LevelFromLine(level, message);
      LevelFromLine(level', message');
      assert level == level';
      var n := |LevelName(level)|;
      assert l[n..] == message + "\n" && l'[n..] == message' + "\n";
      assert (message + "\n")[..|message|] == message && (message' + "\n")[..|message'|] == message';
    }
  }

  // The fourth and fifth characters of a line tell its level.
  lemma LevelFromLine(level: Level, message: string)
    ensures |Line(level, message)| >= 10
    ensures Line(level, message)[3] == ['F', 'E', 'R', '.', 'D', 'T'][level]
  {
    assert Line(level, message)[3] == LevelName(level)[3];
  }

  // ---- the destructor's join ----

  predicate OfFlusher(e: Event) {
    e.Check? || e.Swap? || e.Write?
  }

  function FlusherSteps(es: seq<Event>): nat {
    if es == [] then 0 else (if OfFlusher(es[0]) then 1 else 0) + FlusherSteps(es[1..])
  }

  // Steps the flush thread has left once running_ is false.
  function StepsLeft(f: Flusher): nat {
    match f
    case Waiting => 3
    case Holding(_) => 2
    case AtLoop => 1
    case Done => 0
    case NotStarted => 0
  }

  lemma {:induction false} FlusherCountsDown(s: Log, es: seq<Event>)
    requires IsRun(s, es) && s.initialized && !s.running
    ensures FlusherSteps(es) + StepsLeft(Exec(s, es).flusher) == StepsLeft(s.flusher)
    decreases |es|
  {
    if es != [] {
      FlusherCountsDown(Next(s, es[0]), es[1..]);
    }
  }

  /** Once the destructor has cleared running_, the flush thread takes at most the rest of one pass and the loop test,
      whatever is logged meanwhile, and until it has ended it can always take its next step: the join returns. */
  lemma FlushThreadEnds(s: Log, es: seq<Event>)
    requires IsRun(s, es) && s.initialized && !s.running && !Exec(s, es).drained
    ensures FlusherSteps(es) <= 3
    ensures FlusherSteps(es) == StepsLeft(s.flusher) <==> StepsLeft(Exec(s, es).flusher) == 0
    ensures StepsLeft(Exec(s, es).flusher) > 0 ==> exists e :: OfFlusher(e) && Enabled(Exec(s, es), e)
  {
    FlusherCountsDown(s, es);
    var t := Exec(s, es);
    if StepsLeft(t.flusher) > 0 {
      var e := if t.flusher.AtLoop? then Check else if t.flusher.Waiting? then Swap else Write;
      assert OfFlusher(e) && Enabled(t, e);
    }
  }
}
