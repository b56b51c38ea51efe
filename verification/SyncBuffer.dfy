/**
The shared JSON-lines buffer (src/global_sync.py): a file of one record per line that many
nodes append to, read and clear, each call inside the resource lock. The JSON library is a
parameter: a printer and a parser that undo each other on one line.
*/
module SyncBuffers {
  import opened Wrappers
  import opened Texts

  datatype Codec<!R> = Codec(dumps: R -> string, loads: string -> Option<R>)

  /** A nonempty piece of text that stays one line, whole, when lines are split and stripped. */
  predicate OneLine(t: string) {
    t != "" && NoOuterSpace(t) && forall i :: 0 <= i < |t| ==> !IsLineEnd(t[i])
  }

  predicate IsLineEnd(c: char) {
    c == '\n' || c == '\r'
  }

  /** What is asked of the JSON library: ASCII output on one line, and parsing it back. */
  ghost predicate Lawful<R(!new)>(codec: Codec<R>) {
    forall r: R :: OneLine(codec.dumps(r)) && codec.loads(codec.dumps(r)) == Some(r)
  }

  /** The file after the records were appended one by one. */
  function Printed<R>(codec: Codec<R>, records: seq<R>): string {
    if records == [] then ""
    else Printed(codec, records[..|records| - 1]) + (codec.dumps(records[|records| - 1]) + "\n")
  }

  /** The lines of a text file opened with universal newlines; an unterminated last line counts. */
  function Lines(text: string): seq<string> {
    if text == "" then []
    else
      var n := LineLength(text);
      if n == |text| then [text] else [text[..n]] + Lines(text[n + 1..])
  }

  /** The number of characters before the first line end. */
  function LineLength(text: string): (n: nat)
    ensures n <= |text|
    ensures n < |text| ==> IsLineEnd(text[n])
    ensures forall i :: 0 <= i < n ==> !IsLineEnd(text[i])
  {
    if text == "" || IsLineEnd(text[0]) then 0 else 1 + LineLength(text[1..])
  }

  /** What `read_all` makes of some lines: blank ones are skipped, None means a line is not JSON. */
  function Parsed<R>(codec: Codec<R>, lines: seq<string>): Option<seq<R>> {
    if lines == [] then Some([])
    else
      match Parsed(codec, lines[..|lines| - 1])
      case None => None
      case Some(front) =>
        var line := Strip(lines[|lines| - 1]);
        if line == "" then Some(front)
        else
          match codec.loads(line)
          case None => None
          case Some(r) => Some(front + [r])
  }

  /** A terminated text keeps its lines when more text follows. */
  lemma {:induction false} LinesConcat(a: string, b: string)
    requires a == "" || IsLineEnd(a[|a| - 1])
    ensures Lines(a + b) == Lines(a) + Lines(b)
  {
    hide Lines, LineLength;
    if a == "" {
      NoLines();
      assert a + b == b;
    } else {
      LineLengthOfConcat(a, b);
      var n := LineLength(a);
      var rest := a[n + 1..];
      assert rest == "" || rest[|rest| - 1] == a[|a| - 1];
      LinesConcat(rest, b);
      SplitConcat(a, b, n);
      FirstLine(a + b);
      FirstLine(a);
      Regroup([a[..n]], Lines(rest), Lines(b));
    }
  }

  /** Every line end ends a line, a line feed as well as a carriage return. */
  lemma LineEndsEndLines(t: string, end: char, rest: string)
    requires end == '\n' || end == '\r'
    requires forall i :: 0 <= i < |t| ==> t[i] != '\n' && t[i] != '\r'
    ensures Lines(t + [end] + rest) == [t] + Lines(rest)
    ensures t != "" ==> Lines(t) == [t]
  {
    var text := t + [end] + rest;
    assert text[|t|] == end && forall i :: 0 <= i < |t| ==> text[i] == t[i];
    assert IsLineEnd(text[|t|]) && forall i :: 0 <= i < |t| ==> !IsLineEnd(text[i]);
    assert LineLength(text) == |t|;
    assert text[..|t|] == t && text[|t| + 1..] == rest;
    assert LineLength(t) == |t|;
  }

  /** Lines are read one by one: a blank one gives nothing, any other its record, and one that is not JSON raises. */
  lemma LinesAreParsed<R>(codec: Codec<R>, lines: seq<string>, line: string)
    requires Parsed(codec, lines).Some?
    ensures Strip(line) == "" ==> Parsed(codec, lines + [line]) == Parsed(codec, lines)
    ensures Strip(line) != "" && codec.loads(Strip(line)).None? ==> Parsed(codec, lines + [line]) == None
    ensures Strip(line) != "" && codec.loads(Strip(line)).Some? ==>
      Parsed(codec, lines + [line]) == Some(Parsed(codec, lines).value + [codec.loads(Strip(line)).value])
    ensures Parsed(codec, []) == Some([])
  {
    assert (lines + [line])[..|lines|] == lines;
  }

  lemma NoLines()
    ensures Lines("") == []
  {
  }

  lemma Regroup<T>(a: seq<T>, b: seq<T>, c: seq<T>)
    ensures a + (b + c) == (a + b) + c
  {
  }

  lemma SplitConcat(a: string, b: string, n: nat)
    requires n < |a|
    ensures (a + b)[..n] == a[..n] && (a + b)[n + 1..] == a[n + 1..] + b
  {
  }

  lemma FirstLine(text: string)
    requires LineLength(text) < |text|
    ensures Lines(text) == [text[..LineLength(text)]] + Lines(text[LineLength(text) + 1..])
  {
    hide LineLength, IsLineEnd;
  }

  lemma {:induction false} LineLengthOfConcat(a: string, b: string)
    requires a != "" && IsLineEnd(a[|a| - 1])
    ensures LineLength(a) < |a| && LineLength(a + b) == LineLength(a)
  {
    assert (a + b)[0] == a[0];
    if !IsLineEnd(a[0]) {
      assert (a + b)[1..] == a[1..] + b;
      LineLengthOfConcat(a[1..], b);
    }
  }

  lemma LinesOfOne(t: string)
    requires OneLine(t)
    ensures Lines(t + "\n") == [t]
  {
    var text := t + "\n";
    assert text[|t|] == '\n';
    assert forall i :: 0 <= i < |t| ==> text[i] == t[i];
    assert LineLength(text) == |t|;
    assert text[..|t|] == t && text[|t| + 1..] == "";
  }

  /** The file of a log has one line per record. */
  lemma {:induction false} LinesOfPrinted<R(!new)>(codec: Codec<R>, records: seq<R>)
    requires Lawful(codec)
    ensures Lines(Printed(codec, records)) == seq(|records|, i requires 0 <= i < |records| => codec.dumps(records[i]))
    ensures Printed(codec, records) == "" || IsLineEnd(Printed(codec, records)[|Printed(codec, records)| - 1])
  {
    hide LineLength, OneLine;
    if records != [] {
      var n := |records| - 1;
      LinesOfPrinted(codec, records[..n]);
      LinesOfOne(codec.dumps(records[n]));
      LinesConcat(Printed(codec, records[..n]), codec.dumps(records[n]) + "\n");
    }
  }

  lemma {:induction false} ParsedDumps<R(!new)>(codec: Codec<R>, records: seq<R>)
    requires Lawful(codec)
    ensures Parsed(codec, seq(|records|, i requires 0 <= i < |records| => codec.dumps(records[i]))) == Some(records)
  {
    var lines := seq(|records|, i requires 0 <= i < |records| => codec.dumps(records[i]));
    if records != [] {
      var n := |records| - 1;
      ParsedDumps(codec, records[..n]);
      assert lines[..n] == seq(n, i requires 0 <= i < n => codec.dumps(records[..n][i]));
      StripIsIdentity(codec.dumps(records[n]));
      assert records[..n] + [records[n]] == records;
    }
  }

  /** The reader undoes the printer on every log. */
  lemma RoundTrip<R(!new)>(codec: Codec<R>, records: seq<R>)
    requires Lawful(codec)
    ensures Parsed(codec, Lines(Printed(codec, records))) == Some(records)
  {
    LinesOfPrinted(codec, records);
    ParsedDumps(codec, records);
  }

  /** Different logs are different files. */
  lemma PrintingIsInjective<R(!new)>(codec: Codec<R>, a: seq<R>, b: seq<R>)
    requires Lawful(codec) && Printed(codec, a) == Printed(codec, b)
    ensures a == b
  {
    RoundTrip(codec, a);
    RoundTrip(codec, b);
  }

  /** What `read_all` returns for a file that may be missing. */
  function Contents<R>(codec: Codec<R>, file: Option<string>): Option<seq<R>> {
    if file.None? then Some([]) else Parsed(codec, Lines(file.value))
  }

  predicate Holds<R(==)>(codec: Codec<R>, file: Option<string>, log: seq<R>) {
    match file
    case None => log == []
    case Some(text) => text == Printed(codec, log)
  }

  // Concurrent callers under the lock.

  type Caller = nat

  /** How much of its line an append has written. */
  datatype Progress = Nothing | RecordOnly | WholeLine

  /** Where the lock holder is inside its critical section. */
  datatype Section<R> =
    | Appending(record: R, written: Progress)
    | Reading(result: Option<Option<seq<R>>>) // what was read, once it was
    | Clearing(removed: bool)

  /** A finished critical section, in the order in which the lock was held; Torn: the append failed
      before its newline. */
  datatype Entry<R> = Appended(record: R) | Torn(record: R) | Read(result: Option<seq<R>>) | Cleared

  datatype Buffer<R> = Buffer(file: Option<string>, holder: Option<(Caller, Section<R>)>, done: seq<Entry<R>>)

  datatype Action<R> =
    | EnterAppend(record: R) | EnterRead | EnterClear  // the lock is granted if it is free
    | WriteRecord | WriteNewline                       // append
    | Load                                             // read_all: exists, open, read
    | Unlink                                           // clear
    | Leave                                            // the body returned: release
    | Fail                                             // the body raised: release in finally

  function TextOf(file: Option<string>): string {
    if file.None? then "" else file.value
  }

  /** One step of one caller; whoever does not hold the lock can only try to take it. */
  function Next<R>(codec: Codec<R>, b: Buffer<R>, caller: Caller, action: Action<R>): Buffer<R> {
    if b.holder.None? then
      match action
      case EnterAppend(r) => b.(holder := Some((caller, Appending(r, Nothing))))
      case EnterRead => b.(holder := Some((caller, Reading(None))))
      case EnterClear => b.(holder := Some((caller, Clearing(false))))
      case _ => b
    else if b.holder.value.0 != caller then b
    else
      match (b.holder.value.1, action)
      case (Appending(r, Nothing), WriteRecord) =>
        b.(file := Some(TextOf(b.file) + codec.dumps(r)), holder := Some((caller, Appending(r, RecordOnly))))
      case (Appending(r, RecordOnly), WriteNewline) =>
        b.(file := Some(TextOf(b.file) + "\n"), holder := Some((caller, Appending(r, WholeLine))))
      case (Appending(r, WholeLine), Leave) => b.(holder := None, done := b.done + [Appended(r)])
      case (Appending(r, WholeLine), Fail) => b.(holder := None, done := b.done + [Appended(r)])
      case (Appending(r, RecordOnly), Fail) => b.(holder := None, done := b.done + [Torn(r)])
      case (Appending(_, Nothing), Fail) => b.(holder := None)
      case (Reading(None), Load) => b.(holder := Some((caller, Reading(Some(Contents(codec, b.file))))))
      case (Reading(Some(result)), Leave) => b.(holder := None, done := b.done + [Read(result)])
      case (Reading(_), Fail) => b.(holder := None)
      case (Clearing(_), Unlink) => b.(file := None, holder := Some((caller, Clearing(true))))
      case (Clearing(true), Leave) => b.(holder := None, done := b.done + [Cleared])
      case (Clearing(true), Fail) => b.(holder := None, done := b.done + [Cleared])
      case (Clearing(false), Fail) => b.(holder := None)
      case _ => b
  }

  /** The sequential log: what the finished sections leave when done one after the other. A torn record is in it. */
  function LogOf<R>(done: seq<Entry<R>>): seq<R> {
    if done == [] then [] else LogAfter(LogOf(done[..|done| - 1]), done[|done| - 1])
  }

  function LogAfter<R>(log: seq<R>, entry: Entry<R>): seq<R> {
    match entry
    case Appended(r) => log + [r]
    case Torn(r) => log + [r]
    case Read(_) => log
    case Cleared => []
  }

  /** The last line lacks its newline: an append was torn, and nothing was appended or cleared since. */
  predicate Ragged<R>(done: seq<Entry<R>>) {
    done != [] &&
    match done[|done| - 1]
    case Torn(_) => true
    case Read(_) => Ragged(done[..|done| - 1])
    case _ => false
  }

  /** Every finished read returned exactly the log at its place in the lock order. */
  ghost predicate ReadsAreSequential<R>(done: seq<Entry<R>>) {
    forall i :: 0 <= i < |done| && done[i].Read? ==> done[i].result == Some(LogOf(done[..i]))
  }

  /** A log without its last newline. */
  function Unterminated<R>(codec: Codec<R>, log: seq<R>): string
    requires log != []
  {
    Printed(codec, log[..|log| - 1]) + codec.dumps(log[|log| - 1])
  }

  /** The file is the printed log, but for the last newline if that is missing. */
  predicate FileIs<R(==)>(codec: Codec<R>, file: Option<string>, log: seq<R>, ragged: bool) {
    if ragged then log != [] && file == Some(Unterminated(codec, log)) else Holds(codec, file, log)
  }

  /** What the file holds while a critical section is going on. */
  ghost predicate InSection<R>(codec: Codec<R>, b: Buffer<R>) {
    var log, ragged := LogOf(b.done), Ragged(b.done);
    if b.holder.None? then FileIs(codec, b.file, log, ragged)
    else
      match b.holder.value.1
      case Appending(r, written) =>
        if written == Nothing then FileIs(codec, b.file, log, ragged)
        else if written == RecordOnly then b.file == Some(Printed(codec, log) + codec.dumps(r))
        else b.file == Some(Printed(codec, log + [r]))
      case Reading(result) => FileIs(codec, b.file, log, ragged) && (result.Some? ==> result.value == Some(log))
      case Clearing(removed) => if removed then b.file == None else FileIs(codec, b.file, log, ragged)
  }

  ghost predicate Inv<R>(codec: Codec<R>, b: Buffer<R>) {
    InSection(codec, b) && ReadsAreSequential(b.done)
  }

  /** The hypothesis: no append writes behind a torn one without a clear in between. */
  predicate StartsNewLine<R>(b: Buffer<R>, caller: Caller, action: Action<R>) {
    !(action.WriteRecord? && b.holder.Some? && b.holder.value.0 == caller
      && b.holder.value.1.Appending? && b.holder.value.1.written == Nothing && Ragged(b.done))
  }

  lemma DoneSnoc<R>(done: seq<Entry<R>>, entry: Entry<R>)
    requires ReadsAreSequential(done) && (entry.Read? ==> entry.result == Some(LogOf(done)))
    ensures ReadsAreSequential(done + [entry])
    ensures LogOf(done + [entry]) == LogAfter(LogOf(done), entry)
    ensures Ragged(done + [entry]) <==> entry.Torn? || (entry.Read? && Ragged(done))
  {
    var more := done + [entry];
    assert more[..|done|] == done;
    forall i | 0 <= i < |more| && more[i].Read?
      ensures more[i].result == Some(LogOf(more[..i]))
    {
      if i < |done| {
        assert more[..i] == done[..i];
      }
    }
  }

  /** A log whose last newline is missing is read back whole: the torn record counts. */
  lemma RaggedReadsBack<R(!new)>(codec: Codec<R>, log: seq<R>)
    requires Lawful(codec) && log != []
    ensures Parsed(codec, Lines(Unterminated(codec, log))) == Some(log)
  {
    var n := |log| - 1;
    var front, last := log[..n], codec.dumps(log[n]);
    LinesOfPrinted(codec, front);
    LinesConcat(Printed(codec, front), last);
    OneUnterminatedLine(last);
    ParsedDumps(codec, log);
    var lines := seq(|log|, i requires 0 <= i < |log| => codec.dumps(log[i]));
    assert lines == seq(n, i requires 0 <= i < n => codec.dumps(front[i])) + [last];
  }

  lemma OneUnterminatedLine(t: string)
    requires OneLine(t)
    ensures Lines(t) == [t]
  {
    assert LineLength(t) == |t|;
  }

  lemma FileReadsBack<R(!new)>(codec: Codec<R>, file: Option<string>, log: seq<R>, ragged: bool)
    requires Lawful(codec) && FileIs(codec, file, log, ragged)
    ensures Contents(codec, file) == Some(log)
  {
    if ragged {
      RaggedReadsBack(codec, log);
    } else {
      RoundTrip(codec, log);
    }
  }

  lemma TextOfFile<R>(codec: Codec<R>, b: Buffer<R>, log: seq<R>)
    requires Holds(codec, b.file, log)
    ensures TextOf(b.file) == Printed(codec, log)
  {
  }

  lemma RecordThenNewline<R>(codec: Codec<R>, log: seq<R>, r: R)
    ensures Unterminated(codec, log + [r]) == Printed(codec, log) + codec.dumps(r)
    ensures Printed(codec, log + [r]) == (Printed(codec, log) + codec.dumps(r)) + "\n"
  {
    assert (log + [r])[..|log|] == log;
    assert (Printed(codec, log) + codec.dumps(r)) + "\n" == Printed(codec, log) + (codec.dumps(r) + "\n");
  }

  lemma NextKeepsInv<R(!new)>(codec: Codec<R>, b: Buffer<R>, caller: Caller, action: Action<R>)
    requires Lawful(codec) && Inv(codec, b) && StartsNewLine(b, caller, action)
    ensures Inv(codec, Next(codec, b, caller, action))
  {
    hide LogOf, Ragged, ReadsAreSequential, Printed, Unterminated, Contents;
    if b.holder.Some? && b.holder.value.0 == caller {
      var log := LogOf(b.done);
      match (b.holder.value.1, action)
      case (Appending(r, Nothing), WriteRecord) => TextOfFile(codec, b, log);
      case (Appending(r, RecordOnly), WriteNewline) => RecordThenNewline(codec, log, r);
      case (Appending(r, WholeLine), Leave) => DoneSnoc(b.done, Appended(r));
      case (Appending(r, WholeLine), Fail) => DoneSnoc(b.done, Appended(r));
      case (Appending(r, RecordOnly), Fail) =>
        DoneSnoc(b.done, Torn(r));
        RecordThenNewline(codec, log, r);
      case (Reading(None), Load) => FileReadsBack(codec, b.file, log, Ragged(b.done));
      case (Reading(Some(result)), Leave) => DoneSnoc(b.done, Read(result));
      case (Clearing(true), Leave) => DoneSnoc(b.done, Cleared);
      case (Clearing(true), Fail) => DoneSnoc(b.done, Cleared);
      case _ =>
    }
  }

  /** A step keeps file and log in agreement exactly when it does not write behind a torn append. */
  lemma NextKeepsInvExactly<R(!new)>(codec: Codec<R>, b: Buffer<R>, caller: Caller, action: Action<R>)
    requires Lawful(codec) && Inv(codec, b)
    ensures Inv(codec, Next(codec, b, caller, action)) <==> StartsNewLine(b, caller, action)
  {
    if StartsNewLine(b, caller, action) {
      NextKeepsInv(codec, b, caller, action);
    } else {
      var log, r := LogOf(b.done), b.holder.value.1.record;
      assert |Printed(codec, log)| == |Unterminated(codec, log)| + 1;
      assert |Unterminated(codec, log) + codec.dumps(r)| != |Printed(codec, log) + codec.dumps(r)|;
    }
  }

  function Run<R>(codec: Codec<R>, b: Buffer<R>, steps: seq<(Caller, Action<R>)>): Buffer<R> {
    if steps == [] then b
    else
      var last := steps[|steps| - 1];
      Next(codec, Run(codec, b, steps[..|steps| - 1]), last.0, last.1)
  }

  function Start<R>(): Buffer<R> {
    Buffer(None, None, [])
  }

  // Single calls.

  /** Whoever holds the lock and fails gives it back, wherever in its call it is. */
  lemma FailingReleases<R>(codec: Codec<R>, b: Buffer<R>, caller: Caller)
    requires b.holder.Some? && b.holder.value.0 == caller
    ensures Next(codec, b, caller, Fail).holder.None? && Next(codec, b, caller, Fail).file == b.file
  {
  }

  /** Once it has the lock an append that does not fail adds one line, a read reads the file, and a clear removes it. */
  lemma CallsAlone<R>(codec: Codec<R>, b: Buffer<R>, caller: Caller, r: R)
    requires b.holder.None?
    ensures var entered := Next(codec, b, caller, EnterAppend(r));
      var written := Next(codec, Next(codec, entered, caller, WriteRecord), caller, WriteNewline);
      Next(codec, written, caller, Leave)
        == Buffer(Some(TextOf(b.file) + codec.dumps(r) + "\n"), None, b.done + [Appended(r)])
    ensures var read := Next(codec, Next(codec, b, caller, EnterRead), caller, Load);
      Next(codec, read, caller, Leave) == Buffer(b.file, None, b.done + [Read(Contents(codec, b.file))])
    ensures var cleared := Next(codec, Next(codec, b, caller, EnterClear), caller, Unlink);
      Next(codec, cleared, caller, Leave) == Buffer(None, None, b.done + [Cleared])
  {
    hide Contents;
  }

  // What reads return, in every run whatever.

  /** The file that the finished sections leave. */
  function FileOf<R>(codec: Codec<R>, done: seq<Entry<R>>): Option<string> {
    if done == [] then None else FileAfter(codec, FileOf(codec, done[..|done| - 1]), done[|done| - 1])
  }

  function FileAfter<R>(codec: Codec<R>, file: Option<string>, entry: Entry<R>): Option<string> {
    match entry
    case Appended(r) => Some(TextOf(file) + codec.dumps(r) + "\n")
    case Torn(r) => Some(TextOf(file) + codec.dumps(r))
    case Read(_) => file
    case Cleared => None
  }

  /** Since the last clear no append wrote behind a torn one. */
  predicate Clean<R>(done: seq<Entry<R>>) {
    done == [] ||
    var front, last := done[..|done| - 1], done[|done| - 1];
    last.Cleared? || (Clean(front) && (last.Read? || !Ragged(front)))
  }

  /** File and reads in every run, without any hypothesis. */
  ghost predicate Accounted<R>(codec: Codec<R>, b: Buffer<R>) {
    && SectionAccounted(codec, b)
    && forall i :: 0 <= i < |b.done| && b.done[i].Read? ==>
      b.done[i].result == Contents(codec, FileOf(codec, b.done[..i]))
  }

  ghost predicate SectionAccounted<R>(codec: Codec<R>, b: Buffer<R>) {
    var file := FileOf(codec, b.done);
    if b.holder.None? then b.file == file
    else
      match b.holder.value.1
      case Appending(r, Nothing) => b.file == file
      case Appending(r, RecordOnly) => b.file == Some(TextOf(file) + codec.dumps(r))
      case Appending(r, WholeLine) => b.file == Some(TextOf(file) + codec.dumps(r) + "\n")
      case Reading(result) => b.file == file && (result.Some? ==> result.value == Contents(codec, file))
      case Clearing(removed) => b.file == if removed then None else file
  }

  lemma FileSnoc<R>(codec: Codec<R>, done: seq<Entry<R>>, entry: Entry<R>)
    ensures FileOf(codec, done + [entry]) == FileAfter(codec, FileOf(codec, done), entry)
  {
    assert (done + [entry])[..|done|] == done;
  }

  lemma ReadsSnoc<R>(codec: Codec<R>, done: seq<Entry<R>>, entry: Entry<R>)
    requires forall i ::
      0 <= i < |done| && done[i].Read? ==> done[i].result == Contents(codec, FileOf(codec, done[..i]))
    requires entry.Read? ==> entry.result == Contents(codec, FileOf(codec, done))
    ensures var more := done + [entry];
      forall i :: 0 <= i < |more| && more[i].Read? ==> more[i].result == Contents(codec, FileOf(codec, more[..i]))
  {
    var more := done + [entry];
    forall i | 0 <= i < |more| && more[i].Read?
      ensures more[i].result == Contents(codec, FileOf(codec, more[..i]))
    {
      assert i < |done| ==> more[..i] == done[..i];
      assert i == |done| ==> more[..i] == done;
    }
  }

  lemma NextKeepsAccounted<R>(codec: Codec<R>, b: Buffer<R>, caller: Caller, action: Action<R>)
    requires Accounted(codec, b)
    ensures Accounted(codec, Next(codec, b, caller, action))
  {
    hide FileOf, Contents;
    var after := Next(codec, b, caller, action);
    if |after.done| > |b.done| {
      var entry := after.done[|b.done|];
      assert after.done == b.done + [entry];
      FileSnoc(codec, b.done, entry);
      ReadsSnoc(codec, b.done, entry);
    }
  }

  lemma {:induction false} EveryRunIsAccounted<R>(codec: Codec<R>, steps: seq<(Caller, Action<R>)>)
    ensures Accounted(codec, Run(codec, Start(), steps))
  {
    if steps != [] {
      var n := |steps| - 1;
      EveryRunIsAccounted(codec, steps[..n]);
      NextKeepsAccounted(codec, Run(codec, Start(), steps[..n]), steps[n].0, steps[n].1);
    }
  }

  /** A text in two parts: whole lines, and what stands behind the last newline, on one line or nothing. */
  predicate Parts(text: string, whole: string, rest: string, ragged: bool) {
    && text == whole + rest
    && (whole == "" || IsLineEnd(whole[|whole| - 1]))
    && if ragged then OneLine(rest) else rest == ""
  }

  lemma LinesOfParts(whole: string, rest: string, ragged: bool)
    requires Parts(whole + rest, whole, rest, ragged)
    ensures |Lines(whole + rest)| == |Lines(whole)| + if ragged then 1 else 0
  {
    hide Lines;
    LinesConcat(whole, rest);
    if ragged {
      OneUnterminatedLine(rest);
    } else {
      NoLines();
    }
  }

  /** A record written behind a text continues its unterminated line, or starts a new one. */
  lemma PartsAfter(whole: string, rest: string, ragged: bool, record: string)
    requires Parts(whole + rest, whole, rest, ragged) && OneLine(record)
    ensures Parts(whole + rest + record, whole, rest + record, true)
    ensures Parts(whole + rest + record + "\n", whole + (rest + record) + "\n", "", false)
    ensures |Lines(whole + (rest + record) + "\n")| == |Lines(whole)| + 1
  {
    hide Lines, OneLine, LineLength;
    var line := rest + record;
    if ragged {
      OneLineJoined(rest, record);
    } else {
      assert line == record;
    }
    Regroup(whole, rest, record);
    Regroup(whole, line, "\n");
    LinesOfOne(line);
    LinesConcat(whole, line + "\n");
    assert (whole + line + "\n") + "" == whole + line + "\n";
  }

  /** The file has at most as many lines as the log has records, and as many exactly if it is clean. */
  lemma {:induction false} LinesOfFile<R(!new)>(codec: Codec<R>, done: seq<Entry<R>>)
      returns (whole: string, rest: string)
    requires Lawful(codec)
    ensures Parts(TextOf(FileOf(codec, done)), whole, rest, Ragged(done))
    ensures var lines := |Lines(whole)| + if Ragged(done) then 1 else 0;
      lines <= |LogOf(done)| && (lines == |LogOf(done)| <==> Clean(done))
  {
    NoLines();
    whole, rest := "", "";
    if done != [] {
      var front, last := done[..|done| - 1], done[|done| - 1];
      whole, rest := LinesOfFile(codec, front);
      hide Lines, OneLine;
      match last
      case Appended(r) =>
        PartsAfter(whole, rest, Ragged(front), codec.dumps(r));
        whole, rest := whole + (rest + codec.dumps(r)) + "\n", "";
      case Torn(r) =>
        PartsAfter(whole, rest, Ragged(front), codec.dumps(r));
        rest := rest + codec.dumps(r);
      case Read(_) =>
      case Cleared =>
        whole, rest := "", "";
    }
  }

  lemma {:induction false} ParsedIsNoLonger<R>(codec: Codec<R>, lines: seq<string>)
    ensures Parsed(codec, lines).Some? ==> |Parsed(codec, lines).value| <= |lines|
  {
    if lines != [] {
      ParsedIsNoLonger(codec, lines[..|lines| - 1]);
    }
  }

  /** A clean file is the printed log, but for the last newline if that is missing. */
  lemma {:induction false} CleanFile<R(!new)>(codec: Codec<R>, done: seq<Entry<R>>)
    requires Clean(done)
    ensures FileIs(codec, FileOf(codec, done), LogOf(done), Ragged(done))
  {
    if done != [] && !done[|done| - 1].Cleared? {
      var front, last := done[..|done| - 1], done[|done| - 1];
      CleanFile(codec, front);
      if !last.Read? {
        assert TextOf(FileOf(codec, front)) == Printed(codec, LogOf(front));
        RecordThenNewline(codec, LogOf(front), last.record);
      }
    }
  }

  /** Exactly when a file reads back as its log; if it does not, records are missing or it is not JSON. */
  lemma ReadsBackExactly<R(!new)>(codec: Codec<R>, done: seq<Entry<R>>)
    requires Lawful(codec)
    ensures var contents := Contents(codec, FileOf(codec, done));
      && (contents == Some(LogOf(done)) <==> Clean(done))
      && (!Clean(done) && contents.Some? ==> |contents.value| < |LogOf(done)|)
  {
    hide LogOf, Clean, Ragged, FileOf, Lines, Parsed;
    if Clean(done) {
      CleanFile(codec, done);
      FileReadsBack(codec, FileOf(codec, done), LogOf(done), Ragged(done));
    } else {
      var whole, rest := LinesOfFile(codec, done);
      LinesOfParts(whole, rest, Ragged(done));
      NoLines();
      ParsedIsNoLonger(codec, Lines(TextOf(FileOf(codec, done))));
    }
  }

  /**
   Any number of concurrent callers, their steps interleaved at will, appends failing at will: a
   read returned exactly the records since the last clear if and only if since then no append had
   written behind a torn one; otherwise it raised or missed records. The same holds of the file
   whenever the lock is free.
   */
  lemma RunsAreSequential<R(!new)>(codec: Codec<R>, steps: seq<(Caller, Action<R>)>)
    requires Lawful(codec)
    ensures var end := Run(codec, Start(), steps);
      && (forall i :: 0 <= i < |end.done| && end.done[i].Read? ==> ReadIsExact(end.done, i))
      && (end.holder.None? ==> (Contents(codec, end.file) == Some(LogOf(end.done)) <==> Clean(end.done)))
  {
    EveryRunIsAccounted(codec, steps);
    hide LogOf, Clean, FileOf, Contents, Run;
    var end := Run(codec, Start(), steps);
    ReadsBackExactly(codec, end.done);
    forall i | 0 <= i < |end.done| && end.done[i].Read?
      ensures ReadIsExact(end.done, i)
    {
      ReadsBackExactly(codec, end.done[..i]);
    }
  }

  /** Read `i` gave the log at its place exactly if that was clean; otherwise it raised or gave too few records. */
  ghost predicate ReadIsExact<R>(done: seq<Entry<R>>, i: nat)
    requires i < |done| && done[i].Read?
  {
    && (done[i].result == Some(LogOf(done[..i])) <==> Clean(done[..i]))
    && (!Clean(done[..i]) && done[i].result.Some? ==> |done[i].result.value| < |LogOf(done[..i])|)
  }

  ghost predicate AllStartNewLines<R>(codec: Codec<R>, b: Buffer<R>, steps: seq<(Caller, Action<R>)>) {
    steps == [] ||
    var n := |steps| - 1;
    AllStartNewLines(codec, b, steps[..n]) && StartsNewLine(Run(codec, b, steps[..n]), steps[n].0, steps[n].1)
  }

  /**
   A run of any number of concurrent callers, their steps interleaved at will, in which no append
   writes behind a torn one, is a sequential log in lock order: every read returned exactly the
   records since the last clear, and whenever the lock is free the file reads back as that log.
   */
  lemma OrderlyRunsAreSequential<R(!new)>(codec: Codec<R>, steps: seq<(Caller, Action<R>)>)
    requires Lawful(codec) && AllStartNewLines(codec, Start(), steps)
    ensures var end := Run(codec, Start(), steps);
      && ReadsAreSequential(end.done)
      && Inv(codec, end)
      && (end.holder.None? ==> Contents(codec, end.file) == Some(LogOf(end.done)))
      && (end.holder.None? && !Ragged(end.done) ==> Holds(codec, end.file, LogOf(end.done)))
  {
    var end := Run(codec, Start(), steps);
    assert steps[..|steps|] == steps && end.done[..|end.done|] == end.done;
    FileAgreesExactly(codec, steps);
    RunsAreSequential(codec, steps);
    OrderlyRunIsClean(codec, steps);
    hide LogOf, Clean, Contents, Run, AllStartNewLines, ReadsAreSequential;
    forall i | 0 <= i < |end.done| && end.done[i].Read?
      ensures end.done[i].result == Some(LogOf(end.done[..i]))
    {
      assert ReadIsExact(end.done, i);
    }
  }

  lemma {:induction false} OrderlyRunIsClean<R(!new)>(codec: Codec<R>, steps: seq<(Caller, Action<R>)>)
    requires AllStartNewLines(codec, Start(), steps)
    ensures var end := Run(codec, Start(), steps);
      && (forall i :: 0 <= i <= |end.done| ==> Clean(end.done[..i]))
      && (InAppend(end) ==> !Ragged(end.done))
  {
    if steps != [] {
      var n := |steps| - 1;
      OrderlyRunIsClean(codec, steps[..n]);
      var b := Run(codec, Start(), steps[..n]);
      StaysClean(codec, b, steps[n].0, steps[n].1);
    }
  }

  /** An append has begun to write. */
  predicate InAppend<R>(b: Buffer<R>) {
    b.holder.Some? && b.holder.value.1.Appending? && b.holder.value.1.written != Nothing
  }

  lemma StaysClean<R(!new)>(codec: Codec<R>, b: Buffer<R>, caller: Caller, action: Action<R>)
    requires StartsNewLine(b, caller, action)
    requires (forall i :: 0 <= i <= |b.done| ==> Clean(b.done[..i])) && (InAppend(b) ==> !Ragged(b.done))
    ensures var after := Next(codec, b, caller, action);
      && (forall i :: 0 <= i <= |after.done| ==> Clean(after.done[..i]))
      && (InAppend(after) ==> !Ragged(after.done))
  {
    hide Contents;
    var after := Next(codec, b, caller, action);
    assert b.done[..|b.done|] == b.done;
    if |after.done| > |b.done| {
      var n := |b.done|;
      assert after.done[..n] == b.done;
      assert after.done[..n + 1] == after.done;
      forall i | 0 <= i <= n + 1
        ensures Clean(after.done[..i])
      {
        assert i <= n ==> after.done[..i] == b.done[..i];
      }
    }
  }

  ghost predicate AlwaysInv<R>(codec: Codec<R>, b: Buffer<R>, steps: seq<(Caller, Action<R>)>) {
    forall i :: 0 <= i <= |steps| ==> Inv(codec, Run(codec, b, steps[..i]))
  }

  /** The hypothesis is exact: file and log agree throughout a run if and only if no append of it
      writes behind a torn one. */
  lemma {:induction false} FileAgreesExactly<R(!new)>(codec: Codec<R>, steps: seq<(Caller, Action<R>)>)
    requires Lawful(codec)
    ensures AlwaysInv(codec, Start(), steps) <==> AllStartNewLines(codec, Start(), steps)
  {
    if steps == [] {
      assert forall i :: 0 <= i <= |steps| ==> steps[..i] == steps;
    } else {
      var n := |steps| - 1;
      FileAgreesExactly(codec, steps[..n]);
      assert forall i :: 0 <= i <= n ==> steps[..n][..i] == steps[..i];
      assert steps[..n + 1] == steps;
      var before := Run(codec, Start(), steps[..n]);
      if Inv(codec, before) {
        NextKeepsInvExactly(codec, before, steps[n].0, steps[n].1);
      }
      AlwaysInvSnoc(codec, steps);
    }
  }

  lemma AlwaysInvSnoc<R>(codec: Codec<R>, steps: seq<(Caller, Action<R>)>)
    requires steps != []
    ensures var n := |steps| - 1;
      AlwaysInv(codec, Start(), steps) <==>
        AlwaysInv(codec, Start(), steps[..n]) && Inv(codec, Run(codec, Start(), steps))
    ensures AlwaysInv(codec, Start(), steps[..|steps| - 1]) ==> Inv(codec, Run(codec, Start(), steps[..|steps| - 1]))
  {
    hide Inv, Run;
    var n := |steps| - 1;
    assert forall i :: 0 <= i <= n ==> steps[..n][..i] == steps[..i];
    assert steps[..n + 1] == steps && steps[..n][..n] == steps[..n];
  }

  // Files whose every line is whole.

  /** An append does not fail between its record and its newline. */
  predicate NotTorn<R>(b: Buffer<R>, caller: Caller, action: Action<R>) {
    !(action.Fail? && b.holder.Some? && b.holder.value.0 == caller
      && b.holder.value.1.Appending? && b.holder.value.1.written == RecordOnly)
  }

  /** From a file of whole lines, a step leaves whole lines exactly when it tears no append. */
  lemma LinesStayWholeExactly<R(!new)>(codec: Codec<R>, b: Buffer<R>, caller: Caller, action: Action<R>)
    requires Lawful(codec) && Inv(codec, b) && !Ragged(b.done)
    ensures var after := Next(codec, b, caller, action);
      Inv(codec, after) && (!Ragged(after.done) <==> NotTorn(b, caller, action))
  {
    hide LogOf, Ragged, ReadsAreSequential, Printed, Unterminated, Contents;
    NextKeepsInv(codec, b, caller, action);
    if b.holder.Some? && b.holder.value.0 == caller {
      match (b.holder.value.1, action)
      case (Appending(r, WholeLine), _) => DoneSnoc(b.done, Appended(r));
      case (Appending(r, RecordOnly), _) => DoneSnoc(b.done, Torn(r));
      case (Reading(Some(result)), _) => DoneSnoc(b.done, Read(result));
      case (Clearing(true), _) => DoneSnoc(b.done, Cleared);
      case _ =>
    }
  }

  ghost predicate NeverTorn<R>(codec: Codec<R>, b: Buffer<R>, steps: seq<(Caller, Action<R>)>) {
    steps == [] ||
    var n := |steps| - 1;
    NeverTorn(codec, b, steps[..n]) && NotTorn(Run(codec, b, steps[..n]), steps[n].0, steps[n].1)
  }

  ghost predicate Whole<R>(codec: Codec<R>, b: Buffer<R>) {
    Inv(codec, b) && !Ragged(b.done)
  }

  ghost predicate AlwaysWhole<R>(codec: Codec<R>, b: Buffer<R>, steps: seq<(Caller, Action<R>)>) {
    forall i :: 0 <= i <= |steps| ==> Whole(codec, Run(codec, b, steps[..i]))
  }

  /** The file is the printed log throughout a run if and only if no append of it is torn. */
  lemma {:induction false} LinesAlwaysWholeExactly<R(!new)>(codec: Codec<R>, steps: seq<(Caller, Action<R>)>)
    requires Lawful(codec)
    ensures AlwaysWhole(codec, Start(), steps) <==> NeverTorn(codec, Start(), steps)
  {
    hide Inv, Next, NotTorn, Ragged;
    if steps == [] {
      assert forall i :: 0 <= i <= |steps| ==> steps[..i] == steps;
      StartIsWhole(codec);
    } else {
      var n := |steps| - 1;
      LinesAlwaysWholeExactly(codec, steps[..n]);
      assert forall i :: 0 <= i <= n ==> steps[..n][..i] == steps[..i];
      assert steps[..n + 1] == steps;
      var before := Run(codec, Start(), steps[..n]);
      if Whole(codec, before) {
        LinesStayWholeExactly(codec, before, steps[n].0, steps[n].1);
      }
      AlwaysWholeSnoc(codec, steps);
    }
  }

  lemma StartIsWhole<R>(codec: Codec<R>)
    ensures Whole(codec, Start())
  {
  }

  lemma AlwaysWholeSnoc<R>(codec: Codec<R>, steps: seq<(Caller, Action<R>)>)
    requires steps != []
    ensures var n := |steps| - 1;
      AlwaysWhole(codec, Start(), steps) <==>
        AlwaysWhole(codec, Start(), steps[..n]) && Whole(codec, Run(codec, Start(), steps))
    ensures AlwaysWhole(codec, Start(), steps) ==> Whole(codec, Run(codec, Start(), steps[..|steps| - 1]))
    ensures AlwaysWhole(codec, Start(), steps[..|steps| - 1])
      ==> Whole(codec, Run(codec, Start(), steps[..|steps| - 1]))
  {
    hide Whole, Run;
    var n := |steps| - 1;
    assert forall i :: 0 <= i <= n ==> steps[..n][..i] == steps[..i];
    assert steps[..n + 1] == steps && steps[..n][..n] == steps[..n];
  }

  /** A clear heals the file, whatever state it was in and whatever was read before. */
  lemma ClearHeals<R(!new)>(codec: Codec<R>, b: Buffer<R>, caller: Caller, end: Action<R>)
    requires b.holder == Some((caller, Clearing(false))) && (end.Leave? || end.Fail?)
    ensures var after := Next(codec, Next(codec, b, caller, Unlink), caller, end);
      && after.holder.None? && after.file == None && LogOf(after.done) == []
      && Clean(after.done) && !Ragged(after.done)
      && (ReadsAreSequential(b.done) ==> Inv(codec, after))
  {
    hide ReadsAreSequential, Printed, Unterminated, Contents;
    assert (b.done + [Cleared])[..|b.done|] == b.done;
    if ReadsAreSequential(b.done) {
      DoneSnoc(b.done, Cleared);
    }
  }

  lemma OneLineJoined(a: string, b: string)
    requires OneLine(a) && OneLine(b)
    ensures OneLine(a + b)
  {
    var joined := a + b;
    assert joined[0] == a[0] && joined[|joined| - 1] == b[|b| - 1];
  }

  /** An append that is torn loses the next one too: both records end up on one line. */
  lemma TornAppendJoinsLines<R(!new)>(codec: Codec<R>, log: seq<R>, torn: R, next: R)
    requires Lawful(codec)
    ensures Lines(Printed(codec, log) + codec.dumps(torn) + (codec.dumps(next) + "\n"))
      == Lines(Printed(codec, log)) + [codec.dumps(torn) + codec.dumps(next)]
  {
    var first, second, file := codec.dumps(torn), codec.dumps(next), Printed(codec, log);
    assert OneLine(first) && OneLine(second);
    LinesOfPrinted(codec, log);
    hide *;
    OneLineJoined(first, second);
    LinesOfOne(first + second);
    LinesConcat(file, first + second + "\n");
    assert file + first + (second + "\n") == file + (first + second + "\n");
  }

  // The buffer object of one node, inside its critical sections.

  datatype BufferError = LockNotGranted | NotJson

  class SyncBuffer<R(!new)> {
    const codec: Codec<R>
    var file: Option<string>

    constructor (codec: Codec<R>)
      ensures this.codec == codec && file == None
    {
      this.codec := codec;
      file := None;
    }

    method Append(record: R, granted: bool) returns (r: Result<(), BufferError>)
      modifies this
      ensures !granted ==> r == Err(LockNotGranted) && file == old(file)
      ensures granted ==> r == Ok(())
      ensures granted ==>
        file == Some((if old(file).None? then "" else old(file).value) + (codec.dumps(record) + "\n"))
      ensures granted ==> forall log :: Holds(codec, old(file), log) ==> Holds(codec, file, log + [record])
    {
      if !granted {
        return Err(LockNotGranted);
      }
      var before := if file.None? then "" else file.value;
      var text := before + codec.dumps(record);
      text := text + "\n";
      file := Some(text);
      assert (before + codec.dumps(record)) + "\n" == before + (codec.dumps(record) + "\n");
      forall log | Holds(codec, old(file), log)
        ensures Holds(codec, file, log + [record])
      {
        assert (log + [record])[..|log|] == log;
        assert (Printed(codec, log) + codec.dumps(record)) + "\n" == Printed(codec, log) + (codec.dumps(record) + "\n");
      }
      r := Ok(());
    }

    method ReadAll(granted: bool) returns (r: Result<seq<R>, BufferError>)
      ensures !granted ==> r == Err(LockNotGranted)
      ensures granted ==> r == match Contents(codec, file) case None => Err(NotJson) case Some(records) => Ok(records)
    {
      if !granted {
        return Err(LockNotGranted);
      }
      if file.None? {
        return Ok([]);
      }
      var lines := Lines(file.value);
      var records: seq<R> := [];
      for i := 0 to |lines|
        invariant Parsed(codec, lines[..i]) == Some(records)
      {
        assert lines[..i + 1][..i] == lines[..i];
        var line := Strip(lines[i]);
        if line == "" {
          continue;
        }
        var parsed := codec.loads(line);
        if parsed.None? {
          ParsedFails(codec, lines, i + 1);
          return Err(NotJson);
        }
        records := records + [parsed.value];
      }
      assert lines[..|lines|] == lines;
      r := Ok(records);
    }

    method Clear(granted: bool) returns (r: Result<(), BufferError>)
      modifies this
      ensures r == if granted then Ok(()) else Err(LockNotGranted)
      ensures file == if granted then None else old(file)
    {
      if !granted {
        return Err(LockNotGranted);
      }
      if file.Some? {
        file := None;
      }
      r := Ok(());
    }
  }

  /** One line that is not JSON spoils the whole reading. */
  lemma {:induction false} ParsedFails<R>(codec: Codec<R>, lines: seq<string>, n: nat)
    requires n <= |lines| && Parsed(codec, lines[..n]) == None
    ensures Parsed(codec, lines) == None
    decreases |lines|
  {
    if n < |lines| {
      assert lines[..|lines| - 1][..n] == lines[..n];
      ParsedFails(codec, lines[..|lines| - 1], n);
    } else {
      assert lines[..n] == lines;
    }
  }
}
