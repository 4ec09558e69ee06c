/** The generated-test verifier: it reads the generated query file entry by entry
    (skipping comments, which become the entries' labels), hands each query (or, when
    the state space is reused, all of them at once) to a GUI verifier, polls it until it
    is done, the timeout passes or the user stops the run, and collects a sentence per
    answered query. */
module TestVerifier {
  import opened Common
  import opened Strings
  import opened QueryView

  const CommentStart := "/*"
  const CommentEnd := "*/"

  /** One query of the generated file: the line after a comment (null at the end of the
      file) and the comment text, "" when the query has none. */
  datatype QueryEntry = QueryEntry(query: Option<string>, comment: string)

  /** What `readLineSkipComments` does on the lines not read yet: the end of the file, an
      entry that used up `consumed` lines, or the NullPointerException of an unterminated
      multi-line comment. */
  datatype ReadResult = EndOfFile | Entry(entry: QueryEntry, consumed: nat) | NullPointer

  /** The first line at index j or later that closes a comment. */
  function FirstClosing(rest: seq<string>, j: nat): (r: Option<nat>)
    ensures r.Some? ==> j <= r.value < |rest| && Contains(rest[r.value], CommentEnd)
    ensures r.Some? ==> forall i :: j <= i < r.value ==> !Contains(rest[i], CommentEnd)
    ensures r.None? ==> forall i :: j <= i < |rest| ==> !Contains(rest[i], CommentEnd)
    decreases |rest| - j
  {
    if j >= |rest| then None
    else if Contains(rest[j], CommentEnd) then Some(j)
    else FirstClosing(rest, j + 1)
  }

  /** One call of `readLineSkipComments` on the lines `rest` not read yet. A line without
      a comment opening is the query. A line that opens and closes a comment is the label
      of the next line. A line that only opens one starts a comment whose label is the
      concatenation of the lines up to the closing line (both excluded); the line after
      the closing line is the query. */
  function ReadEntry(rest: seq<string>): (r: ReadResult)
    ensures r.Entry? ==> 1 <= r.consumed <= |rest|
  {
    if rest == [] then EndOfFile
    else if !Contains(rest[0], CommentStart) then Entry(QueryEntry(Some(rest[0]), ""), 1)
    else if Contains(rest[0], CommentEnd) then
      if |rest| == 1 then Entry(QueryEntry(None, rest[0]), 1)
      else Entry(QueryEntry(Some(rest[1]), rest[0]), 2)
    else match FirstClosing(rest, 1)
      case None => NullPointer
      case Some(e) =>
        var comment := Concat(rest[1..e]);
        if e + 1 < |rest| then Entry(QueryEntry(Some(rest[e + 1]), comment), e + 2)
        else Entry(QueryEntry(None, comment), e + 1)
  }

  /** A java.io.BufferedReader over the lines of a file. */
  class LineReader {
    const lines: seq<string>
    var pos: nat

    ghost predicate Valid()
      reads this
    {
      pos <= |lines|
    }

    /** The lines not read yet. */
    function Rest(): seq<string>
      reads this
      requires Valid()
    {
      lines[pos..]
    }

    constructor (lines: seq<string>)
      ensures Valid() && this.lines == lines && pos == 0
    {
      this.lines := lines;
      pos := 0;
    }

    /** `readLine`: the next line, or null at the end of the file. */
    method ReadLine() returns (line: Option<string>)
      requires Valid()
      modifies this`pos
      ensures Valid()
      ensures old(pos) < |lines| ==> line == Some(lines[old(pos)]) && pos == old(pos) + 1
      ensures old(pos) == |lines| ==> line == None && pos == old(pos)
    {
      if pos < |lines| {
        line := Some(lines[pos]);
        pos := pos + 1;
      } else {
        line := None;
      }
    }
  }

  /** The Java exceptions a run can end with: a null dereference, or the query file
      failing to open (with its message). */
  datatype Failure = NullPointerException | OpenFailure(message: string)

  /** `getMessage()`; a NullPointerException carries none. */
  function Message(f: Failure): (m: Option<string>)
    ensures m.None? <==> f.NullPointerException?
  {
    match f
    case NullPointerException => None
    case OpenFailure(message) => Some(message)
  }

  /** `readLineSkipComments`: reads the next entry of the file, returning null at its end. */
  method ReadLineSkipComments(reader: LineReader) returns (r: Result<Option<QueryEntry>, Failure>)
    requires reader.Valid()
    modifies reader`pos
    ensures reader.Valid()
    ensures ReadEntry(old(reader.Rest())).EndOfFile? ==> r == Success(None) && reader.Rest() == old(reader.Rest())
    ensures ReadEntry(old(reader.Rest())).Entry? ==>
      && r == Success(Some(ReadEntry(old(reader.Rest())).entry))
      && reader.Rest() == old(reader.Rest())[ReadEntry(old(reader.Rest())).consumed..]
    ensures ReadEntry(old(reader.Rest())).NullPointer? ==> r == Failure(NullPointerException)
  {
    ghost var start := reader.pos;
    ghost var rest := reader.Rest();
    var line := reader.ReadLine();
    var comment := "";
    if line.None? {
      return Success(None);
    }
    if Contains(line.value, CommentStart) {
      if Contains(line.value, CommentEnd) {
        comment := comment + line.value;
        assert comment == rest[0];
      } else {
        line := reader.ReadLine();
        while line.Some? && !Contains(line.value, CommentEnd)
          invariant reader.Valid() && rest == reader.lines[start..]
          invariant start + 2 <= reader.pos + (if line.None? then 1 else 0)
          invariant line.Some? ==> line.value == rest[reader.pos - 1 - start]
          invariant line.Some? ==> FirstClosing(rest, 1) == FirstClosing(rest, reader.pos - 1 - start)
          invariant line.Some? ==> comment == Concat(rest[1..reader.pos - 1 - start])
          invariant line.None? ==> reader.pos == |reader.lines| && FirstClosing(rest, 1) == None
          decreases |reader.lines| - reader.pos, line.Some?
        {
          ghost var j := reader.pos - 1 - start;
          assert rest[1..j + 1] == rest[1..j] + [rest[j]];
          comment := comment + line.value;
          line := reader.ReadLine();
        }
        if line.None? {
          return Failure(NullPointerException);
        }
        assert FirstClosing(rest, 1) == Some(reader.pos - 1 - start);
      }
      line := reader.ReadLine();
    }
    return Success(Some(QueryEntry(line, comment)));
  }

  /** Every entry of the file, read one after the other, and whether the reading
      ended in a NullPointerException rather than at the end of the file. */
  datatype Entries = Entries(entries: seq<QueryEntry>, failed: bool)

  function ReadAll(rest: seq<string>): (r: Entries)
    decreases |rest|
  {
    match ReadEntry(rest)
    case EndOfFile => Entries([], false)
    case NullPointer => Entries([], true)
    case Entry(entry, n) =>
      var tail := ReadAll(rest[n..]);
      Entries([entry] + tail.entries, tail.failed)
  }

  /** An entry as the query generator writes it: a query line with no comment opening,
      preceded by its one-line comment when it has one. */
  predicate WellFormed(entry: QueryEntry)
  {
    && entry.query.Some? && !Contains(entry.query.value, CommentStart)
    && (entry.comment == "" || (Contains(entry.comment, CommentStart) && Contains(entry.comment, CommentEnd)))
  }

  /** The lines of one well-formed entry. */
  function RenderEntry(entry: QueryEntry): (lines: seq<string>)
    requires WellFormed(entry)
  {
    if entry.comment == "" then [entry.query.value] else [entry.comment, entry.query.value]
  }

  /** The lines of a file of well-formed entries. */
  function Render(entries: seq<QueryEntry>): (lines: seq<string>)
    requires forall i :: 0 <= i < |entries| ==> WellFormed(entries[i])
  {
    if entries == [] then [] else RenderEntry(entries[0]) + Render(entries[1..])
  }

  /** Reading a written file gives back its entries, with their comments as labels. */
  lemma {:induction false} ReadAllRender(entries: seq<QueryEntry>)
    requires forall i :: 0 <= i < |entries| ==> WellFormed(entries[i])
    ensures ReadAll(Render(entries)) == Entries(entries, false)
    decreases |entries|
  {
    if entries != [] {
      var head := RenderEntry(entries[0]);
      var lines := Render(entries);
      assert lines == head + Render(entries[1..]);
      assert !Contains("", CommentStart);
      assert ReadEntry(lines) == Entry(entries[0], |head|);
      assert lines[|head|..] == Render(entries[1..]);
      ReadAllRender(entries[1..]);
      assert [entries[0]] + entries[1..] == entries;
    }
  }

  /** A comment spread over several lines labels the line after its closing line with the
      lines between its opening and closing lines. */
  lemma MultiLineComment(opening: string, body: seq<string>, closing: string, query: string, tail: seq<string>)
    requires Contains(opening, CommentStart) && !Contains(opening, CommentEnd)
    requires forall i :: 0 <= i < |body| ==> !Contains(body[i], CommentEnd)
    requires Contains(closing, CommentEnd)
    ensures ReadEntry([opening] + body + [closing, query] + tail)
            == Entry(QueryEntry(Some(query), Concat(body)), |body| + 3)
  {
    var rest := [opening] + body + [closing, query] + tail;
    assert rest[|body| + 1] == closing;
    assert forall i :: 1 <= i < |body| + 1 ==> rest[i] == body[i - 1];
    assert rest[1..|body| + 1] == body;
  }

  /** A comment that is opened and never closed makes `readLineSkipComments` dereference
      the null line at the end of the file. */
  lemma UnterminatedComment(opening: string, body: seq<string>)
    requires Contains(opening, CommentStart) && !Contains(opening, CommentEnd)
    requires forall i :: 0 <= i < |body| ==> !Contains(body[i], CommentEnd)
    ensures ReadEntry([opening] + body) == NullPointer
  {
    var rest := [opening] + body;
    assert forall i :: 1 <= i < |rest| ==> rest[i] == body[i - 1];
  }

  const DeadlockQuery := "A[] not deadlock"
  const FinishedSentence := "Test generation has been finished."
  const FinishedLabel := "Finished generation."

  /** Milliseconds slept between two polls of the verifier. */
  const SleepInterval := 250

  /** The timeout of the poll loop, counted in polls: the selected seconds times the polls
      per second (integer division, as in the source). */
  function TimeoutPolls(seconds: int): (polls: int)
    ensures polls * SleepInterval == seconds * 1000
  {
    seconds * (1000 / SleepInterval)
  }

  function Reachability(result: ThreeStateBoolean): string
  {
    match result
    case TRUE => "reachable"
    case FALSE => "NOT reachable"
    case UNDEF => "undefined"
  }

  /** The sentence reported for an answered query in the one-query-at-a-time mode: a
      deadlock verdict for the deadlock query, otherwise the reachability of the state the
      query's comment names. */
  function ReportSentence(expression: string, comment: string, result: ThreeStateBoolean): string
  {
    if expression == DeadlockQuery then
      match result
      case TRUE => "No deadlock."
      case FALSE => "There can be deadlock in the system."
      case UNDEF => "Not determined if there can be deadlock."
    else comment + " is " + Reachability(result) + "."
  }

  /** The reported sentence tells which verdict the model checker returned. */
  lemma {:induction false} ReportSentenceDeterminesVerdict(expression: string, comment: string,
                                                           r1: ThreeStateBoolean, r2: ThreeStateBoolean)
    requires ReportSentence(expression, comment, r1) == ReportSentence(expression, comment, r2)
    ensures r1 == r2
  {
    if expression != DeadlockQuery {
      var s := ReportSentence(expression, comment, r1);
      var k := |comment + " is "|;
      assert s[k..|s| - 1] == Reachability(r1);
      assert s[k..|s| - 1] == Reachability(r2);
      assert Reachability(r1)[0] == Reachability(r2)[0];
      assert |Reachability(r1)| == |Reachability(r2)|;
    } else {
      var s1 := ReportSentence(expression, comment, r1);
      assert |s1| == |ReportSentence(expression, comment, r2)|;
      assert s1[0] == ReportSentence(expression, comment, r2)[0];
    }
  }

  /** What the GUI verifier of the i-th query does, which this model does not compute:
      after how many polls it reports done (never, if None), whether the user's Stop
      cancelled its process, and the verdict it returns. */
  datatype VerifierOutcome = VerifierOutcome(doneAfter: Option<nat>, cancelledByUser: bool, result: ThreeStateBoolean)

  /** The other threads: the outcome of each dispatched query, and the first read of the
      `isCancelled` flag (counting every read) that sees the Stop button's write, if any. */
  datatype Environment = Environment(outcome: nat -> VerifierOutcome, cancelRead: Option<nat>)

  predicate Done(o: VerifierOutcome, elapsed: nat)
  {
    o.doneAfter.Some? && o.doneAfter.value <= elapsed
  }

  /** The value read number `read` of the flag sees, when it was `before` at the start. */
  predicate Sees(before: bool, env: Environment, read: nat)
  {
    before || (env.cancelRead.Some? && env.cancelRead.value <= read)
  }

  /** The flag's value after `flagReads` reads of it. */
  predicate SeenAfter(before: bool, env: Environment, flagReads: nat)
  {
    before || (env.cancelRead.Some? && env.cancelRead.value < flagReads)
  }

  /** Where a poll loop stops: the polls slept and the reads of the flag made so far. */
  datatype Polled = Polled(elapsed: nat, flagReads: nat)

  /** The poll loop from `elapsed` polls on: it stops when the verifier is done, when the
      timeout is reached, or when a read of the flag sees the Stop. */
  function Poll(o: VerifierOutcome, env: Environment, before: bool, timeout: nat, elapsed: nat, flagReads: nat): (p: Polled)
    ensures elapsed <= p.elapsed && flagReads <= p.flagReads
    ensures elapsed <= timeout ==> p.elapsed <= timeout
    ensures forall t :: elapsed <= t < p.elapsed ==> !Done(o, t)
    ensures p.elapsed < timeout && !Done(o, p.elapsed) ==> flagReads < p.flagReads && Sees(before, env, p.flagReads - 1)
    // it stops at the first read of the flag that sees the Stop: no earlier read saw it
    ensures forall r :: flagReads <= r && r + 1 < p.flagReads ==> !Sees(before, env, r)
    decreases timeout - elapsed
  {
    if Done(o, elapsed) || elapsed >= timeout then Polled(elapsed, flagReads)
    else if Sees(before, env, flagReads) then Polled(elapsed, flagReads + 1)
    else Poll(o, env, before, timeout, elapsed + 1, flagReads + 1)
  }

  /** The inner loop of the reuse-state-space mode: the keys of the entries read, what is
      left of the file, the reads of the flag made, and whether reading failed. */
  datatype Gathered = Gathered(keys: seq<string>, rest: seq<string>, flagReads: nat, failed: bool)

  function Gather(rest: seq<string>, env: Environment, before: bool, flagReads: nat, keys: seq<string>): (g: Gathered)
    ensures |g.rest| <= |rest| && keys <= g.keys && flagReads <= g.flagReads
    // it stops at the first read of the flag that sees the Stop: no earlier read saw it
    ensures forall r :: flagReads <= r && r + 1 < g.flagReads ==> !Sees(before, env, r)
    decreases |rest|
  {
    match ReadEntry(rest)
    case NullPointer => Gathered(keys, rest, flagReads, true)
    case EndOfFile => Gathered(keys, rest, flagReads, false)
    case Entry(entry, n) =>
      if Sees(before, env, flagReads) then Gathered(keys, rest[n..], flagReads + 1, false)
      else Gather(rest[n..], env, before, flagReads + 1, keys + [JavaString(entry.query)])
  }

  /** One verifier the run created: the query handed to it, the comment of its entry, the
      polls waited for it and the sentence reported for it, if any. */
  datatype Dispatch = Dispatch(query: Option<string>, comment: string, waited: nat, sentence: Option<string>)

  /** A run so far: its dispatches, the polls slept, the reads of the flag made and the
      exception it ended with, if any. */
  datatype Generation = Generation(dispatches: seq<Dispatch>, ticks: nat, flagReads: nat, failure: Option<Failure>)

  /** The inner loop of the reuse-state-space mode from `rest`, `flagReads` and `keys` on
      ends in `gathered`. */
  ghost predicate Gathers(rest: seq<string>, env: Environment, before: bool, flagReads: nat, keys: seq<string>,
                          gathered: Gathered)
  {
    Gather(rest, env, before, flagReads, keys) == gathered
  }

  /** The sentences of the answered queries, in order. */
  function Reported(dispatches: seq<Dispatch>): (sentences: seq<string>)
    ensures |sentences| <= |dispatches|
  {
    if dispatches == [] then []
    else
      var last := dispatches[|dispatches| - 1];
      Reported(dispatches[..|dispatches| - 1]) + (if last.sentence.Some? then [last.sentence.value] else [])
  }

  /** Where one iteration of the outer loop of `run` leaves the run: ended with the given
      result, or to be continued on the given lines. */
  datatype Step = Stop(result: Generation) | Next(rest: seq<string>, acc: Generation)

  function After(s: Step): Generation
  {
    if s.Stop? then s.result else s.acc
  }

  /** `after` adds at most one dispatch to `acc`, which agrees with its outcome, and sleeps at
      most the timeout for it. */
  ghost predicate StepExtends(acc: Generation, after: Generation, reuse: bool, timeout: nat, env: Environment)
  {
    && acc.dispatches <= after.dispatches && |after.dispatches| <= |acc.dispatches| + 1
    && acc.flagReads <= after.flagReads
    && (|after.dispatches| == |acc.dispatches| ==> after.ticks == acc.ticks)
    && (|after.dispatches| == |acc.dispatches| + 1 ==>
          && Accounted(after.dispatches[|acc.dispatches|], env.outcome(|acc.dispatches|), reuse, timeout)
          && after.ticks == acc.ticks + after.dispatches[|acc.dispatches|].waited)
  }

  /** The part of an iteration after the query is known: the verifier is created, polled,
      and its verdict turned into a sentence. A missing query that was answered fails on
      the comparison with the deadlock query. */
  function AwaitVerdict(expression: Option<string>, comment: string, rest: seq<string>, reuse: bool,
                        timeout: nat, env: Environment, before: bool, acc: Generation, flagReads: nat): (s: Step)
    requires acc.failure.None? && acc.flagReads <= flagReads
    ensures s.Next? ==> s.rest == rest && s.acc.failure.None?
    ensures |After(s).dispatches| == |acc.dispatches| + 1 && After(s).dispatches[|acc.dispatches|].query == expression
  {
    var o := env.outcome(|acc.dispatches|);
    var p := Poll(o, env, before, timeout, 0, flagReads);
    var answered := Done(o, p.elapsed) && !o.cancelledByUser;
    if answered && !reuse && expression.None? then
      Stop(Generation(acc.dispatches + [Dispatch(expression, comment, p.elapsed, None)],
                      acc.ticks + p.elapsed, p.flagReads, Some(NullPointerException)))
    else
      var sentence := if !answered then None
                      else if reuse then Some(FinishedSentence)
                      else Some(ReportSentence(expression.value, comment, o.result));
      Next(rest, Generation(acc.dispatches + [Dispatch(expression, comment, p.elapsed, sentence)],
                            acc.ticks + p.elapsed, p.flagReads, None))
  }

  /** Where the first half of an iteration leaves it: the iteration stops with `result`, or
      awaits the verdict on `expression` with the lines in `rest` left and the flag read
      `flagReads` times. */
  datatype Prepared = Halt(result: Generation)
                    | Ready(expression: Option<string>, comment: string, rest: seq<string>, flagReads: nat)

  /** The first half of an iteration of the outer loop of `run` on the lines not read yet:
      read an entry, stop at the end of the file, on an exception or on a seen Stop, and
      gather the remaining queries when the state space is reused. */
  function Prepare(rest: seq<string>, reuse: bool, sep: string, env: Environment, before: bool,
                   acc: Generation): (p: Prepared)
    requires acc.failure.None?
    ensures p.Ready? ==> |p.rest| < |rest| && acc.flagReads < p.flagReads
  {
    match ReadEntry(rest)
    case NullPointer => Halt(acc.(failure := Some(NullPointerException)))
    case EndOfFile => Halt(acc)
    case Entry(entry, n) =>
      if Sees(before, env, acc.flagReads) then Halt(acc.(flagReads := acc.flagReads + 1))
      else if !reuse then Ready(entry.query, entry.comment, rest[n..], acc.flagReads + 1)
      else
        var gathered := Gather(rest[n..], env, before, acc.flagReads + 1, [JavaString(entry.query)]);
        if gathered.failed then Halt(acc.(flagReads := gathered.flagReads, failure := Some(NullPointerException)))
        else Ready(Some(Join(gathered.keys, sep)), entry.comment, gathered.rest, gathered.flagReads)
  }

  /** The first half of an iteration, case by case. It halts without a verdict when the
      file fails to read or is exhausted, or when the Stop is seen before an entry is used.
      Otherwise, one query at a time, it is ready for the entry's query; with the state
      space reused it gathers the remaining queries, and is ready for all of them joined
      unless reading them fails. */
  lemma PrepareCases(rest: seq<string>, reuse: bool, sep: string, env: Environment, before: bool, acc: Generation)
    requires acc.failure.None?
    ensures var r := ReadEntry(rest);
            var p := Prepare(rest, reuse, sep, env, before, acc);
      && (r.NullPointer? ==> p == Halt(acc.(failure := Some(NullPointerException))))
      && (r.EndOfFile? ==> p == Halt(acc))
      && (r.Entry? && Sees(before, env, acc.flagReads) ==> p == Halt(acc.(flagReads := acc.flagReads + 1)))
    ensures var r := ReadEntry(rest);
            r.Entry? && !Sees(before, env, acc.flagReads) ==>
            var gathered := Gather(rest[r.consumed..], env, before, acc.flagReads + 1, [JavaString(r.entry.query)]);
            var p := Prepare(rest, reuse, sep, env, before, acc);
      && (!reuse ==> p == Ready(r.entry.query, r.entry.comment, rest[r.consumed..], acc.flagReads + 1))
      && (reuse && gathered.failed ==> p == Halt(acc.(flagReads := gathered.flagReads, failure := Some(NullPointerException))))
      && (reuse && !gathered.failed ==>
            p == Ready(Some(Join(gathered.keys, sep)), r.entry.comment, gathered.rest, gathered.flagReads))
  {
  }

  /** One iteration of the outer loop of `run` on the lines not read yet: its first half,
      then, unless it stopped, the verdict awaited. */
  function Advance(rest: seq<string>, reuse: bool, sep: string, timeout: nat, env: Environment, before: bool,
                   acc: Generation): (s: Step)
    requires acc.failure.None?
    ensures s.Next? ==> |s.rest| < |rest| && s.acc.failure.None?
  {
    match Prepare(rest, reuse, sep, env, before, acc)
    case Halt(result) => Stop(result)
    case Ready(expression, comment, rest', flagReads) =>
      AwaitVerdict(expression, comment, rest', reuse, timeout, env, before, acc, flagReads)
  }

  /** The outer loop of `run` on the lines not read yet, from the run so far. */
  function Simulate(rest: seq<string>, reuse: bool, sep: string, timeout: nat, env: Environment, before: bool,
                    acc: Generation): (g: Generation)
    requires acc.failure.None?
    decreases |rest|
  {
    match Advance(rest, reuse, sep, timeout, env, before, acc)
    case Stop(result) => result
    case Next(rest', acc') => Simulate(rest', reuse, sep, timeout, env, before, acc')
  }

  /** The whole run on a query file that opened or failed to open. */
  function Generate(file: Result<seq<string>, string>, reuse: bool, sep: string, timeout: nat, env: Environment,
                    before: bool): Generation
  {
    match file
    case Failure(message) => Generation([], 0, 0, Some(OpenFailure(message)))
    case Success(lines) => Simulate(lines, reuse, sep, timeout, env, before, Generation([], 0, 0, None))
  }

  /** Awaiting a verdict adds one dispatch that agrees with its verifier's outcome. */
  lemma AwaitVerdictExtends(expression: Option<string>, comment: string, rest: seq<string>, reuse: bool,
                            timeout: nat, env: Environment, before: bool, acc: Generation, flagReads: nat)
    requires acc.failure.None? && acc.flagReads <= flagReads
    ensures StepExtends(acc, After(AwaitVerdict(expression, comment, rest, reuse, timeout, env, before, acc, flagReads)),
                        reuse, timeout, env)
  {
  }

  /** One iteration adds at most one dispatch, which agrees with its verifier's outcome. */
  lemma AdvanceExtends(rest: seq<string>, reuse: bool, sep: string, timeout: nat, env: Environment, before: bool,
                       acc: Generation)
    requires acc.failure.None?
    ensures StepExtends(acc, After(Advance(rest, reuse, sep, timeout, env, before, acc)), reuse, timeout, env)
  {
    match ReadEntry(rest)
    case NullPointer =>
    case EndOfFile =>
    case Entry(entry, n) =>
      if Sees(before, env, acc.flagReads) {
      } else if !reuse {
        AwaitVerdictExtends(entry.query, entry.comment, rest[n..], reuse, timeout, env, before, acc, acc.flagReads + 1);
      } else {
        var gathered := Gather(rest[n..], env, before, acc.flagReads + 1, [JavaString(entry.query)]);
        if !gathered.failed {
          AwaitVerdictExtends(Some(Join(gathered.keys, sep)), entry.comment, gathered.rest, reuse, timeout, env,
                              before, acc, gathered.flagReads);
        }
      }
  }

  /** The run on the lines `rest` not read yet, from the run so far `acc`, ends in `g`: the
      relational form of `Simulate`, which the outer loop of `run` keeps as its invariant. */
  ghost predicate Continues(rest: seq<string>, reuse: bool, sep: string, timeout: nat, env: Environment, before: bool,
                            acc: Generation, g: Generation)
    decreases |rest|, 2
  {
    acc.failure.None? && Resumes(rest, reuse, sep, timeout, env, before, acc, g)
  }

  /** The loop, about to run an iteration from `rest` and `acc`, ends in `g`. */
  ghost predicate Resumes(rest: seq<string>, reuse: bool, sep: string, timeout: nat, env: Environment, before: bool,
                          acc: Generation, g: Generation)
    requires acc.failure.None?
    decreases |rest|, 1
  {
    IterationEnds(rest, reuse, sep, timeout, env, before, acc, g)
  }

  /** The iteration from `rest` and `acc` stops with `g` in its first half, or goes on to
      a verdict from which the run ends in `g`. */
  ghost predicate IterationEnds(rest: seq<string>, reuse: bool, sep: string, timeout: nat, env: Environment,
                                before: bool, acc: Generation, g: Generation)
    requires acc.failure.None?
    decreases |rest|, 0
  {
    match Prepare(rest, reuse, sep, env, before, acc)
    case Halt(result) => result == g
    case Ready(expression, comment, rest', flagReads) =>
      VerdictEnds(expression, comment, rest', reuse, sep, timeout, env, before, acc, flagReads, g)
  }

  /** The verdict awaited on `expression` stops the run with `g`, or the run from where it
      leaves off ends in `g`. */
  ghost predicate VerdictEnds(expression: Option<string>, comment: string, rest: seq<string>, reuse: bool,
                              sep: string, timeout: nat, env: Environment, before: bool, acc: Generation,
                              flagReads: nat, g: Generation)
    requires acc.failure.None? && acc.flagReads <= flagReads
    decreases |rest|, 3
  {
    match AwaitVerdict(expression, comment, rest, reuse, timeout, env, before, acc, flagReads)
    case Stop(result) => result == g
    case Next(rest', acc') => Continues(rest', reuse, sep, timeout, env, before, acc', g)
  }

  /** The run continues from one iteration to the next: it ends in `g` exactly when the
      iteration stops with `g`, or goes on to a run that ends in `g`. */
  lemma ContinuesStep(rest: seq<string>, reuse: bool, sep: string, timeout: nat, env: Environment, before: bool,
                      acc: Generation, g: Generation)
    requires acc.failure.None?
    ensures var s := Advance(rest, reuse, sep, timeout, env, before, acc);
      Continues(rest, reuse, sep, timeout, env, before, acc, g)
      <==> (s.Stop? ==> s.result == g) && (s.Next? ==> Continues(s.rest, reuse, sep, timeout, env, before, s.acc, g))
  {
    assert Continues(rest, reuse, sep, timeout, env, before, acc, g)
           <==> Resumes(rest, reuse, sep, timeout, env, before, acc, g);
    assert Resumes(rest, reuse, sep, timeout, env, before, acc, g)
           <==> IterationEnds(rest, reuse, sep, timeout, env, before, acc, g);
    match Prepare(rest, reuse, sep, env, before, acc)
    case Halt(result) =>
    case Ready(expression, comment, rest', flagReads) =>
      assert IterationEnds(rest, reuse, sep, timeout, env, before, acc, g)
             <==> VerdictEnds(expression, comment, rest', reuse, sep, timeout, env, before, acc, flagReads, g);
  }

  /** The relational and the functional form of a run agree: a run ends in `g` exactly
      when `g` is what `Simulate` computes. */
  lemma {:induction false} ContinuesIsSimulate(rest: seq<string>, reuse: bool, sep: string, timeout: nat,
                                               env: Environment, before: bool, acc: Generation, g: Generation)
    requires acc.failure.None?
    ensures Continues(rest, reuse, sep, timeout, env, before, acc, g)
            <==> Simulate(rest, reuse, sep, timeout, env, before, acc) == g
    decreases |rest|
  {
    ContinuesStep(rest, reuse, sep, timeout, env, before, acc, g);
    match Advance(rest, reuse, sep, timeout, env, before, acc)
    case Stop(result) =>
    case Next(rest', acc') =>
      ContinuesIsSimulate(rest', reuse, sep, timeout, env, before, acc', g);
  }

  /** Every run ends somewhere: the result of `Simulate`. */
  lemma RunEnds(rest: seq<string>, reuse: bool, sep: string, timeout: nat, env: Environment, before: bool,
                acc: Generation) returns (g: Generation)
    requires acc.failure.None?
    ensures Continues(rest, reuse, sep, timeout, env, before, acc, g)
  {
    g := Simulate(rest, reuse, sep, timeout, env, before, acc);
    ContinuesIsSimulate(rest, reuse, sep, timeout, env, before, acc, g);
  }

  /** The verdict of an awaited query: the verifier polled `polled.elapsed` times; it
      continues the run with the reported sentence, unless the answered query is missing. */
  lemma AwaitVerdictIs(expression: Option<string>, comment: string, rest: seq<string>, reuse: bool,
                       timeout: nat, env: Environment, before: bool, acc: Generation, flagReads: nat, polled: Polled)
    requires acc.failure.None? && acc.flagReads <= flagReads
    requires Poll(env.outcome(|acc.dispatches|), env, before, timeout, 0, flagReads) == polled
    ensures var o := env.outcome(|acc.dispatches|);
            var answered := Done(o, polled.elapsed) && !o.cancelledByUser;
            var s := AwaitVerdict(expression, comment, rest, reuse, timeout, env, before, acc, flagReads);
      && (answered && !reuse && expression.None? ==>
            s == Stop(Generation(acc.dispatches + [Dispatch(expression, comment, polled.elapsed, None)],
                                 acc.ticks + polled.elapsed, polled.flagReads, Some(NullPointerException))))
      && (!(answered && !reuse && expression.None?) ==>
            var sentence := if !answered then None
                            else if reuse then Some(FinishedSentence)
                            else Some(ReportSentence(expression.value, comment, o.result));
            s == Next(rest, Generation(acc.dispatches + [Dispatch(expression, comment, polled.elapsed, sentence)],
                                       acc.ticks + polled.elapsed, polled.flagReads, None)))
  {
  }

  /** Appending a dispatch appends its sentence, if any, to the reported ones. */
  lemma ReportedAppend(dispatches: seq<Dispatch>, d: Dispatch)
    ensures Reported(dispatches + [d]) == Reported(dispatches) + (if d.sentence.Some? then [d.sentence.value] else [])
  {
    assert (dispatches + [d])[..|dispatches|] == dispatches;
  }

  /** Appending a sentence and the separator to a buffer of terminated sentences. */
  lemma TerminatedAppend(parts: seq<string>, last: string, sep: string)
    ensures Terminated(parts + [last], sep) == Terminated(parts, sep) + last + sep
  {
    assert (parts + [last])[..|parts|] == parts;
  }

  /** Nobody presses Stop during the run. */
  predicate NeverStopped(env: Environment, before: bool)
  {
    !before && env.cancelRead.None?
  }

  /** The strings the reuse-state-space mode concatenates: each entry's query, "null" for a
      missing one. */
  function Keys(entries: seq<QueryEntry>): (keys: seq<string>)
    ensures |keys| == |entries|
    ensures forall i :: 0 <= i < |entries| ==> keys[i] == JavaString(entries[i].query)
  {
    seq(|entries|, i requires 0 <= i < |entries| => JavaString(entries[i].query))
  }

  /** A dispatch agrees with its verifier's outcome: it waited no longer than the timeout,
      a sentence is reported exactly when the verifier answered (unless the missing query
      of a one-query-at-a-time run failed first), and the sentence is the one for the
      verdict. */
  predicate Accounted(d: Dispatch, o: VerifierOutcome, reuse: bool, timeout: nat)
  {
    && d.waited <= timeout
    && (d.sentence.Some? ==> Done(o, d.waited) && !o.cancelledByUser)
    && (d.sentence.Some? && reuse ==> d.sentence.value == FinishedSentence)
    && (d.sentence.Some? && !reuse ==>
          d.query.Some? && d.sentence.value == ReportSentence(d.query.value, d.comment, o.result))
    && (Done(o, d.waited) && !o.cancelledByUser && (reuse || d.query.Some?) ==> d.sentence.Some?)
  }

  /** A run only adds to what it has done so far, and every dispatch it makes agrees with
      its verifier's outcome. */
  lemma {:induction false} RunAccountsDispatches(rest: seq<string>, reuse: bool, sep: string, timeout: nat,
                                                 env: Environment, before: bool, acc: Generation, g: Generation)
    requires Continues(rest, reuse, sep, timeout, env, before, acc, g)
    ensures acc.dispatches <= g.dispatches && acc.flagReads <= g.flagReads
    ensures forall i :: |acc.dispatches| <= i < |g.dispatches| ==>
              Accounted(g.dispatches[i], env.outcome(i), reuse, timeout)
    decreases |rest|
  {
    ContinuesStep(rest, reuse, sep, timeout, env, before, acc, g);
    AdvanceExtends(rest, reuse, sep, timeout, env, before, acc);
    match Advance(rest, reuse, sep, timeout, env, before, acc)
    case Stop(result) =>
    case Next(rest', acc') =>
      RunAccountsDispatches(rest', reuse, sep, timeout, env, before, acc', g);
      if |acc'.dispatches| == |acc.dispatches| + 1 {
        assert g.dispatches[|acc.dispatches|] == acc'.dispatches[|acc.dispatches|];
      }
  }

  /** From `from` to `to` the run slept at most the timeout per dispatch it added. */
  predicate SleepBounded(from: Generation, to: Generation, timeout: nat)
  {
    && |from.dispatches| <= |to.dispatches|
    && to.ticks <= from.ticks + (|to.dispatches| - |from.dispatches|) * timeout
  }

  /** Bounded sleep over two stretches of a run bounds the sleep over both. */
  lemma SleepBoundedTrans(a: Generation, b: Generation, c: Generation, timeout: nat)
    requires SleepBounded(a, b, timeout) && SleepBounded(b, c, timeout)
    ensures SleepBounded(a, c, timeout)
  {
    DistributeTimeout(|c.dispatches| - |b.dispatches|, |b.dispatches| - |a.dispatches|, timeout);
  }

  lemma DistributeTimeout(a: nat, b: nat, timeout: nat)
    ensures a * timeout + b * timeout == (a + b) * timeout
  {
  }

  /** One iteration sleeps at most the timeout for the dispatch it adds, if any. */
  lemma AdvanceBoundsSleep(rest: seq<string>, reuse: bool, sep: string, timeout: nat, env: Environment,
                           before: bool, acc: Generation)
    requires acc.failure.None?
    ensures var after := After(Advance(rest, reuse, sep, timeout, env, before, acc));
      |after.dispatches| <= |acc.dispatches| + 1 && SleepBounded(acc, after, timeout)
  {
    AdvanceExtends(rest, reuse, sep, timeout, env, before, acc);
    var after := After(Advance(rest, reuse, sep, timeout, env, before, acc));
    if |after.dispatches| == |acc.dispatches| + 1 {
      assert after.dispatches[|acc.dispatches|].waited <= timeout;
    }
  }

  /** A run sleeps at most the timeout per dispatch. */
  lemma {:induction false} RunBoundsSleep(rest: seq<string>, reuse: bool, sep: string, timeout: nat,
                                          env: Environment, before: bool, acc: Generation, g: Generation)
    requires Continues(rest, reuse, sep, timeout, env, before, acc, g)
    ensures SleepBounded(acc, g, timeout)
    decreases |rest|
  {
    ContinuesStep(rest, reuse, sep, timeout, env, before, acc, g);
    AdvanceBoundsSleep(rest, reuse, sep, timeout, env, before, acc);
    match Advance(rest, reuse, sep, timeout, env, before, acc)
    case Stop(result) =>
    case Next(rest', acc') =>
      RunBoundsSleep(rest', reuse, sep, timeout, env, before, acc', g);
      SleepBoundedTrans(acc, acc', g, timeout);
  }

  /** One iteration of the reuse-state-space inner loop that reads an entry and does not see
      the Stop appends the entry's key. */
  lemma GatherStep(rest: seq<string>, env: Environment, before: bool, flagReads: nat, keys: seq<string>)
    requires ReadEntry(rest).Entry? && !Sees(before, env, flagReads)
    ensures var r := ReadEntry(rest);
      Gather(rest, env, before, flagReads, keys)
      == Gather(rest[r.consumed..], env, before, flagReads + 1, keys + [JavaString(r.entry.query)])
  {
  }

  /** The first iteration of the reuse-state-space inner loop, case by case. */
  lemma GatherFirst(rest: seq<string>, env: Environment, before: bool, flagReads: nat, keys: seq<string>)
    ensures var g := Gather(rest, env, before, flagReads, keys);
      && (ReadEntry(rest).NullPointer? ==> g == Gathered(keys, rest, flagReads, true))
      && (ReadEntry(rest).EndOfFile? ==> g == Gathered(keys, rest, flagReads, false))
      && (ReadEntry(rest).Entry? && Sees(before, env, flagReads) ==>
            g == Gathered(keys, rest[ReadEntry(rest).consumed..], flagReads + 1, false))
      && (ReadEntry(rest).Entry? && !Sees(before, env, flagReads) ==>
            g == Gather(rest[ReadEntry(rest).consumed..], env, before, flagReads + 1,
                        keys + [JavaString(ReadEntry(rest).entry.query)]))
  {
  }

  /** After the inner loop of the reuse-state-space mode, the file is exhausted or the Stop
      has been seen. */
  lemma {:induction false} GatherStops(rest: seq<string>, env: Environment, before: bool, flagReads: nat,
                                       keys: seq<string>)
    requires !Gather(rest, env, before, flagReads, keys).failed
    ensures var g := Gather(rest, env, before, flagReads, keys);
      ReadEntry(g.rest).EndOfFile? || (0 < g.flagReads && Sees(before, env, g.flagReads - 1))
    decreases |rest|
  {
    match ReadEntry(rest)
    case NullPointer =>
    case EndOfFile =>
    case Entry(entry, n) =>
      if !Sees(before, env, flagReads) {
        GatherStops(rest[n..], env, before, flagReads + 1, keys + [JavaString(entry.query)]);
      }
  }

  /** Once the file is exhausted or the Stop is seen, the next iteration stops without
      dispatching anything. */
  lemma AdvanceStopsQuietly(rest: seq<string>, reuse: bool, sep: string, timeout: nat, env: Environment,
                            before: bool, acc: Generation)
    requires acc.failure.None? && (ReadEntry(rest).EndOfFile? || Sees(before, env, acc.flagReads))
    ensures var s := Advance(rest, reuse, sep, timeout, env, before, acc);
      s.Stop? && s.result.dispatches == acc.dispatches
  {
  }

  /** With the state space reused, an iteration that goes on has exhausted the file or
      seen the Stop, so the next one stops without dispatching anything. */
  lemma ReuseNextStops(rest: seq<string>, sep: string, timeout: nat, env: Environment, before: bool,
                       acc: Generation)
    requires acc.failure.None?
    ensures var s := Advance(rest, true, sep, timeout, env, before, acc);
      s.Next? ==> var t := Advance(s.rest, true, sep, timeout, env, before, s.acc);
                  t.Stop? && t.result.dispatches == s.acc.dispatches
  {
    var s := Advance(rest, true, sep, timeout, env, before, acc);
    if s.Next? {
      match ReadEntry(rest)
      case Entry(entry, n) =>
        GatherStops(rest[n..], env, before, acc.flagReads + 1, [JavaString(entry.query)]);
        AdvanceStopsQuietly(s.rest, true, sep, timeout, env, before, s.acc);
    }
  }

  /** With the state space reused, a run hands at most one query to a verifier: the
      iteration that dispatches is the last one that dispatches anything. */
  lemma ReuseDispatchesAtMostOnce(rest: seq<string>, sep: string, timeout: nat,
                                  env: Environment, before: bool, acc: Generation, g: Generation)
    requires Continues(rest, true, sep, timeout, env, before, acc, g)
    ensures |g.dispatches| <= |acc.dispatches| + 1
  {
    ContinuesStep(rest, true, sep, timeout, env, before, acc, g);
    AdvanceBoundsSleep(rest, true, sep, timeout, env, before, acc);
    ReuseNextStops(rest, sep, timeout, env, before, acc);
    match Advance(rest, true, sep, timeout, env, before, acc)
    case Stop(result) =>
    case Next(rest', acc') =>
      ContinuesStep(rest', true, sep, timeout, env, before, acc', g);
  }

  /** Without Stop, the reuse-state-space inner loop collects the key of every remaining
      entry, and fails exactly when reading the rest of the file does. */
  lemma {:induction false} GatherReadsAll(rest: seq<string>, env: Environment, before: bool, flagReads: nat,
                                          keys: seq<string>)
    requires NeverStopped(env, before)
    ensures var g := Gather(rest, env, before, flagReads, keys);
      && g.failed == ReadAll(rest).failed
      && (!g.failed ==> g.keys == keys + Keys(ReadAll(rest).entries) && ReadEntry(g.rest).EndOfFile?)
    decreases |rest|
  {
    match ReadEntry(rest)
    case NullPointer =>
    case EndOfFile =>
    case Entry(entry, n) =>
      var key := JavaString(entry.query);
      var tail := ReadAll(rest[n..]);
      assert ReadAll(rest) == Entries([entry] + tail.entries, tail.failed);
      GatherStep(rest, env, before, flagReads, keys);
      GatherReadsAll(rest[n..], env, before, flagReads + 1, keys + [key]);
      KeysCons(entry, tail.entries);
      AppendAssoc(keys, [key], Keys(tail.entries));
  }

  lemma KeysCons(entry: QueryEntry, entries: seq<QueryEntry>)
    ensures Keys([entry] + entries) == [JavaString(entry.query)] + Keys(entries)
  {
  }

  /** With the state space reused and no Stop, the first iteration fails if reading the
      file does, else dispatches the file's queries joined, if it has any, and leaves the
      file exhausted. */
  lemma ReuseAdvanceReadsAll(rest: seq<string>, sep: string, timeout: nat, env: Environment, before: bool,
                             acc: Generation)
    requires acc.failure.None? && NeverStopped(env, before)
    ensures var s := Advance(rest, true, sep, timeout, env, before, acc);
            var all := ReadAll(rest);
      && (all.failed ==> s.Stop? && s.result.failure.Some?)
      && (!all.failed && all.entries != [] ==>
            && |After(s).dispatches| == |acc.dispatches| + 1
            && After(s).dispatches[|acc.dispatches|].query == Some(Join(Keys(all.entries), sep)))
      && (s.Next? ==> ReadEntry(s.rest).EndOfFile?)
  {
    match ReadEntry(rest)
    case NullPointer =>
    case EndOfFile =>
    case Entry(entry, n) =>
      var tail := ReadAll(rest[n..]);
      assert ReadAll(rest) == Entries([entry] + tail.entries, tail.failed);
      GatherReadsAll(rest[n..], env, before, acc.flagReads + 1, [JavaString(entry.query)]);
      KeysCons(entry, tail.entries);
      PrepareCases(rest, true, sep, env, before, acc);
  }

  /** With the state space reused and no Stop, a run that ends normally hands one query to a
      verifier: every query of the file, each followed by the separator, with the last
      separator cut off. */
  lemma ReuseDispatchesWholeFile(rest: seq<string>, sep: string, timeout: nat, env: Environment, before: bool,
                                 acc: Generation, g: Generation)
    requires Continues(rest, true, sep, timeout, env, before, acc, g) && NeverStopped(env, before)
    ensures ReadAll(rest).failed ==> g.failure.Some?
    ensures g.failure.None? && ReadAll(rest).entries != [] ==>
              && |g.dispatches| == |acc.dispatches| + 1
              && g.dispatches[|acc.dispatches|].query == Some(Join(Keys(ReadAll(rest).entries), sep))
  {
    ContinuesStep(rest, true, sep, timeout, env, before, acc, g);
    ReuseAdvanceReadsAll(rest, sep, timeout, env, before, acc);
    match Advance(rest, true, sep, timeout, env, before, acc)
    case Stop(result) =>
    case Next(rest', acc') =>
      AdvanceStopsQuietly(rest', true, sep, timeout, env, before, acc');
      ContinuesStep(rest', true, sep, timeout, env, before, acc', g);
  }

  /** One query at a time, an iteration dispatches at most the entry it reads, goes on after
      it only if it dispatched it, and without Stop ends normally only at the end of the file. */
  lemma AdvanceOneAtATime(rest: seq<string>, sep: string, timeout: nat, env: Environment, before: bool,
                          acc: Generation)
    requires acc.failure.None?
    ensures var s := Advance(rest, false, sep, timeout, env, before, acc);
            var after := After(s);
            var r := ReadEntry(rest);
      && acc.dispatches <= after.dispatches
      && |after.dispatches| <= |acc.dispatches| + (if r.Entry? then 1 else 0)
      && (|after.dispatches| == |acc.dispatches| + 1 ==>
            && after.dispatches[|acc.dispatches|].query == r.entry.query
            && after.dispatches[|acc.dispatches|].comment == r.entry.comment)
      && (s.Next? ==> r.Entry? && s.rest == rest[r.consumed..] && |after.dispatches| == |acc.dispatches| + 1)
      && (NeverStopped(env, before) && s.Stop? && after.failure.None? ==> r.EndOfFile?)
  {
    match ReadEntry(rest)
    case NullPointer =>
    case EndOfFile =>
    case Entry(entry, n) =>
      if !Sees(before, env, acc.flagReads) {
        AwaitVerdictExtends(entry.query, entry.comment, rest[n..], false, timeout, env, before, acc,
                            acc.flagReads + 1);
      }
  }

  /** The dispatches from the k-th on were handed the queries of `entries`, in order, each
      with its entry's comment. */
  ghost predicate Follows(dispatches: seq<Dispatch>, k: nat, entries: seq<QueryEntry>)
  {
    && k <= |dispatches| <= k + |entries|
    && forall i :: k <= i < |dispatches| ==>
         dispatches[i].query == entries[i - k].query && dispatches[i].comment == entries[i - k].comment
  }

  /** If the dispatches after the k-th follow `tail`, and the k-th was handed `head`, the
      dispatches from the k-th on follow `[head] + tail`. */
  lemma FollowsShift(dispatches: seq<Dispatch>, k: nat, head: QueryEntry, tail: seq<QueryEntry>,
                     entries: seq<QueryEntry>)
    requires entries == [head] + tail
    requires k < |dispatches| && dispatches[k].query == head.query && dispatches[k].comment == head.comment
    requires Follows(dispatches, k + 1, tail)
    ensures Follows(dispatches, k, entries)
  {
    forall i | k < i < |dispatches|
      ensures dispatches[i].query == entries[i - k].query && dispatches[i].comment == entries[i - k].comment
    {
      assert entries[i - k] == tail[i - (k + 1)];
    }
  }

  /** One query at a time, an iteration that ends the run dispatched at most the first entry
      of the file. */
  lemma OneAtATimeStop(rest: seq<string>, sep: string, timeout: nat, env: Environment, before: bool,
                       acc: Generation)
    requires acc.failure.None? && Advance(rest, false, sep, timeout, env, before, acc).Stop?
    ensures var g := Advance(rest, false, sep, timeout, env, before, acc).result;
      acc.dispatches <= g.dispatches && Follows(g.dispatches, |acc.dispatches|, ReadAll(rest).entries)
  {
    AdvanceOneAtATime(rest, sep, timeout, env, before, acc);
    var r := ReadEntry(rest);
    if r.Entry? {
      assert ReadAll(rest).entries == [r.entry] + ReadAll(rest[r.consumed..]).entries;
    }
  }

  /** One query at a time, an iteration that goes on dispatched the first entry of the file,
      `head`, and goes on with the rest of the file's entries. */
  lemma OneAtATimeNext(rest: seq<string>, sep: string, timeout: nat, env: Environment, before: bool,
                       acc: Generation) returns (head: QueryEntry)
    requires acc.failure.None? && Advance(rest, false, sep, timeout, env, before, acc).Next?
    ensures var s := Advance(rest, false, sep, timeout, env, before, acc);
      && acc.dispatches <= s.acc.dispatches && |s.acc.dispatches| == |acc.dispatches| + 1
      && s.acc.dispatches[|acc.dispatches|].query == head.query
      && s.acc.dispatches[|acc.dispatches|].comment == head.comment
      && ReadAll(rest).entries == [head] + ReadAll(s.rest).entries
  {
    AdvanceOneAtATime(rest, sep, timeout, env, before, acc);
    head := ReadEntry(rest).entry;
  }

  /** One query at a time, a run hands the file's queries to verifiers in the file's order:
      the i-th dispatch it adds is the i-th entry of the file. */
  lemma {:induction false} OneAtATimeFollowsFile(rest: seq<string>, sep: string, timeout: nat, env: Environment,
                                                 before: bool, acc: Generation, g: Generation,
                                                 entries: seq<QueryEntry>)
    requires Continues(rest, false, sep, timeout, env, before, acc, g)
    requires entries == ReadAll(rest).entries
    ensures acc.dispatches <= g.dispatches && Follows(g.dispatches, |acc.dispatches|, entries)
    decreases |rest|
  {
    ContinuesStep(rest, false, sep, timeout, env, before, acc, g);
    match Advance(rest, false, sep, timeout, env, before, acc)
    case Stop(result) =>
      OneAtATimeStop(rest, sep, timeout, env, before, acc);
    case Next(rest', acc') =>
      var head := OneAtATimeNext(rest, sep, timeout, env, before, acc);
      var tail := ReadAll(rest').entries;
      OneAtATimeFollowsFile(rest', sep, timeout, env, before, acc', g, tail);
      assert g.dispatches[|acc.dispatches|] == acc'.dispatches[|acc.dispatches|];
      FollowsShift(g.dispatches, |acc.dispatches|, head, tail, entries);
  }

  /** One query at a time and without Stop, a run that ends normally hands every query of
      the file to a verifier, and the file was read to its end without an exception. */
  lemma {:induction false} OneAtATimeReadsWholeFile(rest: seq<string>, sep: string, timeout: nat,
                                                    env: Environment, before: bool, acc: Generation, g: Generation)
    requires Continues(rest, false, sep, timeout, env, before, acc, g) && NeverStopped(env, before)
    ensures g.failure.None? ==> |g.dispatches| == |acc.dispatches| + |ReadAll(rest).entries| && !ReadAll(rest).failed
    decreases |rest|
  {
    AdvanceOneAtATime(rest, sep, timeout, env, before, acc);
    ContinuesStep(rest, false, sep, timeout, env, before, acc, g);
    match Advance(rest, false, sep, timeout, env, before, acc)
    case Stop(result) =>
    case Next(rest', acc') =>
      OneAtATimeReadsWholeFile(rest', sep, timeout, env, before, acc', g);
  }

  /** The properties of a whole run: dispatches agree with their outcomes, the total sleep
      is bounded by the timeout per dispatch, with the state space reused at most one query
      is dispatched (without Stop, all of the file's queries joined), and one at a time the
      dispatched queries are the file's, in order. */
  lemma GenerateProperties(file: Result<seq<string>, string>, reuse: bool, sep: string, timeout: nat,
                           env: Environment, before: bool)
    ensures var g := Generate(file, reuse, sep, timeout, env, before);
      && (forall i :: 0 <= i < |g.dispatches| ==> Accounted(g.dispatches[i], env.outcome(i), reuse, timeout))
      && g.ticks <= |g.dispatches| * timeout
      && (file.Failure? ==> g.dispatches == [] && g.failure == Some(OpenFailure(file.error)))
      && (file.Success? && reuse ==>
            && |g.dispatches| <= 1
            && (NeverStopped(env, before) && g.failure.None? && ReadAll(file.value).entries != [] ==>
                  |g.dispatches| == 1 && g.dispatches[0].query == Some(Join(Keys(ReadAll(file.value).entries), sep))))
      && (file.Success? && NeverStopped(env, before) && g.failure.None? ==> !ReadAll(file.value).failed)
      && (file.Success? && !reuse ==>
            && |g.dispatches| <= |ReadAll(file.value).entries|
            && (forall i :: 0 <= i < |g.dispatches| ==> g.dispatches[i].query == ReadAll(file.value).entries[i].query)
            && (NeverStopped(env, before) && g.failure.None? ==> |g.dispatches| == |ReadAll(file.value).entries|))
  {
    if file.Success? {
      var start := Generation([], 0, 0, None);
      var g := Simulate(file.value, reuse, sep, timeout, env, before, start);
      assert Generate(file, reuse, sep, timeout, env, before) == g;
      ContinuesIsSimulate(file.value, reuse, sep, timeout, env, before, start, g);
      RunAccountsDispatches(file.value, reuse, sep, timeout, env, before, start, g);
      RunBoundsSleep(file.value, reuse, sep, timeout, env, before, start, g);
      if reuse {
        ReuseDispatchesAtMostOnce(file.value, sep, timeout, env, before, start, g);
        if NeverStopped(env, before) {
          ReuseDispatchesWholeFile(file.value, sep, timeout, env, before, start, g);
        }
      } else {
        OneAtATimeFollowsFile(file.value, sep, timeout, env, before, start, g, ReadAll(file.value).entries);
        if NeverStopped(env, before) {
          OneAtATimeReadsWholeFile(file.value, sep, timeout, env, before, start, g);
        }
      }
    }
  }

  /** The GUI verifier of one query, as far as the run sees it: the query it was given and
      the outcome the environment gives it. Creating it starts it. */
  class GuiVerifier {
    const query: Option<string>
    const outcome: VerifierOutcome
    var processCancelled: bool

    constructor (query: Option<string>, outcome: VerifierOutcome)
      ensures this.query == query && this.outcome == outcome && !processCancelled
    {
      this.query := query;
      this.outcome := outcome;
      processCancelled := false;
    }

    /** `isDone` after `elapsed` polls. */
    predicate IsDone(elapsed: nat)
    {
      Done(outcome, elapsed)
    }

    /** `isProcessCancelled`: cancelled by the run or by the user's Stop. */
    predicate IsProcessCancelled()
      reads this
    {
      processCancelled || outcome.cancelledByUser
    }

    /** `get`: the verdict. */
    function Get(): ThreeStateBoolean
    {
      outcome.result
    }

    /** `cancelProcess(true)`: stops the model checker process. */
    method CancelProcess()
      modifies this`processCancelled
      ensures processCancelled
    {
      processCancelled := true;
    }
  }

  /** The verifiers created so far belong to the dispatches: the i-th was given the i-th
      dispatched query and the environment's i-th outcome. */
  ghost predicate Matches(verifiers: seq<GuiVerifier>, dispatches: seq<Dispatch>, env: Environment)
  {
    && |verifiers| == |dispatches|
    && forall i :: 0 <= i < |verifiers| ==>
         verifiers[i].query == dispatches[i].query && verifiers[i].outcome == env.outcome(i)
  }

  /** Every verifier in `vs` has had its process cancelled, by the run or by the user. */
  ghost predicate AllCancelled(vs: seq<GuiVerifier>)
    reads vs
  {
    forall i :: 0 <= i < |vs| ==> vs[i].IsProcessCancelled()
  }

  /** Every verifier in `vs` but `v` has had its process cancelled. */
  ghost predicate AllCancelledBut(vs: seq<GuiVerifier>, v: GuiVerifier?)
    reads vs
  {
    forall i :: 0 <= i < |vs| ==> vs[i] == v || vs[i].IsProcessCancelled()
  }

  lemma MatchesAppend(verifiers: seq<GuiVerifier>, dispatches: seq<Dispatch>, env: Environment,
                      v: GuiVerifier, d: Dispatch)
    requires Matches(verifiers, dispatches, env)
    requires v.query == d.query && v.outcome == env.outcome(|dispatches|)
    ensures Matches(verifiers + [v], dispatches + [d], env)
  {
  }

  /** The test-generation job: the flag the Stop button sets, and the verifiers it created. */
  class GeneratedTestVerifier {
    const view: View
    var isCancelled: bool
    /** How often `run` has read `isCancelled` since it started; the environment's Stop is
        seen from its `cancelRead`-th read on. */
    var flagReads: nat
    ghost var verifiers: seq<GuiVerifier>

    constructor (view: View)
      ensures this.view == view && !isCancelled && flagReads == 0 && verifiers == []
    {
      this.view := view;
      isCancelled := false;
      flagReads := 0;
      verifiers := [];
    }

    /** `cancelProcess`: the Stop button's request. */
    method CancelProcess()
      modifies this`isCancelled
      ensures isCancelled
    {
      isCancelled := true;
    }

    /** A read of the volatile flag, which sees the Stop from the environment's read on. */
    method ReadCancelled(env: Environment) returns (cancelled: bool)
      modifies this`isCancelled, this`flagReads
      ensures flagReads == old(flagReads) + 1
      ensures isCancelled == (old(isCancelled) || Sees(false, env, old(flagReads)))
      ensures cancelled == isCancelled
    {
      isCancelled := isCancelled || (env.cancelRead.Some? && env.cancelRead.value <= flagReads);
      flagReads := flagReads + 1;
      cancelled := isCancelled;
    }

    /** The poll loop: sleeps one interval at a time until the verifier is done, the
        timeout is reached or the flag is seen set. */
    method AwaitVerifier(verifier: GuiVerifier, timeout: nat, env: Environment, ghost before: bool)
      returns (elapsed: nat)
      requires isCancelled == SeenAfter(before, env, flagReads)
      modifies this`isCancelled, this`flagReads
      ensures isCancelled == SeenAfter(before, env, flagReads)
      ensures Poll(verifier.outcome, env, before, timeout, 0, old(flagReads)) == Polled(elapsed, flagReads)
    {
      elapsed := 0;
      while true
        invariant isCancelled == SeenAfter(before, env, flagReads)
        invariant Poll(verifier.outcome, env, before, timeout, 0, old(flagReads))
                  == Poll(verifier.outcome, env, before, timeout, elapsed, flagReads)
        decreases timeout - elapsed
      {
        if verifier.IsDone(elapsed) || elapsed >= timeout {
          break;
        }
        var cancelled := ReadCancelled(env);
        if cancelled {
          break;
        }
        elapsed := elapsed + 1;
      }
    }

    /** One iteration of the reuse-state-space inner loop: the next entry's key, unless
        reading fails, the file is exhausted or the Stop is seen. */
    method ReadKey(reader: LineReader, env: Environment, ghost before: bool, ghost keys: seq<string>)
      returns (key: Option<string>, failure: Option<Failure>)
      requires reader.Valid()
      requires isCancelled == SeenAfter(before, env, flagReads)
      modifies reader`pos, this`isCancelled, this`flagReads
      ensures reader.Valid() && isCancelled == SeenAfter(before, env, flagReads)
      ensures var gathered := Gather(old(reader.Rest()), env, before, old(flagReads), keys);
        && (failure.Some? ==> failure.value == NullPointerException && gathered.failed && flagReads == gathered.flagReads)
        && (failure.None? && key.None? ==>
              gathered == Gathered(keys, reader.Rest(), flagReads, false))
        && (key.Some? ==>
              && failure.None? && |reader.Rest()| < |old(reader.Rest())|
              && gathered == Gather(reader.Rest(), env, before, flagReads, keys + [key.value]))
    {
      ghost var rest := reader.Rest();
      GatherFirst(rest, env, before, flagReads, keys);
      key := None;
      failure := None;
      var next := ReadLineSkipComments(reader);
      if next.Failure? {
        failure := Some(next.error);
        return;
      }
      if next.value.None? {
        return;
      }
      var cancelled := ReadCancelled(env);
      if cancelled {
        return;
      }
      key := Some(JavaString(next.value.value.query));
    }

    /** The inner loop of the reuse-state-space mode: appends every further query of the file
        and the separator to the first one, then cuts the last separator off. */
    method GatherQueries(reader: LineReader, first: Option<string>, sep: string, env: Environment, ghost before: bool)
      returns (r: Result<string, Failure>)
      requires reader.Valid() && |sep| > 0
      requires isCancelled == SeenAfter(before, env, flagReads)
      modifies reader`pos, this`isCancelled, this`flagReads
      ensures reader.Valid() && isCancelled == SeenAfter(before, env, flagReads)
      ensures var gathered := Gather(old(reader.Rest()), env, before, old(flagReads), [JavaString(first)]);
        && r.Failure? == gathered.failed && flagReads == gathered.flagReads
        && (r.Failure? ==> r.error == NullPointerException)
        && (r.Success? ==> r.value == Join(gathered.keys, sep) && reader.Rest() == gathered.rest)
    {
      var builder := JavaString(first) + sep;
      ghost var keys := [JavaString(first)];
      ghost var gathered := Gather(reader.Rest(), env, before, flagReads, keys);
      while true
        invariant reader.Valid()
        invariant Gathers(reader.Rest(), env, before, flagReads, keys, gathered)
        invariant builder == Terminated(keys, sep) && |keys| > 0
        invariant isCancelled == SeenAfter(before, env, flagReads)
        decreases |reader.Rest()|
      {
        var next, failure := ReadKey(reader, env, before, keys);
        if failure.Some? {
          return Failure(failure.value);
        }
        if next.None? {
          break;
        }
        var key := next.value;
        builder := builder + key + sep;
        keys := keys + [key];
      }
      TerminatedIsJoinPlusSeparator(keys, sep);
      TrailingIsLastIndex(Join(keys, sep), sep);
      var cut := LastIndexOf(builder, sep);
      r := Success(builder[..cut]);
    }

    /** The first half of an iteration of the outer loop of `run`: reads an entry and,
        unless the file ended, failed or the flag is seen set, gathers the remaining queries
        when the state space is reused. Either the iteration stops here, or it goes on to
        await the verdict on `expression`. */
    method ReadQuery(reader: LineReader, sep: string, env: Environment, ghost before: bool,
                     ghost rest: seq<string>, ghost reuse: bool, ghost acc: Generation)
      returns (expression: Option<string>, comment: string, failure: Option<Failure>, stop: bool)
      requires reader.Valid() && |sep| > 0 && rest == reader.Rest() && reuse == view.reuseStateSpaceSelected
      requires acc.failure.None? && acc.flagReads == flagReads
      requires isCancelled == SeenAfter(before, env, flagReads)
      modifies reader`pos, this`isCancelled, this`flagReads
      ensures reader.Valid() && isCancelled == SeenAfter(before, env, flagReads)
      ensures stop ==> Prepare(rest, reuse, sep, env, before, acc) == Halt(acc.(flagReads := flagReads, failure := failure))
      ensures !stop ==> Prepare(rest, reuse, sep, env, before, acc) == Ready(expression, comment, reader.Rest(), flagReads)
    {
      expression := None;
      comment := "";
      failure := None;
      stop := true;
      PrepareCases(rest, reuse, sep, env, before, acc);
      var query := ReadLineSkipComments(reader);
      if query.Failure? {
        failure := Some(query.error);
      } else if query.value.Some? {
        var cancelled := ReadCancelled(env);
        if !cancelled {
          var entry := query.value.value;
          assert reader.Rest() == rest[ReadEntry(rest).consumed..];
          comment := entry.comment;
          expression, failure, stop := GatherIfReused(reader, entry.query, sep, env, before);
        }
      }
    }

    /** With the state space reused, the rest of the file gathered behind `first`; one query
        at a time, `first` alone. */
    method GatherIfReused(reader: LineReader, first: Option<string>, sep: string, env: Environment, ghost before: bool)
      returns (expression: Option<string>, failure: Option<Failure>, stop: bool)
      requires reader.Valid() && |sep| > 0
      requires isCancelled == SeenAfter(before, env, flagReads)
      modifies reader`pos, this`isCancelled, this`flagReads
      ensures reader.Valid() && isCancelled == SeenAfter(before, env, flagReads)
      ensures !view.reuseStateSpaceSelected ==>
        && expression == first && failure.None? && !stop
        && reader.Rest() == old(reader.Rest()) && flagReads == old(flagReads)
      ensures var gathered := Gather(old(reader.Rest()), env, before, old(flagReads), [JavaString(first)]);
        view.reuseStateSpaceSelected ==>
        && stop == gathered.failed && flagReads == gathered.flagReads
        && (stop ==> failure == Some(NullPointerException))
        && (!stop ==> expression == Some(Join(gathered.keys, sep)) && failure.None? && reader.Rest() == gathered.rest)
    {
      expression := first;
      failure := None;
      stop := false;
      if view.IsReuseStateSpace() {
        var gathered := GatherQueries(reader, expression, sep, env, before);
        if gathered.Failure? {
          failure := Some(gathered.error);
          stop := true;
          return;
        }
        expression := Some(gathered.value);
      }
    }

    /** The second half of an iteration: creates the verifier for `expression`, polls it,
        turns its answer into a sentence (comparing a missing query with the deadlock query
        throws when not reusing the state space) and cancels it. */
    method AwaitQuery(expression: Option<string>, comment: string, ghost rest: seq<string>, timeout: nat,
                      env: Environment, ghost before: bool, ghost reuse: bool, ghost acc: Generation, k: nat)
      returns (verifier: GuiVerifier, elapsed: nat, sentence: Option<string>, failure: Option<Failure>, stop: bool)
      requires reuse == view.reuseStateSpaceSelected
      requires acc.failure.None? && acc.flagReads <= flagReads && k == |acc.dispatches|
      requires isCancelled == SeenAfter(before, env, flagReads)
      requires AllCancelled(verifiers)
      modifies this`isCancelled, this`flagReads, this`verifiers
      ensures isCancelled == SeenAfter(before, env, flagReads)
      ensures fresh(verifier) && verifiers == old(verifiers) + [verifier]
      ensures AllCancelledBut(verifiers, verifier) && (!stop ==> AllCancelled(verifiers))
      ensures verifier.query == expression && verifier.outcome == env.outcome(k)
      ensures var s := AwaitVerdict(expression, comment, rest, reuse, timeout, env, before, acc, old(flagReads));
        && stop == s.Stop?
        && After(s) == Generation(acc.dispatches + [Dispatch(expression, comment, elapsed, sentence)],
                                  acc.ticks + elapsed, flagReads, failure)
        && (!stop ==> verifier.processCancelled)
    {
      ghost var awaitFrom := flagReads;
      verifier := new GuiVerifier(expression, env.outcome(k));
      verifiers := verifiers + [verifier];
      elapsed := AwaitVerifier(verifier, timeout, env, before);
      AwaitVerdictIs(expression, comment, rest, reuse, timeout, env, before, acc, awaitFrom, Polled(elapsed, flagReads));
      sentence := None;
      failure := None;
      stop := false;
      if verifier.IsDone(elapsed) && !verifier.IsProcessCancelled() {
        if view.IsReuseStateSpace() {
          sentence := Some(FinishedSentence);
        } else {
          if expression.None? {
            failure := Some(NullPointerException);
            stop := true;
            return;
          }
          sentence := Some(ReportSentence(expression.value, comment, verifier.Get()));
        }
      }
      verifier.CancelProcess();
    }

    /** One iteration of the outer loop of `run`: its two halves. The run from here on is
        what this iteration leaves in `after`, or the run from where it continues. */
    method VerifyEntry(reader: LineReader, sep: string, timeout: nat, env: Environment, ghost before: bool,
                       ghost rest: seq<string>, ghost reuse: bool, ghost acc: Generation, ghost g: Generation, k: nat)
      returns (verifier: GuiVerifier?, sentence: Option<string>, failure: Option<Failure>, stop: bool,
               ghost after: Generation)
      requires reader.Valid() && |sep| > 0 && rest == reader.Rest() && reuse == view.reuseStateSpaceSelected
      requires Continues(rest, reuse, sep, timeout, env, before, acc, g)
      requires acc.flagReads == flagReads && k == |acc.dispatches|
      requires isCancelled == SeenAfter(before, env, flagReads)
      requires Matches(verifiers, acc.dispatches, env)
      requires AllCancelled(verifiers)
      modifies reader`pos, this`isCancelled, this`flagReads, this`verifiers
      ensures reader.Valid() && isCancelled == SeenAfter(before, env, flagReads)
      ensures failure == after.failure && flagReads == after.flagReads
      ensures AllCancelledBut(verifiers, verifier) && (verifier == null || !stop ==> AllCancelled(verifiers))
      ensures stop ==> after == g
      ensures !stop ==> && |reader.Rest()| < |rest| && verifier != null
                        && Continues(reader.Rest(), reuse, sep, timeout, env, before, after, g)
      ensures Reported(after.dispatches) == Reported(acc.dispatches) + (if sentence.Some? then [sentence.value] else [])
      ensures Matches(verifiers, after.dispatches, env)
      ensures verifier == null ==> verifiers == old(verifiers)
      ensures verifier != null ==> && fresh(verifier) && verifiers == old(verifiers) + [verifier]
                                   && (if stop then failure.Some? else verifier.processCancelled)
    {
      verifier := null;
      sentence := None;
      ContinuesStep(rest, reuse, sep, timeout, env, before, acc, g);
      var expression, comment;
      expression, comment, failure, stop := ReadQuery(reader, sep, env, before, rest, reuse, acc);
      if stop {
        after := acc.(flagReads := flagReads, failure := failure);
        return;
      }
      var v, elapsed;
      v, elapsed, sentence, failure, stop := AwaitQuery(expression, comment, reader.Rest(), timeout, env, before,
                                                        reuse, acc, k);
      verifier := v;
      ghost var d := Dispatch(expression, comment, elapsed, sentence);
      after := Generation(acc.dispatches + [d], acc.ticks + elapsed, flagReads, failure);
      ReportedAppend(acc.dispatches, d);
      MatchesAppend(old(verifiers), acc.dispatches, env, v, d);
    }

    /** The outer loop of `run` and its exception: each entry read while the flag is unset
        (all queries at once when the state space is reused) goes to a new verifier, which
        is polled and, if it answered, reported in the buffer, then cancelled. Returns the
        buffer, the last verifier created and the exception that ended the loop, if any. */
    method VerifyQueries(reader: LineReader, sep: string, timeout: nat, env: Environment)
      returns (buffer: string, verifier: GuiVerifier?, failure: Option<Failure>, ghost g: Generation)
      requires reader.Valid() && |sep| > 0 && flagReads == 0
      modifies reader`pos, this`isCancelled, this`flagReads, this`verifiers
      ensures Continues(old(reader.Rest()), view.reuseStateSpaceSelected, sep, timeout, env, old(isCancelled),
                        Generation([], 0, 0, None), g)
      ensures && failure == g.failure && flagReads == g.flagReads
        && buffer == Terminated(Reported(g.dispatches), sep)
        && Matches(verifiers, g.dispatches, env)
      ensures AllCancelledBut(verifiers, verifier) && (failure.None? ==> AllCancelled(verifiers))
      ensures verifier != null ==> fresh(verifier)
      ensures isCancelled == SeenAfter(old(isCancelled), env, flagReads)
    {
      ghost var reuse := view.reuseStateSpaceSelected;
      ghost var before := isCancelled;
      ghost var acc := Generation([], 0, 0, None);
      g := RunEnds(reader.Rest(), reuse, sep, timeout, env, before, acc);
      verifier := null;
      buffer := "";
      failure := None;
      verifiers := [];
      var k := 0;
      var stop := false;
      while !stop
        invariant reader.Valid()
        invariant acc.flagReads == flagReads && failure == acc.failure
        invariant !stop ==> k == |acc.dispatches| && Continues(reader.Rest(), reuse, sep, timeout, env, before, acc, g)
        invariant stop ==> acc == g
        invariant isCancelled == SeenAfter(before, env, flagReads)
        invariant buffer == Terminated(Reported(acc.dispatches), sep)
        invariant Matches(verifiers, acc.dispatches, env)
        invariant AllCancelledBut(verifiers, verifier) && (failure.None? ==> AllCancelled(verifiers))
        invariant verifier != null ==> fresh(verifier)
        decreases !stop, |reader.Rest()|
      {
        var v, sentence;
        ghost var after;
        v, sentence, failure, stop, after := VerifyEntry(reader, sep, timeout, env, before, reader.Rest(), reuse, acc, g, k);
        if v != null {
          verifier := v;
        }
        if sentence.Some? {
          TerminatedAppend(Reported(acc.dispatches), sentence.value, sep);
          buffer := buffer + sentence.value + sep;
        } else {
          assert Reported(after.dispatches) == Reported(acc.dispatches);
        }
        acc := after;
        k := k + 1;
      }
    }

    /** The `try` block of `run`: the outer loop on the generated query file, or the failure
        to open it. */
    method VerifyFile(file: Result<seq<string>, string>, sep: string, timeout: nat, env: Environment)
      returns (buffer: string, verifier: GuiVerifier?, failure: Option<Failure>, ghost g: Generation)
      requires |sep| > 0 && flagReads == 0
      modifies this`isCancelled, this`flagReads, this`verifiers
      ensures g == Generate(file, view.reuseStateSpaceSelected, sep, timeout, env, old(isCancelled))
      ensures && failure == g.failure && flagReads == g.flagReads
        && buffer == Terminated(Reported(g.dispatches), sep)
        && Matches(verifiers, g.dispatches, env)
      ensures AllCancelledBut(verifiers, verifier) && (failure.None? ==> AllCancelled(verifiers))
      ensures verifier != null ==> fresh(verifier)
      ensures isCancelled == SeenAfter(old(isCancelled), env, flagReads)
    {
      if file.Failure? {
        verifiers := [];
        buffer, verifier, failure := "", null, Some(OpenFailure(file.error));
        g := Generation([], 0, 0, failure);
      } else {
        var reader := new LineReader(file.value);
        buffer, verifier, failure, g := VerifyQueries(reader, sep, timeout, env);
        ContinuesIsSimulate(file.value, view.reuseStateSpaceSelected, sep, timeout, env, old(isCancelled),
                            Generation([], 0, 0, None), g);
      }
    }

    /** The `finally` block of `run` and what follows it: the exception is handled, the last
        verifier cancelled if it is not yet, the buttons re-enabled, the end reported unless
        the flag is set, and the buffer shown if it is not empty. */
    method Finish(buffer: string, verifier: GuiVerifier?, failure: Option<Failure>, env: Environment)
      returns (shown: Option<string>)
      requires AllCancelledBut(verifiers, verifier)
      modifies verifier, this`isCancelled, this`flagReads, view`resetButtonText, view`verifyEnabled,
               view`generateTestSetEnabled, view`logText, view`verificationResultLabel, view`labelColor
      ensures AllCancelled(verifiers)
      ensures flagReads == old(flagReads) + 1
      ensures isCancelled == (old(isCancelled) || Sees(false, env, old(flagReads)))
      ensures shown == (if |buffer| > 0 then Some(buffer) else None)
      ensures failure.None? || failure == Some(NullPointerException) ==> view.logText == old(view.logText)
      ensures isCancelled && failure.Some? ==> view.verificationResultLabel == ""
      ensures isCancelled && failure.None? ==>
                view.verificationResultLabel == old(view.verificationResultLabel) && view.labelColor == old(view.labelColor)
      ensures !isCancelled ==> view.verificationResultLabel == FinishedLabel && view.labelColor == Black
      ensures view.resetButtonText == "Reset" && view.verifyEnabled && view.generateTestSetEnabled
    {
      if failure.Some? {
        view.HandleVerificationExceptions(Message(failure.value));
      }
      if verifier != null && !verifier.IsProcessCancelled() {
        verifier.CancelProcess();
      }
      view.SetVerificationButtons(true);
      var cancelled := ReadCancelled(env);
      if !cancelled {
        view.SetVerificationLabel(FinishedLabel);
      }
      if |buffer| > 0 {
        shown := Some(buffer);
      } else {
        shown := None;
      }
    }

    /** `run`: verifies every query of the generated file (or, with the state space reused,
        all of them in one go), reports the answered ones, and finally cancels every
        verifier, re-enables the buttons and, unless stopped, reports the end. `file` is the
        generated query file's lines, or the message of its failure to open; `sep` is the
        platform's line separator. The buffer shown at the end, if any, is returned. */
    method Run(file: Result<seq<string>, string>, sep: string, env: Environment) returns (shown: Option<string>)
      requires |sep| > 0
      modifies this, view`resetButtonText, view`verifyEnabled, view`generateTestSetEnabled,
               view`logText, view`verificationResultLabel, view`labelColor
      ensures var g := Generate(file, old(view.reuseStateSpaceSelected), sep,
                                TimeoutPolls(old(view.GetTestGenerationTimeout())), env, old(isCancelled));
        && Matches(verifiers, g.dispatches, env)
        && AllCancelled(verifiers)
        && flagReads == g.flagReads + 1
        && shown == (if Reported(g.dispatches) == [] then None else Some(Terminated(Reported(g.dispatches), sep)))
        && (g.failure.None? || g.failure == Some(NullPointerException) ==> view.logText == old(view.logText))
        && (isCancelled && g.failure.Some? ==> view.verificationResultLabel == "")
        && (isCancelled && g.failure.None? ==>
              view.verificationResultLabel == old(view.verificationResultLabel) && view.labelColor == old(view.labelColor))
      ensures isCancelled == SeenAfter(old(isCancelled), env, flagReads)
      ensures !isCancelled ==> view.verificationResultLabel == FinishedLabel && view.labelColor == Black
      ensures view.resetButtonText == "Reset" && view.verifyEnabled && view.generateTestSetEnabled
    {
      var timeout: nat := TimeoutPolls(view.GetTestGenerationTimeout());
      flagReads := 0;
      view.SetVerificationButtons(false);
      var buffer, verifier, failure, g := VerifyFile(file, sep, timeout, env);
      shown := Finish(buffer, verifier, failure, env);
    }
  }
}
