/** The per-job outcome log (room/inference_gateway.py): text lines appended by the gateway, read
    and deleted once by the room. */
module OutcomeLog {
  import opened Common

  // ---- the text ---------------------------------------------------------------------------

  // One recorded call: an upstream status and the tokens it reported.
  datatype Outcome = Outcome(status: int, tokens: int)

  function Clamp(o: Outcome): Outcome { o.(tokens := if o.tokens > 0 then o.tokens else 0) }

  function ClampAll(os: seq<Outcome>): (r: seq<Outcome>)
    ensures |r| == |os|
  {
    if os == [] then [] else ClampAll(os[..|os| - 1]) + [Clamp(os[|os| - 1])]
  }

  function Line(o: Outcome): string { Decimal(o.status) + [' '] + Decimal(Clamp(o).tokens) }

  // The file after a series of appends.
  function Written(os: seq<Outcome>): string {
    if os == [] then "" else Line(os[0]) + ['\n'] + Written(os[1..])
  }

  // ---- reading it back --------------------------------------------------------------------

  // Iteration over a text file: each line with its newline dropped, the last one perhaps unended.
  function Lines(text: string): seq<string>
    decreases |text|
  {
    if text == "" then []
    else
      var i := Find(text, '\n');
      if i == |text| then [text] else [text[..i]] + Lines(text[i + 1..])
  }

  function WordLength(s: string): (n: nat)
    ensures n <= |s|
  {
    if s == "" || Space(s[0]) then 0 else 1 + WordLength(s[1..])
  }

  // line.split()
  function Fields(line: string): seq<string>
    decreases |line|
  {
    var s := TrimLeft(line);
    var n := WordLength(s);
    if n == 0 then [] else [s[..n]] + Fields(s[n..])
  }

  function StripDashes(s: string): string { if s != "" && s[0] == '-' then StripDashes(s[1..]) else s }

  // What reading one line does: nothing, one outcome, or int() raising.
  datatype Reading = Skipped | Read(outcome: Outcome) | Raises

  function ReadLine(line: string): Reading {
    var fields := Fields(line);
    if fields == [] || !AllDigits(StripDashes(fields[0])) then Skipped
    else
      var tokens := if |fields| > 1 && AllDigits(fields[1]) then NatOf(fields[1]) else 0;
      if AllDigits(fields[0]) then Read(Outcome(NatOf(fields[0]), tokens))
      else if AllDigits(fields[0][1..]) then
        var magnitude: int := NatOf(fields[0][1..]);
        Read(Outcome(-magnitude, tokens))
      else Raises
  }

  // All outcomes of a list of lines, or None when int() raises on one.
  function ReadLines(lines: seq<string>): Option<seq<Outcome>> {
    if lines == [] then Some([])
    else
      var n := |lines| - 1;
      var before := ReadLines(lines[..n]);
      if before.None? then None
      else match ReadLine(lines[n])
           case Skipped => before
           case Read(o) => Some(before.value + [o])
           case Raises => None
  }

  // ---- the summary ------------------------------------------------------------------------

  datatype Summary = Summary(
    requests: nat, tokens: int, ok: nat, paymentRequired: nat, unauthorized: nat,
    badRequest: nat, unreachable: nat, other: nat)

  const EMPTY := Summary(0, 0, 0, 0, 0, 0, 0, 0)

  function Bucketed(s: Summary, status: int): Summary {
    if 200 <= status < 300 then s.(ok := s.ok + 1)
    else if status == 402 then s.(paymentRequired := s.paymentRequired + 1)
    else if status == 401 || status == 403 then s.(unauthorized := s.unauthorized + 1)
    else if status == 400 then s.(badRequest := s.badRequest + 1)
    else if status == 0 then s.(unreachable := s.unreachable + 1)
    else s.(other := s.other + 1)
  }

  function Tally(os: seq<Outcome>): Summary {
    if os == [] then EMPTY
    else
      var n := |os| - 1;
      var s := Tally(os[..n]);
      Bucketed(s.(requests := s.requests + 1, tokens := s.tokens + os[n].tokens), os[n].status)
  }

  function SumTokens(os: seq<Outcome>): int {
    if os == [] then 0 else SumTokens(os[..|os| - 1]) + os[|os| - 1].tokens
  }

  // How many outcomes satisfy a test.
  function Count(os: seq<Outcome>, test: int -> bool): nat {
    if os == [] then 0 else Count(os[..|os| - 1], test) + (if test(os[|os| - 1].status) then 1 else 0)
  }

  // The six buckets partition the requests.
  lemma {:induction false} BucketsPartition(os: seq<Outcome>)
    ensures var s := Tally(os);
            && s.requests == |os| && s.tokens == SumTokens(os)
            && s.requests == s.ok + s.paymentRequired + s.unauthorized + s.badRequest + s.unreachable + s.other
  {
    if os != [] { BucketsPartition(os[..|os| - 1]); }
  }

  // Each bucket counts exactly the statuses it is named for.
  lemma {:induction false} BucketsCount(os: seq<Outcome>)
    ensures var s := Tally(os);
            && s.ok == Count(os, status => 200 <= status < 300)
            && s.paymentRequired == Count(os, status => status == 402)
            && s.unauthorized == Count(os, status => status == 401 || status == 403)
            && s.badRequest == Count(os, status => status == 400)
            && s.unreachable == Count(os, status => status == 0)
  {
    if os != [] { BucketsCount(os[..|os| - 1]); }
  }

  // ---- print and parse undo each other ----------------------------------------------------

  lemma {:induction false} WordEnds(word: string, rest: string)
    requires forall i | 0 <= i < |word| :: !Space(word[i])
    requires rest == "" || Space(rest[0])
    ensures WordLength(word + rest) == |word|
  {
    if word == "" {
      assert word + rest == rest;
    } else {
      assert (word + rest)[1..] == word[1..] + rest;
      WordEnds(word[1..], rest);
    }
  }

  lemma TwoFields(a: string, b: string)
    requires a != "" && b != ""
    requires (forall i | 0 <= i < |a| :: !Space(a[i])) && (forall i | 0 <= i < |b| :: !Space(b[i]))
    ensures Fields(a + [' '] + b) == [a, b]
  {
    var line, rest := a + [' '] + b, [' '] + b;
    assert line == a + rest && line[0] == a[0] && TrimLeft(line) == line;
    WordEnds(a, rest);
    assert line[..|a|] == a && line[|a|..] == rest;
    assert rest[1..] == b && TrimLeft(b) == b && TrimLeft(rest) == b;
    assert b + "" == b;
    WordEnds(b, "");
    assert b[..|b|] == b && b[|b|..] == "";
    assert Fields(rest) == [b] + Fields("");
  }

  lemma DecimalText(n: int)
    ensures Decimal(n) != "" && forall i | 0 <= i < |Decimal(n)| :: !Space(Decimal(n)[i]) && Decimal(n)[i] != '\n'
    ensures n >= 0 ==> AllDigits(Decimal(n)) && NatOf(Decimal(n)) == n
    ensures n < 0 ==> Decimal(n)[0] == '-' && AllDigits(Decimal(n)[1..]) && NatOf(Decimal(n)[1..]) == -n
  {
    if n >= 0 {
      DigitsRoundTrip(n);
    } else {
      DigitsRoundTrip(-n);
      assert Decimal(n)[1..] == Digits(-n);
    }
  }

  // A line's fields are its words: whatever space stands before a word does not count, and a word
  // ends at the next space.
  lemma FieldsAre(space: string, word: string, rest: string)
    requires AllSpace(space) && word != "" && forall i | 0 <= i < |word| :: !Space(word[i])
    requires rest == "" || Space(rest[0])
    ensures Fields(space + word + rest) == [word] + Fields(rest)
    ensures Fields(space) == []
  {
    TrimLeftPast(space, word + rest);
    assert space + word + rest == space + (word + rest);
    WordEnds(word, rest);
    assert (word + rest)[..|word|] == word && (word + rest)[|word|..] == rest;
    TrimLeftOfSpace(space);
  }

  lemma {:induction false} TrimLeftPast(space: string, s: string)
    requires AllSpace(space) && s != "" && !Space(s[0])
    ensures TrimLeft(space + s) == s
  {
    if space == "" {
      assert space + s == s;
    } else {
      assert (space + s)[1..] == space[1..] + s;
      TrimLeftPast(space[1..], s);
    }
  }

  // How lines that nobody wrote are read: without a number first they are skipped, without a number
  // second their tokens are zero, and a number after two dashes raises.
  lemma ForeignLinesAre(line: string)
    ensures var fields := Fields(line);
            && ((fields == [] || !AllDigits(StripDashes(fields[0]))) ==> ReadLine(line) == Skipped)
            && (fields != [] && AllDigits(fields[0]) ==>
                  var tokens := if |fields| > 1 && AllDigits(fields[1]) then NatOf(fields[1]) else 0;
                  ReadLine(line) == Read(Outcome(NatOf(fields[0]), tokens)))
            && (fields != [] && |fields[0]| > 2 && fields[0][..2] == "--" && AllDigits(fields[0][2..]) ==>
                  ReadLine(line) == Raises)
  {
    var fields := Fields(line);
    if fields != [] && |fields[0]| > 2 && fields[0][..2] == "--" && AllDigits(fields[0][2..]) {
      var f := fields[0];
      assert f[0] == f[..2][0] == '-' && f[1] == f[..2][1] == '-';
      assert f[1..][0] == '-' && f[1..][1..] == f[2..] && Digit(f[2..][0]);
      assert StripDashes(f) == StripDashes(f[1..]) == StripDashes(f[2..]) == f[2..];
    } else if fields != [] && AllDigits(fields[0]) {
      assert StripDashes(fields[0]) == fields[0];
    }
  }

  // The last line counts whether or not a newline ends it.
  lemma LastLineIs(text: string)
    requires '\n' !in text && text != ""
    ensures Lines(text) == [text]
  {
  }

  // A recorded line reads back as its status, negative ones included, and its tokens if positive.
  lemma LineRoundTrip(o: Outcome)
    ensures ReadLine(Line(o)) == Read(Outcome(o.status, if o.tokens > 0 then o.tokens else 0))
    ensures forall i | 0 <= i < |Line(o)| :: Line(o)[i] != '\n'
  {
    var a, b := Decimal(o.status), Decimal(Clamp(o).tokens);
    DecimalText(o.status);
    DecimalText(Clamp(o).tokens);
    TwoFields(a, b);
    if o.status < 0 {
      assert StripDashes(a) == StripDashes(a[1..]) == a[1..];
    } else {
      assert StripDashes(a) == a;
    }
  }

  lemma FirstLine(line: string, rest: string)
    requires forall i | 0 <= i < |line| :: line[i] != '\n'
    ensures Lines(line + ['\n'] + rest) == [line] + Lines(rest)
  {
    SeparatorSplits('\n', line, rest);
  }

  lemma {:induction false} LinesOfWritten(os: seq<Outcome>)
    ensures Lines(Written(os)) == Each(Line, os)
  {
    if os != [] {
      LinesOfWritten(os[1..]);
      EachEnds(Line, os);
      FirstLine(Line(os[0]), Written(os[1..])) by { LineRoundTrip(os[0]); }
    }
  }

  lemma {:induction false} ReadsLines(os: seq<Outcome>)
    ensures ReadLines(Each(Line, os)) == Some(ClampAll(os))
  {
    if os != [] {
      var n := |os| - 1;
      ReadsLines(os[..n]);
      LineRoundTrip(os[n]);
      EachEnds(Line, os);
      assert Each(Line, os)[..n] == Each(Line, os[..n]);
    }
  }

  lemma WrittenReadsBack(os: seq<Outcome>)
    ensures ReadLines(Lines(Written(os))) == Some(ClampAll(os))
  {
    LinesOfWritten(os);
    ReadsLines(os);
  }

  lemma {:induction false} WrittenAppends(os: seq<Outcome>, o: Outcome)
    ensures Written(os + [o]) == Written(os) + (Line(o) + ['\n'])
  {
    if os == [] {
      assert os + [o] == [o] && [o][1..] == [];
    } else {
      assert (os + [o])[1..] == os[1..] + [o];
      WrittenAppends(os[1..], o);
    }
  }

  // ---- the store --------------------------------------------------------------------------

  // The directory of status files, one per job.
  class OutcomeStore {
    var files: map<string, string>

    constructor ()
      ensures files == map[]
    {
      files := map[];
    }

    // Append one line; a failing write is swallowed.
    method Record(jobId: string, o: Outcome, writable: bool)
      modifies this
      ensures var line := Line(o) + ['\n'];
              files == if writable then old(files)[jobId := FileText(old(files), jobId) + line] else old(files)
    {
      if writable {
        files := files[jobId := FileText(files, jobId) + (Line(o) + ['\n'])];
      }
    }

    // Read, delete and summarize one job's file.  None is the exception int() can raise.
    method Summarize(jobId: string) returns (r: Option<Summary>)
      modifies this
      ensures !IsJobId(jobId) ==> r == Some(EMPTY) && files == old(files)
      ensures IsJobId(jobId) ==> r == SummaryOf(FileText(old(files), jobId)) && files == old(files) - {jobId}
    {
      if !IsJobId(jobId) { return Some(EMPTY); }
      var text := FileText(files, jobId);
      files := files - {jobId};
      var outcomes := ReadOutcomes(Lines(text));
      if outcomes.None? { return None; }
      var summary := TallyOutcomes(outcomes.value);
      r := Some(summary);
    }
  }

  method ReadOutcomes(lines: seq<string>) returns (r: Option<seq<Outcome>>)
    ensures r == ReadLines(lines)
  {
    var outcomes: seq<Outcome> := [];
    for i := 0 to |lines|
      invariant ReadLines(lines[..i]) == Some(outcomes)
    {
      assert lines[..i + 1][..i] == lines[..i];
      match ReadLine(lines[i]) {
        case Skipped =>
        case Read(o) => outcomes := outcomes + [o];
        case Raises =>
          RaisesStay(lines, i + 1);
          return None;
      }
    }
    assert lines[..|lines|] == lines;
    r := Some(outcomes);
  }

  method TallyOutcomes(outcomes: seq<Outcome>) returns (summary: Summary)
    ensures summary == Tally(outcomes)
  {
    summary := EMPTY;
    for i := 0 to |outcomes|
      invariant summary == Tally(outcomes[..i])
    {
      assert outcomes[..i + 1][..i] == outcomes[..i];
      summary := Bucketed(summary.(requests := summary.requests + 1, tokens := summary.tokens + outcomes[i].tokens),
                          outcomes[i].status);
    }
    assert outcomes[..|outcomes|] == outcomes;
  }

  function FileText(files: map<string, string>, jobId: string): string {
    if jobId in files then files[jobId] else ""
  }

  function SummaryOf(text: string): Option<Summary> {
    match ReadLines(Lines(text))
    case None => None
    case Some(os) => Some(Tally(os))
  }

  lemma {:induction false} RaisesStay(lines: seq<string>, n: nat)
    requires n <= |lines| && ReadLines(lines[..n]).None?
    ensures ReadLines(lines).None?
    decreases |lines|
  {
    if n == |lines| {
      assert lines[..n] == lines;
    } else {
      assert lines[..|lines| - 1][..n] == lines[..n];
      RaisesStay(lines[..|lines| - 1], n);
    }
  }

  // ---- whole histories --------------------------------------------------------------------

  // One recording, and whether its write succeeded; a failing one is swallowed.
  datatype Event = Recorded(jobId: string, outcome: Outcome, written: bool)

  // The files after a series of recordings, of any jobs in any order.
  function AfterAll(events: seq<Event>): map<string, string> {
    if events == [] then map[]
    else
      var n := |events| - 1;
      var files, e := AfterAll(events[..n]), events[n];
      if e.written then files[e.jobId := FileText(files, e.jobId) + (Line(e.outcome) + ['\n'])] else files
  }

  // The outcomes of a job whose write succeeded.
  function OutcomesOf(events: seq<Event>, jobId: string): seq<Outcome> {
    if events == [] then []
    else
      var n := |events| - 1;
      OutcomesOf(events[..n], jobId)
      + (if events[n].jobId == jobId && events[n].written then [events[n].outcome] else [])
  }

  lemma {:induction false} FileHoldsOutcomes(events: seq<Event>, jobId: string)
    ensures FileText(AfterAll(events), jobId) == Written(OutcomesOf(events, jobId))
  {
    if events != [] {
      var n := |events| - 1;
      FileHoldsOutcomes(events[..n], jobId);
      if events[n].jobId == jobId && events[n].written {
        WrittenAppends(OutcomesOf(events[..n], jobId), events[n].outcome);
      } else {
        assert OutcomesOf(events[..n], jobId) + [] == OutcomesOf(events[..n], jobId);
      }
    }
  }

  // After any series of recordings, of any statuses and of any jobs interleaved, some failing, a
  // job's summary tallies exactly its own written outcomes with their tokens clamped at zero; the
  // file is gone with the reading, so the next summary is zero.
  lemma SummaryTalliesRecorded(events: seq<Event>, jobId: string)
    ensures var os := ClampAll(OutcomesOf(events, jobId));
            && SummaryOf(FileText(AfterAll(events), jobId)) == Some(Tally(os))
            && Tally(os).requests == |OutcomesOf(events, jobId)|
            && Tally(os).tokens == SumTokens(os)
            && SummaryOf(FileText(AfterAll(events) - {jobId}, jobId)) == Some(EMPTY)
  {
    FileHoldsOutcomes(events, jobId);
    WrittenReadsBack(OutcomesOf(events, jobId));
    BucketsPartition(ClampAll(OutcomesOf(events, jobId)));
    assert Lines("") == [];
  }

  // ---- recordings in any order ------------------------------------------------------------

  // The tally of a job's recordings.
  function TallyFor(events: seq<Event>, jobId: string): Summary { Tally(ClampAll(OutcomesOf(events, jobId))) }

  function CountedOnce(s: Summary, o: Outcome): Summary {
    Bucketed(s.(requests := s.requests + 1, tokens := s.tokens + o.tokens), o.status)
  }

  function Counted(s: Summary, e: Event, jobId: string): Summary {
    if e.jobId == jobId && e.written then CountedOnce(s, Clamp(e.outcome)) else s
  }

  lemma CountedCommutes(s: Summary, a: Event, b: Event, jobId: string)
    ensures Counted(Counted(s, a, jobId), b, jobId) == Counted(Counted(s, b, jobId), a, jobId)
  {
  }

  lemma TallyLast(os: seq<Outcome>, o: Outcome)
    ensures Tally(ClampAll(os + [o])) == CountedOnce(Tally(ClampAll(os)), Clamp(o))
  {
    assert (os + [o])[..|os|] == os;
    assert (ClampAll(os) + [Clamp(o)])[..|os|] == ClampAll(os);
  }

  lemma TallyForLast(events: seq<Event>, jobId: string)
    requires events != []
    ensures var n := |events| - 1; TallyFor(events, jobId) == Counted(TallyFor(events[..n], jobId), events[n], jobId)
  {
    var e, before := events[|events| - 1], OutcomesOf(events[..|events| - 1], jobId);
    if e.jobId == jobId && e.written {
      assert OutcomesOf(events, jobId) == before + [e.outcome];
      TallyLast(before, e.outcome);
    } else {
      assert OutcomesOf(events, jobId) == before;
    }
  }

  lemma {:induction false} TallyIsFold(events: seq<Event>, jobId: string, f: (Summary, Event) -> Summary)
    requires forall s, e :: f(s, e) == Counted(s, e, jobId)
    ensures TallyFor(events, jobId) == Fold(f, EMPTY, events)
  {
    if events != [] {
      TallyIsFold(events[..|events| - 1], jobId, f);
      TallyForLast(events, jobId);
    }
  }

  lemma TallyIgnoresOrder(a: seq<Event>, b: seq<Event>, jobId: string)
    requires multiset(a) == multiset(b)
    ensures TallyFor(a, jobId) == TallyFor(b, jobId)
  {
    var f := (s: Summary, e: Event) => Counted(s, e, jobId);
    assert Commutes(f) by {
      forall s, x, y ensures f(f(s, x), y) == f(f(s, y), x) { CountedCommutes(s, x, y, jobId); }
    }
    TallyIsFold(a, jobId, f);
    TallyIsFold(b, jobId, f);
    FoldIgnoresOrder(f, EMPTY, a, b);
  }

  // However the same recordings interleave, a job's summary is the same.
  lemma SummaryIgnoresOrder(a: seq<Event>, b: seq<Event>, jobId: string)
    requires multiset(a) == multiset(b)
    ensures SummaryOf(FileText(AfterAll(a), jobId)) == SummaryOf(FileText(AfterAll(b), jobId))
  {
    SummaryTalliesRecorded(a, jobId);
    SummaryTalliesRecorded(b, jobId);
    TallyIgnoresOrder(a, b, jobId);
  }
}
