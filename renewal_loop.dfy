/**
 * The loop that reads certbot's output line by line while certbot runs:
 * blank lines are skipped, announcement lines update the record name, and
 * the line after the value prompt is a token, which is provisioned at once.
 *
 * Certbot's output is the sequence of lines it writes; the process is
 * running exactly while unread lines remain.
 */
module RenewalLoop {
  import opened Options
  import opened Text
  import opened Challenge
  import opened Events
  import opened Provisioning

  /** The loop's variables: `last_line`, `record_name`, and what was provisioned. */
  datatype LoopState = LoopState(lastLine: string, recordName: string, progress: Progress)

  const INITIAL := LoopState("", "", FRESH)

  /** One iteration of the loop body on the line just read. */
  function Step(domains: string, s: LoopState, line: string, create: nat -> CreateResponse): LoopState {
    if IsBlank(line) then s
    else
      var name := NameAfter(line, s.recordName);
      if Contains(s.lastLine, VALUE_PROMPT) then
        var p := Handle(domains, s.progress, ChallengeEvent(name, Strip(line)), create);
        LoopState(if p.failure.Some? then s.lastLine else line, name, p)
      else
        LoopState(line, name, s.progress)
  }

  /** The loop run over the lines still to be read; the first failure breaks out of it. */
  function Run(domains: string, s: LoopState, lines: seq<string>, create: nat -> CreateResponse): LoopState
    decreases |lines|
  {
    if lines == [] || s.progress.failure.Some? then s
    else Run(domains, Step(domains, s, lines[0], create), lines[1..], create)
  }

  /** An orchestrator that has already failed does nothing more. */
  lemma OrchestrateAfterFailure(domains: string, events: seq<ChallengeEvent>, p: Progress, create: nat -> CreateResponse)
    requires p.failure.Some?
    ensures Orchestrate(domains, events, p, create) == p
  {
  }

  /**
   * The interleaved loop is the challenge parser followed by the orchestrator:
   * reading and provisioning line by line has the same outcome as first
   * extracting every challenge and then provisioning them in order.
   */
  lemma {:induction false} LoopIsParseThenProvision(domains: string, s: LoopState, lines: seq<string>, create: nat -> CreateResponse)
    ensures Run(domains, s, lines, create).progress
            == Orchestrate(domains, Challenges(lines, s.lastLine, s.recordName), s.progress, create)
    decreases |lines|
  {
    var cs := Challenges(lines, s.lastLine, s.recordName);
    if lines == [] {
    } else if s.progress.failure.Some? {
      OrchestrateAfterFailure(domains, cs, s.progress, create);
    } else {
      var line := lines[0];
      var t := Step(domains, s, line, create);
      var rest := Challenges(lines[1..], NextLastLine(line, s.lastLine), NextRecordName(line, s.recordName));
      var head := HeadEvents(line, s.lastLine, s.recordName);
      assert cs == head + rest;
      if head == [] {
        assert cs == rest;
        assert t.lastLine == NextLastLine(line, s.lastLine) && t.recordName == NextRecordName(line, s.recordName);
        LoopIsParseThenProvision(domains, t, lines[1..], create);
      } else {
        var e := head[0];
        assert cs[0] == e && cs[1..] == rest;
        assert t.progress == Handle(domains, s.progress, e, create);
        if t.progress.failure.Some? {
          OrchestrateAfterFailure(domains, rest, t.progress, create);
        } else {
          assert t.lastLine == NextLastLine(line, s.lastLine) && t.recordName == NextRecordName(line, s.recordName);
          LoopIsParseThenProvision(domains, t, lines[1..], create);
        }
      }
    }
  }

  /** The lines that are not blank. */
  function NonBlank(lines: seq<string>): (r: seq<string>)
    ensures |r| <= |lines|
    ensures forall k | 0 <= k < |r| :: !IsBlank(r[k]) && r[k] in lines
  {
    if lines == [] then []
    else (if IsBlank(lines[0]) then [] else [lines[0]]) + NonBlank(lines[1..])
  }

  /** Blank lines have no effect on the loop at all. */
  lemma {:induction false} BlankLinesIgnored(domains: string, s: LoopState, lines: seq<string>, create: nat -> CreateResponse)
    ensures Run(domains, s, lines, create) == Run(domains, s, NonBlank(lines), create)
    decreases |lines|
  {
    if lines == [] {
    } else if s.progress.failure.Some? {
      var n := NonBlank(lines);
      assert Run(domains, s, n, create) == s;
    } else if IsBlank(lines[0]) {
      assert Step(domains, s, lines[0], create) == s;
      assert NonBlank(lines) == NonBlank(lines[1..]);
      BlankLinesIgnored(domains, s, lines[1..], create);
    } else {
      var t := Step(domains, s, lines[0], create);
      var n := NonBlank(lines);
      assert n == [lines[0]] + NonBlank(lines[1..]);
      assert n != [] && n[0] == lines[0] && n[1..] == NonBlank(lines[1..]);
      assert Run(domains, s, n, create) == Run(domains, t, n[1..], create);
      BlankLinesIgnored(domains, t, lines[1..], create);
    }
  }

  lemma FreshCounts()
    ensures forall k: Kind :: Tally(FRESH.trace, k) == 0
    ensures Requests(FRESH.trace) == []
  {
  }

  /**
   * The effects of one attempt's loop, counted: each kept record was created,
   * waited for and signalled once; the only other create request is the one
   * the provider refused; a failure terminates certbot exactly once, as the
   * last effect; and nothing is deleted during the loop.
   */
  lemma ScanCounts(domains: string, lines: seq<string>, create: nat -> CreateResponse)
    ensures var r := Run(domains, INITIAL, lines, create).progress;
            var n := |r.records|;
            && Tally(r.trace, Create) == n + ApiErrors(r.failure)
            && Tally(r.trace, Wait) == n && Tally(r.trace, Signal) == n
            && Tally(r.trace, Stop) == (if r.failure.Some? then 1 else 0)
            && Tally(r.trace, Delete) == 0
            && (r.failure.Some? ==> r.trace[|r.trace| - 1] == Terminate)
  {
    LoopIsParseThenProvision(domains, INITIAL, lines, create);
    OrchestrateAccounting(domains, Challenges(lines, "", ""), FRESH, create);
    FreshCounts();
  }

  /**
   * The kept ids are the ids the provider returned for the first create
   * requests, in order; each of those requests answered 2xx and was for a name
   * in the authority.
   */
  lemma ScanKeepsProvidedIds(domains: string, lines: seq<string>, create: nat -> CreateResponse)
    ensures var r := Run(domains, INITIAL, lines, create).progress;
            var asked := Requests(r.trace);
            && |r.records| <= |asked|
            && forall k | 0 <= k < |r.records| ::
                 r.records[k] == create(k).recordId && IsSuccessStatus(create(k).status)
                 && IsAuthorized(asked[k].recordName)
  {
    LoopIsParseThenProvision(domains, INITIAL, lines, create);
    var cs := Challenges(lines, "", "");
    FreshRequestsAndIds(domains, cs, create);
    var r := Orchestrate(domains, cs, FRESH, create);
    var asked := Requests(r.trace);
    forall k | 0 <= k < |r.records|
      ensures IsAuthorized(asked[k].recordName)
    {
      assert asked[k] == cs[k];
    }
  }

  /** A run that did not fail provisioned every challenge. */
  lemma NoFailureProvisionsAll(domains: string, events: seq<ChallengeEvent>, create: nat -> CreateResponse)
    ensures var r := Orchestrate(domains, events, FRESH, create);
            r.failure.None? ==> |r.records| == |events|
  {
    OrchestrateStopsAtFirstRejection(domains, events, FRESH, create);
    var n := Accepted(events, create, 0);
    IdsLength(create, 0, n);
    assert Orchestrate(domains, events, FRESH, create).records == [] + Ids(create, 0, n);
  }

  /**
   * The create requests of the loop are made for the token lines of certbot's
   * output, one per line and in line order: `js` lists every token line once,
   * in increasing order, and the `k`-th request is for the challenge of line
   * `js[k]`. A loop that did not fail made a request for every token line.
   */
  lemma ScanRequestsFromTokenLines(domains: string, lines: seq<string>, create: nat -> CreateResponse)
    returns (js: seq<nat>)
    ensures var r := Run(domains, INITIAL, lines, create).progress;
            var asked := Requests(r.trace);
            && asked <= Challenges(lines, "", "")
            && |asked| <= |js|
            && (forall k | 0 <= k < |asked| :: TokenLine(lines, "", "", js[k], asked[k]))
            && (forall k, k' | 0 <= k < k' < |js| :: js[k] < js[k'])
            && (forall j: int :: j in js <==> IsTokenLine(lines, "", j))
            && (r.failure.None? ==> |asked| == |js|)
  {
    LoopIsParseThenProvision(domains, INITIAL, lines, create);
    var cs := Challenges(lines, "", "");
    FreshRequestsAndIds(domains, cs, create);
    NoFailureProvisionsAll(domains, cs, create);
    js := ChallengesInLineOrder(lines, "", "");
    var r := Orchestrate(domains, cs, FRESH, create);
    var asked := Requests(r.trace);
    forall k | 0 <= k < |asked|
      ensures TokenLine(lines, "", "", js[k], asked[k])
    {
      assert asked[k] == cs[k];
    }
  }

  /**
   * The loop as the script runs it, over certbot's output lines: its final
   * variables are the run of the loop body over the lines, and what it
   * provisioned is what the orchestrator makes of the parsed challenges.
   */
  method ScanChallenges(domains: string, lines: seq<string>, create: nat -> CreateResponse) returns (st: LoopState)
    ensures st == Run(domains, INITIAL, lines, create)
    ensures st.progress == Orchestrate(domains, Challenges(lines, "", ""), FRESH, create)
  {
    var lastLine, recordName := "", "";
    var records: seq<string> := [];
    var failure: Option<FailedEntry> := None;
    var trace: seq<Event> := [];
    var i := 0;
    while i < |lines|
      invariant 0 <= i <= |lines|
      invariant failure.None?
      invariant Run(domains, LoopState(lastLine, recordName, Progress(records, failure, trace)), lines[i..], create)
                == Run(domains, INITIAL, lines, create)
    {
      ghost var before := LoopState(lastLine, recordName, Progress(records, failure, trace));
      var line := lines[i];
      assert lines[i..][0] == line && lines[i..][1..] == lines[i + 1..];
      i := i + 1;
      if IsBlank(line) {
        continue;
      }
      if Contains(line, CHALLENGE_MARKER) {
        recordName := CleanRecordName(line);
      }
      if Contains(lastLine, VALUE_PROMPT) {
        if !IsAuthorized(recordName) {
          failure := Some(FailedEntry(domains, AuthorityViolation(recordName, DOMAIN_SUFFIX)));
          trace := trace + [Terminate];
          assert LoopState(lastLine, recordName, Progress(records, failure, trace)) == Step(domains, before, line, create);
          break;
        }
        var response := create(|records|);
        trace := trace + [CreateTxtRecord(recordName, Strip(line))];
        if !IsSuccessStatus(response.status) {
          failure := Some(FailedEntry(domains, ApiError(response.status)));
          trace := trace + [Terminate];
          assert LoopState(lastLine, recordName, Progress(records, failure, trace)) == Step(domains, before, line, create);
          break;
        }
        records := records + [response.recordId];
        trace := trace + [Sleep(DELAY_SECONDS), SignalContinue];
      }
      lastLine := line;
      assert LoopState(lastLine, recordName, Progress(records, failure, trace)) == Step(domains, before, line, create);
    }
    st := LoopState(lastLine, recordName, Progress(records, failure, trace));
    LoopIsParseThenProvision(domains, INITIAL, lines, create);
  }
}
