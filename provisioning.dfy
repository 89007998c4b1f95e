/**
 * What the renewal loop does with each challenge certbot announces: the
 * authority test, the TXT record creation, the propagation wait and the
 * newline that lets certbot continue, and the failure entry that ends the
 * attempt when the test or the creation fails.
 *
 * The create call follows its intended contract: the DNS provider answers
 * with a numeric status, and with the new record's id when the status is 2xx.
 */
module Provisioning {
  import opened Options
  import opened Text
  import opened Challenge
  import opened Events

  /** Seconds to wait between creating a record and letting certbot check it. */
  const DELAY_SECONDS := 30
  const NOT_UNDER := " does not fall under our "
  const AUTHORITY_TAIL := " DNS authority. Cannot create DNS record for ACME."
  const API_ERROR_TEXT := "The GET or PUT request to Cloudflare returned with status code "
  const EXIT_TEXT := "Certbot process failed with exit code "
  const EXIT_TAIL := ", check /var/log/letsencrypt"

  /** Why an attempt failed. */
  datatype Reason =
    | AuthorityViolation(recordName: string, suffix: string)
    | ApiError(status: int)
    | ProcessExit(code: int)

  /** One entry of the failure list: the domain line and why it failed. */
  datatype FailedEntry = FailedEntry(domains: string, reason: Reason)

  /** The text the script stores for a failure. */
  function Message(r: Reason): string {
    match r
    case AuthorityViolation(name, suffix) => name + NOT_UNDER + suffix + AUTHORITY_TAIL
    case ApiError(status) => API_ERROR_TEXT + IntToDecimal(status)
    case ProcessExit(code) => EXIT_TEXT + IntToDecimal(code) + EXIT_TAIL
  }

  /** The authority message names the rejected record and the suffix it missed. */
  lemma AuthorityMessageNames(name: string, suffix: string)
    ensures var m := Message(AuthorityViolation(name, suffix));
            StartsWith(m, name) && OccursAt(m, suffix, |name| + |NOT_UNDER|)
  {
    var m := Message(AuthorityViolation(name, suffix));
    assert m == name + NOT_UNDER + suffix + AUTHORITY_TAIL;
    assert m[..|name|] == name;
    assert m[|name| + |NOT_UNDER|..|name| + |NOT_UNDER| + |suffix|] == suffix;
  }

  /** The status code can be read back from an API failure message. */
  lemma ApiErrorMessageCarriesStatus(status: int)
    ensures var m := Message(ApiError(status));
            StartsWith(m, API_ERROR_TEXT) && ParseInt(m[|API_ERROR_TEXT|..]) == status
  {
    var m := Message(ApiError(status));
    assert m[|API_ERROR_TEXT|..] == IntToDecimal(status);
    IntToDecimalRoundTrip(status);
  }

  /** The DNS provider's answer to a create request. */
  datatype CreateResponse = CreateResponse(status: int, recordId: string)

  /**
   * What the loop has done so far: the ids of the records it created
   * (`record_list`), the failure entry it appended, if any (`failed_flag` is
   * `failure.Some?`), and the effects it had.
   */
  datatype Progress = Progress(records: seq<string>, failure: Option<FailedEntry>, trace: seq<Event>)

  const FRESH := Progress([], None, [])

  /**
   * One challenge: reject a name outside the authority, else create the
   * record; stop on a non-2xx status, else keep the id, wait, and signal
   * certbot. `create(k)` answers the `k`-th create request of the attempt;
   * every earlier one succeeded, so `k` is the number of records kept.
   */
  function Handle(domains: string, p: Progress, e: ChallengeEvent, create: nat -> CreateResponse): Progress {
    if !IsAuthorized(e.recordName) then
      p.(failure := Some(FailedEntry(domains, AuthorityViolation(e.recordName, DOMAIN_SUFFIX))),
         trace := p.trace + [Terminate])
    else
      var response := create(|p.records|);
      var sent := p.trace + [CreateTxtRecord(e.recordName, e.token)];
      if !IsSuccessStatus(response.status) then
        p.(failure := Some(FailedEntry(domains, ApiError(response.status))), trace := sent + [Terminate])
      else
        p.(records := p.records + [response.recordId], trace := sent + [Sleep(DELAY_SECONDS), SignalContinue])
  }

  /** The challenges handled one after the other until one fails. */
  function Orchestrate(domains: string, events: seq<ChallengeEvent>, p: Progress, create: nat -> CreateResponse): Progress
    decreases |events|
  {
    if events == [] || p.failure.Some? then p
    else Orchestrate(domains, events[1..], Handle(domains, p, events[0], create), create)
  }

  /** The challenge is one the script provisions: in the authority, and created with a 2xx status. */
  predicate Accepts(e: ChallengeEvent, response: CreateResponse) {
    IsAuthorized(e.recordName) && IsSuccessStatus(response.status)
  }

  /** How many challenges, counted from the first, are provisioned before one is rejected. */
  function Accepted(events: seq<ChallengeEvent>, create: nat -> CreateResponse, base: nat): (n: nat)
    ensures n <= |events|
    ensures forall i | 0 <= i < n :: Accepts(events[i], create(base + i))
    ensures n < |events| ==> !Accepts(events[n], create(base + n))
    decreases |events|
  {
    if events == [] || !Accepts(events[0], create(base)) then 0
    else 1 + Accepted(events[1..], create, base + 1)
  }

  /** The ids of `n` records created from the `base`-th create request on. */
  function Ids(create: nat -> CreateResponse, base: nat, n: nat): seq<string>
    decreases n
  {
    if n == 0 then [] else [create(base).recordId] + Ids(create, base + 1, n - 1)
  }

  /** The effects of challenges that were all provisioned. */
  function ProvisionTrace(events: seq<ChallengeEvent>): seq<Event> {
    if events == [] then []
    else [CreateTxtRecord(events[0].recordName, events[0].token), Sleep(DELAY_SECONDS), SignalContinue]
         + ProvisionTrace(events[1..])
  }

  /** The failure entry after `n` provisioned challenges: none if all were, else the reason of the next. */
  function Rejection(domains: string, events: seq<ChallengeEvent>, create: nat -> CreateResponse, base: nat, n: nat): Option<FailedEntry>
    requires n <= |events|
  {
    if n == |events| then None
    else if !IsAuthorized(events[n].recordName) then
      Some(FailedEntry(domains, AuthorityViolation(events[n].recordName, DOMAIN_SUFFIX)))
    else Some(FailedEntry(domains, ApiError(create(base + n).status)))
  }

  /** The effects of the rejected challenge: only a terminate, after a create request when the provider refused it. */
  function RejectionTrace(events: seq<ChallengeEvent>, n: nat): seq<Event>
    requires n <= |events|
  {
    if n == |events| then []
    else if !IsAuthorized(events[n].recordName) then [Terminate]
    else [CreateTxtRecord(events[n].recordName, events[n].token), Terminate]
  }

  lemma {:induction false} ProvisionTraceAppend(a: seq<ChallengeEvent>, e: ChallengeEvent)
    ensures ProvisionTrace(a + [e])
            == ProvisionTrace(a) + [CreateTxtRecord(e.recordName, e.token), Sleep(DELAY_SECONDS), SignalContinue]
  {
    if a != [] {
      assert (a + [e])[1..] == a[1..] + [e];
      ProvisionTraceAppend(a[1..], e);
    }
  }

  /**
   * The orchestrator run from `p` in closed form: the challenges are
   * provisioned in order until the first one outside the authority or refused
   * by the provider; that one, if any, fixes the failure entry and ends the
   * effects with a terminate.
   */
  predicate ClosedForm(domains: string, events: seq<ChallengeEvent>, p: Progress, create: nat -> CreateResponse) {
    var r := Orchestrate(domains, events, p, create);
    var base := |p.records|;
    var n := Accepted(events, create, base);
    && r.records == p.records + Ids(create, base, n)
    && r.trace == p.trace + ProvisionTrace(events[..n]) + RejectionTrace(events, n)
    && r.failure == Rejection(domains, events, create, base, n)
  }

  /** A rejected first challenge ends the run there. */
  lemma RejectedFirst(domains: string, events: seq<ChallengeEvent>, p: Progress, create: nat -> CreateResponse)
    requires p.failure.None? && events != [] && !Accepts(events[0], create(|p.records|))
    ensures ClosedForm(domains, events, p, create)
  {
    assert events[..0] == [];
    var q := Handle(domains, p, events[0], create);
    assert q.failure.Some?;
    assert Orchestrate(domains, events, p, create) == q;
  }

  /** The progress after an accepted challenge. */
  function AfterAccept(p: Progress, e: ChallengeEvent, create: nat -> CreateResponse): Progress {
    Progress(p.records + [create(|p.records|).recordId], None,
             p.trace + [CreateTxtRecord(e.recordName, e.token), Sleep(DELAY_SECONDS), SignalContinue])
  }

  /** An accepted first challenge contributes its id and its three effects, then the rest goes on. */
  lemma AcceptedFirst(domains: string, events: seq<ChallengeEvent>, p: Progress, create: nat -> CreateResponse)
    requires p.failure.None? && events != [] && Accepts(events[0], create(|p.records|))
    ensures Orchestrate(domains, events, p, create)
            == Orchestrate(domains, events[1..], AfterAccept(p, events[0], create), create)
  {
    assert Handle(domains, p, events[0], create) == AfterAccept(p, events[0], create);
  }

  /** Gluing the first accepted challenge onto the closed form of the rest. */
  lemma ClosedFormCons(domains: string, events: seq<ChallengeEvent>, create: nat -> CreateResponse, base: nat)
    requires events != [] && Accepts(events[0], create(base))
    ensures var m := Accepted(events[1..], create, base + 1);
            var e := events[0];
            && Accepted(events, create, base) == 1 + m
            && Ids(create, base, 1 + m) == [create(base).recordId] + Ids(create, base + 1, m)
            && ProvisionTrace(events[..1 + m])
               == [CreateTxtRecord(e.recordName, e.token), Sleep(DELAY_SECONDS), SignalContinue]
                  + ProvisionTrace(events[1..][..m])
            && RejectionTrace(events, 1 + m) == RejectionTrace(events[1..], m)
            && Rejection(domains, events, create, base, 1 + m) == Rejection(domains, events[1..], create, base + 1, m)
  {
    var m := Accepted(events[1..], create, base + 1);
    var prefix := events[..1 + m];
    assert prefix != [] && prefix[0] == events[0];
    assert prefix[1..] == events[1..][..m];
  }

  lemma AcceptedStep(domains: string, events: seq<ChallengeEvent>, p: Progress, create: nat -> CreateResponse)
    requires p.failure.None? && events != [] && Accepts(events[0], create(|p.records|))
    requires ClosedForm(domains, events[1..], AfterAccept(p, events[0], create), create)
    ensures ClosedForm(domains, events, p, create)
  {
    var base := |p.records|;
    AcceptedFirst(domains, events, p, create);
    ClosedFormCons(domains, events, create, base);
    var q := AfterAccept(p, events[0], create);
    var m := Accepted(events[1..], create, base + 1);
    var e := events[0];
    ConcatAssoc(p.records, [create(base).recordId], Ids(create, base + 1, m));
    ConcatAssoc(p.trace, [CreateTxtRecord(e.recordName, e.token), Sleep(DELAY_SECONDS), SignalContinue],
                ProvisionTrace(events[1..][..m]));
  }

  /** The orchestrator, run from a state without failure, is described by its closed form. */
  lemma {:induction false} OrchestrateStopsAtFirstRejection(domains: string, events: seq<ChallengeEvent>, p: Progress, create: nat -> CreateResponse)
    requires p.failure.None?
    ensures ClosedForm(domains, events, p, create)
    decreases |events|
  {
    if events == [] {
    } else if !Accepts(events[0], create(|p.records|)) {
      RejectedFirst(domains, events, p, create);
    } else {
      OrchestrateStopsAtFirstRejection(domains, events[1..], AfterAccept(p, events[0], create), create);
      AcceptedStep(domains, events, p, create);
    }
  }

  /** The create requests of a trace, as the challenges they were made for. */
  function Requests(t: seq<Event>): seq<ChallengeEvent> {
    if t == [] then []
    else (match t[0]
          case CreateTxtRecord(name, content) => [ChallengeEvent(name, content)]
          case _ => [])
         + Requests(t[1..])
  }

  lemma {:induction false} RequestsAppend(a: seq<Event>, b: seq<Event>)
    ensures Requests(a + b) == Requests(a) + Requests(b)
  {
    if a != [] {
      assert (a + b)[1..] == a[1..] + b;
      RequestsAppend(a[1..], b);
    } else {
      assert a + b == b;
    }
  }

  lemma RequestsOne(e: Event)
    ensures Requests([e]) == if e.CreateTxtRecord? then [ChallengeEvent(e.name, e.content)] else []
  {
    assert [e][1..] == [];
  }

  /** Counts and requests of a short trace written out event by event. */
  lemma TraceOfThree(a: Event, b: Event, c: Event)
    ensures forall k: Kind :: Tally([a, b, c], k) == Tally([a], k) + Tally([b], k) + Tally([c], k)
    ensures Requests([a, b, c]) == Requests([a]) + Requests([b]) + Requests([c])
  {
    assert [a, b, c] == [a] + [b] + [c];
    forall k: Kind ensures Tally([a, b, c], k) == Tally([a], k) + Tally([b], k) + Tally([c], k) {
      TallyAppend([a] + [b], [c], k);
      TallyAppend([a], [b], k);
    }
    RequestsAppend([a] + [b], [c]);
    RequestsAppend([a], [b]);
  }

  lemma TraceOfTwo(a: Event, b: Event)
    ensures forall k: Kind :: Tally([a, b], k) == Tally([a], k) + Tally([b], k)
    ensures Requests([a, b]) == Requests([a]) + Requests([b])
  {
    assert [a, b] == [a] + [b];
    forall k: Kind ensures Tally([a, b], k) == Tally([a], k) + Tally([b], k) {
      TallyAppend([a], [b], k);
    }
    RequestsAppend([a], [b]);
  }

  /** Each provisioned challenge is one create request, one wait and one continue signal. */
  lemma {:induction false} ProvisionTraceCounts(events: seq<ChallengeEvent>)
    ensures var t := ProvisionTrace(events);
            && Tally(t, Create) == |events| && Tally(t, Wait) == |events| && Tally(t, Signal) == |events|
            && Tally(t, Stop) == 0 && Tally(t, Delete) == 0 && Tally(t, Alert) == 0
  {
    if events != [] {
      var e := events[0];
      var c, w, g := CreateTxtRecord(e.recordName, e.token), Sleep(DELAY_SECONDS), SignalContinue;
      var head := [c, w, g];
      var rest := ProvisionTrace(events[1..]);
      ProvisionTraceCounts(events[1..]);
      TraceOfThree(c, w, g);
      forall k: Kind ensures Tally(head + rest, k) == Tally(head, k) + Tally(rest, k) {
        TallyAppend(head, rest, k);
      }
      TallyOne(c, Create); TallyOne(w, Create); TallyOne(g, Create);
      TallyOne(c, Wait); TallyOne(w, Wait); TallyOne(g, Wait);
      TallyOne(c, Signal); TallyOne(w, Signal); TallyOne(g, Signal);
      TallyOne(c, Stop); TallyOne(w, Stop); TallyOne(g, Stop);
      TallyOne(c, Delete); TallyOne(w, Delete); TallyOne(g, Delete);
      TallyOne(c, Alert); TallyOne(w, Alert); TallyOne(g, Alert);
    }
  }

  /** The create requests of provisioned challenges are those challenges. */
  lemma {:induction false} ProvisionTraceRequests(events: seq<ChallengeEvent>)
    ensures Requests(ProvisionTrace(events)) == events
  {
    if events != [] {
      var e := events[0];
      var c, w, g := CreateTxtRecord(e.recordName, e.token), Sleep(DELAY_SECONDS), SignalContinue;
      ProvisionTraceRequests(events[1..]);
      TraceOfThree(c, w, g);
      RequestsAppend([c, w, g], ProvisionTrace(events[1..]));
      RequestsOne(c); RequestsOne(w); RequestsOne(g);
      assert events == [e] + events[1..];
    }
  }

  /** The rejected challenge adds one terminate, preceded by its create request when it was authorized. */
  lemma RejectionTraceCounts(domains: string, events: seq<ChallengeEvent>, create: nat -> CreateResponse, base: nat, n: nat)
    requires n <= |events|
    ensures var t := RejectionTrace(events, n);
            var f := Rejection(domains, events, create, base, n);
            var m := if f.Some? && f.value.reason.ApiError? then 1 else 0;
            && Tally(t, Create) == m && Tally(t, Wait) == 0 && Tally(t, Signal) == 0
            && Tally(t, Stop) == (if f.Some? then 1 else 0) && Tally(t, Delete) == 0
            && (f.Some? ==> t != [] && t[|t| - 1] == Terminate)
  {
    if n < |events| {
      TallyOne(Terminate, Create); TallyOne(Terminate, Wait); TallyOne(Terminate, Signal);
      TallyOne(Terminate, Stop); TallyOne(Terminate, Delete);
      if IsAuthorized(events[n].recordName) {
        var c := CreateTxtRecord(events[n].recordName, events[n].token);
        TraceOfTwo(c, Terminate);
        TallyOne(c, Create); TallyOne(c, Wait); TallyOne(c, Signal); TallyOne(c, Stop); TallyOne(c, Delete);
      }
    }
  }

  /** The rejected challenge was requested exactly when the provider refused it. */
  lemma RejectionTraceRequests(domains: string, events: seq<ChallengeEvent>, create: nat -> CreateResponse, base: nat, n: nat)
    requires n <= |events|
    ensures var f := Rejection(domains, events, create, base, n);
            var m := if f.Some? && f.value.reason.ApiError? then 1 else 0;
            && n + m <= |events|
            && Requests(RejectionTrace(events, n)) == events[n..n + m]
  {
    if n < |events| {
      RequestsOne(Terminate);
      if IsAuthorized(events[n].recordName) {
        var c := CreateTxtRecord(events[n].recordName, events[n].token);
        TraceOfTwo(c, Terminate);
        RequestsOne(c);
      }
    }
  }

  /** Zero if the failure is not an API error, one if it is. */
  function ApiErrors(failure: Option<FailedEntry>): nat {
    if failure.Some? && failure.value.reason.ApiError? then 1 else 0
  }

  /**
   * Accounting of one run of the orchestrator: every record kept came from one
   * create request and is followed by exactly one wait and one continue signal;
   * the only other create request is the one the provider refused; and a
   * failure adds exactly one terminate, which is the last effect.
   */
  lemma OrchestrateAccounting(domains: string, events: seq<ChallengeEvent>, p: Progress, create: nat -> CreateResponse)
    requires p.failure.None?
    ensures var r := Orchestrate(domains, events, p, create);
            var n := |r.records| - |p.records|;
            && p.records <= r.records
            && Tally(r.trace, Create) == Tally(p.trace, Create) + n + ApiErrors(r.failure)
            && Tally(r.trace, Wait) == Tally(p.trace, Wait) + n
            && Tally(r.trace, Signal) == Tally(p.trace, Signal) + n
            && Tally(r.trace, Stop) == Tally(p.trace, Stop) + (if r.failure.Some? then 1 else 0)
            && Tally(r.trace, Delete) == Tally(p.trace, Delete)
            && (r.failure.Some? ==> r.trace[|r.trace| - 1] == Terminate)
  {
    OrchestrateStopsAtFirstRejection(domains, events, p, create);
    var r := Orchestrate(domains, events, p, create);
    var base := |p.records|;
    var n := Accepted(events, create, base);
    IdsLength(create, base, n);
    var pt := ProvisionTrace(events[..n]);
    var rt := RejectionTrace(events, n);
    ProvisionTraceCounts(events[..n]);
    RejectionTraceCounts(domains, events, create, base, n);
    forall k: Kind | k in {Create, Wait, Signal, Stop, Delete}
      ensures Tally(r.trace, k) == Tally(p.trace, k) + Tally(pt, k) + Tally(rt, k)
    {
      TallyAppend(p.trace, pt, k);
      TallyAppend(p.trace + pt, rt, k);
    }
  }

  /** The create requests of a run are the challenges, in order, up to the one that failed. */
  lemma OrchestrateRequests(domains: string, events: seq<ChallengeEvent>, p: Progress, create: nat -> CreateResponse)
    requires p.failure.None?
    ensures var r := Orchestrate(domains, events, p, create);
            var n := |r.records| - |p.records|;
            && p.records <= r.records
            && n + ApiErrors(r.failure) <= |events|
            && Requests(r.trace) == Requests(p.trace) + events[..n + ApiErrors(r.failure)]
  {
    OrchestrateStopsAtFirstRejection(domains, events, p, create);
    var r := Orchestrate(domains, events, p, create);
    var base := |p.records|;
    var n := Accepted(events, create, base);
    IdsLength(create, base, n);
    var pt := ProvisionTrace(events[..n]);
    var rt := RejectionTrace(events, n);
    ProvisionTraceRequests(events[..n]);
    RejectionTraceRequests(domains, events, create, base, n);
    RequestsAppend(p.trace, pt);
    RequestsAppend(p.trace + pt, rt);
    var m := ApiErrors(r.failure);
    assert events[..n + m] == events[..n] + events[n..n + m];
    ConcatAssoc(Requests(p.trace), events[..n], events[n..n + m]);
  }

  lemma {:induction false} IdsAt(create: nat -> CreateResponse, base: nat, n: nat, k: nat)
    requires k < n
    ensures |Ids(create, base, n)| == n && Ids(create, base, n)[k] == create(base + k).recordId
    decreases n
  {
    IdsLength(create, base, n);
    if k > 0 {
      IdsAt(create, base + 1, n - 1, k - 1);
    }
  }

  /**
   * From a fresh start, the create requests are a prefix of the challenges,
   * and the `k`-th kept id is the id of the `k`-th create response, for a
   * challenge in the authority that the provider answered 2xx.
   */
  lemma FreshRequestsAndIds(domains: string, events: seq<ChallengeEvent>, create: nat -> CreateResponse)
    ensures var r := Orchestrate(domains, events, FRESH, create);
            var asked := Requests(r.trace);
            && |asked| == |r.records| + ApiErrors(r.failure) <= |events|
            && asked == events[..|asked|]
            && forall k | 0 <= k < |r.records| ::
                 r.records[k] == create(k).recordId && Accepts(events[k], create(k))
  {
    var r := Orchestrate(domains, events, FRESH, create);
    OrchestrateRequests(domains, events, FRESH, create);
    OrchestrateStopsAtFirstRejection(domains, events, FRESH, create);
    assert Requests([]) == [];
    var a := Accepted(events, create, 0);
    assert r.records == [] + Ids(create, 0, a);
    IdsLength(create, 0, a);
    forall k | 0 <= k < |r.records|
      ensures r.records[k] == create(k).recordId && Accepts(events[k], create(k))
    {
      IdsAt(create, 0, a, k);
    }
  }

  lemma {:induction false} IdsLength(create: nat -> CreateResponse, base: nat, n: nat)
    ensures |Ids(create, base, n)| == n
    decreases n
  {
    if n > 0 {
      IdsLength(create, base + 1, n - 1);
    }
  }
}
