/**
 * The outer loop over the domain list: each line is one certificate, which
 * is renewed when it is about to expire, and ends up either in the success
 * list or, with one reason, in the failure list; the records its attempt
 * created are then deleted whatever the outcome.
 */
module Batch {
  import opened Options
  import opened Text
  import opened Naming
  import opened Challenge
  import opened Events
  import opened Provisioning
  import opened RenewalLoop
  import opened Cleanup

  /** The address given to certbot for the account and used for alerts. */
  const CONTACT_EMAIL := "alert_me@example.com"

  /**
   * Stands for what `poll()` reports once the script has terminated certbot:
   * `None` while the signal is pending, `-15` (SIGTERM) once it took effect.
   * Either differs from 0, which is all the script tests.
   */
  const TERMINATED_STATUS := -15

  /**
   * What the outside world does for one domain-list line: whether the
   * installed certificate expires soon (or is missing), the lines certbot
   * writes, the code certbot exits with when it is left to finish, and the
   * DNS provider's answers to the create and delete requests, by call number.
   */
  datatype World = World(
    expiring: bool,
    output: seq<string>,
    exitCode: int,
    create: nat -> CreateResponse,
    delete: nat -> DeleteResponse)

  /** One line of the domain list and the world it is renewed in. */
  datatype Entry = Entry(raw: string, world: World)

  datatype Outcome = Skipped | Renewed | Failed(entry: FailedEntry)

  /** The loop's result for the domains of one line. */
  function Attempt(domains: string, world: World): Progress {
    Run(domains, INITIAL, world.output, world.create).progress
  }

  /** What `poll()` returns once the loop is over. */
  function FinalStatus(p: Progress, exitCode: int): int {
    if p.failure.Some? then TERMINATED_STATUS else exitCode
  }

  /**
   * The one outcome of an attempt: success exactly when the loop did not fail
   * and certbot exited with 0; the loop's specific reason, when there is one,
   * and the exit code otherwise.
   */
  function AttemptOutcome(domains: string, p: Progress, exitCode: int): (o: Outcome)
    ensures o.Renewed? <==> p.failure.None? && exitCode == 0
    ensures p.failure.Some? ==> o == Failed(p.failure.value)
    ensures p.failure.None? && exitCode != 0 ==> o == Failed(FailedEntry(domains, ProcessExit(exitCode)))
    ensures !o.Skipped?
  {
    var code := FinalStatus(p, exitCode);
    if code == 0 then Renewed
    else if p.failure.Some? then Failed(p.failure.value)
    else Failed(FailedEntry(domains, ProcessExit(code)))
  }

  function OutcomeOf(e: Entry): Outcome {
    if e.world.expiring then AttemptOutcome(Strip(e.raw), Attempt(Strip(e.raw), e.world), e.world.exitCode)
    else Skipped
  }

  /** What the line adds to the success list. */
  function SuccessOf(e: Entry): seq<string> {
    if OutcomeOf(e).Renewed? then [Strip(e.raw)] else []
  }

  /** What the line adds to the failure list. */
  function FailureOf(e: Entry): seq<FailedEntry> {
    if OutcomeOf(e).Failed? then [OutcomeOf(e).entry] else []
  }

  /**
   * The effects of one line, with the records deleted in `order`: start
   * certbot, the loop's effects, the export of a renewed certificate, and the
   * cleanup; nothing at all for a certificate that is not expiring.
   */
  function EntryTrace(e: Entry, order: seq<string>): seq<Event> {
    if !e.world.expiring then []
    else
      var domains := Strip(e.raw);
      var id := CertId(domains);
      [StartCertbot(domains, CONTACT_EMAIL, id)]
      + Attempt(domains, e.world).trace
      + (if OutcomeOf(e).Renewed? then [InstallCertificate(CertPath(id), KeyPath(id))] else [])
      + CleanupEvents(order, e.world.delete)
  }

  /** A cleanup order for a line: every distinct record its attempt created, once; none if it was skipped. */
  ghost predicate CleanupOrder(e: Entry, order: seq<string>) {
    && Distinct(order)
    && forall id :: id in order <==> e.world.expiring && id in Attempt(Strip(e.raw), e.world).records
  }

  function Successes(entries: seq<Entry>): seq<string>
    decreases |entries|
  {
    if entries == [] then []
    else Successes(entries[..|entries| - 1]) + SuccessOf(entries[|entries| - 1])
  }

  function Failures(entries: seq<Entry>): seq<FailedEntry>
    decreases |entries|
  {
    if entries == [] then []
    else Failures(entries[..|entries| - 1]) + FailureOf(entries[|entries| - 1])
  }

  /** How many lines have an expiring certificate. */
  function Expiring(entries: seq<Entry>): nat
    decreases |entries|
  {
    if entries == [] then 0
    else Expiring(entries[..|entries| - 1]) + (if entries[|entries| - 1].world.expiring then 1 else 0)
  }

  /** The effects of the first `n` lines in turn, each line's records deleted in its own order. */
  function BatchTrace(entries: seq<Entry>, orders: seq<seq<string>>, n: nat): seq<Event>
    requires n <= |entries| && n <= |orders|
    decreases n
  {
    if n == 0 then [] else BatchTrace(entries, orders, n - 1) + EntryTrace(entries[n - 1], orders[n - 1])
  }

  /** The effects of the first `n` lines depend only on the first `n` orders. */
  lemma {:induction false} BatchTraceFrame(entries: seq<Entry>, o1: seq<seq<string>>, o2: seq<seq<string>>, n: nat)
    requires n <= |entries| && n <= |o1| && n <= |o2|
    requires forall k | 0 <= k < n :: o1[k] == o2[k]
    ensures BatchTrace(entries, o1, n) == BatchTrace(entries, o2, n)
    decreases n
  {
    if n > 0 {
      BatchTraceFrame(entries, o1, o2, n - 1);
    }
  }

  /** The accumulated lists and trace after one more line, regrouped. */
  lemma RenewedOneMore(entries: seq<Entry>, orders: seq<seq<string>>, order: seq<string>, i: nat,
                       s0: seq<string>, f0: seq<FailedEntry>, t0: seq<Event>)
    requires i < |entries| && |orders| == i
    ensures s0 + Successes(entries[..i + 1]) == s0 + Successes(entries[..i]) + SuccessOf(entries[i])
    ensures f0 + Failures(entries[..i + 1]) == f0 + Failures(entries[..i]) + FailureOf(entries[i])
    ensures t0 + BatchTrace(entries, orders + [order], i + 1)
            == t0 + BatchTrace(entries, orders, i) + EntryTrace(entries[i], order)
  {
    ListsSnoc(entries, i);
    var all := orders + [order];
    BatchTraceFrame(entries, all, orders, i);
    assert all[i] == order;
    ConcatAssoc(s0, Successes(entries[..i]), SuccessOf(entries[i]));
    ConcatAssoc(f0, Failures(entries[..i]), FailureOf(entries[i]));
    ConcatAssoc(t0, BatchTrace(entries, orders, i), EntryTrace(entries[i], order));
  }

  lemma ListsSnoc(entries: seq<Entry>, i: nat)
    requires i < |entries|
    ensures Successes(entries[..i + 1]) == Successes(entries[..i]) + SuccessOf(entries[i])
    ensures Failures(entries[..i + 1]) == Failures(entries[..i]) + FailureOf(entries[i])
  {
    var prefix := entries[..i + 1];
    assert prefix[..i] == entries[..i];
  }

  /** An expiring line yields exactly one entry in one of the two lists; a skipped line none. */
  lemma EntryHasOneOutcome(e: Entry)
    ensures |SuccessOf(e)| + |FailureOf(e)| == if e.world.expiring then 1 else 0
  {
  }

  /** Every line with an expiring certificate is either a success or a failure, never both. */
  lemma {:induction false} OneOutcomePerEntry(entries: seq<Entry>)
    ensures |Successes(entries)| + |Failures(entries)| == Expiring(entries)
    decreases |entries|
  {
    if entries != [] {
      OneOutcomePerEntry(entries[..|entries| - 1]);
      EntryHasOneOutcome(entries[|entries| - 1]);
    }
  }

  /**
   * The generic exit-code failure is recorded only when the loop itself did
   * not fail: a loop failure is recorded with its own reason, since the
   * terminated certbot never reports 0.
   */
  lemma SpecificReasonWins(e: Entry)
    requires e.world.expiring
    ensures var p := Attempt(Strip(e.raw), e.world);
            && (p.failure.Some? ==> FailureOf(e) == [p.failure.value] && SuccessOf(e) == [])
            && (FailureOf(e) != [] && FailureOf(e)[0].reason.ProcessExit? ==> p.failure.None?)
  {
    var p := Attempt(Strip(e.raw), e.world);
    if p.failure.Some? {
      LoopFailureEntry(Strip(e.raw), e.world);
    }
  }

  /** The failure entry the loop records names the domains of the line. */
  lemma LoopFailureEntry(domains: string, world: World)
    ensures var p := Attempt(domains, world);
            p.failure.Some? ==> p.failure.value.domains == domains && !p.failure.value.reason.ProcessExit?
  {
    LoopIsParseThenProvision(domains, INITIAL, world.output, world.create);
    OrchestrateStopsAtFirstRejection(domains, Challenges(world.output, "", ""), FRESH, world.create);
  }

  /**
   * Cleanup happens whatever the outcome: each distinct record the attempt
   * created is deleted exactly once, and no other record is.
   */
  lemma CleanupWhateverOutcome(e: Entry, order: seq<string>, id: string)
    requires CleanupOrder(e, order)
    ensures Deletions(EntryTrace(e, order), id)
            == if e.world.expiring && id in Attempt(Strip(e.raw), e.world).records then 1 else 0
  {
    if e.world.expiring {
      var domains := Strip(e.raw);
      var cid := CertId(domains);
      var p := Attempt(domains, e.world);
      var start := [StartCertbot(domains, CONTACT_EMAIL, cid)];
      var install := if OutcomeOf(e).Renewed? then [InstallCertificate(CertPath(cid), KeyPath(cid))] else [];
      var cleanup := CleanupEvents(order, e.world.delete);
      ScanCounts(domains, e.world.output, e.world.create);
      DeletionsWithinTally(p.trace, id);
      DeletionsAppend(start, p.trace, id);
      DeletionsAppend(start + p.trace, install, id);
      DeletionsAppend(start + p.trace + install, cleanup, id);
      assert Deletions(start, id) == 0 by {
        assert start[1..] == [];
      }
      assert Deletions(install, id) == 0 by {
        if install != [] {
          assert install[1..] == [];
        }
      }
      EachRecordDeletedOnce(order, e.world.delete, id);
    }
  }

  /** The parts of an expiring line's effects and list entries, given the loop's result `p`. */
  lemma EntryParts(e: Entry, p: Progress, order: seq<string>)
    requires e.world.expiring && p == Attempt(Strip(e.raw), e.world)
    ensures var domains := Strip(e.raw);
            var id := CertId(domains);
            var o := AttemptOutcome(domains, p, e.world.exitCode);
            && SuccessOf(e) == (if o.Renewed? then [domains] else [])
            && FailureOf(e) == (if o.Failed? then [o.entry] else [])
            && EntryTrace(e, order)
               == [StartCertbot(domains, CONTACT_EMAIL, id)] + p.trace
                  + (if o.Renewed? then [InstallCertificate(CertPath(id), KeyPath(id))] else [])
                  + CleanupEvents(order, e.world.delete)
  {
  }

  /** A renewed certificate and its key are exported under the certificate id of the line's first name. */
  lemma RenewedIsExported(e: Entry, order: seq<string>)
    requires OutcomeOf(e).Renewed?
    ensures var id := CertId(Strip(e.raw));
            InstallCertificate(CertPath(id), KeyPath(id)) in EntryTrace(e, order)
  {
    var domains := Strip(e.raw);
    var id := CertId(domains);
    var p := Attempt(domains, e.world);
    var t := EntryTrace(e, order);
    var i := 1 + |p.trace|;
    assert t[i] == InstallCertificate(CertPath(id), KeyPath(id));
  }

  /** The renewal state the script accumulates over the domain list. */
  class Renewer {
    var successList: seq<string>
    var failedList: seq<FailedEntry>
    var trace: seq<Event>

    constructor ()
      ensures successList == [] && failedList == [] && trace == []
    {
      successList := [];
      failedList := [];
      trace := [];
    }

    /**
     * Handles one domain-list line: renews its certificate when it expires
     * soon, and otherwise skips it, returning the order the records created
     * were deleted in.
     */
    method RenewEntry(e: Entry) returns (order: seq<string>)
      modifies this
      ensures CleanupOrder(e, order)
      ensures successList == old(successList) + SuccessOf(e)
      ensures failedList == old(failedList) + FailureOf(e)
      ensures trace == old(trace) + EntryTrace(e, order)
    {
      if e.world.expiring {
        order := Renew(e);
      } else {
        order := [];
        assert EntryTrace(e, order) == [] && SuccessOf(e) == [] && FailureOf(e) == [];
        assert trace == old(trace) + [];
        assert successList == old(successList) + [];
        assert failedList == old(failedList) + [];
      }
    }

    /**
     * Renews the certificate of one line: runs certbot and the loop, records
     * the one outcome, exports a renewed certificate, and deletes the records
     * created.
     */
    method Renew(e: Entry) returns (order: seq<string>)
      requires e.world.expiring
      modifies this
      ensures CleanupOrder(e, order)
      ensures successList == old(successList) + SuccessOf(e)
      ensures failedList == old(failedList) + FailureOf(e)
      ensures trace == old(trace) + EntryTrace(e, order)
    {
      var domains := Strip(e.raw);
      var certId := CertId(domains);
      var effects := [StartCertbot(domains, CONTACT_EMAIL, certId)];
      var st := ScanChallenges(domains, e.world.output, e.world.create);
      effects := effects + st.progress.trace;
      var install := RecordOutcome(domains, certId, st.progress, e.world.exitCode);
      effects := effects + install;
      var cleanup;
      order, cleanup := DeleteProvisioned(st.progress.records, e.world.delete);
      effects := effects + cleanup;
      EntryParts(e, st.progress, order);
      assert CleanupOrder(e, order);
      trace := trace + effects;
      assert trace == old(trace) + EntryTrace(e, order);
      assert successList == old(successList) + SuccessOf(e);
    }

    /**
     * Records the one outcome of an attempt once certbot is done: a renewed
     * certificate is exported and its line added to the success list; a failed
     * one adds its failure entry, the loop's own if the loop failed.
     */
    method RecordOutcome(domains: string, certId: string, p: Progress, exitCode: int) returns (install: seq<Event>)
      modifies this
      ensures var o := AttemptOutcome(domains, p, exitCode);
              && successList == old(successList) + (if o.Renewed? then [domains] else [])
              && failedList == old(failedList) + (if o.Failed? then [o.entry] else [])
              && install == (if o.Renewed? then [InstallCertificate(CertPath(certId), KeyPath(certId))] else [])
      ensures trace == old(trace)
    {
      var status := FinalStatus(p, exitCode);
      install := [];
      if status == 0 {
        install := [InstallCertificate(CertPath(certId), KeyPath(certId))];
        successList := successList + [domains];
      } else if p.failure.Some? {
        failedList := failedList + [p.failure.value];
      } else {
        failedList := failedList + [FailedEntry(domains, ProcessExit(status))];
      }
    }

    /**
     * Renews every line of the domain list in turn, returning the order each
     * line's records were deleted in.
     */
    method RenewAll(entries: seq<Entry>) returns (orders: seq<seq<string>>)
      modifies this
      ensures |orders| == |entries|
      ensures forall i | 0 <= i < |entries| :: CleanupOrder(entries[i], orders[i])
      ensures successList == old(successList) + Successes(entries)
      ensures failedList == old(failedList) + Failures(entries)
      ensures trace == old(trace) + BatchTrace(entries, orders, |entries|)
    {
      orders := [];
      for i := 0 to |entries|
        invariant |orders| == i
        invariant forall k | 0 <= k < i :: CleanupOrder(entries[k], orders[k])
        invariant successList == old(successList) + Successes(entries[..i])
        invariant failedList == old(failedList) + Failures(entries[..i])
        invariant trace == old(trace) + BatchTrace(entries, orders, i)
      {
        var order := RenewEntry(entries[i]);
        RenewedOneMore(entries, orders, order, i, old(successList), old(failedList), old(trace));
        orders := orders + [order];
      }
      assert entries[..|entries|] == entries;
    }
  }

  /**
   * Runs the whole domain list from empty lists and returns the success and
   * failure lists, one entry per expiring certificate.
   */
  method RenewDomainList(entries: seq<Entry>) returns (successes: seq<string>, failures: seq<FailedEntry>)
    ensures successes == Successes(entries) && failures == Failures(entries)
    ensures |successes| + |failures| == Expiring(entries)
  {
    var renewer := new Renewer();
    var _ := renewer.RenewAll(entries);
    successes, failures := renewer.successList, renewer.failedList;
    OneOutcomePerEntry(entries);
  }
}
