# certbot-cloudflare renewal loop, modelled in Dafny

`certbot-cloudflare.py` renews TLS certificates with certbot's manual DNS-01
challenge. It uses the Cloudflare DNS API to publish the challenge tokens.
The script reads a domain list with one certificate per line. For each line
whose installed certificate is missing or about to expire, it:

1. starts `certbot certonly --manual`;
2. reads certbot's output line by line while certbot runs;
3. creates a TXT record for every challenge certbot announces, waits, and
   writes the newline that lets certbot verify the record;
4. stops at the first record that falls outside the configured authority or
   that the provider refuses, terminates certbot, and records that failure;
5. exports the renewed certificate and key on success, and otherwise records
   why the attempt failed;
6. deletes every record the attempt created, whatever the outcome, and sends
   an alert mail for each deletion that fails. This holds for the outcomes
   the script handles: success, an authority failure, a refused create and
   a failed certbot. An exception raised during the attempt, including one
   from exporting the renewed files after certbot succeeded, skips the
   cleanup and ends the whole run; that path is not modelled (see
   "## Left out").

The model treats the outside world as data:
- certbot's output is a sequence of lines, and certbot runs exactly while
  unread lines remain;
- its exit code is a parameter;
- the DNS provider's answers are functions from the call number to a response;
- whether a certificate expires soon is a boolean.

Every effect the script has is recorded as an `Event` in a trace instead of
being performed. Effects include starting certbot, creating and deleting
records, sleeping, signalling and terminating certbot, exporting files, and
mailing an alert.

Modules, in dependency order:

| file | module | what it holds |
|---|---|---|
| `options.dfy` | `Options` | `Option` |
| `text.dfy` | `Text` | the Python string operations the script uses (`strip`, `in`, `endswith`, `replace`, `split(",")[0]`, `str(int)`) and the prefix test they rest on |
| `naming.dfy` | `Naming` | the certificate id and export paths of a line |
| `challenge.dfy` | `Challenge` | the markers in certbot's output, the record-name cleanup, the authority and 2xx tests, and the challenge parser `Challenges` on its own |
| `events.dfy` | `Events` | the effect trace and counting over it |
| `provisioning.dfy` | `Provisioning` | handling one challenge (`Handle`), a run of challenges (`Orchestrate`) and its closed form |
| `renewal_loop.dfy` | `RenewalLoop` | the `while certbot_process.poll() is None` loop: the functional `Step`/`Run` and the imperative `ScanChallenges` |
| `cleanup.dfy` | `Cleanup` | the deletion loop over the set of record ids and its alerts |
| `batch.dfy` | `Batch` | the outer loop over the domain list: the class `Renewer`, holding `success_list`, `failed_list` and the trace |

The central theorem is `RenewalLoop.LoopIsParseThenProvision`. It says that the
interleaved loop (read a line, maybe provision it, read the next) ends in the
same state as two separate steps:
- parse all of certbot's output into challenges (`Challenge.Challenges`);
- then provision those challenges in order (`Provisioning.Orchestrate`).

That second function has a closed form (`OrchestrateStopsAtFirstRejection`):
the challenges are provisioned up to the first rejected one, and that one
fixes the failure entry.

The create and delete calls are modelled by their intended contract, not as
the code is written at lines 112, 120 and 151:
- line 112 binds the response object to `status_code`, and line 113 compares
  it with integers;
- line 120 reads the record id from `post_response`, a name that is never bound;
- line 151 compares the delete response itself with integers.

Read literally, the first create request ends the script: line 113 raises
when it compares a response object with an integer, so no record id is ever
kept and no delete is ever reached. The model instead uses the evident intent:
- a create answers with a numeric status, and with the new record's id when
  the status is 2xx;
- a delete failed when the provider does not report success or when its
  status is outside 200-299.

## Model

| member | source | states |
|---|---|---|
| `Text.TrimStartSpec` | certbot-cloudflare.py:98 | what `lstrip` keeps is a suffix of the line, after whitespace only, starting with a character that is not whitespace |
| `Text.TrimEndSpec` | certbot-cloudflare.py:98 | what `rstrip` keeps is a prefix of the line, before whitespace only, ending with a character that is not whitespace |
| `Text.StripSpec` | certbot-cloudflare.py:84 | `strip()` returns the slice of its input between a whitespace-only prefix and suffix, with no whitespace at either end |
| `Text.StripEmptyIffAllWhitespace` | certbot-cloudflare.py:98-99 | `len(line.strip()) == 0` holds exactly of lines made of whitespace only, in both directions |
| `Text.StripExact` | certbot-cloudflare.py:101 | `strip()` returns exactly the text once everything around it is whitespace and the text has none at its ends |
| `Text.TrimStartExact` | certbot-cloudflare.py:101 | `lstrip()` removes exactly a whitespace-only prefix in front of a non-whitespace character |
| `Text.TrimEndExact` | certbot-cloudflare.py:101 | `rstrip()` removes exactly a whitespace-only suffix after a non-whitespace character |
| `Text.ContainsIffOccurs` | certbot-cloudflare.py:100 | `sub in s` holds exactly when `sub` occurs in `s` as a contiguous slice at some index |
| `Text.ReplaceAll` | certbot-cloudflare.py:85 | `replace` leaves a string without the pattern unchanged, and keeps the length when the replacement is as long as the pattern |
| `Text.FirstField` | certbot-cloudflare.py:85 | `split(",")[0]` is the longest prefix free of the separator: it is a prefix, it holds no separator, and a separator follows it unless it is the whole string |
| `Text.NatToDecimal` | certbot-cloudflare.py:115 | `str(n)` of a natural number is a non-empty string of decimal digits without a leading zero |
| `Text.NatToDecimalRoundTrip` | certbot-cloudflare.py:146 | the digits `str(n)` writes read back as `n` |
| `Text.IntToDecimalRoundTrip` | certbot-cloudflare.py:115 | `str(status)` of any integer, negative ones included, reads back as that integer |
| `Naming.CertIdLength` | certbot-cloudflare.py:85 | the certificate id is exactly as long as the first domain of the line, which is no longer than the line |
| `Naming.NormalisedHasNoWildcard` | certbot-cloudflare.py:85 | after `replace("*.", "_.")` no wildcard label `*.` is left, whatever the input |
| `Naming.CertIdHasNoWildcard` | certbot-cloudflare.py:85 | a certificate id never contains `*.` |
| `Naming.NoStarNoWildcard` | certbot-cloudflare.py:85 | a name without `*` contains no wildcard label |
| `Naming.NormaliseHead` | certbot-cloudflare.py:85 | the normalised name is empty exactly when the input is, and starts with `.` only when the input does |
| `Naming.FirstFieldOf` | certbot-cloudflare.py:85 | the first comma field of `first` followed by nothing or by a new field is `first` |
| `Naming.WildcardIdentity` | certbot-cloudflare.py:85 | a line `*.name,...` gets the certificate id `_.name` |
| `Naming.PlainIdentity` | certbot-cloudflare.py:85 | a line `name,...` keeps `name` as its certificate id |
| `Naming.ExportPathsSeparate` | certbot-cloudflare.py:86-87 | both export paths lie under `/etc/certs/<cert_id>`; different ids give different certificate paths and different key paths; a certificate path is never a key path |
| `Challenge.CleanRecordName` | certbot-cloudflare.py:101-103 | the record name is the stripped line without the toolbox URL, minus one trailing `.` exactly when it ends with one |
| `Challenge.RemoveLeadingPattern` | certbot-cloudflare.py:101 | removing a pattern that occurs only at the front leaves what follows it |
| `Challenge.CleanDottedName` | certbot-cloudflare.py:101-103 | a padded announcement that reduces to `name.` yields `name` |
| `Challenge.ToolboxAnnouncedName` | certbot-cloudflare.py:100-103 | a toolbox-URL announcement of `name.`, padded with whitespace, yields the bare `name` |
| `Challenge.PlainAnnouncedName` | certbot-cloudflare.py:100-103 | a plain announcement of `name.`, padded with whitespace, yields the bare `name` |
| `Challenge.AuthorizedIffUnderSuffix` | certbot-cloudflare.py:105 | a record name passes the authority test exactly when it is some string followed by `example.com` |
| `Challenge.SuffixTestIgnoresLabels` | certbot-cloudflare.py:105 | the test has no label boundary: `..notexample.com` passes and `..evil.com` does not |
| `Challenge.LastNonBlankShift` | certbot-cloudflare.py:124 | `last_line` after the first `j+1` lines is `last_line` after the `j` lines that follow the first, started from its value after the first |
| `Challenge.LatestRecordNameShift` | certbot-cloudflare.py:100-103 | the same shift for `record_name` |
| `Challenge.TokenLineOfHead` | certbot-cloudflare.py:104 | a challenge produced by the first line comes from line 0 as a token line |
| `Challenge.TokenLineOfTail` | certbot-cloudflare.py:104 | a token line of the later lines is a token line of the whole output, one index on |
| `Challenge.FirstTokenLine` | certbot-cloudflare.py:98-104 | the first line is a token line exactly when it yields a challenge |
| `Challenge.LaterTokenLine` | certbot-cloudflare.py:98-104 | a later line is a token line exactly when it is one of the lines after the first, one index back |
| `Challenge.Shifted` | certbot-cloudflare.py:96-104 | every line index one on, keeping their number |
| `Challenge.ConsIndicesAt` | certbot-cloudflare.py:96-104 | the token lines of the lines after the first, moved one on, follow the first line's own entry |
| `Challenge.ConsTokenLines` | certbot-cloudflare.py:96-124 | with one more line in front, each challenge still comes from the line the indices name |
| `Challenge.ConsIncreasing` | certbot-cloudflare.py:96-97 | with one more line in front, the token line indices stay increasing |
| `Challenge.ConsMembers` | certbot-cloudflare.py:96-104 | with one more line in front, the indices are still exactly the token lines |
| `Challenge.ChallengesInLineOrder` | certbot-cloudflare.py:96-124 | one challenge per token line (non-blank, right after a non-blank line holding the value prompt), in line order. The token lines are listed in increasing order, each exactly once. The `k`-th challenge comes from the `k`-th token line: its token is that line stripped and its name the latest announced one |
| `Provisioning.AuthorityMessageNames` | certbot-cloudflare.py:107 | the authority failure message starts with the rejected record name and names the suffix it missed |
| `Provisioning.ApiErrorMessageCarriesStatus` | certbot-cloudflare.py:115 | the API failure message carries the status, which reads back unchanged |
| `Provisioning.Accepted` | certbot-cloudflare.py:104-123 | the number of leading challenges that are authorized and answered 2xx: all of them pass, and the next one, if any, does not |
| `Provisioning.ProvisionTraceAppend` | certbot-cloudflare.py:112-123 | one more provisioned challenge adds its create request, the wait and the continue signal at the end |
| `Provisioning.RejectedFirst` | certbot-cloudflare.py:105-119 | a first challenge that fails the authority test or gets a non-2xx answer ends the run in closed form |
| `Provisioning.AcceptedFirst` | certbot-cloudflare.py:112-123 | an accepted first challenge keeps the provider's id and adds its three effects before the rest is handled |
| `Provisioning.ClosedFormCons` | certbot-cloudflare.py:104-124 | the counts, ids, effects and failure of a run whose first challenge is accepted split into that challenge and the rest |
| `Provisioning.AcceptedStep` | certbot-cloudflare.py:104-124 | the closed form of the rest, after an accepted first challenge, gives the closed form of the whole |
| `Provisioning.OrchestrateStopsAtFirstRejection` | certbot-cloudflare.py:104-124 | a run from a state without failure keeps the provider's ids of the accepted prefix, has the create/wait/signal effects of that prefix followed by the rejected challenge's effects, and fails with that challenge's reason (authority or status), or not at all when every challenge is accepted |
| `Provisioning.RequestsAppend` | certbot-cloudflare.py:112 | the create requests of two traces in a row are those of the first followed by those of the second |
| `Provisioning.RequestsOne` | certbot-cloudflare.py:112 | a single effect is a create request only when it is a TXT record creation |
| `Provisioning.TraceOfThree` | certbot-cloudflare.py:112-123 | the counts and requests of three effects in a row are the sums of their own |
| `Provisioning.TraceOfTwo` | certbot-cloudflare.py:112-118 | the counts and requests of two effects in a row are the sums of their own |
| `Provisioning.ProvisionTraceCounts` | certbot-cloudflare.py:112-123 | provisioned challenges give one create, one wait and one signal each, and no terminate, delete or alert |
| `Provisioning.ProvisionTraceRequests` | certbot-cloudflare.py:112 | the create requests of provisioned challenges are exactly those challenges, in order |
| `Provisioning.RejectionTraceCounts` | certbot-cloudflare.py:105-119 | a rejection adds one terminate as its last effect, preceded by a create request only for a refused status |
| `Provisioning.RejectionTraceRequests` | certbot-cloudflare.py:112-119 | the rejected challenge was requested exactly when the provider refused it |
| `Provisioning.OrchestrateAccounting` | certbot-cloudflare.py:104-123 | each kept record adds one create, one wait and one signal; the only other create is the refused one; a failure adds exactly one terminate, as the last effect; nothing is deleted |
| `Provisioning.OrchestrateRequests` | certbot-cloudflare.py:104-124 | the create requests of a run are the challenges in order, up to and including a refused one |
| `Provisioning.IdsAt` | certbot-cloudflare.py:120 | the `k`-th kept id is the id of the `k`-th create answer |
| `Provisioning.IdsLength` | certbot-cloudflare.py:120 | one id per accepted create request |
| `Provisioning.FreshRequestsAndIds` | certbot-cloudflare.py:104-124 | from a fresh start the requests are a prefix of the challenges, one per kept record plus the refused one; the `k`-th kept id is the `k`-th answer's id, for an authorized challenge answered 2xx |
| `RenewalLoop.OrchestrateAfterFailure` | certbot-cloudflare.py:109-111 | once a failure is recorded nothing more is provisioned, as after `break` |
| `RenewalLoop.LoopIsParseThenProvision` | certbot-cloudflare.py:94-124 | the interleaved read-and-provision loop ends with what the orchestrator makes of all parsed challenges |
| `RenewalLoop.NonBlank` | certbot-cloudflare.py:98-99 | the kept lines are lines of the output, none of them blank, and no more of them than there are lines |
| `RenewalLoop.BlankLinesIgnored` | certbot-cloudflare.py:98-99 | dropping the blank lines does not change the loop's final state |
| `RenewalLoop.FreshCounts` | certbot-cloudflare.py:94-95 | the loop starts with no effects and no requests |
| `RenewalLoop.ScanCounts` | certbot-cloudflare.py:94-124 | over one attempt, each kept record was created, waited for and signalled once; the only other create is the refused one; a failure terminates certbot once, as the last effect; nothing is deleted during the loop |
| `RenewalLoop.ScanKeepsProvidedIds` | certbot-cloudflare.py:105-120 | the kept ids are the ids the provider returned for the first create requests, in order, each answered 2xx for a name in the authority |
| `RenewalLoop.NoFailureProvisionsAll` | certbot-cloudflare.py:104-123 | a run that records no failure provisions every challenge |
| `RenewalLoop.ScanRequestsFromTokenLines` | certbot-cloudflare.py:96-112 | the create requests are a prefix of the parsed challenges; they are made for the token lines of certbot's output, one per line and in line order; every token line is listed once; a loop that did not fail made a request for every token line |
| `RenewalLoop.ScanChallenges` | certbot-cloudflare.py:94-124 | the imperative loop, with `continue` and both `break`s, ends in the state of `Run` over the output, which is the orchestrator's result on the parsed challenges |
| `Cleanup.DeleteEffects` | certbot-cloudflare.py:150-159 | one deletion is a delete request, followed by an alert exactly when it failed |
| `Cleanup.DeleteEffectsCounts` | certbot-cloudflare.py:150-159 | one deletion deletes its record once, makes one delete request, and raises an alert only when it failed |
| `Cleanup.EachRecordDeletedOnce` | certbot-cloudflare.py:149-150 | a duplicate-free order deletes each of its records exactly once and no other record |
| `Cleanup.CleanupCounts` | certbot-cloudflare.py:149-159 | one delete request per record and one alert per failed request; no other effect |
| `Cleanup.AlertFollowsItsDelete` | certbot-cloudflare.py:150-156 | every alert comes right after the delete request for the same record, which failed, and reports that request's status |
| `Cleanup.DeleteProvisioned` | certbot-cloudflare.py:149-159 | the order is duplicate-free and holds exactly the distinct ids of `record_list`; the effects are that order's deletions; each id is deleted exactly once; nothing happens for an empty list |
| `Batch.AttemptOutcome` | certbot-cloudflare.py:126-147 | success exactly when the loop did not fail and certbot exited with 0; the loop's own failure entry wins; otherwise the exit code goes into the failure entry; never neither |
| `Batch.ListsSnoc` | certbot-cloudflare.py:81 | one more line adds its own success or failure entries at the end of the lists |
| `Batch.EntryHasOneOutcome` | certbot-cloudflare.py:90-161 | an expiring line goes into exactly one of the two lists; a skipped line into neither |
| `Batch.OneOutcomePerEntry` | certbot-cloudflare.py:81-161 | the lengths of the success and failure lists add up to the number of expiring lines |
| `Batch.SpecificReasonWins` | certbot-cloudflare.py:143-147 | a failed loop is recorded with its own reason and never as a success, and an exit-code failure is recorded only when the loop did not fail |
| `Batch.LoopFailureEntry` | certbot-cloudflare.py:107-115 | the failure entry of the loop names the line's domains and an authority or API reason |
| `Batch.CleanupWhateverOutcome` | certbot-cloudflare.py:149-151 | for every outcome the script handles (success, authority failure, refused create, failed certbot), each distinct record the attempt created is deleted exactly once, and no other record is deleted |
| `Batch.EntryParts` | certbot-cloudflare.py:90-159 | an expiring line's effects are the certbot start, the loop's effects, the export on success and the cleanup; its list entries follow the attempt's outcome |
| `Batch.RenewedIsExported` | certbot-cloudflare.py:126-142 | a renewed certificate and key are exported under the certificate id of the line's first domain |
| `Batch.Renewer.constructor` | certbot-cloudflare.py:76-77 | both lists start empty, with no effects |
| `Batch.Renewer.RecordOutcome` | certbot-cloudflare.py:126-147 | adds the outcome's one entry to the success or failure list, and exports only a renewed certificate |
| `Batch.Renewer.Renew` | certbot-cloudflare.py:90-159 | an expiring line's start, loop, outcome, export and cleanup, with the lists and the trace extended by that line's entries and effects |
| `Batch.Renewer.RenewEntry` | certbot-cloudflare.py:89-161 | one line: renewed when expiring, otherwise no entry and no effect; the cleanup order covers the created records |
| `Batch.RenewedOneMore` | certbot-cloudflare.py:81 | the accumulated lists and trace after one more line are the earlier ones followed by that line's entries and effects |
| `Batch.BatchTraceFrame` | certbot-cloudflare.py:81 | the effects of the first `n` lines depend only on those lines' cleanup orders |
| `Batch.Renewer.RenewAll` | certbot-cloudflare.py:81-161 | the lists gain the lines' entries, and the trace the lines' effects, in the order of the domain list; each line's records are deleted in a cleanup order covering exactly its distinct created records |
| `Batch.RenewDomainList` | certbot-cloudflare.py:76-161 | from empty lists, the success and failure lists of the whole domain list, one entry per expiring certificate |

## Left out

- The Cloudflare HTTP requests, JSON bodies and headers (lines 44-69) are not modelled. A create or delete is one call to an answer function, and only its status, id and `success` flag are modelled.
- The record payload fields `type`, `ttl` 300, `comment` and `proxied` (lines 45-52) are not modelled. They never influence control flow.
- The create call at line 112 and the id read at line 120 follow their evident intent: a numeric status, and an id on 2xx. As written, `status_code` is a response object and `post_response` is unbound.
- The deletion test at line 151 follows its evident intent: the status of the delete response is compared, not the response object.
- The subprocess is modelled by its output lines and its exit code. Pipes, buffering and `bufsize=1` are out. Output that is still buffered once `poll()` stops returning `None` is out too.
- Certbot exiting on its own between a read and `terminate()` is not modelled. Right after `terminate()`, `poll()` returns `None` while the signal is pending, or `-15` once certbot has died of it. Either way the value is not 0, so line 126 takes the failure branch. The model writes this value as `TERMINATED_STATUS` (`-15`).
- Exceptions are not modelled; the create and delete answer functions are total. In the script, an exception leaves the loop at line 81 and ends the whole run. Such exceptions come from a network failure in `requests.post` or `requests.delete` (lines 60 and 69, called at 112 and 150), a 2xx body without `result.id` (line 120), a delete body without `success` (line 151), the SMTP session (lines 157-158), writing to the stdin of a certbot that has exited (line 123), decoding a line of certbot's output that is not valid UTF-8 (line 97), or exporting the renewed files after certbot exited 0 (lines 131-139: `os.rename`, `shutil.copyfile` when the export directory is missing, `shutil.chown` for an unknown owner or group). The list is not exhaustive: any exception raised inside the loop at line 81 takes this path. Then no failure entry is recorded, certbot is not terminated, the records already created for the line are never deleted, and the remaining lines are never processed. An export failure does this on the success path: the line reaches neither `success_list` (line 142) nor the cleanup (line 149). `Batch.CleanupWhateverOutcome` and `Batch.Renewer.RenewAll` hold only for runs without such an exception.
- The `openssl x509 -checkend` test and the file-existence test (lines 33-41) are a boolean per line, and `REPLACE_AFTER_SECONDS` is not modelled.
- Reading the domain list file (lines 72-74) is not modelled. It is given as a sequence of entries.
- `time.sleep` is the `Sleep(30)` event. The dates of the `.old-` renames are left out.
- Renaming the old certificate files, copying the new ones and changing their owner (lines 128-140) are one `InstallCertificate` event over the two export paths.
- The post-scripts run for renewed certificates (lines 165-168) are not modelled.
- The summary mail (lines 172-216) and the contents of the cleanup alert mail (lines 152-159) are not modelled. Each failed deletion is a `CleanupAlert` event carrying the record id and the status.
- Log output to stdout and stderr is not modelled.
- The iteration order of `set(record_list)` is not modelled. It is left open: `Cleanup.DeleteProvisioned` picks the next id nondeterministically and returns the order it used.
- `Text.ReplaceAll` requires a non-empty pattern. Python's empty-pattern case is never used by the script.
- Unicode case and normalisation play no part. `strip()` uses Python's `str.isspace` set, written out per character.
