/**
 * The effects the renewal script has on the outside world, recorded as a
 * trace instead of performed: starting certbot, creating and deleting TXT
 * records, sleeping, writing the newline that lets certbot go on,
 * terminating certbot, exporting the renewed certificate and key, and
 * mailing a cleanup alert.
 */
module Events {

  datatype Event =
    | StartCertbot(domains: string, email: string, certName: string)
    | CreateTxtRecord(name: string, content: string)
    | Sleep(seconds: nat)
    | SignalContinue
    | Terminate
    | DeleteRecord(recordId: string)
    | InstallCertificate(certPath: string, keyPath: string)
    | CleanupAlert(recordId: string, status: int)

  datatype Kind = Start | Create | Wait | Signal | Stop | Install | Delete | Alert

  function KindOf(e: Event): Kind {
    match e
    case StartCertbot(_, _, _) => Start
    case CreateTxtRecord(_, _) => Create
    case Sleep(_) => Wait
    case SignalContinue => Signal
    case Terminate => Stop
    case InstallCertificate(_, _) => Install
    case DeleteRecord(_) => Delete
    case CleanupAlert(_, _) => Alert
  }

  /** How many events of kind `k` the trace holds. */
  function Tally(t: seq<Event>, k: Kind): nat {
    if t == [] then 0 else (if KindOf(t[0]) == k then 1 else 0) + Tally(t[1..], k)
  }

  lemma TallyOne(e: Event, k: Kind)
    ensures Tally([e], k) == if KindOf(e) == k then 1 else 0
  {
    assert [e][1..] == [];
  }

  /** How many times record `id` is deleted in the trace. */
  function Deletions(t: seq<Event>, id: string): nat {
    if t == [] then 0 else (if t[0] == DeleteRecord(id) then 1 else 0) + Deletions(t[1..], id)
  }

  /** Regrouping a concatenation, stated once so that proofs need not rediscover it. */
  lemma ConcatAssoc<T>(a: seq<T>, b: seq<T>, c: seq<T>)
    ensures a + b + c == a + (b + c)
  {
  }

  /** Counting distributes over concatenation. */
  lemma {:induction false} TallyAppend(a: seq<Event>, b: seq<Event>, k: Kind)
    ensures Tally(a + b, k) == Tally(a, k) + Tally(b, k)
  {
    if a != [] {
      assert (a + b)[1..] == a[1..] + b;
      TallyAppend(a[1..], b, k);
    } else {
      assert a + b == b;
    }
  }

  lemma {:induction false} DeletionsAppend(a: seq<Event>, b: seq<Event>, id: string)
    ensures Deletions(a + b, id) == Deletions(a, id) + Deletions(b, id)
  {
    if a != [] {
      assert (a + b)[1..] == a[1..] + b;
      DeletionsAppend(a[1..], b, id);
    } else {
      assert a + b == b;
    }
  }

  /** A trace without delete requests deletes no record. */
  lemma {:induction false} DeletionsWithinTally(t: seq<Event>, id: string)
    ensures Deletions(t, id) <= Tally(t, Delete)
  {
    if t != [] {
      DeletionsWithinTally(t[1..], id);
    }
  }
}
