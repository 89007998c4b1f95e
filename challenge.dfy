/**
 * What the renewal loop reads out of certbot's manual DNS-01 output: the
 * record name announced on an `_acme-challenge` line, the token printed on the
 * line after the "with the following value:" prompt, the authority test on the
 * record name and the 2xx test on a DNS provider status.
 */
module Challenge {
  import opened Text

  /** Marks the line that names the TXT record to create. */
  const CHALLENGE_MARKER := "_acme-challenge"
  /** Marks the line right before the token. */
  const VALUE_PROMPT := "with the following value:"
  /**
   * Decoration certbot puts in front of the record name on some lines. It is
   * written as two literals because Dafny's verifier sees the characters of
   * short literals only, and the proofs need its first character.
   */
  const TOOLBOX_PREFIX := "Admin Toolbox: " + "https://toolbox.googleapps.com/apps/dig/#TXT/"
  /** Every record the script is willing to create must end with this. */
  const DOMAIN_SUFFIX := "example.com"

  /** A line `len(line.strip()) == 0` skips. */
  predicate IsBlank(line: string) {
    |Strip(line)| == 0
  }

  /** The record name of an announcement line: stripped, toolbox URL removed, one trailing `.` dropped. */
  function CleanRecordName(line: string): (r: string)
    ensures var t := ReplaceAll(Strip(line), TOOLBOX_PREFIX, "");
            (t == r + "." || t == r) && (t == r <==> !EndsWith(t, "."))
  {
    var t := ReplaceAll(Strip(line), TOOLBOX_PREFIX, "");
    if EndsWith(t, ".") then t[..|t| - 1] else t
  }

  /** `record_name` after reading the non-blank `line`: replaced only on an announcement line. */
  function NameAfter(line: string, recordName: string): string {
    if Contains(line, CHALLENGE_MARKER) then CleanRecordName(line) else recordName
  }

  /** Removing a pattern that occurs once, at the front, leaves what follows it. */
  lemma RemoveLeadingPattern(pat: string, y: string)
    requires pat != [] && !Contains(y, pat)
    ensures ReplaceAll(pat + y, pat, "") == y
  {
    assert StartsWith(pat + y, pat);
    assert (pat + y)[|pat|..] == y;
  }

  /** The name of an announcement whose stripped text reduces to `name.` once the toolbox URL is removed. */
  lemma CleanDottedName(lead: string, body: string, trail: string, name: string)
    requires AllWhitespace(lead) && AllWhitespace(trail)
    requires body != [] && !IsWhitespace(body[0]) && body[|body| - 1] == '.'
    requires ReplaceAll(body, TOOLBOX_PREFIX, "") == name + "."
    ensures CleanRecordName(lead + body + trail) == name
  {
    StripExact(lead, body, trail);
    var t := name + ".";
    assert EndsWith(t, ".");
    assert t[..|t| - 1] == name;
  }

  /**
   * An announcement line as certbot prints it, behind the toolbox URL and
   * surrounded by whitespace (the newline `readline` keeps, indentation), with
   * the fully qualified name's trailing dot: it yields the bare name.
   */
  lemma ToolboxAnnouncedName(lead: string, name: string, trail: string)
    requires AllWhitespace(lead) && AllWhitespace(trail)
    requires !Contains(name + ".", TOOLBOX_PREFIX)
    ensures CleanRecordName(lead + TOOLBOX_PREFIX + name + "." + trail) == name
  {
    var dotted := name + ".";
    var body := TOOLBOX_PREFIX + dotted;
    assert lead + TOOLBOX_PREFIX + name + "." + trail == lead + body + trail;
    assert body[0] == 'A';
    assert body[|body| - 1] == dotted[|dotted| - 1] == '.';
    RemoveLeadingPattern(TOOLBOX_PREFIX, dotted);
    CleanDottedName(lead, body, trail, name);
  }

  /** The same for an announcement without the toolbox URL. */
  lemma PlainAnnouncedName(lead: string, name: string, trail: string)
    requires AllWhitespace(lead) && AllWhitespace(trail)
    requires name != [] && !IsWhitespace(name[0])
    requires !Contains(name + ".", TOOLBOX_PREFIX)
    ensures CleanRecordName(lead + name + "." + trail) == name
  {
    var dotted := name + ".";
    assert lead + name + "." + trail == lead + dotted + trail;
    CleanDottedName(lead, dotted, trail, name);
  }

  /** The authority test: a plain suffix test, as Python's `str.endswith`. */
  predicate IsAuthorized(recordName: string) {
    EndsWith(recordName, DOMAIN_SUFFIX)
  }

  /** A name passes exactly when it is some string followed by the configured suffix. */
  lemma AuthorizedIffUnderSuffix(recordName: string)
    ensures IsAuthorized(recordName) <==> exists p :: recordName == p + DOMAIN_SUFFIX
  {
    if IsAuthorized(recordName) {
      var p := recordName[..|recordName| - |DOMAIN_SUFFIX|];
      assert recordName == p + DOMAIN_SUFFIX;
    }
  }

  /** The test has no label boundary: a sibling domain that merely ends in the same letters passes. */
  lemma SuffixTestIgnoresLabels()
    ensures IsAuthorized("_acme-challenge.notexample.com")
    ensures !IsAuthorized("_acme-challenge.test.evil.com")
  {
    assert "_acme-challenge.notexample.com" == "_acme-challenge.not" + DOMAIN_SUFFIX;
  }

  /** The DNS provider accepted a request: its status is in the 2xx class, 200 to 299. */
  predicate IsSuccessStatus(status: int) {
    !(status < 200 || status > 299)
  }

  /** One DNS-01 challenge announced by certbot: the TXT record to create and its value. */
  datatype ChallengeEvent = ChallengeEvent(recordName: string, token: string)

  /** `last_line` after reading `line`: blank lines leave it as it was. */
  function NextLastLine(line: string, lastLine: string): string {
    if IsBlank(line) then lastLine else line
  }

  /** `record_name` after reading `line`: blank lines leave it as it was. */
  function NextRecordName(line: string, recordName: string): string {
    if IsBlank(line) then recordName else NameAfter(line, recordName)
  }

  /** The challenge event `line` yields, if any, given the line read before it. */
  function HeadEvents(line: string, lastLine: string, recordName: string): seq<ChallengeEvent> {
    if !IsBlank(line) && Contains(lastLine, VALUE_PROMPT)
    then [ChallengeEvent(NameAfter(line, recordName), Strip(line))] else []
  }

  /**
   * The challenge stream parser on its own: the challenge events of `lines`,
   * given the non-blank line read before them and the record name known so far.
   */
  function Challenges(lines: seq<string>, lastLine: string, recordName: string): seq<ChallengeEvent>
    decreases |lines|
  {
    if lines == [] then []
    else HeadEvents(lines[0], lastLine, recordName)
         + Challenges(lines[1..], NextLastLine(lines[0], lastLine), NextRecordName(lines[0], recordName))
  }

  /** The last non-blank line of `lines`, or `lastLine` when there is none. */
  function LastNonBlank(lines: seq<string>, lastLine: string): string
    decreases |lines|
  {
    if lines == [] then lastLine else LastNonBlank(lines[1..], NextLastLine(lines[0], lastLine))
  }

  /** The record name of the last announcement in `lines`, or `recordName` when there is none. */
  function LatestRecordName(lines: seq<string>, recordName: string): string
    decreases |lines|
  {
    if lines == [] then recordName else LatestRecordName(lines[1..], NextRecordName(lines[0], recordName))
  }

  /**
   * Line `j` is a token line for `e`: it is not blank, the non-blank line before
   * it holds the value prompt, `e.token` is the line stripped, and `e.recordName`
   * is the name of the latest announcement up to and including line `j`.
   */
  predicate TokenLine(lines: seq<string>, lastLine: string, recordName: string, j: int, e: ChallengeEvent) {
    0 <= j < |lines| && !IsBlank(lines[j])
    && Contains(LastNonBlank(lines[..j], lastLine), VALUE_PROMPT)
    && e.token == Strip(lines[j])
    && e.recordName == LatestRecordName(lines[..j + 1], recordName)
  }

  lemma LastNonBlankShift(lines: seq<string>, lastLine: string, j: nat)
    requires j < |lines|
    ensures LastNonBlank(lines[..j + 1], lastLine) == LastNonBlank(lines[1..][..j], NextLastLine(lines[0], lastLine))
  {
    var p := lines[..j + 1];
    assert p[0] == lines[0];
    assert p[1..] == lines[1..][..j];
  }

  lemma LatestRecordNameShift(lines: seq<string>, recordName: string, j: nat)
    requires j < |lines|
    ensures LatestRecordName(lines[..j + 1], recordName)
            == LatestRecordName(lines[1..][..j], NextRecordName(lines[0], recordName))
  {
    var p := lines[..j + 1];
    assert p[0] == lines[0];
    assert p[1..] == lines[1..][..j];
  }

  /** The token line of an event of the first line. */
  lemma TokenLineOfHead(lines: seq<string>, lastLine: string, recordName: string, k: nat)
    requires lines != [] && k < |HeadEvents(lines[0], lastLine, recordName)|
    ensures TokenLine(lines, lastLine, recordName, 0, Challenges(lines, lastLine, recordName)[k])
  {
    assert lines[..1][1..] == [];
  }

  /** A token line of the lines after the first is a token line of the whole, one index later. */
  lemma TokenLineOfTail(lines: seq<string>, lastLine: string, recordName: string, k: nat, j: nat)
    requires lines != []
    requires |HeadEvents(lines[0], lastLine, recordName)| <= k < |Challenges(lines, lastLine, recordName)|
    requires var k' := k - |HeadEvents(lines[0], lastLine, recordName)|;
             var rest := Challenges(lines[1..], NextLastLine(lines[0], lastLine), NextRecordName(lines[0], recordName));
             k' < |rest| && TokenLine(lines[1..], NextLastLine(lines[0], lastLine), NextRecordName(lines[0], recordName), j, rest[k'])
    ensures TokenLine(lines, lastLine, recordName, j + 1, Challenges(lines, lastLine, recordName)[k])
  {
    LastNonBlankShift(lines, lastLine, j);
    LatestRecordNameShift(lines, recordName, j + 1);
    assert lines[1..][j] == lines[j + 1];
  }

  /**
   * Line `j` is one the loop takes as a token: it is not blank and the
   * non-blank line before it holds the value prompt.
   */
  predicate IsTokenLine(lines: seq<string>, lastLine: string, j: int) {
    0 <= j < |lines| && !IsBlank(lines[j]) && Contains(LastNonBlank(lines[..j], lastLine), VALUE_PROMPT)
  }

  /** The first line is a token line exactly when it yields a challenge. */
  lemma FirstTokenLine(lines: seq<string>, lastLine: string, recordName: string)
    requires lines != []
    ensures IsTokenLine(lines, lastLine, 0) <==> HeadEvents(lines[0], lastLine, recordName) != []
  {
    assert lines[..0] == [];
  }

  /** A later line is a token line of the whole exactly when it is one of the lines after the first, one index back. */
  lemma LaterTokenLine(lines: seq<string>, lastLine: string, j: int)
    requires lines != [] && j >= 1
    ensures IsTokenLine(lines, lastLine, j) <==> IsTokenLine(lines[1..], NextLastLine(lines[0], lastLine), j - 1)
  {
    if j < |lines| {
      LastNonBlankShift(lines, lastLine, j - 1);
      assert lines[1..][j - 1] == lines[j];
    }
  }

  /** Each index of `js`, one on. */
  function Shifted(js: seq<nat>): (r: seq<nat>)
    ensures |r| == |js|
    ensures forall i | 0 <= i < |js| :: r[i] == js[i] + 1
  {
    if js == [] then [] else [js[0] + 1] + Shifted(js[1..])
  }

  /** The token line indices `js` of a run of lines with one more line in front. */
  function ConsIndices(head: seq<ChallengeEvent>, tail: seq<nat>): seq<nat> {
    (if head != [] then [0] else []) + Shifted(tail)
  }

  lemma ConsIndicesAt(head: seq<ChallengeEvent>, tail: seq<nat>, k: nat)
    requires |head| <= 1 && |head| <= k < |head| + |tail|
    ensures |ConsIndices(head, tail)| == |head| + |tail|
    ensures ConsIndices(head, tail)[k] == tail[k - |head|] + 1
  {
  }

  /** Each challenge of the lines comes from the line the indices name. */
  lemma ConsTokenLines(lines: seq<string>, lastLine: string, recordName: string, tail: seq<nat>)
    requires lines != []
    requires var rest := Challenges(lines[1..], NextLastLine(lines[0], lastLine), NextRecordName(lines[0], recordName));
             && |tail| == |rest|
             && forall k | 0 <= k < |tail| ::
                  TokenLine(lines[1..], NextLastLine(lines[0], lastLine), NextRecordName(lines[0], recordName), tail[k], rest[k])
    ensures var js := ConsIndices(HeadEvents(lines[0], lastLine, recordName), tail);
            var cs := Challenges(lines, lastLine, recordName);
            && |js| == |cs|
            && forall k | 0 <= k < |js| :: TokenLine(lines, lastLine, recordName, js[k], cs[k])
  {
    var head := HeadEvents(lines[0], lastLine, recordName);
    var js := ConsIndices(head, tail);
    var cs := Challenges(lines, lastLine, recordName);
    forall k | 0 <= k < |js|
      ensures TokenLine(lines, lastLine, recordName, js[k], cs[k])
    {
      if k < |head| {
        TokenLineOfHead(lines, lastLine, recordName, k);
      } else {
        ConsIndicesAt(head, tail, k);
        TokenLineOfTail(lines, lastLine, recordName, k, tail[k - |head|]);
      }
    }
  }

  lemma ConsIncreasing(head: seq<ChallengeEvent>, tail: seq<nat>)
    requires |head| <= 1
    requires forall k, k' | 0 <= k < k' < |tail| :: tail[k] < tail[k']
    ensures var js := ConsIndices(head, tail);
            forall k, k' | 0 <= k < k' < |js| :: js[k] < js[k']
  {
    var js := ConsIndices(head, tail);
    forall k, k' | 0 <= k < k' < |js|
      ensures js[k] < js[k']
    {
      ConsIndicesAt(head, tail, k');
      if k >= |head| {
        ConsIndicesAt(head, tail, k);
      }
    }
  }

  lemma ConsMembers(lines: seq<string>, lastLine: string, recordName: string, tail: seq<nat>)
    requires lines != []
    requires forall j: int :: j in tail <==> IsTokenLine(lines[1..], NextLastLine(lines[0], lastLine), j)
    ensures var js := ConsIndices(HeadEvents(lines[0], lastLine, recordName), tail);
            forall j: int :: j in js <==> IsTokenLine(lines, lastLine, j)
  {
    var head := HeadEvents(lines[0], lastLine, recordName);
    var js := ConsIndices(head, tail);
    var shifted := Shifted(tail);
    forall j: int
      ensures j in js <==> IsTokenLine(lines, lastLine, j)
    {
      if j == 0 {
        FirstTokenLine(lines, lastLine, recordName);
        assert 0 !in shifted;
      } else if j >= 1 {
        LaterTokenLine(lines, lastLine, j);
        assert j in shifted <==> j - 1 in tail;
      }
    }
  }

  /**
   * The parser yields one challenge per token line, in line order: `js` lists
   * the token lines of `lines` in increasing order, each of them exactly once,
   * and the `k`-th challenge comes from line `js[k]`.
   */
  lemma {:induction false} ChallengesInLineOrder(lines: seq<string>, lastLine: string, recordName: string)
    returns (js: seq<nat>)
    ensures var cs := Challenges(lines, lastLine, recordName);
            && |js| == |cs|
            && (forall k | 0 <= k < |js| :: TokenLine(lines, lastLine, recordName, js[k], cs[k]))
            && (forall k, k' | 0 <= k < k' < |js| :: js[k] < js[k'])
            && (forall j: int :: j in js <==> IsTokenLine(lines, lastLine, j))
    decreases |lines|
  {
    if lines == [] {
      js := [];
    } else {
      var ll, rn := NextLastLine(lines[0], lastLine), NextRecordName(lines[0], recordName);
      var head := HeadEvents(lines[0], lastLine, recordName);
      var tail := ChallengesInLineOrder(lines[1..], ll, rn);
      js := ConsIndices(head, tail);
      ConsTokenLines(lines, lastLine, recordName, tail);
      ConsIncreasing(head, tail);
      ConsMembers(lines, lastLine, recordName, tail);
    }
  }
}
