/**
 * The certificate identity of one domain-list line and the two export paths
 * derived from it (the `cert_id`, `CERT_PATH` and `KEY_PATH` of the script).
 */
module Naming {
  import opened Text

  /** Directory the renewed certificate files are exported to. */
  const CERT_DIR := "/etc/certs"
  const WILDCARD := "*."
  const WILDCARD_SAFE := "_."

  /** The first domain of the line, with its wildcard label made file-system safe. */
  function CertId(domains: string): string {
    ReplaceAll(FirstField(domains, ','), WILDCARD, WILDCARD_SAFE)
  }

  /** The prefix both export paths share. */
  function ExportStem(certId: string): string {
    CERT_DIR + "/" + certId
  }

  function CertPath(certId: string): string {
    ExportStem(certId) + ".cer"
  }

  function KeyPath(certId: string): string {
    ExportStem(certId) + ".key"
  }

  /** Normalising the wildcard keeps the length of the name. */
  lemma CertIdLength(domains: string)
    ensures |CertId(domains)| == |FirstField(domains, ',')| <= |domains|
  {
  }

  lemma NoStarNoWildcard(s: string)
    requires '*' !in s
    ensures !Contains(s, WILDCARD)
  {
    forall i | 0 <= i <= |s| - 2 ensures !OccursAt(s, WILDCARD, i) {
      assert s[i..i + 2][0] == s[i] != '*';
    }
    ContainsIffOccurs(s, WILDCARD);
  }

  /** The normalised name is empty only when the input is, and starts with `.` only when the input does. */
  lemma NormaliseHead(t: string)
    ensures var r := ReplaceAll(t, WILDCARD, WILDCARD_SAFE);
            (r == [] <==> t == []) && (r != [] && r[0] == '.' ==> t[0] == '.')
  {
  }

  /** A certificate identity never contains a wildcard label `*.` any more. */
  lemma {:induction false} NormalisedHasNoWildcard(s: string)
    ensures !Contains(ReplaceAll(s, WILDCARD, WILDCARD_SAFE), WILDCARD)
    decreases |s|
  {
    var r := ReplaceAll(s, WILDCARD, WILDCARD_SAFE);
    if |s| < 2 {
    } else if StartsWith(s, WILDCARD) {
      var rest := ReplaceAll(s[2..], WILDCARD, WILDCARD_SAFE);
      NormalisedHasNoWildcard(s[2..]);
      assert r == "_." + rest;
      assert r[1..] == "." + rest;
      assert r[1..][1..] == rest;
      assert !StartsWith(r, WILDCARD) && !StartsWith(r[1..], WILDCARD);
    } else {
      var rest := ReplaceAll(s[1..], WILDCARD, WILDCARD_SAFE);
      NormalisedHasNoWildcard(s[1..]);
      NormaliseHead(s[1..]);
      assert r == [s[0]] + rest;
      assert r[1..] == rest;
    }
  }

  lemma CertIdHasNoWildcard(domains: string)
    ensures !Contains(CertId(domains), WILDCARD)
  {
    NormalisedHasNoWildcard(FirstField(domains, ','));
  }

  /** The first comma-separated field of `first + tail` is `first` when `tail` is empty or starts a new field. */
  lemma {:induction false} FirstFieldOf(first: string, tail: string)
    requires ',' !in first
    requires tail == [] || tail[0] == ','
    ensures FirstField(first + tail, ',') == first
  {
    if first != [] {
      assert (first + tail)[1..] == first[1..] + tail;
      FirstFieldOf(first[1..], tail);
    }
  }

  /** A wildcard certificate `*.name,...` gets the identity `_.name`. */
  lemma WildcardIdentity(name: string, tail: string)
    requires ',' !in name && '*' !in name
    requires tail == [] || tail[0] == ','
    ensures CertId(WILDCARD + name + tail) == WILDCARD_SAFE + name
  {
    assert ',' !in WILDCARD + name;
    assert WILDCARD + name + tail == (WILDCARD + name) + tail;
    FirstFieldOf(WILDCARD + name, tail);
    NoStarNoWildcard(name);
    assert (WILDCARD + name)[2..] == name;
  }

  /** A plain certificate `name,...` keeps `name` as its identity. */
  lemma PlainIdentity(name: string, tail: string)
    requires ',' !in name && '*' !in name
    requires tail == [] || tail[0] == ','
    ensures CertId(name + tail) == name
  {
    FirstFieldOf(name, tail);
    NoStarNoWildcard(name);
  }

  /**
   * Each identity has its own pair of files, both under `CERT_DIR/cert_id`,
   * and a certificate file is never a key file.
   */
  lemma ExportPathsSeparate(a: string, b: string)
    ensures StartsWith(CertPath(a), ExportStem(a)) && StartsWith(KeyPath(a), ExportStem(a))
    ensures CertPath(a) == CertPath(b) <==> a == b
    ensures KeyPath(a) == KeyPath(b) <==> a == b
    ensures CertPath(a) != KeyPath(b)
  {
    if CertPath(a) == CertPath(b) {
      assert |a| == |b|;
      assert a == CertPath(a)[|CERT_DIR| + 1..|CERT_DIR| + 1 + |a|];
    }
    if KeyPath(a) == KeyPath(b) {
      assert |a| == |b|;
      assert a == KeyPath(a)[|CERT_DIR| + 1..|CERT_DIR| + 1 + |a|];
    }
    var c, k := CertPath(a), KeyPath(b);
    if |c| == |k| {
      assert c[|c| - 1] == 'r' && k[|k| - 1] == 'y';
    }
  }
}
