/** Obituary identity: issueKey, obituaryName, sanitizeName (internal/controller/koroner.go:83-109) and the
    episode string of pod_controller.go:95. */
module Naming {
  // ---------- characters ----------

  predicate LowerAlnum(c: char) { 'a' <= c <= 'z' || '0' <= c <= '9' }

  predicate NameChar(c: char) { LowerAlnum(c) || c == '-' }

  /** What the sanitizer needs of Go's unicode.ToLower: letters A-Z go to a-z, and characters
      that may stand in a name stay themselves.  Nothing is said of other characters. */
  ghost predicate LowersAscii(lower: char -> char) {
    && (forall c :: NameChar(c) ==> lower(c) == c)
    && (forall c :: 'A' <= c <= 'Z' ==> LowerAlnum(lower(c)))
  }

  // ---------- sanitizeName ----------

  function Replace(lower: char -> char, s: string): (r: string)
    ensures |r| == |s|
    ensures forall i :: 0 <= i < |s| ==> r[i] == if NameChar(lower(s[i])) then lower(s[i]) else '-'
  {
    seq(|s|, i requires 0 <= i < |s| => if NameChar(lower(s[i])) then lower(s[i]) else '-')
  }

  function TrimLeft(s: string): string {
    if |s| > 0 && s[0] == '-' then TrimLeft(s[1..]) else s
  }

  function TrimRight(s: string): string {
    if |s| > 0 && s[|s| - 1] == '-' then TrimRight(s[..|s| - 1]) else s
  }

  function SanitizeName(lower: char -> char, s: string): string {
    TrimRight(TrimLeft(Replace(lower, s)))
  }

  /** A name that needs no trimming and no replacing. */
  predicate Clean(s: string) {
    && (forall c :: c in s ==> NameChar(c))
    && (|s| > 0 ==> s[0] != '-' && s[|s| - 1] != '-')
  }

  lemma {:induction false} TrimLeftShape(s: string)
    ensures |TrimLeft(s)| <= |s| && TrimLeft(s) == s[|s| - |TrimLeft(s)|..]
    ensures |TrimLeft(s)| > 0 ==> TrimLeft(s)[0] != '-'
    ensures forall i :: 0 <= i < |s| - |TrimLeft(s)| ==> s[i] == '-'
  {
    if |s| > 0 && s[0] == '-' {
      TrimLeftShape(s[1..]);
      forall i | 0 < i < |s| - |TrimLeft(s)| ensures s[i] == '-' { assert s[1..][i - 1] == '-'; }
    }
  }

  lemma {:induction false} TrimRightShape(s: string)
    ensures |TrimRight(s)| <= |s| && TrimRight(s) == s[..|TrimRight(s)|]
    ensures |TrimRight(s)| > 0 ==> TrimRight(s)[|TrimRight(s)| - 1] != '-'
    ensures forall i :: |TrimRight(s)| <= i < |s| ==> s[i] == '-'
  {
    if |s| > 0 && s[|s| - 1] == '-' {
      TrimRightShape(s[..|s| - 1]);
      forall i | |TrimRight(s)| <= i < |s| - 1 ensures s[i] == '-' { assert s[..|s| - 1][i] == '-'; }
    }
  }

  lemma SanitizeShape(lower: char -> char, s: string)
    ensures Clean(SanitizeName(lower, s))
    ensures |SanitizeName(lower, s)| <= |s|
    ensures SanitizeName(lower, s) == "" <==> forall i :: 0 <= i < |s| ==> !LowerAlnum(lower(s[i]))
  {
    var r := Replace(lower, s);
    var t := TrimLeft(r);
    TrimLeftShape(r);
    TrimRightShape(t);
    var u := TrimRight(t);
    assert forall i :: 0 <= i < |t| ==> t[i] == r[|r| - |t| + i];
    assert forall i :: 0 <= i < |u| ==> u[i] == t[i];
    if u == "" {
      assert t == "";
    } else {
      assert LowerAlnum(r[|r| - |t|]);
    }
  }

  /** What a character becomes: itself in lower case if a name may hold that, otherwise a hyphen. */
  function Safe(lower: char -> char, c: char): char { if NameChar(lower(c)) then lower(c) else '-' }

  /** The result is the stretch between the outermost characters that do not become hyphens, each made safe. */
  lemma SanitizeIs(lower: char -> char, s: string) returns (lo: nat, hi: nat)
    ensures lo <= hi <= |s| && |SanitizeName(lower, s)| == hi - lo
    ensures forall i :: lo <= i < hi ==> SanitizeName(lower, s)[i - lo] == Safe(lower, s[i])
    ensures forall i :: (0 <= i < lo || hi <= i < |s|) ==> Safe(lower, s[i]) == '-'
    ensures lo < hi ==> Safe(lower, s[lo]) != '-' && Safe(lower, s[hi - 1]) != '-'
  {
    var r := Replace(lower, s);
    var t := TrimLeft(r);
    var u := TrimRight(t);
    TrimLeftShape(r);
    TrimRightShape(t);
    lo := |r| - |t|;
    hi := lo + |u|;
    forall i | hi <= i < |s| ensures Safe(lower, s[i]) == '-' { assert t[i - lo] == r[i]; }
    forall i | lo <= i < hi ensures u[i - lo] == Safe(lower, s[i]) { assert u[i - lo] == t[i - lo] == r[i]; }
  }

  lemma CleanIsFixed(lower: char -> char, s: string)
    requires LowersAscii(lower) && Clean(s)
    ensures SanitizeName(lower, s) == s
  {
    forall i | 0 <= i < |s| ensures NameChar(s[i]) { assert s[i] in s; }
    assert Replace(lower, s) == s;
  }

  lemma SanitizeIdempotent(lower: char -> char, s: string)
    requires LowersAscii(lower)
    ensures SanitizeName(lower, SanitizeName(lower, s)) == SanitizeName(lower, s)
  {
    SanitizeShape(lower, s);
    CleanIsFixed(lower, SanitizeName(lower, s));
  }

  // ---------- obituaryName ----------

  /** Output shape of hex.EncodeToString over a 32-byte digest. */
  predicate HexDigest(h: string) {
    |h| == 64 && forall c :: c in h ==> '0' <= c <= '9' || 'a' <= c <= 'f'
  }

  ghost predicate HexDigests(hash: string -> string) {
    forall s :: HexDigest(hash(s))
  }

  function ShortHash(hash: string -> string, key: string): string {
    if |hash(key)| >= 10 then hash(key)[..10] else hash(key)
  }

  function ObituaryName(hash: string -> string, lower: char -> char, subject: string, key: string): string {
    var clean := SanitizeName(lower, subject);
    var prefix := if |clean| > 40 then clean[..40] else clean;
    TrimRight(prefix) + "-" + ShortHash(hash, key)
  }

  /** A DNS label: section 2.1 of RFC 1123 over section 2.3.1 of RFC 1035, in lower case. */
  predicate DnsLabel(s: string) {
    && 1 <= |s| <= 63
    && (forall c :: c in s ==> NameChar(c))
    && s[0] != '-' && s[|s| - 1] != '-'
  }

  /** The name is a valid label of at most 51 characters exactly when the subject has a letter or digit. */
  lemma ObituaryNameValid(hash: string -> string, lower: char -> char, subject: string, key: string)
    requires HexDigests(hash)
    ensures var n := ObituaryName(hash, lower, subject, key);
      |n| <= 51 && (DnsLabel(n) <==> exists i :: 0 <= i < |subject| && LowerAlnum(lower(subject[i])))
  {
    var clean := SanitizeName(lower, subject);
    SanitizeShape(lower, subject);
    var prefix := if |clean| > 40 then clean[..40] else clean;
    TrimRightShape(prefix);
    assert HexDigest(hash(key));
    var h := ShortHash(hash, key);
    forall i | 0 <= i < 10 ensures LowerAlnum(h[i]) { assert hash(key)[i] in hash(key); }
    var n := ObituaryName(hash, lower, subject, key);
    var t := TrimRight(prefix);
    assert n == t + "-" + h && n[|n| - 1] == h[9];
    if clean == "" {
      assert n[0] == '-';
    } else {
      assert prefix[0] == clean[0] != '-';
      forall c | c in n ensures NameChar(c) {
        var i :| 0 <= i < |n| && n[i] == c;
        if i < |t| { assert n[i] == clean[i] && clean[i] in clean; }
        else if i > |t| { assert n[i] == h[i - |t| - 1]; }
      }
    }
  }

  /**
   The name is the first forty sanitized characters, less the hyphens the cut leaves at its end, then a hyphen and the
   first ten digits of the key's hash.
   */
  lemma ObituaryNameIs(hash: string -> string, lower: char -> char, subject: string, key: string) returns (head: string)
    requires HexDigests(hash)
    ensures ObituaryName(hash, lower, subject, key) == head + "-" + hash(key)[..10]
    ensures var clean := SanitizeName(lower, subject);
      var cut := if |clean| > 40 then clean[..40] else clean;
      && head <= cut && (head != "" ==> head[|head| - 1] != '-') && forall i :: |head| <= i < |cut| ==> cut[i] == '-'
  {
    var clean := SanitizeName(lower, subject);
    var cut := if |clean| > 40 then clean[..40] else clean;
    head := TrimRight(cut);
    TrimRightShape(cut);
    assert HexDigest(hash(key));
  }

  /** In particular an ASCII letter or digit anywhere in the subject is enough. */
  lemma AsciiNameIsEnough(hash: string -> string, lower: char -> char, subject: string, key: string, i: nat)
    requires HexDigests(hash) && LowersAscii(lower)
    requires i < |subject| && ('a' <= subject[i] <= 'z' || 'A' <= subject[i] <= 'Z' || '0' <= subject[i] <= '9')
    ensures DnsLabel(ObituaryName(hash, lower, subject, key))
  {
    ObituaryNameValid(hash, lower, subject, key);
    assert LowerAlnum(lower(subject[i]));
  }

  /** Equal names have equal short hashes, whatever the subjects. */
  lemma NameFixesHash(hash: string -> string, lower: char -> char, s1: string, k1: string, s2: string, k2: string)
    requires HexDigests(hash)
    requires ObituaryName(hash, lower, s1, k1) == ObituaryName(hash, lower, s2, k2)
    ensures ShortHash(hash, k1) == ShortHash(hash, k2)
  {
    var n1, n2 := ObituaryName(hash, lower, s1, k1), ObituaryName(hash, lower, s2, k2);
    assert HexDigest(hash(k1)) && HexDigest(hash(k2));
    assert n1[|n1| - 10..] == ShortHash(hash, k1);
    assert n2[|n2| - 10..] == ShortHash(hash, k2);
  }

  /** No two of the given keys share their first ten hash digits. */
  ghost predicate NoCollisions(hash: string -> string, keys: set<string>) {
    forall a, b :: a in keys && b in keys && ShortHash(hash, a) == ShortHash(hash, b) ==> a == b
  }

  // ---------- issueKey ----------

  function IssueKey(ns: string, kind: string, name: string, container: string, cause: string): string {
    ns + "/" + kind + "/" + name + "/" + container + "/" + cause
  }

  predicate SlashFree(s: string) { '/' !in s }

  lemma SplitAtSlash(a: string, b: string, x: string, y: string)
    requires SlashFree(a) && SlashFree(b) && a + "/" + x == b + "/" + y
    ensures a == b && x == y
  {
    var l, r := a + "/" + x, b + "/" + y;
    assert l[|a|] == '/' && r[|b|] == '/';
    assert forall i :: 0 <= i < |a| ==> l[i] == a[i] && a[i] in a;
    assert forall i :: 0 <= i < |b| ==> r[i] == b[i] && b[i] in b;
    assert |a| == |b|;
    assert l[..|a|] == a && r[..|b|] == b;
    assert l[|a| + 1..] == x && r[|b| + 1..] == y;
  }

  /** The key determines its parts; the cause may even contain slashes. */
  lemma IssueKeyInjective(ns: string, kind: string, name: string, container: string, cause: string,
                          ns': string, kind': string, name': string, container': string, cause': string)
    requires SlashFree(ns) && SlashFree(kind) && SlashFree(name) && SlashFree(container)
    requires SlashFree(ns') && SlashFree(kind') && SlashFree(name') && SlashFree(container')
    requires IssueKey(ns, kind, name, container, cause) == IssueKey(ns', kind', name', container', cause')
    ensures ns == ns' && kind == kind' && name == name' && container == container' && cause == cause'
  {
    var c, c' := container + "/" + cause, container' + "/" + cause';
    var n, n' := name + "/" + c, name' + "/" + c';
    var k, k' := kind + "/" + n, kind' + "/" + n';
    assert IssueKey(ns, kind, name, container, cause) == ns + "/" + k;
    assert IssueKey(ns', kind', name', container', cause') == ns' + "/" + k';
    SplitAtSlash(ns, ns', k, k');
    SplitAtSlash(kind, kind', n, n');
    SplitAtSlash(name, name', c, c');
    SplitAtSlash(container, container', cause, cause');
  }

  // ---------- episodes ----------

  function Digits(n: nat): (s: string)
    ensures |s| > 0
    ensures forall c :: c in s ==> '0' <= c <= '9'
  {
    var last := ['0' + (n % 10) as char];
    if n < 10 then last else Digits(n / 10) + last
  }

  function Decimal(n: int): string {
    if n < 0 then "-" + Digits(-n) else Digits(n)
  }

  /** "<podUID>/<restartCount>" */
  function Episode(uid: string, restarts: int): string {
    uid + "/" + Decimal(restarts)
  }

  /** The number a string of digits stands for. */
  function Value(s: string): int {
    if |s| == 0 then 0 else 10 * Value(s[..|s| - 1]) + (s[|s| - 1] as int - '0' as int)
  }

  /** The number a decimal numeral stands for. */
  function Reads(s: string): int { if |s| > 0 && s[0] == '-' then -Value(s[1..]) else Value(s) }

  lemma {:induction false} DigitsRoundTrip(n: nat)
    ensures Value(Digits(n)) == n
    ensures n > 0 ==> Digits(n)[0] != '0'
  {
    if n >= 10 {
      DigitsRoundTrip(n / 10);
      var d := Digits(n);
      assert d[..|d| - 1] == Digits(n / 10);
    }
  }

  /** Printing a restart count and reading it back gives it again. */
  lemma DecimalRoundTrip(n: int)
    ensures Reads(Decimal(n)) == n
  {
    if n < 0 {
      assert Decimal(n)[1..] == Digits(-n);
      DigitsRoundTrip(-n);
    } else {
      assert Decimal(n)[0] in Digits(n);
      DigitsRoundTrip(n);
    }
  }

  lemma EpisodeInjective(uid: string, m: int, n: int)
    requires Episode(uid, m) == Episode(uid, n)
    ensures m == n
  {
    assert Episode(uid, m)[|uid| + 1..] == Decimal(m);
    assert Episode(uid, n)[|uid| + 1..] == Decimal(n);
    DecimalRoundTrip(m);
    DecimalRoundTrip(n);
  }
}
