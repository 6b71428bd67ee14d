/** The credential generator: login handles, passwords and synthetic patient
    SLMC IDs built from random material. The random material itself
    (`uuid.uuid4().hex`, the picks of `random.choices`) is passed in, constrained
    to the shape the library produces. */
module Credentials {

  // ---------------------------------------------------------------- hex digits

  predicate IsLowerHex(c: char) { '0' <= c <= '9' || 'a' <= c <= 'f' }

  predicate IsUpperHex(c: char) { '0' <= c <= '9' || 'A' <= c <= 'F' }

  /** The shape of `uuid.uuid4().hex`: 32 lowercase hexadecimal digits, with
      the version digit `4` at position 12 and a variant digit of `8`, `9`, `a`
      or `b` at position 16. */
  predicate IsUuidHex(s: string) {
    |s| == 32 && (forall i :: 0 <= i < |s| ==> IsLowerHex(s[i])) &&
    s[12] == '4' && s[16] in "89ab"
  }

  /** ASCII upper-casing of one character; on hex digits this is `str.upper()`. */
  function UpperChar(c: char): char {
    if 'a' <= c <= 'z' then (c as int - 32) as char else c
  }

  /** `str.upper()` on a string of ASCII characters (outside ASCII, Python's
      upper-casing can also change the length, which this does not model). */
  function Upper(s: string): (r: string)
    requires forall i :: 0 <= i < |s| ==> s[i] as int < 128
    ensures |r| == |s|
    ensures forall i :: 0 <= i < |s| ==> r[i] == UpperChar(s[i])
    ensures (forall i :: 0 <= i < |s| ==> IsLowerHex(s[i])) ==>
              forall i :: 0 <= i < |r| ==> IsUpperHex(r[i])
  {
    if s == [] then [] else [UpperChar(s[0])] + Upper(s[1..])
  }

  // ------------------------------------------------------------- login handles

  /** `<prefix>_` followed by six lowercase hex digits. */
  predicate IsLoginHandle(prefix: string, s: string) {
    |s| == |prefix| + 7 && s[..|prefix| + 1] == prefix + "_" &&
    forall i :: |prefix| + 1 <= i < |s| ==> IsLowerHex(s[i])
  }

  /** `f"{prefix}_{uuid.uuid4().hex[:6]}"`. */
  function LoginHandle(prefix: string, uuidHex: string): (r: string)
    requires IsUuidHex(uuidHex)
    ensures IsLoginHandle(prefix, r)
    ensures r[|prefix| + 1..] == uuidHex[..6]
  {
    prefix + "_" + uuidHex[..6]
  }

  /** Every string of the handle shape is produced by some uuid: the generator
      reaches exactly the strings `IsLoginHandle` describes. */
  lemma {:induction false} LoginHandleOnto(prefix: string, s: string)
    requires IsLoginHandle(prefix, s)
    ensures exists h :: IsUuidHex(h) && LoginHandle(prefix, h) == s
  {
    var suffix := s[|prefix| + 1..];
    // Any uuid4 hex starting with the suffix will do; this one has the fixed
    // version digit at position 12 and variant digit at position 16.
    var h := suffix + "000000" + "4" + "000" + "8" + "000000000000000";
    assert |h| == 32 && h[12] == '4' && h[16] == '8';
    forall i | 0 <= i < |h| ensures IsLowerHex(h[i]) {
      if i < 6 { assert h[i] == s[|prefix| + 1 + i]; }
    }
    assert h[..6] == suffix;
    assert s == s[..|prefix| + 1] + suffix;
    assert LoginHandle(prefix, h) == s;
  }

  /** `generate_username()`: a patient handle, `"pat_"` and six hex digits. */
  function GenerateUsername(uuidHex: string): (r: string)
    requires IsUuidHex(uuidHex)
    ensures |r| == 10 && r[..4] == "pat_" && IsLoginHandle("pat", r)
  {
    LoginHandle("pat", uuidHex)
  }

  /** The username a doctor gets at registration, `"doc_"` and six hex digits. */
  function DoctorUsername(uuidHex: string): (r: string)
    requires IsUuidHex(uuidHex)
    ensures |r| == 10 && r[..4] == "doc_" && IsLoginHandle("doc", r)
  {
    LoginHandle("doc", uuidHex)
  }

  /** A doctor's generated username is never a patient's generated username. */
  lemma DoctorAndPatientHandlesDiffer(h1: string, h2: string)
    requires IsUuidHex(h1) && IsUuidHex(h2)
    ensures DoctorUsername(h1) != GenerateUsername(h2)
  {
  }

  // ---------------------------------------------------- synthetic patient IDs

  /** `PAT-` followed by eight uppercase hex digits. */
  predicate IsPatientSlmcId(s: string) {
    |s| == 12 && s[..4] == "PAT-" && forall i :: 4 <= i < 12 ==> IsUpperHex(s[i])
  }

  /** `f"PAT-{uuid.uuid4().hex[:8].upper()}"`. */
  function PatientSlmcId(uuidHex: string): (r: string)
    requires IsUuidHex(uuidHex)
    ensures IsPatientSlmcId(r)
  {
    var u := Upper(uuidHex[..8]);
    assert forall i :: 0 <= i < 8 ==> IsUpperHex(u[i]);
    "PAT-" + u
  }

  /** Distinct uuid prefixes give distinct synthetic IDs: upper-casing loses
      nothing on hex digits. */
  lemma PatientSlmcIdInjective(h1: string, h2: string)
    requires IsUuidHex(h1) && IsUuidHex(h2)
    requires PatientSlmcId(h1) == PatientSlmcId(h2)
    ensures h1[..8] == h2[..8]
  {
  }

  /** A synthetic `PAT-` ID never has the shape of a generated patient handle,
      so the two provisioning paths never hand out the same SLMC ID. */
  lemma PatientSlmcIdIsNotHandle(h1: string, h2: string)
    requires IsUuidHex(h1) && IsUuidHex(h2)
    ensures PatientSlmcId(h1) != GenerateUsername(h2)
  {
  }

  // ------------------------------------------------------------------ passwords

  /** The characters from `first` on, `count` of them in code-point order. */
  function CharRange(first: char, count: nat): (r: string)
    requires first as int + count <= 0xD800
    ensures |r| == count
    ensures forall i :: 0 <= i < count ==> r[i] == (first as int + i) as char
  {
    seq(count, i requires 0 <= i < count => (first as int + i) as char)
  }

  const AsciiLowercase: string := CharRange('a', 26)
  const AsciiUppercase: string := CharRange('A', 26)
  const Digits: string := CharRange('0', 10)

  /** `string.ascii_letters + string.digits`, the population of the password. */
  const Alphabet: string := AsciiLowercase + AsciiUppercase + Digits

  const PasswordLength: nat := 8

  predicate IsAlnum(c: char) { 'a' <= c <= 'z' || 'A' <= c <= 'Z' || '0' <= c <= '9' }

  /** The shape of the picks of `random.choices(Alphabet, k=8)`: eight indices. */
  predicate IsPasswordPicks(picks: seq<nat>) {
    |picks| == PasswordLength && forall i :: 0 <= i < |picks| ==> picks[i] < |Alphabet|
  }

  lemma AlphabetAt(k: nat)
    requires k < |Alphabet|
    ensures |Alphabet| == 62
    ensures Alphabet[k] == if k < 26 then ('a' as int + k) as char
                           else if k < 52 then ('A' as int + k - 26) as char
                           else ('0' as int + k - 52) as char
  {
  }

  /** `''.join(random.choices(string.ascii_letters + string.digits, k=8))`. */
  function GeneratePassword(picks: seq<nat>): (r: string)
    requires IsPasswordPicks(picks)
    ensures |r| == PasswordLength
    ensures forall i :: 0 <= i < |r| ==> IsAlnum(r[i])
  {
    var r := seq(PasswordLength, i requires 0 <= i < PasswordLength => Alphabet[picks[i]]);
    assert forall i :: 0 <= i < |r| ==> IsAlnum(r[i]) by {
      forall i | 0 <= i < |r| ensures IsAlnum(r[i]) { AlphabetAt(picks[i]); }
    }
    r
  }

  function AlphabetIndex(c: char): (k: nat)
    requires IsAlnum(c)
    ensures k < |Alphabet| && Alphabet[k] == c
  {
    var k := if 'a' <= c <= 'z' then c as int - 'a' as int
             else if 'A' <= c <= 'Z' then 26 + c as int - 'A' as int
             else 52 + c as int - '0' as int;
    AlphabetAt(k);
    k
  }

  /** Every eight-character string of letters and digits is a possible password:
      the generator's range is exactly that set. */
  lemma {:induction false} GeneratePasswordOnto(s: string)
    requires |s| == PasswordLength && forall i :: 0 <= i < |s| ==> IsAlnum(s[i])
    ensures exists picks :: IsPasswordPicks(picks) && GeneratePassword(picks) == s
  {
    var picks := seq(PasswordLength, i requires 0 <= i < PasswordLength => AlphabetIndex(s[i]));
    assert IsPasswordPicks(picks);
    assert GeneratePassword(picks) == s;
  }
}
