/**
 * The slice of java.lang that the classifier relies on: nullable references,
 * String.toLowerCase, String.trim, String.contains, String.startsWith,
 * String.valueOf and the decimal rendering of an int.
 *
 * Lower-casing is ASCII only and trim strips every character at or below
 * U+0020, which is what String.trim does.
 */
module JavaLang {

  /** A Java reference that may be null. */
  datatype Nullable<+T> = Null | NonNull(value: T)

  /** String concatenation and String.valueOf write a null reference as "null". */
  function StringValueOf(s: Nullable<string>): string {
    match s
    case Null => "null"
    case NonNull(v) => v
  }

  // ---------------------------------------------------------------------
  // Lower-casing

  predicate IsAsciiUpper(c: char) {
    'A' <= c <= 'Z'
  }

  function ToLowerChar(c: char): char {
    if IsAsciiUpper(c) then (c as int + 32) as char else c
  }

  /** String.toLowerCase, restricted to ASCII letters. */
  function ToLowerCase(s: string): (r: string)
    ensures |r| == |s|
    ensures forall i :: 0 <= i < |s| ==> r[i] == ToLowerChar(s[i])
    ensures forall i :: 0 <= i < |r| ==> !IsAsciiUpper(r[i])
  {
    if s == [] then [] else [ToLowerChar(s[0])] + ToLowerCase(s[1..])
  }

  /** Two strings that differ only in the case of ASCII letters. */
  predicate EqualIgnoringCase(a: string, b: string) {
    |a| == |b| && forall i :: 0 <= i < |a| ==> ToLowerChar(a[i]) == ToLowerChar(b[i])
  }

  lemma ToLowerCaseDeterminedByCase(a: string, b: string)
    requires EqualIgnoringCase(a, b)
    ensures ToLowerCase(a) == ToLowerCase(b)
  {
    var la, lb := ToLowerCase(a), ToLowerCase(b);
    assert forall i :: 0 <= i < |la| ==> la[i] == lb[i];
  }

  lemma ToLowerCaseIdempotent(s: string)
    ensures ToLowerCase(ToLowerCase(s)) == ToLowerCase(s)
  {
    var l := ToLowerCase(s);
    var ll := ToLowerCase(l);
    assert forall i :: 0 <= i < |l| ==> ll[i] == l[i];
  }

  // ---------------------------------------------------------------------
  // Trimming

  /** The characters String.trim removes: every code point up to U+0020. */
  predicate IsTrimmed(c: char) {
    c <= ' '
  }

  /** Drops the leading run of trimmable characters. */
  function TrimLeading(s: string): (r: string)
    ensures |r| <= |s| && r == s[|s| - |r|..]
    ensures forall j :: 0 <= j < |s| - |r| ==> IsTrimmed(s[j])
    ensures r != [] ==> !IsTrimmed(r[0])
  {
    if s != [] && IsTrimmed(s[0]) then TrimLeading(s[1..]) else s
  }

  /** Drops the trailing run of trimmable characters. */
  function TrimTrailing(s: string): (r: string)
    ensures |r| <= |s| && r == s[..|r|]
    ensures forall j :: |r| <= j < |s| ==> IsTrimmed(s[j])
    ensures r != [] ==> !IsTrimmed(r[|r| - 1])
  {
    if s != [] && IsTrimmed(s[|s| - 1]) then TrimTrailing(s[..|s| - 1]) else s
  }

  /** String.trim. */
  function Trim(s: string): string {
    TrimTrailing(TrimLeading(s))
  }

  /** A trimmed string is empty exactly when every character was trimmable. */
  lemma TrimEmptyIffBlank(s: string)
    ensures Trim(s) == [] <==> forall j :: 0 <= j < |s| ==> IsTrimmed(s[j])
  {
    var l := TrimLeading(s);
    if l != [] {
      assert !IsTrimmed(l[0]) && l[0] == s[|s| - |l|];
    }
  }

  /** A non-empty trimmed string starts with the first non-trimmable character. */
  lemma TrimStartsAtFirstVisible(s: string)
    requires Trim(s) != []
    ensures |TrimLeading(s)| > 0
    ensures Trim(s)[0] == s[|s| - |TrimLeading(s)|]
  {
  }

  // ---------------------------------------------------------------------
  // Length

  /** A character outside the Basic Multilingual Plane: UTF-16 stores it as a surrogate pair. */
  predicate IsSupplementary(c: char) {
    c as int > 0xFFFF
  }

  /** String.length: the number of UTF-16 code units, two for each supplementary character. */
  function JavaLength(s: string): (n: nat)
    ensures |s| <= n <= 2 * |s|
    ensures n == |s| <==> forall i :: 0 <= i < |s| ==> !IsSupplementary(s[i])
    ensures n == 2 * |s| <==> forall i :: 0 <= i < |s| ==> IsSupplementary(s[i])
    decreases |s|
  {
    if s == [] then 0
    else
      var rest := JavaLength(s[1..]);
      assert forall i :: 1 <= i < |s| ==> s[i] == s[1..][i - 1];
      (if IsSupplementary(s[0]) then 2 else 1) + rest
  }

  /** One character is one code unit, or two when it is supplementary. */
  lemma JavaLengthOne(c: char)
    ensures JavaLength([c]) == if IsSupplementary(c) then 2 else 1
  {
    assert [c][1..] == [];
  }

  /** Lengths add up over concatenation; with JavaLengthOne this fixes the length of every string. */
  lemma {:induction false} JavaLengthAppend(a: string, b: string)
    ensures JavaLength(a + b) == JavaLength(a) + JavaLength(b)
    decreases |a|
  {
    if a != [] {
      assert (a + b)[0] == a[0];
      assert (a + b)[1..] == a[1..] + b;
      JavaLengthAppend(a[1..], b);
    } else {
      assert a + b == b;
    }
  }

  // ---------------------------------------------------------------------
  // Searching

  /** String.contains: `sub` occurs somewhere in `s`. */
  predicate Contains(s: string, sub: string)
    decreases |s|
  {
    sub <= s || (s != [] && Contains(s[1..], sub))
  }

  /** Contains, stated by an explicit position. */
  lemma ContainsAt(s: string, sub: string, k: nat)
    requires k + |sub| <= |s| && s[k..k + |sub|] == sub
    ensures Contains(s, sub)
    decreases k
  {
    if k > 0 {
      assert s[1..][k - 1..k - 1 + |sub|] == sub;
      ContainsAt(s[1..], sub, k - 1);
    }
  }

  /** A Contains witness: the position of one occurrence. */
  lemma {:induction false} ContainsWitness(s: string, sub: string) returns (k: nat)
    requires Contains(s, sub)
    ensures k + |sub| <= |s| && s[k..k + |sub|] == sub
    decreases |s|
  {
    if sub <= s {
      k := 0;
    } else {
      var k' := ContainsWitness(s[1..], sub);
      k := k' + 1;
      assert s[k..k + |sub|] == s[1..][k'..k' + |sub|];
    }
  }

  /** Containment is transitive: an occurrence of an occurrence is an occurrence. */
  lemma ContainsTransitive(s: string, t: string, u: string)
    requires Contains(s, t) && Contains(t, u)
    ensures Contains(s, u)
  {
    var i := ContainsWitness(s, t);
    var j := ContainsWitness(t, u);
    assert t == s[i..i + |t|];
    forall m | 0 <= m < |u|
      ensures s[i + j..i + j + |u|][m] == u[m]
    {
      assert u[m] == t[j + m] == s[i + j + m];
    }
    assert s[i + j..i + j + |u|] == u;
    ContainsAt(s, u, i + j);
  }

  /** A lower-case string: no ASCII upper-case letter in it. */
  predicate IsLowerCase(s: string) {
    forall i :: 0 <= i < |s| ==> !IsAsciiUpper(s[i])
  }

  /** `sub` occurs in `s` at position k when ASCII case is ignored. */
  predicate OccursIgnoringCaseAt(s: string, sub: string, k: nat) {
    k + |sub| <= |s| && EqualIgnoringCase(s[k..k + |sub|], sub)
  }

  /** At a given position, the lower-cased text shows a lower-case phrase exactly when the text does up to case. */
  lemma LowerCaseSliceIff(s: string, sub: string, k: nat)
    requires IsLowerCase(sub) && k + |sub| <= |s|
    ensures ToLowerCase(s)[k..k + |sub|] == sub <==> OccursIgnoringCaseAt(s, sub, k)
  {
    var window := s[k..k + |sub|];
    var lowered := ToLowerCase(s)[k..k + |sub|];
    forall i | 0 <= i < |sub|
      ensures lowered[i] == ToLowerChar(window[i])
      ensures ToLowerChar(sub[i]) == sub[i]
    {
      assert lowered[i] == ToLowerCase(s)[k + i];
    }
    if lowered == sub {
      assert EqualIgnoringCase(window, sub);
    }
    if EqualIgnoringCase(window, sub) {
      assert lowered == sub;
    }
  }

  /**
   * Searching the lower-cased text for a lower-case phrase, as
   * `s.toLowerCase().contains(sub)` does, finds it exactly when the phrase
   * occurs in the text in any ASCII case.
   */
  lemma ContainsIgnoringCaseIff(s: string, sub: string)
    requires IsLowerCase(sub)
    ensures Contains(ToLowerCase(s), sub) <==> exists k: nat :: OccursIgnoringCaseAt(s, sub, k)
  {
    if Contains(ToLowerCase(s), sub) {
      var k := ContainsWitness(ToLowerCase(s), sub);
      LowerCaseSliceIff(s, sub, k);
    }
    if exists k: nat :: OccursIgnoringCaseAt(s, sub, k) {
      var k: nat :| OccursIgnoringCaseAt(s, sub, k);
      LowerCaseSliceIff(s, sub, k);
      ContainsAt(ToLowerCase(s), sub, k);
    }
  }

  /** String.startsWith. */
  predicate StartsWith(s: string, prefix: string) {
    prefix <= s
  }

  // ---------------------------------------------------------------------
  // Decimal rendering of a non-negative int

  function DigitChar(d: nat): (c: char)
    requires d < 10
    ensures '0' <= c <= '9'
  {
    ('0' as int + d) as char
  }

  predicate IsDigits(s: string) {
    forall i :: 0 <= i < |s| ==> '0' <= s[i] <= '9'
  }

  /** The value of a string of decimal digits, read most significant first. */
  function DecimalValue(s: string): nat
    requires IsDigits(s)
  {
    if s == [] then 0 else DecimalValue(s[..|s| - 1]) * 10 + (s[|s| - 1] as int - '0' as int)
  }

  /** Integer.toString for a non-negative value: digits, no leading zero. */
  function NatToString(n: nat): (r: string)
    ensures |r| >= 1 && IsDigits(r)
    ensures DecimalValue(r) == n
    ensures r[0] == '0' ==> n == 0
    decreases n
  {
    if n < 10 then [DigitChar(n)]
    else
      var prefix := NatToString(n / 10);
      assert (prefix + [DigitChar(n % 10)])[..|prefix|] == prefix;
      prefix + [DigitChar(n % 10)]
  }

  /** Distinct numbers are written differently. */
  lemma NatToStringInjective(m: nat, n: nat)
    requires NatToString(m) == NatToString(n)
    ensures m == n
  {
  }
}
