/** Slugs of personal organisations: a base taken from an email, then base-1, base-2 and so on until one is free. */
module Slugs {
  import opened Prelude
  import opened Decimals

  /** Trimming and lower-casing, on ASCII. */
  function LowerChar(c: char): char {
    if 'A' <= c <= 'Z' then (c as int + 32) as char else c
  }

  function Lower(s: string): (r: string)
    ensures |r| == |s| && forall i :: 0 <= i < |s| ==> r[i] == LowerChar(s[i])
  {
    if s == "" then "" else [LowerChar(s[0])] + Lower(s[1..])
  }

  function TrimLeft(s: string): string {
    if s != "" && s[0] <= ' ' then TrimLeft(s[1..]) else s
  }

  function TrimRight(s: string): string {
    if s != "" && s[|s| - 1] <= ' ' then TrimRight(s[..|s| - 1]) else s
  }

  function Normalize(email: string): string {
    Lower(TrimRight(TrimLeft(email)))
  }

  predicate Normalized(email: string) {
    && (forall i :: 0 <= i < |email| ==> !('A' <= email[i] <= 'Z'))
    && (email != "" ==> email[0] > ' ' && email[|email| - 1] > ' ')
  }

  lemma {:induction false} TrimLeftDone(s: string)
    ensures var t := TrimLeft(s); t == "" || t[0] > ' '
  {
    if s != "" && s[0] <= ' ' {
      TrimLeftDone(s[1..]);
    }
  }

  lemma {:induction false} TrimRightDone(s: string)
    requires s == "" || s[0] > ' '
    ensures var t := TrimRight(s); t == "" || (t[0] > ' ' && t[|t| - 1] > ' ')
  {
    if s != "" && s[|s| - 1] <= ' ' {
      TrimRightDone(s[..|s| - 1]);
    }
  }

  lemma {:induction false} LowerFixed(s: string)
    requires forall i :: 0 <= i < |s| ==> !('A' <= s[i] <= 'Z')
    ensures Lower(s) == s
  {
    assert forall i :: 0 <= i < |s| ==> Lower(s)[i] == s[i];
  }

  /** Normalisation leaves exactly the emails alone that have no outer blanks and no capitals. */
  lemma NormalizeIsProjection(email: string)
    ensures Normalized(Normalize(email))
    ensures Normalize(email) == email <==> Normalized(email)
  {
    TrimLeftDone(email);
    TrimRightDone(TrimLeft(email));
    if Normalized(email) {
      LowerFixed(email);
    }
  }

  predicate AllBlank(s: string) {
    forall i :: 0 <= i < |s| ==> s[i] <= ' '
  }

  lemma {:induction false} TrimLeftIs(s: string) returns (i: nat)
    ensures i <= |s| && TrimLeft(s) == s[i..] && AllBlank(s[..i])
  {
    i := 0;
    if s != "" && s[0] <= ' ' {
      var k := TrimLeftIs(s[1..]);
      i := k + 1;
      assert s[..i] == [s[0]] + s[1..][..k] && s[i..] == s[1..][k..];
    }
  }

  lemma {:induction false} TrimRightIs(s: string) returns (j: nat)
    ensures j <= |s| && TrimRight(s) == s[..j] && AllBlank(s[j..])
  {
    j := |s|;
    if s != "" && s[|s| - 1] <= ' ' {
      j := TrimRightIs(s[..|s| - 1]);
      assert s[j..] == s[..|s| - 1][j..] + [s[|s| - 1]];
    }
  }

  /** Normalising drops the blanks at both ends and turns the 26 capitals of what is left into small letters. */
  lemma NormalizeExactly(email: string) returns (i: nat, j: nat)
    ensures i <= j <= |email| && AllBlank(email[..i]) && AllBlank(email[j..])
    ensures i < j ==> email[i] > ' ' && email[j - 1] > ' '
    ensures |Normalize(email)| == j - i
    ensures forall k :: 0 <= k < j - i ==>
      var c := email[i + k]; Normalize(email)[k] == if 65 <= c as int <= 90 then (c as int + 32) as char else c
  {
    i := TrimLeftIs(email);
    var t := email[i..];
    var n := TrimRightIs(t);
    j := i + n;
    TrimLeftDone(email);
    TrimRightDone(t);
    assert email[j..] == t[n..];
    assert TrimRight(TrimLeft(email)) == email[i..j];
  }

  // ---- the base ----

  predicate SlugChar(c: char) {
    'a' <= c <= 'z' || '0' <= c <= '9'
  }

  function BeforeAt(email: string): string {
    if email == "" || email[0] == '@' then "" else [email[0]] + BeforeAt(email[1..])
  }

  /** Every other character becomes a hyphen, and runs of hyphens become one. */
  function Hyphenated(s: string): string {
    if s == "" then ""
    else
      var rest := Hyphenated(s[1..]);
      if SlugChar(s[0]) then [s[0]] + rest
      else if rest != "" && rest[0] == '-' then rest
      else ['-'] + rest
  }

  predicate OnlyAts(email: string) {
    email != "" && forall i :: 0 <= i < |email| ==> email[i] == '@'
  }

  /** Splitting an email of only at-signs yields no parts, and taking the first fails. */
  function Base(email: string): Option<string> {
    if OnlyAts(email) then None else Some(Hyphenated(Lower(BeforeAt(email))))
  }

  predicate SlugShaped(s: string) {
    && (forall i :: 0 <= i < |s| ==> SlugChar(s[i]) || s[i] == '-')
    && (forall i :: 0 < i < |s| ==> s[i - 1] != '-' || s[i] != '-')
  }

  lemma {:induction false} HyphenatedShape(s: string)
    ensures SlugShaped(Hyphenated(s))
  {
    if s != "" {
      HyphenatedShape(s[1..]);
    }
  }

  /** A base has only lower-case letters, digits and single hyphens. */
  lemma BaseShape(email: string)
    ensures Base(email).Some? ==> SlugShaped(Base(email).value)
  {
    HyphenatedShape(Lower(BeforeAt(email)));
  }

  /** Every character but a-z and 0-9 replaced by a hyphen. */
  function Replaced(s: string): string {
    seq(|s|, i requires 0 <= i < |s| => if 'a' <= s[i] <= 'z' || '0' <= s[i] <= '9' then s[i] else '-')
  }

  /** Every run of hyphens replaced by one. */
  function Squeezed(s: string): string {
    if s == "" then ""
    else if s[0] == '-' && |s| > 1 && s[1] == '-' then Squeezed(s[1..])
    else [s[0]] + Squeezed(s[1..])
  }

  lemma {:induction false} SqueezedStarts(s: string)
    ensures (Squeezed(s) == "" <==> s == "") && (s != "" ==> Squeezed(s)[0] == s[0])
  {
    if s != "" && s[0] == '-' && |s| > 1 && s[1] == '-' {
      SqueezedStarts(s[1..]);
    }
  }

  /** One pass from the right does what replacing and then squeezing does. */
  lemma {:induction false} HyphenatedExactly(s: string)
    ensures Hyphenated(s) == Squeezed(Replaced(s))
  {
    if s != "" {
      HyphenatedExactly(s[1..]);
      assert Replaced(s)[1..] == Replaced(s[1..]);
      SqueezedStarts(Replaced(s[1..]));
    }
  }

  lemma {:induction false} BeforeAtIs(email: string) returns (k: nat)
    ensures k <= |email| && BeforeAt(email) == email[..k] && '@' !in email[..k] && (k < |email| ==> email[k] == '@')
  {
    k := 0;
    if email != "" && email[0] != '@' {
      var n := BeforeAtIs(email[1..]);
      k := n + 1;
      assert email[..k] == [email[0]] + email[1..][..n];
    }
  }

  /** The base is what stands before the first at-sign, in small letters, replaced and squeezed. */
  lemma BaseExactly(email: string) returns (k: nat)
    ensures k <= |email| && '@' !in email[..k] && (k < |email| ==> email[k] == '@')
    ensures Base(email).None? <==> email != "" && forall i :: 0 <= i < |email| ==> email[i] == '@'
    ensures Base(email).Some? ==> Base(email).value == Squeezed(Replaced(Lower(email[..k])))
  {
    k := BeforeAtIs(email);
    HyphenatedExactly(Lower(BeforeAt(email)));
  }

  // ---- the search ----

  function Candidate(base: string, n: nat): string {
    if n == 0 then base else base + "-" + Decimal(n)
  }

  lemma CandidatesDiffer(base: string, m: nat, n: nat)
    requires m != n
    ensures Candidate(base, m) != Candidate(base, n)
  {
    if m > 0 && n > 0 {
      DecimalInjective(m, n);
      var k := |base| + 1;
      assert Candidate(base, m)[k..] == Decimal(m) && Candidate(base, n)[k..] == Decimal(n);
    } else {
      assert |Candidate(base, m)| == |base| <==> m == 0;
    }
  }

  function Tried(base: string, n: nat): (s: set<string>) {
    if n == 0 then {} else Tried(base, n - 1) + {Candidate(base, n - 1)}
  }

  lemma {:induction false} TriedAre(base: string, n: nat, s: string)
    ensures s in Tried(base, n) <==> exists m: nat :: m < n && s == Candidate(base, m)
  {
    if n > 0 {
      TriedAre(base, n - 1, s);
      if s in Tried(base, n - 1) {
        var m: nat :| m < n - 1 && s == Candidate(base, m);
        assert m < n;
      }
      if m: nat :| m < n && s == Candidate(base, m) {
        assert m < n - 1 ==> s in Tried(base, n - 1);
      }
    }
  }

  lemma NextIsNew(base: string, n: nat)
    ensures Candidate(base, n) !in Tried(base, n)
  {
    TriedAre(base, n, Candidate(base, n));
    if Candidate(base, n) in Tried(base, n) {
      var m: nat :| m < n && Candidate(base, n) == Candidate(base, m);
      CandidatesDiffer(base, m, n);
    }
  }

  /** The number of the first candidate that is not taken. */
  function Search(base: string, taken: set<string>, from: nat): (n: nat)
    ensures n >= from && Candidate(base, n) !in taken
    ensures forall m: nat :: from <= m < n ==> Candidate(base, m) in taken
    decreases |taken - Tried(base, from)|
  {
    if Candidate(base, from) !in taken then from
    else
      NextIsNew(base, from);
      assert taken - Tried(base, from + 1) == taken - Tried(base, from) - {Candidate(base, from)};
      Search(base, taken, from + 1)
  }

  /** The first candidate that is not taken; the loop ends because every round uses up a taken slug. */
  method FreeSlug(base: string, taken: set<string>) returns (slug: string, n: nat)
    ensures slug == Candidate(base, n) && slug !in taken && n == Search(base, taken, 0)
    ensures slug == if n == 0 then base else base + "-" + Decimal(n)
    ensures forall m: nat :: m < n ==> Candidate(base, m) in taken
  {
    slug, n := base, 0;
    var counter := 1;
    while slug in taken
      invariant counter == n + 1 && slug == Candidate(base, n)
      invariant forall m: nat :: m < n ==> Candidate(base, m) in taken
      decreases |taken - Tried(base, n)|
    {
      NextIsNew(base, n);
      ghost var before, after := taken - Tried(base, n), taken - Tried(base, n + 1);
      assert after == before - {slug} && slug in before;
      slug := base + "-" + Decimal(counter);
      n, counter := counter, counter + 1;
    }
  }

  lemma {:induction false} TriedCount(base: string, n: nat)
    ensures |Tried(base, n)| == n
  {
    if n > 0 {
      TriedCount(base, n - 1);
      NextIsNew(base, n - 1);
    }
  }

  /** It takes at most one round more than there are slugs. */
  lemma SearchIsShort(base: string, taken: set<string>)
    ensures Search(base, taken, 0) <= |taken|
  {
    var n := Search(base, taken, 0);
    TriedCount(base, n);
    forall s | s in Tried(base, n) ensures s in taken {
      TriedAre(base, n, s);
    }
    SubsetCard(Tried(base, n), taken);
  }
}
