/** Record naming in an inferred schema: PascalCase bases made unique by numeric suffixes. */
module AvroNames {

  function Digit(d: int): char
    requires 0 <= d < 10
  {
    ['0', '1', '2', '3', '4', '5', '6', '7', '8', '9'][d]
  }

  function DigitValue(c: char): int {
    if '0' <= c <= '9' then c as int - '0' as int else 0
  }

  /** Decimal notation of a number. */
  function Decimal(n: nat): (s: string)
    ensures s != ""
  {
    if n < 10 then [Digit(n)] else Decimal(n / 10) + [Digit(n % 10)]
  }

  function Numeral(s: string): nat {
    if s == "" then 0 else Numeral(s[..|s| - 1]) * 10 + DigitValue(s[|s| - 1])
  }

  lemma {:induction false} DecimalRoundTrip(n: nat)
    ensures Numeral(Decimal(n)) == n
  {
    if n < 10 {
      assert [Digit(n)][..0] == "";
    } else {
      DecimalRoundTrip(n / 10);
      assert (Decimal(n / 10) + [Digit(n % 10)])[..|Decimal(n / 10)|] == Decimal(n / 10);
    }
  }

  /** A numeral has digits only, and the first is zero only in zero itself. */
  lemma {:induction false} DecimalDigits(n: nat)
    ensures forall i | 0 <= i < |Decimal(n)| :: '0' <= Decimal(n)[i] <= '9'
    ensures n > 0 ==> Decimal(n)[0] != '0'
  {
    if n >= 10 { DecimalDigits(n / 10); }
  }

  /** The k-th name tried: the base itself, then base1, base2, ... */
  function Candidate(base: string, k: nat): string {
    if k == 0 then base else base + Decimal(k)
  }

  lemma CandidateInjective(base: string, i: nat, j: nat)
    requires Candidate(base, i) == Candidate(base, j)
    ensures i == j
  {
    if i > 0 && j > 0 {
      assert Candidate(base, i)[|base|..] == Decimal(i);
      assert Candidate(base, j)[|base|..] == Decimal(j);
      DecimalRoundTrip(i);
      DecimalRoundTrip(j);
    } else {
      assert i > 0 ==> |Candidate(base, i)| > |base|;
      assert j > 0 ==> |Candidate(base, j)| > |base|;
    }
  }

  /** Main: the first name tried is the base; the k-th after it is the base followed by the decimal
      digits of k, with no leading zero. */
  lemma CandidateSpelled(base: string, k: nat)
    ensures k == 0 ==> Candidate(base, k) == base
    ensures k > 0 ==>
              var name := Candidate(base, k);
              && |name| > |base| && name[..|base|] == base && Numeral(name[|base|..]) == k && name[|base|] != '0'
              && forall i | |base| <= i < |name| :: '0' <= name[i] <= '9'
  {
    if k > 0 {
      var name := Candidate(base, k);
      DecimalDigits(k);
      DecimalRoundTrip(k);
      assert name[|base|..] == Decimal(k);
      forall i | |base| <= i < |name| ensures '0' <= name[i] <= '9' { assert name[i] == Decimal(k)[i - |base|]; }
    }
  }

  ghost predicate Tried(base: string, used: set<string>, k: nat) {
    forall i: nat | i < k :: Candidate(base, i) in used
  }

  /** The candidates tried so far are distinct names in use, so there are no more of them
      than names in use: the search cannot go on for ever. */
  lemma {:induction false} TriedBound(base: string, used: set<string>, k: nat)
    requires Tried(base, used, k)
    ensures k <= |used|
  {
    if k > 0 {
      var last := Candidate(base, k - 1);
      forall i: nat | i < k - 1 ensures Candidate(base, i) in used - {last} {
        if Candidate(base, i) == last { CandidateInjective(base, i, k - 1); }
      }
      TriedBound(base, used - {last}, k - 1);
    }
  }

  /** The first free name from the k-th candidate on. */
  function FirstFree(base: string, used: set<string>, k: nat): (name: string)
    requires Tried(base, used, k)
    ensures name !in used
    ensures exists n: nat :: n >= k && name == Candidate(base, n) && Tried(base, used, n)
    decreases |used| - k
  {
    TriedBound(base, used, k);
    if Candidate(base, k) !in used then Candidate(base, k)
    else
      assert Tried(base, used, k + 1);
      TriedBound(base, used, k + 1);
      FirstFree(base, used, k + 1)
  }

  function Unique(base: string, used: set<string>): (name: string)
    ensures name !in used
  {
    FirstFree(base, used, 0)
  }

  /** Main: the chosen name is the free candidate with the smallest suffix, and only that. */
  lemma UniqueIsFirst(base: string, used: set<string>, n: nat)
    ensures Unique(base, used) == Candidate(base, n) <==> Candidate(base, n) !in used && Tried(base, used, n)
  {
    var m: nat :| Unique(base, used) == Candidate(base, m) && Tried(base, used, m);
    if Unique(base, used) == Candidate(base, n) { CandidateInjective(base, m, n); }
  }

  predicate EndsInDigit(s: string) { s != "" && '0' <= s[|s| - 1] <= '9' }

  /** Taking a name makes a name that ends in no digit used exactly when it is the base: every
      suffixed candidate ends in a digit. */
  lemma TakenIff(base: string, used: set<string>, x: string)
    requires !EndsInDigit(x)
    ensures x in used + {Unique(base, used)} <==> x in used || x == base
  {
    UniqueIsFirst(base, used, 0);
    var n: nat :| Unique(base, used) == Candidate(base, n) && Tried(base, used, n);
    if n > 0 {
      assert EndsInDigit(Candidate(base, n));
    }
  }

  // ---- PascalCase ----

  function Upper(c: char): char { if 'a' <= c <= 'z' then (c as int - 32) as char else c }

  function Lower(c: char): char { if 'A' <= c <= 'Z' then (c as int + 32) as char else c }

  function LowerAll(s: string): string {
    if s == "" then "" else [Lower(s[0])] + LowerAll(s[1..])
  }

  function Capitalize(s: string): string {
    if s == "" then "" else [Upper(s[0])] + LowerAll(s[1..])
  }

  /** `split("_")`. */
  function Split(s: string): (parts: seq<string>)
    ensures |parts| >= 1
    ensures forall p | p in parts :: '_' !in p
  {
    if s == "" then [""]
    else
      var rest := Split(s[1..]);
      if s[0] == '_' then [""] + rest else [[s[0]] + rest[0]] + rest[1..]
  }

  function JoinCapitalized(parts: seq<string>): string {
    if parts == [] then "" else Capitalize(parts[0]) + JoinCapitalized(parts[1..])
  }

  function Pascal(name: string): string {
    var joined := JoinCapitalized(Split(name));
    if joined == "" then "Nested" else joined
  }

  lemma {:induction false} SplitWhole(part: string)
    requires '_' !in part
    ensures Split(part) == [part]
  {
    if part != "" {
      SplitWhole(part[1..]);
      assert [part[0]] + part[1..] == part;
    }
  }

  lemma SplitCons(c: char, s: string)
    ensures Split([c] + s) == var rest := Split(s); if c == '_' then [""] + rest else [[c] + rest[0]] + rest[1..]
  {
    assert ([c] + s)[1..] == s;
  }

  lemma LastStaysLast<T>(xs: seq<T>, first: T, last: T)
    requires |xs| >= 1
    ensures [first] + (xs + [last]) == ([first] + xs) + [last]
    ensures [first] + (xs + [last])[1..] == ([first] + xs[1..]) + [last]
  {
  }

  lemma SplitAppendStep(c: char, s: string, part: string)
    requires Split(s + "_" + part) == Split(s) + [part]
    ensures Split([c] + (s + "_" + part)) == Split([c] + s) + [part]
  {
    SplitCons(c, s);
    SplitCons(c, s + "_" + part);
    LastStaysLast(Split(s), if c == '_' then "" else [c] + Split(s)[0], part);
  }

  lemma {:induction false} SplitAppend(s: string, part: string)
    requires '_' !in part
    ensures Split(part) == [part]
    ensures Split(s + "_" + part) == Split(s) + [part]
  {
    SplitWhole(part);
    if s == "" {
      assert s + "_" + part == ['_'] + part;
      SplitCons('_', part);
    } else {
      SplitAppend(s[1..], part);
      SplitAppendStep(s[0], s[1..], part);
      assert [s[0]] + s[1..] == s;
      assert s + "_" + part == [s[0]] + (s[1..] + "_" + part);
    }
  }

  lemma ConcatAssoc(a: string, b: string, c: string)
    ensures a + (b + c) == (a + b) + c
  {
  }

  lemma JoinAppendStep(first: string, rest: seq<string>, part: string)
    requires JoinCapitalized(rest + [part]) == JoinCapitalized(rest) + Capitalize(part)
    ensures JoinCapitalized([first] + (rest + [part])) == JoinCapitalized([first] + rest) + Capitalize(part)
  {
    ConcatAssoc(Capitalize(first), JoinCapitalized(rest), Capitalize(part));
  }

  lemma {:induction false} JoinAppend(parts: seq<string>, part: string)
    ensures JoinCapitalized(parts + [part]) == JoinCapitalized(parts) + Capitalize(part)
  {
    if parts == [] {
      assert parts + [part] == [part] + [];
    } else {
      var first, rest := parts[0], parts[1..];
      JoinAppend(rest, part);
      JoinAppendStep(first, rest, part);
      assert parts == [first] + rest;
      assert parts + [part] == [first] + (rest + [part]);
    }
  }

  lemma {:induction false} LowerAllKeeps(s: string)
    requires forall i | 0 <= i < |s| :: Lower(s[i]) == s[i]
    ensures LowerAll(s) == s
  {
    if s != "" {
      LowerAllKeeps(s[1..]);
      assert [s[0]] + s[1..] == s;
    }
  }

  /** A name with a further part appends that part, capitalised, provided it has one itself. */
  lemma PascalAppend(name: string, part: string)
    requires '_' !in part && JoinCapitalized(Split(name)) != ""
    ensures Pascal(name + "_" + part) == Pascal(name) + Capitalize(part)
  {
    SplitAppend(name, part);
    JoinAppend(Split(name), part);
  }

  lemma CapitalizeLower(s: string)
    requires s != "" && forall i | 1 <= i < |s| :: Lower(s[i]) == s[i]
    ensures Capitalize(s) == [Upper(s[0])] + s[1..]
  {
    LowerAllKeeps(s[1..]);
  }

  lemma {:induction false} LowerAllAt(s: string, i: nat)
    requires i < |s|
    ensures |LowerAll(s)| == |s| && LowerAll(s)[i] == Lower(s[i])
  {
    if |s| > 1 { LowerAllAt(s[1..], if i > 0 then i - 1 else 0); }
  }

  /** Main: a name of one part keeps its length; its first letter is made a capital and its others
      small, each the same letter of the alphabet, and what is no letter of ASCII stays. */
  lemma PascalOfOnePart(part: string, i: nat)
    requires '_' !in part && i < |part|
    ensures |Pascal(part)| == |part|
    ensures var a, b := part[i] as int, Pascal(part)[i] as int;
            b == if i == 0 && 97 <= a <= 122 then 65 + (a - 97)
                 else if i > 0 && 65 <= a <= 90 then 97 + (a - 65)
                 else a
  {
    SplitWhole(part);
    assert JoinCapitalized([part]) == Capitalize(part) + JoinCapitalized([]) == Capitalize(part);
    if |part| > 1 { LowerAllAt(part[1..], if i > 0 then i - 1 else 0); }
  }

  lemma RecordCapitalizes()
    ensures Capitalize("record") == "Record"
  {
    CapitalizeLower("record");
  }

  lemma PascalRecord(name: string)
    requires JoinCapitalized(Split(name)) != ""
    ensures Pascal(name + "_" + "record") == Pascal(name) + "Record"
  {
    RecordCapitalizes();
    PascalAppend(name, "record");
  }

  lemma {:induction false} LowerAllHasNoUnderscore(s: string)
    requires '_' !in s
    ensures '_' !in LowerAll(s)
  {
    if s != "" { LowerAllHasNoUnderscore(s[1..]); }
  }

  lemma {:induction false} JoinHasNoUnderscore(parts: seq<string>)
    requires forall p | p in parts :: '_' !in p
    ensures '_' !in JoinCapitalized(parts)
  {
    if parts != [] {
      assert parts[0] in parts;
      if parts[0] != "" { LowerAllHasNoUnderscore(parts[0][1..]); }
      JoinHasNoUnderscore(parts[1..]);
    }
  }

  /** A record base name is never empty and never contains an underscore. */
  lemma PascalIsClean(name: string)
    ensures Pascal(name) != "" && '_' !in Pascal(name)
  {
    JoinHasNoUnderscore(Split(name));
  }
}
