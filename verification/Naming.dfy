/** The collision search (core/resume.py, resolve_destination_collision). */
module Naming {
  import opened Common
  import Decimal

  function LeadingDots(name: string): (k: nat)
    ensures k <= |name|
  {
    if name != "" && name[0] == '.' then 1 + LeadingDots(name[1..]) else 0
  }

  function FindDot(name: string, from: nat): (k: nat)
    requires from <= |name|
    ensures from <= k <= |name|
    decreases |name| - from
  {
    if from == |name| || name[from] == '.' then from else FindDot(name, from + 1)
  }

  /** "".join(Path(name).suffixes): everything from the first dot after the leading dots. */
  function Suffix(name: string): string { name[FindDot(name, LeadingDots(name))..] }

  function Stem(name: string): string { name[..|name| - |Suffix(name)|] }

  function Candidate(name: string, index: nat): string {
    if index == 0 then name else Stem(name) + " (" + Decimal.Print(index) + ")" + Suffix(name)
  }

  lemma StemAndSuffixRebuildTheName(name: string)
    ensures Stem(name) + Suffix(name) == name
    ensures forall i :: 0 <= i < |Stem(name)| && Stem(name)[i] == '.' ==> forall j :: 0 <= j <= i ==> name[j] == '.'
  {
    NoDotBetween(name, LeadingDots(name));
    OnlyDotsBefore(name);
  }

  lemma {:induction false} NoDotBetween(name: string, from: nat)
    requires from <= |name|
    ensures forall i :: from <= i < FindDot(name, from) ==> name[i] != '.'
    decreases |name| - from
  {
    if from < |name| && name[from] != '.' { NoDotBetween(name, from + 1); }
  }

  lemma {:induction false} OnlyDotsBefore(name: string)
    ensures forall i :: 0 <= i < LeadingDots(name) ==> name[i] == '.'
  {
    if name != "" && name[0] == '.' {
      OnlyDotsBefore(name[1..]);
      forall i | 0 <= i < LeadingDots(name) ensures name[i] == '.' {
        if i > 0 { assert name[i] == name[1..][i - 1]; }
      }
    }
  }

  lemma CandidatesDiffer(name: string, i: nat, j: nat)
    requires Candidate(name, i) == Candidate(name, j)
    ensures i == j
  {
    StemAndSuffixRebuildTheName(name);
    var a, b := Decimal.Print(i), Decimal.Print(j);
    if i != 0 && j != 0 {
      var stem := |Stem(name)|;
      assert |a| == |b|;
      assert Candidate(name, i)[stem + 2..stem + 2 + |a|] == a;
      assert Candidate(name, j)[stem + 2..stem + 2 + |b|] == b;
      Decimal.PrintInjective(i, j);
    }
  }

  /** A numbered candidate keeps stem and suffix around a number in brackets. */
  lemma CandidateIsNumbered(name: string, index: nat)
    requires index > 0
    ensures var candidate, n := Candidate(name, index), |Stem(name)|;
            var number := Decimal.Print(index);
            && |candidate| == |name| + |number| + 3
            && candidate[..n] + candidate[n + |number| + 3..] == name
            && candidate[n..n + |number| + 3] == " (" + number + ")"
  {
    StemAndSuffixRebuildTheName(name);
    var candidate, n, middle := Candidate(name, index), |Stem(name)|, " (" + Decimal.Print(index) + ")";
    assert candidate == Stem(name) + middle + Suffix(name);
  }

  ghost function CandidatesBelow(name: string, n: nat): set<string> {
    set i | 0 <= i < n :: Candidate(name, i)
  }

  lemma CandidatesGrow(name: string, n: nat)
    ensures CandidatesBelow(name, n + 1) == CandidatesBelow(name, n) + {Candidate(name, n)}
    ensures Candidate(name, n) !in CandidatesBelow(name, n)
  {
    forall i | 0 <= i < n ensures Candidate(name, i) != Candidate(name, n) {
      if Candidate(name, i) == Candidate(name, n) { CandidatesDiffer(name, i, n); }
    }
  }

  lemma {:induction false} CandidateCount(name: string, n: nat)
    ensures |CandidatesBelow(name, n)| == n
  {
    if n == 0 {
      assert CandidatesBelow(name, n) == {};
    } else {
      var m: nat := n - 1;
      CandidateCount(name, m);
      CandidatesGrow(name, m);
    }
  }

  ghost predicate TakenBelow(names: set<string>, name: string, n: nat) {
    forall i :: 0 <= i < n ==> Candidate(name, i) in names
  }

  /** Pigeonhole: a directory of k entries cannot take more than k candidates. */
  lemma TakenIsBounded(names: set<string>, name: string, n: nat)
    requires TakenBelow(names, name, n)
    ensures n <= |names|
  {
    CandidateCount(name, n);
    SubsetSize(CandidatesBelow(name, n), names);
  }

  ghost predicate IsSmallestFree(names: set<string>, name: string, index: nat) {
    Candidate(name, index) !in names && TakenBelow(names, name, index)
  }

  ghost function SmallestFreeFrom(names: set<string>, name: string, from: nat): (index: nat)
    requires TakenBelow(names, name, from)
    ensures IsSmallestFree(names, name, index)
    decreases |names| + 1 - from
  {
    TakenIsBounded(names, name, from);
    if Candidate(name, from) !in names then from else SmallestFreeFrom(names, name, from + 1)
  }

  /** The name a file is committed under when the directory holds `names`. */
  ghost function FreeName(names: set<string>, name: string): (free: string)
    ensures free !in names
  {
    Candidate(name, SmallestFreeFrom(names, name, 0))
  }

  /** A file keeps its own name when nobody has taken it. */
  lemma FreeNameIsKept(names: set<string>, name: string)
    ensures FreeName(names, name) == name <==> name !in names
  {
  }

  lemma SmallestFreeIsUnique(names: set<string>, name: string, i: nat, j: nat)
    requires IsSmallestFree(names, name, i) && IsSmallestFree(names, name, j)
    ensures i == j
  {
    assert i >= j || Candidate(name, i) in names;
    assert j >= i || Candidate(name, j) in names;
  }

  /** The search stops on every finite directory, at the smallest free index. */
  method ResolveCollision(names: set<string>, name: string) returns (candidate: string, index: nat)
    ensures candidate == Candidate(name, index) == FreeName(names, name)
    ensures IsSmallestFree(names, name, index) && index <= |names|
  {
    candidate, index := name, 0;
    while candidate in names
      invariant candidate == Candidate(name, index)
      invariant TakenBelow(names, name, index)
      decreases |names| + 1 - index
    {
      TakenIsBounded(names, name, index);
      index := index + 1;
      candidate := Stem(name) + " (" + Decimal.Print(index) + ")" + Suffix(name);
    }
    TakenIsBounded(names, name, index);
    SmallestFreeIsUnique(names, name, index, SmallestFreeFrom(names, name, 0));
  }
}
