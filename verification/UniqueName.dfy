/** Fresh directory-entry names (`FileDao::make_unique_name`). */
module UniqueName {
  import opened Common
  import Decimal

  /** Position of the last '.', or `|name|` when there is none. */
  function LastDot(name: string): (k: nat)
    ensures k <= |name|
    ensures k < |name| ==> name[k] == '.'
    ensures forall i | k < i < |name| :: name[i] != '.'
    ensures k == |name| ==> '.' !in name
  {
    if name == [] then 0
    else if name[|name| - 1] == '.' then |name| - 1
    else
      var k := LastDot(name[..|name| - 1]);
      if k == |name| - 1 then |name| else k
  }

  /** Where the extension starts: a leading dot does not count as one. */
  function Split(name: string): (k: nat)
    ensures k <= |name|
  {
    var dot := LastDot(name);
    if 0 < dot < |name| then dot else |name|
  }

  function Candidate(name: string, n: nat): string {
    name[..Split(name)] + "(" + Decimal.Print(n) + ")" + name[Split(name)..]
  }

  function FirstFree(taken: set<string>, name: string, n: nat, now: nat): string
    requires n <= 10000
    decreases 10000 - n
  {
    if n == 10000 then Candidate(name, now)
    else if Candidate(name, n) !in taken then Candidate(name, n)
    else FirstFree(taken, name, n + 1, now)
  }

  /** The chosen name, given the live names of the folder and the current time. */
  function Fresh(taken: set<string>, name: string, now: nat): string {
    if name !in taken then name else FirstFree(taken, name, 1, now)
  }

  lemma CandidateInjective(name: string, m: nat, n: nat)
    requires Candidate(name, m) == Candidate(name, n)
    ensures m == n
  {
    var k := Split(name);
    var a, b := Candidate(name, m), Candidate(name, n);
    assert |Decimal.Print(m)| == |Decimal.Print(n)|;
    assert a[k + 1..k + 1 + |Decimal.Print(m)|] == Decimal.Print(m);
    assert b[k + 1..k + 1 + |Decimal.Print(n)|] == Decimal.Print(n);
    Decimal.PrintInjective(m, n);
  }

  lemma CandidateDiffers(name: string, n: nat)
    ensures Candidate(name, n) != name
  {
    assert |Candidate(name, n)| > |name|;
  }

  /** The name itself and its first `k` numbered variants. */
  function Tried(name: string, k: nat): set<string> {
    if k == 0 then {name} else Tried(name, k - 1) + {Candidate(name, k)}
  }

  lemma {:induction false} TriedMembers(name: string, k: nat, s: string)
    requires s in Tried(name, k)
    ensures s == name || exists n | 1 <= n <= k :: s == Candidate(name, n)
  {
    if k > 0 && s in Tried(name, k - 1) {
      TriedMembers(name, k - 1, s);
    }
  }

  /** The tried names are pairwise distinct. */
  lemma {:induction false} TriedSize(name: string, k: nat)
    ensures |Tried(name, k)| == k + 1
  {
    if k > 0 {
      TriedSize(name, k - 1);
      if Candidate(name, k) in Tried(name, k - 1) {
        TriedMembers(name, k - 1, Candidate(name, k));
        CandidateDiffers(name, k);
        var n :| 1 <= n <= k - 1 && Candidate(name, k) == Candidate(name, n);
        CandidateInjective(name, k, n);
      }
    }
  }

  lemma SubsetSize<T>(a: set<T>, b: set<T>)
    requires a <= b
    ensures |a| <= |b|
  {
    assert b == a + (b - a);
  }

  /** The search stops at the first free number, or falls back to the clock. */
  lemma {:induction false} FirstFreeResult(taken: set<string>, name: string, n: nat, now: nat)
    requires 1 <= n <= 10000 && Tried(name, n - 1) <= taken
    ensures var r := FirstFree(taken, name, n, now);
            if Tried(name, 9999) <= taken then r == Candidate(name, now)
            else r !in taken && exists k | n <= k < 10000 :: r == Candidate(name, k)
    decreases 10000 - n
  {
    if n < 10000 {
      if Candidate(name, n) in taken {
        FirstFreeResult(taken, name, n + 1, now);
      } else {
        TriedGrows(name, n, 9999);
        assert Candidate(name, n) in Tried(name, n);
      }
    }
  }

  lemma {:induction false} TriedGrows(name: string, j: nat, k: nat)
    requires j <= k
    ensures Tried(name, j) <= Tried(name, k)
  {
    if j < k { TriedGrows(name, j, k - 1); }
  }

  /** A folder with fewer than 10000 live names always yields an unused name, and
      the clock is never consulted: the result does not depend on `now`. */
  lemma FreshBelowLimit(taken: set<string>, name: string, now: nat)
    requires |taken| < 10000
    ensures Fresh(taken, name, now) !in taken
    ensures forall later: nat :: Fresh(taken, name, later) == Fresh(taken, name, now)
  {
    TriedSize(name, 9999);
    if Tried(name, 9999) <= taken { SubsetSize(Tried(name, 9999), taken); }
    forall later: nat ensures Fresh(taken, name, later) == Fresh(taken, name, now) {
      if name in taken { ClockFree(taken, name, 1, now, later); }
    }
    if name in taken { FirstFreeResult(taken, name, 1, now); }
  }

  lemma {:induction false} ClockFree(taken: set<string>, name: string, n: nat, now: nat, later: nat)
    requires 1 <= n <= 10000 && Tried(name, n - 1) <= taken && !(Tried(name, 9999) <= taken)
    ensures FirstFree(taken, name, n, now) == FirstFree(taken, name, n, later)
    decreases 10000 - n
  {
    if n < 10000 && Candidate(name, n) in taken { ClockFree(taken, name, n + 1, now, later); }
  }

  /** Exactly when the chosen name clashes after all: every numbered variant is
      taken and so is the one made from the clock. */
  lemma FreshClashes(taken: set<string>, name: string, now: nat)
    ensures Fresh(taken, name, now) in taken
            <==> Tried(name, 9999) <= taken && Candidate(name, now) in taken
  {
    TriedGrows(name, 0, 9999);
    if name in taken { FirstFreeResult(taken, name, 1, now); }
  }
}
