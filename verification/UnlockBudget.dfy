/** How much unlocked time fits into a window when unlocks are spaced by the cooldown. */
module UnlockBudget {
  import opened DoorLock

  /** Accepted at least c apart, each high only within d of its acceptance. */
  ghost predicate Spaced(ivs: seq<Interval>, c: int, d: int) {
    && (forall i :: 0 <= i < |ivs| ==> ivs[i].accepted <= ivs[i].high && ivs[i].low <= ivs[i].accepted + d)
    && (forall i, j :: 0 <= i < j < |ivs| ==> ivs[i].accepted + c <= ivs[j].accepted)
  }

  function Min(x: int, y: int): int {
    if x < y then x else y
  }

  function Max(x: int, y: int): int {
    if x < y then y else x
  }

  /** The part of an interval inside the window from a to b. */
  function Overlap(iv: Interval, a: int, b: int): int {
    Max(0, Min(iv.low, b) - Max(iv.high, a))
  }

  function UnlockedTime(ivs: seq<Interval>, a: int, b: int): int {
    if ivs == [] then 0 else Overlap(ivs[0], a, b) + UnlockedTime(ivs[1..], a, b)
  }

  /** The most unlocked time a window of length w can hold: d for every full cooldown period, and what
      fits of d into the rest. */
  function Budget(w: nat, c: int, d: int): int
    requires 0 <= d < c
  {
    if w < c then Min(w, d) else d + Budget(w - c, c, d)
  }

  lemma {:induction false} BudgetGrows(w: nat, more: nat, c: int, d: int)
    requires 0 <= d < c
    ensures 0 <= Budget(w, c, d) <= Budget(w + more, c, d) <= Budget(w, c, d) + more
    decreases w + more
  {
    if w >= c {
      BudgetGrows(w - c, more, c, d);
    } else if w + more >= c {
      BudgetGrows(0, w + more - c, c, d);
      BudgetGrows(0, w, c, d);
    }
  }

  /** The budget never exceeds one unlock per started cooldown period. */
  lemma {:induction false} BudgetBound(w: nat, c: int, d: int)
    requires 0 <= d < c
    ensures Budget(w, c, d) <= (w / c + 1) * d
  {
    if w >= c {
      BudgetBound(w - c, c, d);
      PeriodsLessOne(w, c);
      assert ((w - c) / c + 2) * d == ((w - c) / c + 1) * d + d;
    } else {
      assert w / c == 0;
    }
  }

  lemma PeriodsLessOne(w: int, c: int)
    requires 0 < c <= w
    ensures w / c == (w - c) / c + 1
  {
    var q, r := (w - c) / c, (w - c) % c;
    assert (q + 1) * c == q * c + c;
    SameQuotient(w / c, w % c, q + 1, r, c);
  }

  lemma {:induction false} AtLeastOnce(k: int, c: int)
    requires k >= 1 && c > 0
    ensures k * c >= c
  {
    if k > 1 {
      AtLeastOnce(k - 1, c);
      assert k * c == (k - 1) * c + c;
    }
  }

  lemma Difference(q: int, q': int, c: int)
    ensures (q' - q) * c == q' * c - q * c
  {
  }

  lemma SameQuotient(q: int, r: int, q': int, r': int, c: int)
    requires q * c + r == q' * c + r' && 0 <= r < c && 0 <= r' < c
    ensures q == q'
  {
    Difference(q, q', c);
    Difference(q', q, c);
    if q < q' {
      AtLeastOnce(q' - q, c);
    } else if q' < q {
      AtLeastOnce(q - q', c);
    }
  }

  /** Moving the start of the window up to the first acceptance after a changes nothing. */
  lemma {:induction false} LateStart(ivs: seq<Interval>, a: int, n: int, b: int)
    requires a <= n
    requires forall i :: 0 <= i < |ivs| ==> n <= ivs[i].high
    ensures UnlockedTime(ivs, a, b) == UnlockedTime(ivs, n, b)
    ensures b < n ==> UnlockedTime(ivs, a, b) == 0
  {
    if ivs != [] {
      LateStart(ivs[1..], a, n, b);
    }
  }

  /** Whatever the window, the unlocked time in it stays within the budget for its length. */
  lemma {:induction false} WithinBudget(ivs: seq<Interval>, a: int, b: int, c: int, d: int)
    requires Spaced(ivs, c, d) && 0 <= d < c && a <= b
    ensures UnlockedTime(ivs, a, b) <= Budget(b - a, c, d)
    decreases |ivs|
  {
    BudgetGrows(0, b - a, c, d);
    if ivs != [] {
      var first, rest := ivs[0], ivs[1..];
      var n := first.accepted + c;
      assert forall i :: 0 <= i < |rest| ==> rest[i] == ivs[i + 1];
      if n <= a {
        WithinBudget(rest, a, b, c, d);
      } else {
        LateStart(rest, a, n, b);
        if b < n {
          FirstAlone(first, a, b, c, d);
        } else {
          WithinBudget(rest, n, b, c, d);
          FirstAndRest(first, a, b, c, d);
        }
      }
    }
  }

  lemma FirstAlone(first: Interval, a: int, b: int, c: int, d: int)
    requires 0 <= d < c && a <= b < first.accepted + c
    requires first.accepted <= first.high && first.low <= first.accepted + d
    ensures Overlap(first, a, b) <= Budget(b - a, c, d)
  {
    BudgetGrows(0, b - a, c, d);
    if b - a >= c {
      BudgetGrows(0, b - a - c, c, d);
    }
  }

  lemma FirstAndRest(first: Interval, a: int, b: int, c: int, d: int)
    requires 0 <= d < c && a < first.accepted + c <= b
    requires first.accepted <= first.high && first.low <= first.accepted + d
    ensures Overlap(first, a, b) + Budget(b - (first.accepted + c), c, d) <= Budget(b - a, c, d)
  {
    var n := first.accepted + c;
    if a <= first.accepted {
      BudgetGrows(b - n, first.accepted - a, c, d);
    } else {
      var late := a - first.accepted;
      assert Budget(b - n + c, c, d) == d + Budget(b - n, c, d);
      BudgetGrows(b - a, late, c, d);
      if late >= d {
        BudgetGrows(b - n, b - a - (b - n), c, d);
      }
    }
  }
}
