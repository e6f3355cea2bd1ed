/** The packet-number window that suppresses duplicates, against an ideal that remembers everything. */
module DedupWindows {
  const DEFAULT_WINDOW := 4096

  /** The numbers a run accepts, remembered for ever: a number is accepted when it is the first, or when it
      was never accepted before and lies above the highest accepted one less the window. */
  ghost predicate Accepts(calls: seq<nat>, window: nat, i: nat)
    requires i < |calls|
    decreases i, 1
  {
    i == 0 || (calls[i] !in Accepted(calls, window, i) && calls[i] + window > Highest(calls, i))
  }

  ghost function Accepted(calls: seq<nat>, window: nat, i: nat): set<nat>
    requires i <= |calls|
    decreases i, 0
  {
    if i == 0 then {}
    else Accepted(calls, window, i - 1) + if Accepts(calls, window, i - 1) then {calls[i - 1]} else {}
  }

  /** The highest number called so far. */
  ghost function Highest(calls: seq<nat>, i: nat): nat
    requires i <= |calls|
  {
    if i == 0 then 0 else if calls[i - 1] > Highest(calls, i - 1) then calls[i - 1] else Highest(calls, i - 1)
  }

  lemma {:induction false} AcceptedAreLow(calls: seq<nat>, window: nat, i: nat)
    requires i <= |calls|
    ensures forall n :: n in Accepted(calls, window, i) ==> n <= Highest(calls, i)
  {
    if i > 0 {
      AcceptedAreLow(calls, window, i - 1);
    }
  }

  predicate InWindow(n: nat, highest: nat, window: nat) {
    n <= highest < n + window
  }

  lemma {:induction false} WindowSize(seen: set<nat>, highest: nat, window: nat)
    requires forall n :: n in seen ==> InWindow(n, highest, window)
    ensures |seen| <= window
  {
    if window == 0 {
      assert seen == {};
    } else if highest - window + 1 >= 0 {
      var low: nat := highest - window + 1;
      WindowSize(seen - {low}, highest, window - 1);
    } else {
      WindowSize(seen, highest, window - 1);
    }
  }

  class DedupWindow {
    const max: nat
    var highest: nat
    var initialized: bool
    var seen: set<nat>

    /** Only numbers in the window are stored, so never more than the window holds. */
    ghost predicate Valid()
      reads this
    {
      && max > 0 && (!initialized ==> seen == {}) && |seen| <= max
      && forall n :: n in seen ==> InWindow(n, highest, max)
    }

    constructor (max: int)
      ensures Valid() && !initialized && highest == 0 && this.max == if max <= 0 then DEFAULT_WINDOW else max
    {
      this.max := if max <= 0 then DEFAULT_WINDOW else max;
      highest, initialized, seen := 0, false, {};
    }

    /** The stored numbers are exactly the accepted ones in the window. */
    ghost predicate Shows(accepted: set<nat>)
      reads this
    {
      forall n :: n in seen <==> n in accepted && InWindow(n, highest, max)
    }

    /** Moves the window up and drops what fell out of it. */
    method Raise(n: nat)
      requires Valid() && n > highest
      modifies `highest, `seen
      ensures Valid() && highest == n
      ensures forall s :: s in seen <==> s in old(seen) && InWindow(s, n, max)
    {
      highest := n;
      var oldest := if highest >= max then highest - max + 1 else 0;
      var todo, kept := seen, seen;
      while todo != {}
        invariant todo <= kept <= seen
        invariant forall s :: s in seen ==> (s in kept <==> s in todo || s >= oldest)
        decreases todo
      {
        var s :| s in todo;
        todo := todo - {s};
        if s < oldest {
          kept := kept - {s};
        }
      }
      seen := kept;
      WindowSize(seen, highest, max);
    }

    /** True exactly when the number is new to the whole run and inside the window. */
    method SeenFirst(n: nat, ghost accepted: set<nat>) returns (first: bool)
      requires Valid() && Shows(accepted) && (initialized ==> forall s :: s in accepted ==> s <= highest)
      requires !initialized ==> accepted == {}
      modifies this
      ensures Valid() && initialized && Shows(accepted + if first then {n} else {})
      ensures highest == if !old(initialized) || n > old(highest) then n else old(highest)
      ensures first <==> !old(initialized) || (n !in accepted && n + max > old(highest))
    {
      if !initialized {
        initialized, highest, seen := true, n, {n};
        WindowSize(seen, highest, max);
        return true;
      }
      if n > highest {
        Raise(n);
      } else if highest - n >= max {
        return false;
      }
      if n in seen {
        return false;
      }
      seen := seen + {n};
      WindowSize(seen, highest, max);
      return true;
    }
  }

  /** The window after the first i calls of a run. */
  ghost predicate At(w: DedupWindow, calls: seq<nat>, i: nat)
    requires i <= |calls|
    reads w
  {
    && w.Valid() && (w.initialized <==> i > 0)
    && w.highest == Highest(calls, i) && w.Shows(Accepted(calls, w.max, i))
  }

  method Step(w: DedupWindow, calls: seq<nat>, i: nat) returns (first: bool)
    requires i < |calls| && At(w, calls, i)
    modifies w
    ensures At(w, calls, i + 1) && (first <==> Accepts(calls, w.max, i))
  {
    AcceptedAreLow(calls, w.max, i);
    ghost var accepted := Accepted(calls, w.max, i);
    first := w.SeenFirst(calls[i], accepted);
    assert first <==> Accepts(calls, w.max, i);
    assert Accepted(calls, w.max, i + 1) == accepted + if first then {calls[i]} else {};
  }

  /** Refinement over whole runs: every answer is the ideal's, and what is stored never outgrows the window. */
  method Run(max: int, calls: seq<nat>) returns (w: DedupWindow, answers: seq<bool>)
    ensures At(w, calls, |calls|) && |w.seen| <= w.max && |answers| == |calls|
    ensures forall i :: 0 <= i < |calls| ==> (answers[i] <==> Accepts(calls, w.max, i))
  {
    w := new DedupWindow(max);
    answers := [];
    for i := 0 to |calls|
      invariant fresh(w) && At(w, calls, i) && |answers| == i
      invariant forall j :: 0 <= j < i ==> (answers[j] <==> Accepts(calls, w.max, j))
    {
      var first := Step(w, calls, i);
      answers := answers + [first];
    }
  }
}
