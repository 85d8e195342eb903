/** Counting over sequences, as needed by the conservation laws of the thread pool. */
module Counting {
  import opened Wrappers

  /** 1 if the slot holds x, else 0. */
  function Holds(slot: Option<nat>, x: nat): nat {
    if slot == Some(x) then 1 else 0
  }

  /** How many of the slots hold x. */
  function Copies(slots: seq<Option<nat>>, x: nat): nat {
    if slots == [] then 0 else Holds(slots[0], x) + Copies(slots[1..], x)
  }

  lemma {:induction false} CopiesAppend(slots: seq<Option<nat>>, last: Option<nat>, x: nat)
    ensures Copies(slots + [last], x) == Copies(slots, x) + Holds(last, x)
  {
    if slots == [] {
      assert slots + [last] == [last];
    } else {
      assert (slots + [last])[1..] == slots[1..] + [last];
      CopiesAppend(slots[1..], last, x);
    }
  }

  lemma {:induction false} CopiesUpdate(slots: seq<Option<nat>>, i: nat, slot: Option<nat>, x: nat)
    requires i < |slots|
    ensures Copies(slots[i := slot], x) + Holds(slots[i], x) == Copies(slots, x) + Holds(slot, x)
  {
    if i == 0 {
      assert slots[i := slot][1..] == slots[1..];
    } else {
      assert slots[i := slot][1..] == slots[1..][i - 1 := slot];
      CopiesUpdate(slots[1..], i - 1, slot, x);
    }
  }

  lemma {:induction false} NoCopies(slots: seq<Option<nat>>, x: nat)
    ensures Copies(slots, x) == 0 <==> forall i | 0 <= i < |slots| :: slots[i] != Some(x)
  {
    if slots != [] {
      NoCopies(slots[1..], x);
      assert forall i | 0 < i < |slots| :: slots[i] == slots[1..][i - 1];
      assert (forall i | 0 <= i < |slots| :: slots[i] != Some(x)) ==>
               forall i | 0 <= i < |slots[1..]| :: slots[1..][i] != Some(x);
    }
  }

  function Total(xs: seq<nat>): nat {
    if xs == [] then 0 else xs[0] + Total(xs[1..])
  }

  lemma {:induction false} TotalUpdate(xs: seq<nat>, i: nat, x: nat)
    requires i < |xs|
    ensures Total(xs[i := x]) + xs[i] == Total(xs) + x
  {
    if i == 0 {
      assert xs[i := x][1..] == xs[1..];
    } else {
      assert xs[i := x][1..] == xs[1..][i - 1 := x];
      TotalUpdate(xs[1..], i - 1, x);
    }
  }

  lemma {:induction false} TotalZero(xs: seq<nat>)
    ensures Total(xs) == 0 <==> forall i | 0 <= i < |xs| :: xs[i] == 0
  {
    if xs != [] {
      TotalZero(xs[1..]);
      assert forall i | 0 < i < |xs| :: xs[i] == xs[1..][i - 1];
      assert (forall i | 0 <= i < |xs| :: xs[i] == 0) ==> forall i | 0 <= i < |xs[1..]| :: xs[1..][i] == 0;
    }
  }

  lemma {:induction false} TotalBound(xs: seq<nat>, bound: nat)
    requires forall i | 0 <= i < |xs| :: xs[i] <= bound
    ensures Total(xs) <= |xs| * bound
  {
    if xs != [] {
      TotalBound(xs[1..], bound);
    }
  }

  ghost predicate NoRepeats<T(!new)>(s: seq<T>) {
    forall i, j | 0 <= i < j < |s| :: s[i] != s[j]
  }

  /** A list without repetition is no longer than the set it draws from. */
  lemma {:induction false} NoRepeatsBound<T(!new)>(s: seq<T>, from: set<T>)
    requires NoRepeats(s) && forall i | 0 <= i < |s| :: s[i] in from
    ensures |s| <= |from|
    decreases |s|
  {
    if s != [] {
      var last, rest := s[|s| - 1], s[..|s| - 1];
      NoRepeatsBound(rest, from - {last});
    }
  }

  ghost function Below(n: nat): set<nat> {
    if n == 0 then {} else Below(n - 1) + {n - 1}
  }

  lemma {:induction false} BelowCount(n: nat)
    ensures |Below(n)| == n && forall x: nat :: x in Below(n) <==> x < n
  {
    if n > 0 {
      BelowCount(n - 1);
    }
  }
}
