/** `_first_overflow`: the gallop that finds a split's cut. */
module Overflow {
  import opened Text

  /** The tokens of `text[start:end]` counted on their own are over the ceiling. */
  predicate Over(tk: Tokenizer, text: string, start: nat, ends: seq<nat>, i: nat, max: nat)
    requires i < |ends| && start <= ends[i] <= |text|
  {
    tk.Count(text[start..ends[i]]) > max
  }

  ghost predicate InRange(text: string, start: nat, ends: seq<nat>, lo: nat) {
    forall i | lo <= i < |ends| :: start <= ends[i] <= |text|
  }

  /** The per-end scan the gallop replaces. */
  function LinearScan(tk: Tokenizer, text: string, start: nat, ends: seq<nat>, lo: nat, max: nat): (r: nat)
    requires lo <= |ends| && InRange(text, start, ends, lo)
    decreases |ends| - lo
  {
    if lo == |ends| || Over(tk, text, start, ends, lo, max) then lo
    else LinearScan(tk, text, start, ends, lo + 1, max)
  }

  /** A longer prefix never takes fewer tokens across the ceiling. */
  ghost predicate MonotoneOver(tk: Tokenizer, text: string, start: nat, ends: seq<nat>, lo: nat, max: nat)
    requires InRange(text, start, ends, lo)
  {
    forall i, j | lo <= i <= j < |ends| && Over(tk, text, start, ends, i, max) :: Over(tk, text, start, ends, j, max)
  }

  lemma {:induction false} ScanFinds(tk: Tokenizer, text: string, start: nat, ends: seq<nat>, lo: nat, max: nat,
                                     over: nat)
    requires lo <= over <= |ends| && InRange(text, start, ends, lo)
    requires forall i | lo <= i < over :: !Over(tk, text, start, ends, i, max)
    requires over < |ends| ==> Over(tk, text, start, ends, over, max)
    ensures LinearScan(tk, text, start, ends, lo, max) == over
    decreases over - lo
  {
    if lo < over {
      ScanFinds(tk, text, start, ends, lo + 1, max, over);
    }
  }

  /** `bisect_left(a, x, lo)`; in `[lo, len(a)]` whatever the order of `a`. */
  method BisectLeft(a: seq<nat>, x: nat, lo: nat) returns (r: nat)
    requires lo <= |a|
    ensures lo <= r <= |a|
    ensures (forall i, j | lo <= i <= j < |a| :: a[i] <= a[j]) ==>
      (forall i | lo <= i < r :: a[i] < x) && (forall i | r <= i < |a| :: x <= a[i])
  {
    var low, high := lo, |a|;
    while low < high
      invariant lo <= low <= high <= |a|
      invariant (forall i, j | lo <= i <= j < |a| :: a[i] <= a[j]) ==>
        (forall i | lo <= i < low :: a[i] < x) && (forall i | high <= i < |a| :: x <= a[i])
    {
      var mid := (low + high) / 2;
      if a[mid] < x { low := mid + 1; } else { high := mid; }
    }
    return low;
  }

  /** The first index whose end lies past `max` tokens of one window, as a guess at the cut. */
  method Guess(tk: Tokenizer, text: string, start: nat, ends: seq<nat>, lo: nat, max: nat) returns (guess: nat)
    requires start <= |text| && lo <= |ends|
    ensures lo <= guess <= |ends|
  {
    var width := 4 * (max + 1);
    var offsets := [];
    while true
      invariant width >= 1
      decreases |text| - (start + width)
    {
      offsets := tk.encode(text[start..if start + width < |text| then start + width else |text|]);
      if |offsets| > max || start + width >= |text| {
        break;
      }
      width := width * 2;
    }
    if |offsets| > max {
      guess := BisectLeft(ends, start + offsets[max].end, lo);
    } else {
      guess := |ends|;
    }
  }

  /**
   * Settles any guess by exact counts. The index before the answer was counted
   * and fits, the answer overflows, and the guess never shows in a monotone count.
   */
  method Settle(tk: Tokenizer, text: string, start: nat, ends: seq<nat>, lo: nat, max: nat, guess: nat)
    returns (over: nat)
    requires lo < |ends| && lo <= guess <= |ends| && InRange(text, start, ends, lo)
    ensures lo <= over <= |ends|
    ensures lo < over ==> !Over(tk, text, start, ends, over - 1, max)
    ensures over < |ends| ==> Over(tk, text, start, ends, over, max)
    ensures MonotoneOver(tk, text, start, ends, lo, max) ==> over == LinearScan(tk, text, start, ends, lo, max)
  {
    var n := |ends|;
    var fits: int;
    var step := 1;
    if guess < n && !Over(tk, text, start, ends, guess, max) {
      fits, over := guess, n;
      while fits + step < n
        invariant lo <= fits < over == n && 1 <= step
        invariant !Over(tk, text, start, ends, fits, max)
        decreases n - fits
      {
        if Over(tk, text, start, ends, fits + step, max) {
          over := fits + step;
          break;
        }
        fits := fits + step;
        step := step * 2;
      }
    } else {
      fits, over := lo - 1, guess;
      while over - step >= lo
        invariant lo - 1 == fits < over <= n && 1 <= step
        invariant over < n ==> Over(tk, text, start, ends, over, max)
        decreases over
      {
        if !Over(tk, text, start, ends, over - step, max) {
          fits := over - step;
          break;
        }
        over := over - step;
        step := step * 2;
      }
    }
    while over - fits > 1
      invariant lo - 1 <= fits < over <= n
      invariant lo <= fits ==> !Over(tk, text, start, ends, fits, max)
      invariant over < n ==> Over(tk, text, start, ends, over, max)
    {
      var mid := (fits + over) / 2;
      if Over(tk, text, start, ends, mid, max) { over := mid; } else { fits := mid; }
    }
    if MonotoneOver(tk, text, start, ends, lo, max) {
      ScanFinds(tk, text, start, ends, lo, max, over);
    }
  }

  method FirstOverflow(tk: Tokenizer, text: string, start: nat, ends: seq<nat>, lo: nat, max: nat)
    returns (over: nat)
    requires start <= |text| && InRange(text, start, ends, lo)
    ensures |ends| <= lo ==> over == |ends|
    ensures lo < |ends| ==>
      && lo <= over <= |ends|
      && (lo < over ==> !Over(tk, text, start, ends, over - 1, max))
      && (over < |ends| ==> Over(tk, text, start, ends, over, max))
      && (MonotoneOver(tk, text, start, ends, lo, max) ==> over == LinearScan(tk, text, start, ends, lo, max))
      && (lo < over ==> tk.Count(text[start..ends[over-1]]) <= max)
      && (over < |ends| ==> tk.Count(text[start..ends[over]]) > max)
  {
    if lo >= |ends| {
      return |ends|;
    }
    var guess := Guess(tk, text, start, ends, lo, max);
    over := Settle(tk, text, start, ends, lo, max, guess);
  }
}
