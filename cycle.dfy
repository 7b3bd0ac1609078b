/**
 * The "press to go to the next option" buttons of the settings menus: find the current
 * value with `list.index` and take the option after it, wrapping round at the end.
 */
module Cycle {
  import opened Wrappers
  import opened Assoc

  /** `s.index(x)`: the first position of `x`, or None where Python raises ValueError. */
  function IndexOf<T(==)>(s: seq<T>, x: T): (r: Option<nat>)
    ensures r.Some? <==> x in s
    ensures r.Some? ==> r.value < |s| && s[r.value] == x && x !in s[..r.value]
  {
    if x !in s then None
    else if s[0] == x then Some(0)
    else
      var i := IndexOf(s[1..], x).value;
      assert s[..i + 1] == [s[0]] + s[1..][..i];
      Some(i + 1)
  }

  /** In a list without repeats the position found is the only one. */
  lemma IndexOfDistinct<T>(s: seq<T>, i: nat)
    requires Distinct(s) && i < |s|
    ensures IndexOf(s, s[i]) == Some(i)
  {
    var j := IndexOf(s, s[i]).value;
    assert forall k :: 0 <= k < j ==> s[..j][k] == s[k];
  }

  /** The option after `x`: `s[(s.index(x) + 1) % len(s)]`. */
  function Next<T(==)>(s: seq<T>, x: T): (r: Option<T>)
    ensures r.Some? <==> x in s
    ensures r.Some? ==> r.value in s
  {
    match IndexOf(s, x)
    case None => None
    case Some(i) => Some(s[(i + 1) % |s|])
  }

  /** `n` presses in a row, starting from `x`; None once a press fails. */
  function Presses<T(==)>(s: seq<T>, x: T, n: nat): Option<T> {
    if n == 0 then Some(x)
    else
      match Next(s, x)
      case None => None
      case Some(y) => Presses(s, y, n - 1)
  }

  lemma MulPos(d: int, n: int)
    requires d >= 1 && n > 0
    ensures d * n >= n
  {
  }

  /** Euclidean division has one remainder: `x == q * n + r` with `0 <= r < n` fixes `x % n`. */
  lemma ModUnique(x: int, n: int, q: int, r: int)
    requires n > 0 && x == q * n + r && 0 <= r < n
    ensures x % n == r
  {
    var q', r' := x / n, x % n;
    assert q' * n + r' == q * n + r;
    assert (q' - q) * n == r - r';
    if q' > q { MulPos(q' - q, n); }
    if q' < q { MulPos(q - q', n); }
  }

  /** Adding one whole turn does not change the position: `(x + n) mod n == x mod n`. */
  lemma ModPlusN(x: int, n: int)
    requires n > 0
    ensures (x + n) % n == x % n
  {
    ModUnique(x + n, n, x / n + 1, x % n);
  }

  /** In a list without repeats, the option after position `m` is the one at `m + 1`, wrapping round. */
  lemma NextAt<T>(s: seq<T>, m: nat)
    requires Distinct(s) && m < |s|
    ensures Next(s, s[m]) == Some(s[(m + 1) % |s|])
  {
    IndexOfDistinct(s, m);
  }

  /** From the option at position `i`, `k` presses reach position `(i + k) mod |s|`. */
  lemma {:induction false} PressesFrom<T>(s: seq<T>, i: nat, k: nat)
    requires Distinct(s) && i < |s|
    ensures Presses(s, s[i], k) == Some(s[(i + k) % |s|])
    decreases k
  {
    if k == 0 {
      ModUnique(i, |s|, 0, i);
    } else {
      NextAt(s, i);
      var j := (i + 1) % |s|;
      assert Presses(s, s[i], k) == Presses(s, s[j], k - 1);
      PressesFrom(s, j, k - 1);
      if i + 1 < |s| {
        ModUnique(i + 1, |s|, 0, i + 1);
      } else {
        ModUnique(i + 1, |s|, 1, 0);
        ModPlusN(k - 1, |s|);
      }
    }
  }

  lemma PressesHome<T>(s: seq<T>, i: nat)
    requires Distinct(s) && i < |s|
    ensures Presses(s, s[i], |s|) == Some(s[i])
  {
    var n := |s|;
    ModUnique(i + n, n, 1, i);
    var j := (i + n) % n;
    assert j == i;
    PressesFrom(s, i, n);
    assert Presses(s, s[i], n) == Some(s[j]);
  }

  /** Pressing once per option brings every option back to itself. */
  lemma FullCircle<T>(s: seq<T>, x: T)
    requires Distinct(s) && x in s
    ensures Presses(s, x, |s|) == Some(x)
  {
    var i :| 0 <= i < |s| && s[i] == x;
    PressesHome(s, i);
  }

  /** A value not among the options makes the first press fail. */
  lemma PressFails<T>(s: seq<T>, x: T, n: nat)
    requires x !in s && n > 0
    ensures Presses(s, x, n).None?
  {
  }
}
