/** The notification guard shared by a book's `ignoreMutation` and `preventFlip`
    fields (Book.js:2361-2366 and Book.js:2138-2143). The fields hold either `true`,
    which swallows every notification, or a number, which swallows one notification
    and is decremented; `false` and `0` let the notification through. */
module Suppression {

  /** `Forever` is the value `true`; `Count(n)` is the number `n`; `Count(0)` is also `false`. */
  datatype Guard = Forever | Count(n: int)

  const Off: Guard := Count(0)

  /** One notification arrives: is it swallowed, and what does the field hold afterwards?
      Any non-zero number is truthy in JavaScript, so a negative count swallows too. */
  function Notify(g: Guard): (bool, Guard) {
    match g
    case Forever => (true, Forever)
    case Count(n) => if n != 0 then (true, Count(n - 1)) else (false, g)
  }

  /** The outcomes of `k` successive notifications and the field's final value. */
  function Run(g: Guard, k: nat): (r: (seq<bool>, Guard))
    ensures |r.0| == k
    decreases k
  {
    if k == 0 then ([], g)
    else
      var (swallowed, g') := Notify(g);
      var (rest, final) := Run(g', k - 1);
      ([swallowed] + rest, final)
  }

  /** A count `n >= 0` swallows exactly the next `n` notifications, then lets every
      later one through, and the field ends at `max(n - k, 0)`. */
  lemma {:induction false} CountSwallowsExactly(n: nat, k: nat)
    ensures forall i :: 0 <= i < k ==> (Run(Count(n), k).0[i] <==> i < n)
    ensures Run(Count(n), k).1 == Count(if n >= k then n - k else 0)
  {
    if k > 0 {
      if n == 0 {
        OffLetsAllThrough(k);
      } else {
        CountSwallowsExactly(n - 1, k - 1);
        var rest := Run(Count(n - 1), k - 1).0;
        assert Run(Count(n), k).0 == [true] + rest;
      }
    }
  }

  /** `false`/`0` lets every notification through and stays put. */
  lemma {:induction false} OffLetsAllThrough(k: nat)
    ensures forall i :: 0 <= i < k ==> !Run(Off, k).0[i]
    ensures Run(Off, k).1 == Off
  {
    if k > 0 {
      OffLetsAllThrough(k - 1);
      assert Run(Off, k).0 == [false] + Run(Off, k - 1).0;
    }
  }

  /** `true` swallows every notification and is never cleared by them. */
  lemma {:induction false} ForeverSwallowsAll(k: nat)
    ensures forall i :: 0 <= i < k ==> Run(Forever, k).0[i]
    ensures Run(Forever, k).1 == Forever
  {
    if k > 0 {
      ForeverSwallowsAll(k - 1);
      assert Run(Forever, k).0 == [true] + Run(Forever, k - 1).0;
    }
  }

  /** A negative count never reaches `0` by decrementing, so it behaves like `true`. */
  lemma {:induction false} NegativeCountSwallowsAll(n: int, k: nat)
    requires n < 0
    ensures forall i :: 0 <= i < k ==> Run(Count(n), k).0[i]
    ensures Run(Count(n), k).1 == Count(n - k)
    decreases k
  {
    if k > 0 {
      NegativeCountSwallowsAll(n - 1, k - 1);
      assert Run(Count(n), k).0 == [true] + Run(Count(n - 1), k - 1).0;
    }
  }
}
