/** Small pieces shared by the modules of the model: an option type, the C
    integer division by two, and the growable buffers of history.c. */
module Common {

  datatype Option<T> = None | Some(value: T)

  /** `n / 2` as C computes it on an `int`: the quotient is truncated toward
      zero, so for a negative `n` it rounds up, unlike Dafny's `/`. */
  function CHalf(n: int): (q: int)
    ensures n >= 0 ==> 0 <= q && 2 * q <= n < 2 * q + 2
    ensures n < 0 ==> q <= 0 && 2 * q - 2 < n <= 2 * q
  {
    if n >= 0 then n / 2 else -((-n) / 2)
  }

  /** The first capacity a buffer of history.c gets (INITIAL_CAPACITY). */
  const InitialCapacity: nat := 8

  /** The capacity that ensure_history_capacity and ensure_entry_capacity
      leave behind: unchanged while there is room, otherwise 8 for a buffer
      that has none yet and twice the old capacity for one that has. */
  function GrownCapacity(count: int, capacity: int): (grown: int)
    ensures capacity >= 0 ==> (grown == capacity <==> count < capacity)
    ensures capacity >= 0 ==> grown >= capacity && grown <= 2 * capacity + InitialCapacity
    ensures 0 <= count <= capacity ==> count < grown
  {
    if count >= capacity then (if capacity != 0 then capacity * 2 else InitialCapacity)
    else capacity
  }

  /** 8 times a power of two. */
  ghost predicate DoublingOf8(c: int)
    decreases if c < 0 then 0 else c
  {
    c == 8 || (c > 8 && c % 2 == 0 && DoublingOf8(c / 2))
  }

  /** The capacities a buffer can have when it is grown only by GrownCapacity
      starting from an empty buffer: 0, 8, 16, 32, ... */
  ghost predicate IsGrowthCapacity(c: int)
  {
    c == 0 || DoublingOf8(c)
  }

  /** Growing a buffer that is full or has room keeps it on the 0, 8, 16, ...
      ladder, and afterwards there is room for one more element. */
  lemma GrownCapacityOnLadder(count: int, capacity: int)
    requires 0 <= count <= capacity && IsGrowthCapacity(capacity)
    ensures IsGrowthCapacity(GrownCapacity(count, capacity))
    ensures count < GrownCapacity(count, capacity)
  {
    if count >= capacity && capacity != 0 {
      assert capacity >= 8;
      assert (capacity * 2) / 2 == capacity;
    }
  }

  /** The capacity a buffer has after `n` appends to an empty buffer: 0 for
      none, otherwise the least 8 * 2^k that is at least `n`. */
  function CapacityFor(n: nat): (c: nat)
    decreases n
  {
    if n == 0 then 0 else if n <= InitialCapacity then InitialCapacity
    else 2 * CapacityFor((n + 1) / 2)
  }

  /** `CapacityFor(n)` holds `n` elements, lies on the ladder, and is the
      least such capacity (half of it would not hold `n`). */
  lemma {:induction false} CapacityForIsLeast(n: nat)
    ensures n <= CapacityFor(n) && IsGrowthCapacity(CapacityFor(n))
    ensures n > 0 ==> CapacityFor(n) < 2 * n + InitialCapacity
    ensures CapacityFor(n) > InitialCapacity ==> CapacityFor(n) / 2 < n
    decreases n
  {
    if n > InitialCapacity {
      var m := (n + 1) / 2;
      CapacityForIsLeast(m);
      var c := CapacityFor(m);
      assert CapacityFor(n) == 2 * c;
      assert (2 * c) / 2 == c;
      assert m >= 5;
      assert DoublingOf8(c);
    }
  }

  /** One append step: growing the capacity of a buffer holding `n`
      elements, laid out by CapacityFor, gives the layout for `n + 1`.
      So appending one element at a time from an empty buffer walks the
      capacities 0, 8, 16, 32, ... */
  lemma {:induction false} GrowthFollowsCapacityFor(n: nat)
    ensures GrownCapacity(n, CapacityFor(n)) == CapacityFor(n + 1)
    decreases n
  {
    if n > InitialCapacity {
      CapacityForIsLeast(n);
      if n % 2 == 1 {
        assert (n + 2) / 2 == (n + 1) / 2;
        assert CapacityFor(n) % 2 == 0;
        assert n < CapacityFor(n);
      } else {
        var k := n / 2;
        assert (n + 1) / 2 == k && (n + 2) / 2 == k + 1;
        GrowthFollowsCapacityFor(k);
        CapacityForIsLeast(k);
      }
    }
  }

  /** Extending a slice by one element. */
  lemma SliceSnoc<T>(s: seq<T>, a: int, b: int)
    requires 0 <= a <= b < |s|
    ensures s[a..b + 1] == s[a..b] + [s[b]]
    ensures s[a..b + 1][..b - a] == s[a..b]
  {
  }

  /** Concatenation is associative. */
  lemma AppendAssoc<T>(a: seq<T>, b: seq<T>, c: seq<T>)
    ensures (a + b) + c == a + (b + c)
  {
  }

  /** realloc: a fresh buffer of `n` elements that starts with the elements
      the old buffer had, as far as both reach; the rest holds `filler`
      (realloc leaves it undefined; the model never reads it). */
  method Realloc<T>(a: array<T>, n: nat, filler: T) returns (b: array<T>)
    ensures fresh(b) && b.Length == n
    ensures n <= a.Length ==> b[..] == a[..n]
    ensures a.Length <= n ==> b[..a.Length] == a[..]
  {
    b := new T[n](_ => filler);
    var i := 0;
    while i < n && i < a.Length
      invariant 0 <= i <= n && i <= a.Length
      invariant b[..i] == a[..i]
    {
      b[i] := a[i];
      i := i + 1;
    }
    assert b[..i] == a[..i];
  }
}
