/**
 Automatic extension of the data file (src/observer/ob_server_utils.cpp): one extension, and what repeating it
 until the file is full amounts to.
 */
module AutoExtend {

  const M32: int := 32 * 1024 * 1024
  const G1: int := 1024 * 1024 * 1024

  /** datafile_maxsize and datafile_next */
  datatype Config = Config(maxSize: int, next: int)

  datatype Outcome = InvalidArgument | OutOfDiskSpace | ExtendTo(size: int)

  function Min(x: int, y: int): int {
    if x < y then x else y
  }

  /** The size check tests the truth value of the size, so only a size of zero is refused. */
  function Extend(c: Config, size: int): Outcome {
    if c.maxSize <= 0 || size == 0 then InvalidArgument
    else
      var wanted :=
        if c.next == 0 then Min(size, G1)
        else if c.next < M32 then Min(c.maxSize * 10 / 100, M32)
        else c.next;
      var actual := Min(wanted, c.maxSize - size);
      if actual <= 0 then OutOfDiskSpace else ExtendTo(actual + size)
  }

  /** A refused request leaves the file as it is. */
  function Request(c: Config, size: int): int {
    match Extend(c, size)
    case ExtendTo(t) => t
    case _ => size
  }

  /** The file after `k` requests to extend it. */
  function After(c: Config, size: int, k: nat): int {
    if k == 0 then size else Request(c, After(c, size, k - 1))
  }

  /** A small `next` asks for a tenth of the maximum, which is nothing below ten bytes. */
  predicate Starved(c: Config) {
    c.next != 0 && c.next < M32 && c.maxSize < 10
  }

  /** How much every request but the last adds, where that is the same every time. */
  function Increment(c: Config): int
    requires c.next != 0
  {
    if c.next < M32 then Min(c.maxSize / 10, M32) else c.next
  }

  // ---------------------------------------------------------------- one extension

  /** An extension grows the file and stays within the maximum. It is refused for want of space exactly when
      the file has reached the maximum, or passed it because the maximum was lowered, or the request rounds
      to nothing. */
  lemma ExtendIff(c: Config, size: int)
    requires c.maxSize > 0 && size > 0
    ensures Extend(c, size).ExtendTo? <==> size < c.maxSize && !Starved(c)
    ensures Extend(c, size).OutOfDiskSpace? <==> size >= c.maxSize || Starved(c)
    ensures Extend(c, size).ExtendTo? ==> size < Extend(c, size).size <= c.maxSize
  {
    assert c.maxSize * 10 / 100 == c.maxSize / 10;
  }

  /** It is refused as invalid exactly for want of a maximum or at size zero. */
  lemma InvalidIff(c: Config, size: int)
    ensures Extend(c, size).InvalidArgument? <==> c.maxSize <= 0 || size == 0
  {
  }

  /** With a next size of at least 32 MB that much is added, with a smaller one a tenth of the maximum but no more than
      32 MB, and without one as much as there is but no more than a gigabyte; never beyond the maximum. */
  lemma ExtendsBy(c: Config, size: int)
    requires 0 < size < c.maxSize && !Starved(c)
    ensures var step := if c.next == 0 then (if size < 1_073_741_824 then size else 1_073_741_824)
                        else if c.next < 33_554_432 then (if c.maxSize / 10 < 33_554_432 then c.maxSize / 10 else 33_554_432)
                        else c.next;
            Extend(c, size) == ExtendTo(if size + step < c.maxSize then size + step else c.maxSize)
  {
    assert c.maxSize * 10 / 100 == c.maxSize / 10;
  }

  // ---------------------------------------------------------------- repeated extension

  lemma {:induction false} AfterStaysBelow(c: Config, size: int, k: nat)
    requires 0 < size <= c.maxSize
    ensures size <= After(c, size, k) <= c.maxSize
  {
    if k > 0 {
      AfterStaysBelow(c, size, k - 1);
      ExtendIff(c, After(c, size, k - 1));
    }
  }

  lemma RequestFixed(c: Config, size: int)
    requires 0 < size <= c.maxSize && c.next != 0 && !Starved(c)
    ensures Increment(c) > 0 && Request(c, size) == Min(size + Increment(c), c.maxSize)
  {
    assert c.maxSize * 10 / 100 == c.maxSize / 10;
  }

  lemma RequestScaled(c: Config, size: int)
    requires 0 < size <= c.maxSize && c.next == 0
    ensures Request(c, size) == Min(size + Min(size, G1), c.maxSize)
  {
  }

  /** With a fixed increment the sizes are an arithmetic progression that ends on the maximum. */
  lemma {:induction false} AfterFixed(c: Config, size: int, k: nat)
    requires 0 < size <= c.maxSize && c.next != 0 && !Starved(c)
    ensures Increment(c) > 0 && After(c, size, k) == Min(size + k * Increment(c), c.maxSize)
  {
    hide Request, Increment, Starved;
    RequestFixed(c, size);
    if k > 0 {
      AfterFixed(c, size, k - 1);
      AfterStaysBelow(c, size, k - 1);
      RequestFixed(c, After(c, size, k - 1));
      assert k * Increment(c) == (k - 1) * Increment(c) + Increment(c);
    }
  }

  function Pow2(k: nat): nat {
    if k == 0 then 1 else 2 * Pow2(k - 1)
  }

  /** With `next` at zero the file doubles as long as it is no larger than a gigabyte. */
  lemma {:induction false} AfterDoubling(c: Config, size: int, k: nat)
    requires 0 < size <= c.maxSize && c.next == 0
    requires k > 0 ==> size * Pow2(k - 1) <= G1
    ensures After(c, size, k) == Min(size * Pow2(k), c.maxSize)
  {
    hide Request;
    if k > 0 {
      if k > 1 {
        Twice(size, k - 1);
      }
      AfterDoubling(c, size, k - 1);
      AfterStaysBelow(c, size, k - 1);
      RequestScaled(c, After(c, size, k - 1));
      Twice(size, k);
    }
  }

  lemma Twice(size: int, k: nat)
    requires size > 0 && k > 0
    ensures size * Pow2(k) == 2 * (size * Pow2(k - 1)) && size * Pow2(k - 1) >= 0
  {
  }

  /** From a gigabyte on it grows by a gigabyte. */
  lemma {:induction false} AfterLinear(c: Config, size: int, k: nat)
    requires G1 <= size <= c.maxSize && c.next == 0
    ensures After(c, size, k) == Min(size + k * G1, c.maxSize)
  {
    hide Request;
    if k > 0 {
      AfterLinear(c, size, k - 1);
      AfterStaysBelow(c, size, k - 1);
      RequestScaled(c, After(c, size, k - 1));
    }
  }

  lemma {:induction false} AfterAfter(c: Config, size: int, j: nat, k: nat)
    ensures After(c, After(c, size, j), k) == After(c, size, j + k)
  {
    hide Request;
    if k > 0 {
      AfterAfter(c, size, j, k - 1);
    }
  }

  lemma {:induction false} FullStaysFull(c: Config, k: nat)
    requires c.maxSize > 0
    ensures After(c, c.maxSize, k) == c.maxSize
  {
    if k > 0 {
      FullStaysFull(c, k - 1);
      ExtendIff(c, c.maxSize);
    }
  }

  /** The first number of doublings that takes `size` to a gigabyte or to the maximum. */
  lemma {:induction false} ReachGigabyte(c: Config, size: int, k: nat)
    requires 0 < size <= c.maxSize && c.next == 0
    ensures After(c, size, k) >= Min(Min(Pow2(k), G1), c.maxSize)
  {
    hide Request;
    AfterStaysBelow(c, size, k);
    if k > 0 {
      ReachGigabyte(c, size, k - 1);
      AfterStaysBelow(c, size, k - 1);
      RequestScaled(c, After(c, size, k - 1));
    }
  }

  lemma Pow30()
    ensures Pow2(30) == G1
  {
    assert Pow2(10) == 1024;
    assert Pow2(20) == 1024 * 1024 by { assert Pow2(15) == 32 * 1024; }
    assert Pow2(25) == 32 * 1024 * 1024;
  }

  /** The number of requests after which the file is full. */
  function Requests(c: Config, size: int): nat
    requires 0 < size <= c.maxSize && !Starved(c)
  {
    if c.next == 0 then 30 + c.maxSize / G1
    else (c.maxSize - size) / Increment(c) + 1
  }

  lemma FixedIsEnough(c: Config, size: int)
    requires 0 < size <= c.maxSize && !Starved(c) && c.next != 0
    ensures After(c, size, Requests(c, size)) == c.maxSize
  {
    hide After, Increment, Starved;
    AfterFixed(c, size, 0);
    AfterFixed(c, size, Requests(c, size));
    RoundedUp(c.maxSize - size, Increment(c));
  }

  lemma RoundedUp(gap: int, e: int)
    requires gap >= 0 && e > 0
    ensures gap <= (gap / e + 1) * e
  {
    assert (gap / e + 1) * e == gap / e * e + e;
  }

  lemma DoublingIsEnough(c: Config, size: int)
    requires 0 < size <= c.maxSize && c.next == 0
    ensures After(c, size, Requests(c, size)) == c.maxSize
  {
    hide After, Pow2;
    var s := After(c, size, 30);
    ReachGigabyte(c, size, 30);
    Pow30();
    AfterStaysBelow(c, size, 30);
    AfterAfter(c, size, 30, c.maxSize / G1);
    if s == c.maxSize {
      FullStaysFull(c, c.maxSize / G1);
    } else {
      AfterLinear(c, s, c.maxSize / G1);
    }
  }

  /** Repeated extension reaches the maximum exactly, in a bounded number of requests, and from then on every
      request is refused for want of space. */
  lemma ReachesMaximum(c: Config, size: int, k: nat)
    requires 0 < size <= c.maxSize && !Starved(c) && k >= Requests(c, size)
    ensures After(c, size, k) == c.maxSize
    ensures Extend(c, After(c, size, k)) == OutOfDiskSpace
  {
    hide After, Starved;
    var n := Requests(c, size);
    if c.next == 0 { DoublingIsEnough(c, size); } else { FixedIsEnough(c, size); }
    AfterAfter(c, size, n, k - n);
    FullStaysFull(c, k - n);
    ExtendIff(c, c.maxSize);
  }

  /** Below ten bytes a small `next` never gets anywhere, so the maximum is reached if and only if the request
      does not round to nothing, or the file was full to begin with. */
  lemma {:induction false} StarvedStays(c: Config, size: int, k: nat)
    requires 0 < size <= c.maxSize && Starved(c)
    ensures After(c, size, k) == size
  {
    if k > 0 {
      StarvedStays(c, size, k - 1);
      ExtendIff(c, size);
    }
  }

  predicate FullAfter(c: Config, size: int, k: nat) {
    After(c, size, k) == c.maxSize
  }

  lemma ReachesMaximumIff(c: Config, size: int)
    requires 0 < size <= c.maxSize
    ensures (exists k: nat :: FullAfter(c, size, k)) <==> (size == c.maxSize || !Starved(c))
  {
    if !Starved(c) {
      ReachesMaximum(c, size, Requests(c, size));
      assert FullAfter(c, size, Requests(c, size));
    } else {
      forall k: nat ensures FullAfter(c, size, k) <==> size == c.maxSize { StarvedStays(c, size, k); }
      assert FullAfter(c, size, 0) <==> size == c.maxSize;
    }
  }

  /** Every request before the last makes progress. */
  lemma GrowsUntilFull(c: Config, size: int, k: nat)
    requires 0 < size <= c.maxSize && !Starved(c) && After(c, size, k) != c.maxSize
    ensures After(c, size, k + 1) > After(c, size, k)
  {
    AfterStaysBelow(c, size, k);
    ExtendIff(c, After(c, size, k));
    assert After(c, size, k + 1) == Request(c, After(c, size, k));
  }
}
