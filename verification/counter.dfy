/** `SafeCounter` from safe_counter.go: a running sum of the events sent.
    The mutex only serialises concurrent callers; sequentially the counter
    is one integer field. */
module Counter {

  class SafeCounter {
    var v: int

    /** The zero value `&SafeCounter{}`. */
    constructor()
      ensures v == 0
    {
      v := 0;
    }

    /** Raise the value by exactly `value`. */
    method Increment(value: int)
      modifies this
      ensures v == old(v) + value
    {
      v := v + value;
    }

    /** Read the value; the state is left as it was. */
    method Value() returns (r: int)
      ensures r == v
    {
      r := v;
    }
  }

  /** The sum of a sequence of increments. */
  function Sum(xs: seq<int>): int
  {
    if |xs| == 0 then 0 else Sum(xs[..|xs| - 1]) + xs[|xs| - 1]
  }

  /** Applying a sequence of increments one after the other raises the value
      by their sum. */
  method IncrementAll(c: SafeCounter, values: seq<int>)
    modifies c
    ensures c.v == old(c.v) + Sum(values)
  {
    var i := 0;
    while i < |values|
      invariant 0 <= i <= |values|
      invariant c.v == old(c.v) + Sum(values[..i])
    {
      assert values[..i + 1][..i] == values[..i];
      c.Increment(values[i]);
      i := i + 1;
    }
    assert values[..i] == values;
  }

  /** A fresh counter reads 0; 5 gives 5; 3 and 2 more give 10; a thousand
      increments by 1 give 1010. */
  method CounterScenario() returns (initial: int, afterFive: int, afterTen: int, final: int)
    ensures initial == 0 && afterFive == 5 && afterTen == 10 && final == 1010
  {
    var c := new SafeCounter();
    initial := c.Value();
    c.Increment(5);
    afterFive := c.Value();
    c.Increment(3);
    c.Increment(2);
    afterTen := c.Value();
    var i := 0;
    while i < 1000
      invariant 0 <= i <= 1000
      invariant c.v == 10 + i
    {
      c.Increment(1);
      i := i + 1;
    }
    final := c.Value();
  }
}
