/** Object naming: every graphic object's constructor increments a counter
    shared by all objects and names the object `prefix + str(counter)`.
    The counter is an explicit object here instead of a class attribute. */
module Naming {

  function DigitChar(d: nat): (c: char)
    requires d < 10
    ensures '0' <= c <= '9'
  {
    "0123456789"[d]
  }

  /** Python's `str(n)` for a natural number: decimal, no leading zeros. */
  function Decimal(n: nat): (s: string)
    ensures |s| >= 1
    ensures forall i :: 0 <= i < |s| ==> '0' <= s[i] <= '9'
  {
    if n < 10 then [DigitChar(n)] else Decimal(n / 10) + [DigitChar(n % 10)]
  }

  lemma DigitCharInjective(a: nat, b: nat)
    requires a < 10 && b < 10 && DigitChar(a) == DigitChar(b)
    ensures a == b
  {}

  /** Numbers from ten on have at least two digits. */
  lemma {:induction false} DecimalLength(n: nat)
    ensures n < 10 <==> |Decimal(n)| == 1
  {
    if n >= 10 {
      assert |Decimal(n / 10)| >= 1;
    }
  }

  /** Different numbers have different decimal spellings. */
  lemma {:induction false} DecimalInjective(a: nat, b: nat)
    requires Decimal(a) == Decimal(b)
    ensures a == b
  {
    DecimalLength(a);
    DecimalLength(b);
    if a < 10 {
      assert Decimal(a)[0] == Decimal(b)[0];
      DigitCharInjective(a, b);
    } else {
      var sa, sb := Decimal(a), Decimal(b);
      assert sa[|sa| - 1] == sb[|sb| - 1];
      DigitCharInjective(a % 10, b % 10);
      assert sa[..|sa| - 1] == Decimal(a / 10);
      assert sb[..|sb| - 1] == Decimal(b / 10);
      DecimalInjective(a / 10, b / 10);
    }
  }

  /** A prefix that is not a decimal digit, like "P", "L", "W", "C", "B",
      "P3D", "O3D" or "BP". */
  predicate PlainPrefix(prefix: string) {
    |prefix| >= 1 && !('0' <= prefix[0] <= '9')
  }

  /** The name given to the object created when the counter reaches `n`. */
  function NameOf(prefix: string, n: nat): (name: string)
    ensures |name| == |prefix| + |Decimal(n)|
  {
    prefix + Decimal(n)
  }

  /** Two objects created at different counter values get different names,
      whatever their single-letter prefixes (all the 2D prefixes are one
      letter). */
  lemma NamesDistinct(p1: string, n1: nat, p2: string, n2: nat)
    requires |p1| == 1 && |p2| == 1 && PlainPrefix(p1) && PlainPrefix(p2)
    requires n1 != n2
    ensures NameOf(p1, n1) != NameOf(p2, n2)
  {
    if NameOf(p1, n1) == NameOf(p2, n2) {
      assert NameOf(p1, n1)[1..] == Decimal(n1);
      assert NameOf(p2, n2)[1..] == Decimal(n2);
      DecimalInjective(n1, n2);
    }
  }

  /** The shared object counter (`GraphicObject._counter`). */
  class NameCounter {
    var count: nat

    constructor ()
      ensures count == 0
    {
      count := 0;
    }

    /** `_generate_name`: increment the counter, then name the object after it. */
    method Fresh(prefix: string) returns (name: string)
      modifies this
      ensures count == old(count) + 1
      ensures name == NameOf(prefix, count)
    {
      count := count + 1;
      name := NameOf(prefix, count);
    }

    /** `reset_counter`. */
    method Reset()
      modifies this
      ensures count == 0
    {
      count := 0;
    }
  }
}
