/** What a reader is shown of a stored item: counters as decimal integers, everything else as it is. */
module Rendering {
  import opened Types

  function Power10(k: nat): nat {
    if k == 0 then 1 else 10 * Power10(k - 1)
  }

  lemma {:induction false} DigitsShort(n: nat, k: nat)
    requires 1 <= k && n < Power10(k)
    ensures |Digits(n)| <= k
  {
    if n >= 10 {
      assert n / 10 < Power10(k - 1);
      DigitsShort(n / 10, k - 1);
    }
  }

  /** A counter renders in at most 17 bytes: 16 digits and a sign. */
  lemma {:induction false} RenderShort(v: int)
    requires InCounterRange(v)
    ensures |RenderInt(v)| <= 17 <= COUNTER_CELL_OVERHEAD
  {
    assert Power10(4) == 10_000;
    assert Power10(8) == 100_000_000;
    assert Power10(12) == 1_000_000_000_000;
    assert Power10(16) == 10_000_000_000_000_000;
    DigitsShort(if v < 0 then -v else v, 16);
  }

  // Reading decimal digits back.
  function DigitsValue(s: string): int {
    if s == "" then 0 else 10 * DigitsValue(s[..|s| - 1]) + (s[|s| - 1] as int - '0' as int)
  }

  function IntValue(s: string): int {
    if s != "" && s[0] == '-' then -DigitsValue(s[1..]) else DigitsValue(s)
  }

  lemma {:induction false} DigitsReadBack(n: nat)
    ensures DigitsValue(Digits(n)) == n && Digits(n) != "" && Digits(n)[0] != '-'
  {
    if n < 10 {
      assert Digits(n)[..0] == "";
    } else {
      DigitsReadBack(n / 10);
      assert Digits(n)[..|Digits(n)| - 1] == Digits(n / 10);
    }
  }

  /** What is rendered reads back as the same integer. */
  lemma {:induction false} RenderReadsBack(v: int)
    ensures IntValue(RenderInt(v)) == v
  {
    DigitsReadBack(if v < 0 then -v else v);
    if v < 0 { assert RenderInt(v)[1..] == Digits(-v); }
  }

  // ---- the text of an integer ----

  predicate IsDigits(s: string) {
    forall i :: 0 <= i < |s| ==> '0' <= s[i] <= '9'
  }

  // Digits without a leading zero, or 0 itself.
  predicate IsNatural(s: string) {
    s != "" && IsDigits(s) && (s[0] == '0' ==> s == "0")
  }

  /** An integer as encoding/json writes one. */
  predicate IsInteger(s: string) {
    IsNatural(s) || (s != "" && s[0] == '-' && IsNatural(s[1..]) && s != "-0")
  }

  lemma {:induction false} DigitsNatural(n: nat)
    ensures IsNatural(Digits(n)) && (Digits(n) == "0" <==> n == 0)
  {
    if n >= 10 {
      DigitsNatural(n / 10);
      assert Digits(n)[0] == Digits(n / 10)[0];
    }
  }

  lemma {:induction false} RenderIsInteger(v: int)
    ensures IsInteger(RenderInt(v))
  {
    DigitsNatural(if v < 0 then -v else v);
    if v < 0 { assert RenderInt(v)[1..] == Digits(-v); }
  }

  // ---- one item ----

  /** What a read answers for a stored item. */
  predicate Shows(x: Item, y: Item) {
    && y.scope == x.scope && y.id == x.id && y.sq == x.sq && y.ts == x.ts
    && match x.body
       case Plain(_, _) => y.body == x.body
       case Counter(v) =>
         y.body.Plain? && y.body.render == None && IsInteger(y.body.payload) && IntValue(y.body.payload) == v
  }

  lemma {:induction false} MaterialiseShows(x: Item)
    ensures Shows(x, Materialise(x))
  {
    hide RenderInt, IntValue, IsInteger;
    if x.body.Counter? {
      RenderReadsBack(x.body.value);
      RenderIsInteger(x.body.value);
    }
  }
}
