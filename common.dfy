/**
 * Shared value types of the core crate: the account identifier, 128-bit
 * non-zero amounts and the 1..=100 percentage applied to dApp fees.
 * The hub copy of the percentage type is the same definition and is
 * modelled here once.
 */
module Common {
  import opened Wrappers

  const U128_MAX: int := 0xFFFF_FFFF_FFFF_FFFF_FFFF_FFFF_FFFF_FFFF

  type U8 = x: int | 0 <= x <= 255
  type U128 = x: int | 0 <= x <= U128_MAX
  /** `std::num::NonZeroU128` */
  type NonZeroU128 = x: int | 1 <= x <= U128_MAX witness 1
  /** A percentage known to lie in 1..=100. */
  type NonZeroPercent = p: int | 1 <= p <= 100 witness 1

  /** An address on the chain; only ever compared for equality. */
  datatype Id = Id(value: string)
  {
    static function From(s: string): (r: Id)
      ensures r.value == s
    {
      Id(s)
    }

    function IntoString(): (s: string)
      ensures From(s) == this
    {
      value
    }

    function AsStr(): (s: string)
      ensures s == IntoString()
    {
      value
    }
  }

  lemma IdConversions(s: string, id: Id)
    ensures Id.From(s).IntoString() == s && Id.From(s).AsStr() == s
    ensures Id.From(id.IntoString()) == id
  {
  }

  /** `NonZeroU128::new`: zero has no non-zero representation. */
  function NonZero(x: U128): (r: Option<NonZeroU128>)
    ensures r.Some? <==> x != 0
    ensures r.Some? ==> r.value == x
  {
    if x == 0 then None else Some(x)
  }

  /** `u128::checked_add` */
  function CheckedAdd(a: U128, b: U128): (r: Option<U128>)
    ensures r.Some? <==> a + b <= U128_MAX
    ensures r.Some? ==> r.value == a + b
  {
    if a + b > U128_MAX then None else Some(a + b)
  }

  /** `u128::checked_mul` */
  function CheckedMul(a: U128, b: U128): (r: Option<U128>)
    ensures r.Some? <==> a * b <= U128_MAX
    ensures r.Some? ==> r.value == a * b
  {
    if a * b > U128_MAX then None else Some(a * b)
  }

  /** `NonZeroU128::checked_add`: the sum of a non-zero value and anything is non-zero. */
  function CheckedAddNonZero(a: NonZeroU128, b: U128): (r: Option<NonZeroU128>)
    ensures r.Some? <==> a + b <= U128_MAX
    ensures r.Some? ==> r.value == a + b
  {
    match CheckedAdd(a, b)
    case None => None
    case Some(sum) => Some(sum)
  }

  /** `NonZeroPercent::new`: only 1..=100 is a percentage. */
  function NewPercent(p: U8): (r: Option<NonZeroPercent>)
    ensures r.Some? <==> 1 <= p <= 100
    ensures r.Some? ==> r.value == p
  {
    if p == 0 || p > 100 then None else Some(p)
  }

  /** `NonZeroPercent::to_u8` */
  function ToU8(p: NonZeroPercent): (r: U8)
    ensures NewPercent(r) == Some(p)
  {
    p
  }

  lemma PercentRoundTrip(p: U8)
    requires NewPercent(p).Some?
    ensures ToU8(NewPercent(p).value) == p
  {
  }

  /** `From<NonZeroPercent> for NonZeroU128` */
  function PercentToNonZeroU128(p: NonZeroPercent): (r: NonZeroU128)
    ensures r as int == ToU8(p) as int
  {
    p
  }

  /**
   * `NonZeroPercent::checked_apply_to`: `None` when `amount * p` does not
   * fit in 128 bits, `Some(None)` when the truncated share `amount * p / 100`
   * is zero, and `Some(Some(share))` otherwise.
   */
  function CheckedApplyTo(p: NonZeroPercent, amount: NonZeroU128): (r: Option<Option<NonZeroU128>>)
    ensures r.None? <==> amount * p > U128_MAX
    ensures r.Some? ==> (r.value.None? <==> amount * p < 100)
    ensures r.Some? && r.value.Some? ==> r.value.value == amount * p / 100
  {
    match CheckedMul(amount, p)
    case None => None
    case Some(n) => Some(NonZero(n / 100))
  }

  /** A present share never exceeds the amount it was taken from. */
  lemma ShareAtMostAmount(p: NonZeroPercent, amount: NonZeroU128)
    requires CheckedApplyTo(p, amount).Some? && CheckedApplyTo(p, amount).value.Some?
    ensures CheckedApplyTo(p, amount).value.value <= amount
  {
    var n := amount * p;
    ScaledAtMostHundredfold(amount, p);
    HundredthAtMost(n, amount);
  }

  /** Scaling by a percentage is at most scaling by a hundred. */
  lemma ScaledAtMostHundredfold(amount: nat, p: NonZeroPercent)
    ensures amount * p <= amount * 100
  {
    var gap := 100 - p;
    assert amount * 100 == amount * p + amount * gap;
    assert 0 <= amount * gap;
  }

  /** Dividing by a hundred undoes scaling by a hundred, rounding down. */
  lemma HundredthAtMost(n: nat, amount: nat)
    requires n <= amount * 100
    ensures n / 100 <= amount
  {
    assert (n / 100) * 100 <= n;
  }

  lemma HalfOfThousand()
    ensures CheckedApplyTo(50, 1000) == Some(Some(500))
  {
  }

  lemma HalfOfMaxOverflows()
    ensures CheckedApplyTo(50, U128_MAX) == None
  {
  }

  lemma TruncatedShareIsAbsent()
    ensures CheckedApplyTo(1, 99) == Some(None)
  {
  }
}
