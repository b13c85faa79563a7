/**
 * InsufficientAstechTimeNagDialog.checkNag: warns when the astech minutes
 * available for a day fall short of the maintenance the hangar needs, and
 * says how many more astechs would cover the shortfall.
 *
 * All quantities are Java ints, so the sum, the overtime addition and the
 * difference wrap around modulo 2^32; the model writes that out.
 */
module AstechNag {
  const TwoTo31: int := 0x8000_0000
  const TwoTo32: int := 0x1_0000_0000

  type Int32 = x: int | -0x8000_0000 <= x < 0x8000_0000

  /** Two's-complement wrap-around of an exact result into an int. */
  function Wrap32(x: int): (r: Int32)
    ensures (r - x) % TwoTo32 == 0
    ensures -TwoTo31 <= x < TwoTo31 ==> r == x
  {
    ((x + TwoTo31) % TwoTo32) - TwoTo31
  }

  /** Two ints that agree modulo 2^32 are equal. */
  lemma WrapUnique(x: Int32, y: Int32)
    requires (x - y) % TwoTo32 == 0
    ensures x == y
  {
    var q := (x - y) / TwoTo32;
    assert x - y == TwoTo32 * q;
  }

  /** Adding wrapped operands and wrapping again is wrapping the exact sum. */
  lemma WrapAdd(a: int, b: int)
    ensures Wrap32(Wrap32(a) + Wrap32(b)) == Wrap32(a + b)
  {
    var wa, wb := Wrap32(a), Wrap32(b);
    var l, r := Wrap32(wa + wb), Wrap32(a + b);
    Congruent(l - r, l - (wa + wb), wa - a, wb - b, r - (a + b));
    WrapUnique(l, r);
  }

  /** Sums and differences of multiples of 2^32 are multiples of 2^32. */
  lemma Congruent(d: int, x1: int, x2: int, x3: int, x4: int)
    requires d == x1 + x2 + x3 - x4
    requires x1 % TwoTo32 == 0 && x2 % TwoTo32 == 0 && x3 % TwoTo32 == 0 && x4 % TwoTo32 == 0
    ensures d % TwoTo32 == 0
  {
    assert d == TwoTo32 * (x1 / TwoTo32 + x2 / TwoTo32 + x3 / TwoTo32 - x4 / TwoTo32);
  }

  /** What checkNag reads of a unit. */
  datatype Unit = Unit(unmaintained: bool, present: bool, selfCrewed: bool, maintenanceTime: Int32)

  /** What checkNag reads of the campaign and its options. */
  datatype Campaign = Campaign(
    checkMaintenance: bool,
    units: seq<Unit>,
    astechPoolMinutes: Int32,
    overtimeAllowed: bool,
    astechPoolOvertime: Int32)

  /** Units that are maintained, present and not crewed by themselves need astech time. */
  predicate NeedsAstechs(u: Unit) {
    !u.unmaintained && u.present && !u.selfCrewed
  }

  /** The stream in checkNag: each qualifying unit's time times 6, summed, all in int arithmetic. */
  function Need(units: seq<Unit>): Int32
    decreases |units|
  {
    if units == [] then 0
    else
      var last := units[|units| - 1];
      Wrap32(Need(units[..|units| - 1]) + if NeedsAstechs(last) then Wrap32(last.maintenanceTime * 6) else 0)
  }

  /** The exact number of astech minutes the qualifying units need. */
  function MaintenanceMinutes(units: seq<Unit>): int
    decreases |units|
  {
    if units == [] then 0
    else
      var last := units[|units| - 1];
      MaintenanceMinutes(units[..|units| - 1]) + if NeedsAstechs(last) then 6 * last.maintenanceTime else 0
  }

  /** The int the stream sums to is the exact requirement wrapped once. */
  lemma {:induction false} NeedIsWrappedMinutes(units: seq<Unit>)
    ensures Need(units) == Wrap32(MaintenanceMinutes(units))
    decreases |units|
  {
    if units != [] {
      var init := units[..|units| - 1];
      var last := units[|units| - 1];
      var add := if NeedsAstechs(last) then 6 * last.maintenanceTime else 0;
      NeedIsWrappedMinutes(init);
      WrapAdd(MaintenanceMinutes(init), add);
      assert Wrap32(add) == if NeedsAstechs(last) then Wrap32(last.maintenanceTime * 6) else 0;
    }
  }

  /** Without overflow the stream's sum is the exact requirement. */
  lemma NeedIsMinutesInRange(units: seq<Unit>)
    requires -TwoTo31 <= MaintenanceMinutes(units) < TwoTo31
    ensures Need(units) == MaintenanceMinutes(units)
  {
    NeedIsWrappedMinutes(units);
  }

  /** A unit that does not need astechs adds nothing, whatever its maintenance time. */
  lemma OtherUnitsAddNothing(units: seq<Unit>, u: Unit)
    requires !NeedsAstechs(u)
    ensures Need(units + [u]) == Need(units)
  {
    assert (units + [u])[..|units|] == units;
  }

  /** The minutes available: the pool, plus the overtime pool when overtime is allowed. */
  function Available(c: Campaign): Int32 {
    if c.overtimeAllowed then Wrap32(c.astechPoolMinutes + c.astechPoolOvertime) else c.astechPoolMinutes
  }

  /** Math.ceil of an int quotient by a positive int, as integer arithmetic. */
  function CeilDiv(d: int, divisor: int): int
    requires divisor > 0
  {
    (d + divisor - 1) / divisor
  }

  /** The ceiling is the least multiple count covering d. */
  lemma CeilDivIsLeast(d: int, divisor: int)
    requires divisor > 0
    ensures CeilDiv(d, divisor) * divisor >= d
    ensures (CeilDiv(d, divisor) - 1) * divisor < d
    ensures d > 0 ==> CeilDiv(d, divisor) >= 1
  {
    var n := d + divisor - 1;
    var q := n / divisor;
    var rem := n % divisor;
    assert n == q * divisor + rem && 0 <= rem < divisor;
    assert q * divisor >= d;
    assert (q - 1) * divisor == q * divisor - divisor;
  }

  datatype Nag = NoNag | ShowNag(astechsNeeded: int)

  /**
   * checkNag with the support time of one astech a day as a parameter: no
   * nag without maintenance checking, else a nag exactly when the available
   * minutes are fewer than the needed ones.
   */
  function CheckNag(c: Campaign, supportTime: int): (r: Nag)
    requires supportTime > 0
    ensures !c.checkMaintenance ==> r == NoNag
    ensures c.checkMaintenance ==> (r.ShowNag? <==> Available(c) < Need(c.units))
  {
    if !c.checkMaintenance then NoNag
    else
      var need := Need(c.units);
      var available := Available(c);
      if available < need then ShowNag(CeilDiv(Wrap32(need - available), supportTime)) else NoNag
  }

  /**
   * With a non-negative number of available minutes the difference cannot
   * overflow, and the nag names the fewest astechs whose support time covers
   * the shortfall, at least one.
   */
  lemma AstechsNeededIsLeast(c: Campaign, supportTime: int)
    requires supportTime > 0 && Available(c) >= 0
    ensures CheckNag(c, supportTime).ShowNag? ==>
      var shortfall := Need(c.units) - Available(c);
      var n := CheckNag(c, supportTime).astechsNeeded;
      && n >= 1
      && n * supportTime >= shortfall
      && (n - 1) * supportTime < shortfall
  {
    if CheckNag(c, supportTime).ShowNag? {
      CeilDivIsLeast(Need(c.units) - Available(c), supportTime);
    }
  }
}
