/** The context window one client gets: the total handed to the engine, what the
    engine reports back, and the reconciliation of the two. */
module Window {
  import opened Wrappers
  import opened Numbers

  datatype Params = Params(nCtx: nat, nParallel: nat)

  ghost predicate IsU32(p: Params) { p.nCtx <= U32_MAX && p.nParallel <= U32_MAX }

  /** What `/props` says, when both numbers are there and positive. */
  datatype EngineWindow = EngineWindow(nCtx: nat, totalSlots: nat)

  function Slots(p: Params): nat { if p.nParallel == 0 then 1 else p.nParallel }

  /** `--ctx-size`: the total across slots, saturating. */
  function EngineContext(p: Params): nat { Min(p.nCtx * Slots(p), U32_MAX) }

  /** `window_from_props`: a zero or an oversized number is no answer at all. */
  function WindowFromProps(nCtx: Option<nat>, totalSlots: Option<nat>): Option<EngineWindow> {
    if nCtx.None? || totalSlots.None? || nCtx.value == 0 || totalSlots.value == 0 then None
    else if nCtx.value > U32_MAX || totalSlots.value > U32_MAX then None
    else Some(EngineWindow(nCtx.value, totalSlots.value))
  }

  /** An engine that divides the total over the slots it was given, rounding down. */
  function Reported(p: Params): Option<EngineWindow> {
    WindowFromProps(Some(EngineContext(p) / Slots(p)), Some(Slots(p)))
  }

  function Reconciled(requested: Params, window: Option<EngineWindow>): Params {
    if window.None? then requested
    else if window.value.nCtx >= requested.nCtx && window.value.totalSlots >= Slots(requested) then requested
    else Params(Min(window.value.nCtx, requested.nCtx), Min(window.value.totalSlots, Slots(requested)))
  }

  /** The engine's report is an answer exactly when both numbers are there, positive
      and of 32 bits, and then it is those numbers. */
  lemma ReportCountsIff(nCtx: Option<nat>, totalSlots: Option<nat>)
    ensures WindowFromProps(nCtx, totalSlots).Some? <==>
              nCtx.Some? && totalSlots.Some? && 1 <= nCtx.value <= 0xFFFF_FFFF && 1 <= totalSlots.value <= 0xFFFF_FFFF
    ensures WindowFromProps(nCtx, totalSlots).Some? ==>
              WindowFromProps(nCtx, totalSlots).value == EngineWindow(nCtx.value, totalSlots.value)
  {
  }

  /** What is advertised is the smaller of the request and the report, in both
      numbers, and the request itself when there was no report or it is no smaller. */
  lemma ReconciledIsTheSmaller(requested: Params, window: Option<EngineWindow>)
    requires window.Some? ==> window.value.totalSlots > 0
    ensures var asked := if requested.nParallel == 0 then 1 else requested.nParallel;
            var got := Reconciled(requested, window);
            if window.Some? && (window.value.nCtx < requested.nCtx || window.value.totalSlots < asked)
            then && got.nCtx == (if window.value.nCtx < requested.nCtx then window.value.nCtx else requested.nCtx)
                 && got.nParallel == (if window.value.totalSlots < asked then window.value.totalSlots else asked)
            else got == requested
  {
  }

  /** Never more than was asked for nor, when it answered, than the engine has;
      and reconciling again changes nothing. */
  lemma ReconciledNeverPromisesMore(requested: Params, window: Option<EngineWindow>)
    requires window.Some? ==> window.value.totalSlots > 0
    ensures var got := Reconciled(requested, window);
            && got.nCtx <= requested.nCtx && Slots(got) <= Slots(requested)
            && (window.Some? ==> got.nCtx <= window.value.nCtx && Slots(got) <= window.value.totalSlots)
            && Reconciled(got, window) == got
  {
  }

  lemma DivisionFloor(a: nat, n: nat, k: nat)
    requires k > 0
    ensures n <= a / k <==> n * k <= a
  {
    assert a == (a / k) * k + a % k;
    if n <= a / k {
      assert n * k <= (a / k) * k;
    } else {
      assert (a / k + 1) * k <= n * k;
      assert (a / k + 1) * k == (a / k) * k + k;
    }
  }

  lemma DivisionExact(n: nat, k: nat)
    requires k > 0
    ensures n * k / k == n
  {
    DivisionFloor(n * k, n, k);
    DivisionFloor(n * k, n + 1, k);
    assert (n + 1) * k == n * k + k;
  }

  /** A positive window is honoured exactly when the total fits in 32 bits; then
      nothing at all is changed, and otherwise every slot gets its share of the
      saturated total. */
  lemma WindowHonouredIffTotalFits(p: Params)
    requires IsU32(p) && p.nCtx > 0
    ensures Reconciled(p, Reported(p)).nCtx == p.nCtx <==> p.nCtx * Slots(p) <= U32_MAX
    ensures p.nCtx * Slots(p) <= U32_MAX ==> Reconciled(p, Reported(p)) == p
    ensures p.nCtx * Slots(p) > U32_MAX ==> Reconciled(p, Reported(p)) == Params(U32_MAX / Slots(p), Slots(p))
  {
    var k := Slots(p);
    DivisionFloor(U32_MAX, p.nCtx, k);
    DivisionFloor(U32_MAX, 1, k);
    if p.nCtx * k <= U32_MAX {
      DivisionExact(p.nCtx, k);
      assert EngineContext(p) / k == p.nCtx;
    } else {
      assert EngineContext(p) / k == U32_MAX / k;
      assert 1 <= U32_MAX / k < p.nCtx;
      assert U32_MAX / k <= U32_MAX;
      assert Reported(p) == Some(EngineWindow(U32_MAX / k, k));
    }
  }

  /** A product is always divisible by its factor, so the engine's rounding-down
      path is entered exactly when the total saturates and the slots do not
      divide what it saturates to. Unsaturated, each slot's share is the request. */
  lemma NeverRoundedIff(p: Params)
    ensures EngineContext(p) % Slots(p) == 0 <==> p.nCtx * Slots(p) <= U32_MAX || U32_MAX % Slots(p) == 0
    ensures p.nCtx * Slots(p) <= U32_MAX ==> EngineContext(p) / Slots(p) == p.nCtx
  {
    if p.nCtx * Slots(p) <= U32_MAX {
      DivisionExact(p.nCtx, Slots(p));
      assert EngineContext(p) == (EngineContext(p) / Slots(p)) * Slots(p) + EngineContext(p) % Slots(p);
    }
  }

  /** The path is entered: two slots of the largest window leave a remainder. */
  lemma SaturatedTotalIsRounded()
    ensures var p := Params(U32_MAX, 2); IsU32(p) && EngineContext(p) % Slots(p) == 1
  {
  }
}
