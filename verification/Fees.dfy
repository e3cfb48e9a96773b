/**
 Per-account fee schedules. Money is counted in cents; rates are in basis points.
 */
module Fees {
  import opened Wrappers
  import opened Totals

  datatype FeeKind = CollectionFee | DisbursementFee

  datatype BpsField =
    CollectionBelow | CollectionAbove | DisbursementBelow | DisbursementAbove | TransferRate

  datatype FeeConfig = FeeConfig(
    collectionBelowBps: int,
    collectionThreshold: int,
    collectionAboveBps: int,
    disbursementBelowBps: int,
    disbursementThreshold: int,
    disbursementAboveBps: int,
    transferBps: int)

  datatype Fee = Fee(amount: int, bps: int)

  /** A partial update. A rate is any JavaScript number; a threshold is in cents. */
  datatype FeePatch = FeePatch(
    bps: map<BpsField, real>,
    collectionThreshold: Option<int>,
    disbursementThreshold: Option<int>)

  const MAX_BPS := 10000
  const DEFAULT_CONFIG := FeeConfig(500, 300000, 200, 500, 300000, 200, 200)
  const FIELD_ORDER: seq<BpsField> :=
    [CollectionBelow, CollectionAbove, DisbursementBelow, DisbursementAbove, TransferRate]

  function Bps(config: FeeConfig, field: BpsField): int {
    match field
    case CollectionBelow => config.collectionBelowBps
    case CollectionAbove => config.collectionAboveBps
    case DisbursementBelow => config.disbursementBelowBps
    case DisbursementAbove => config.disbursementAboveBps
    case TransferRate => config.transferBps
  }

  function WithBps(config: FeeConfig, field: BpsField, value: int): FeeConfig {
    match field
    case CollectionBelow => config.(collectionBelowBps := value)
    case CollectionAbove => config.(collectionAboveBps := value)
    case DisbursementBelow => config.(disbursementBelowBps := value)
    case DisbursementAbove => config.(disbursementAboveBps := value)
    case TransferRate => config.(transferBps := value)
  }

  ghost predicate Bounded(config: FeeConfig) {
    forall field :: 0 <= Bps(config, field) <= MAX_BPS
  }

  /** Number.isInteger(value) && 0 <= value <= 10000 */
  predicate ValidRate(value: real) {
    value == value.Floor as real && 0 <= value.Floor <= MAX_BPS
  }

  function WithThresholds(config: FeeConfig, patch: FeePatch): FeeConfig {
    config.(collectionThreshold := patch.collectionThreshold.GetOr(config.collectionThreshold),
            disbursementThreshold := patch.disbursementThreshold.GetOr(config.disbursementThreshold))
  }

  /** The schedule after a patch whose rates are all acceptable. */
  function Patched(config: FeeConfig, patch: FeePatch): FeeConfig {
    var rate := (field: BpsField) =>
      if field in patch.bps then patch.bps[field].Floor else Bps(config, field);
    WithThresholds(FeeConfig(rate(CollectionBelow), config.collectionThreshold, rate(CollectionAbove),
                             rate(DisbursementBelow), config.disbursementThreshold, rate(DisbursementAbove),
                             rate(TransferRate)),
                   patch)
  }

  /** The schedule after the first n fields of the patch. */
  function PatchedUpTo(config: FeeConfig, patch: FeePatch, n: nat): FeeConfig
    requires n <= |FIELD_ORDER|
  {
    if n == 0 then config
    else
      var before, field := PatchedUpTo(config, patch, n - 1), FIELD_ORDER[n - 1];
      if field in patch.bps then WithBps(before, field, patch.bps[field].Floor) else before
  }

  /** Taking the fields one by one gives the patched schedule. */
  lemma {:induction false} PatchedByFields(config: FeeConfig, patch: FeePatch)
    ensures WithThresholds(PatchedUpTo(config, patch, |FIELD_ORDER|), patch) == Patched(config, patch)
  {
    assert FIELD_ORDER[0] == CollectionBelow && FIELD_ORDER[1] == CollectionAbove && FIELD_ORDER[2] == DisbursementBelow
        && FIELD_ORDER[3] == DisbursementAbove && FIELD_ORDER[4] == TransferRate;
    var target := Patched(config, patch);
    assert PatchedUpTo(config, patch, 1) == config.(collectionBelowBps := target.collectionBelowBps);
    assert PatchedUpTo(config, patch, 2)
        == PatchedUpTo(config, patch, 1).(collectionAboveBps := target.collectionAboveBps);
    assert PatchedUpTo(config, patch, 3)
        == PatchedUpTo(config, patch, 2).(disbursementBelowBps := target.disbursementBelowBps);
    assert PatchedUpTo(config, patch, 4)
        == PatchedUpTo(config, patch, 3).(disbursementAboveBps := target.disbursementAboveBps);
    assert PatchedUpTo(config, patch, 5) == PatchedUpTo(config, patch, 4).(transferBps := target.transferBps);
  }

  lemma FieldIndex(field: BpsField) returns (j: nat)
    ensures j < |FIELD_ORDER| && FIELD_ORDER[j] == field
  {
    j := match field
      case CollectionBelow => 0
      case CollectionAbove => 1
      case DisbursementBelow => 2
      case DisbursementAbove => 3
      case TransferRate => 4;
  }

  /** The field order names every rate. */
  lemma EveryField(patch: FeePatch)
    ensures (forall j :: 0 <= j < |FIELD_ORDER| && FIELD_ORDER[j] in patch.bps ==> ValidRate(patch.bps[FIELD_ORDER[j]]))
       <==> Acceptable(patch)
  {
    if forall j :: 0 <= j < |FIELD_ORDER| && FIELD_ORDER[j] in patch.bps ==> ValidRate(patch.bps[FIELD_ORDER[j]]) {
      forall field | field in patch.bps ensures ValidRate(patch.bps[field]) {
        var j := FieldIndex(field);
      }
    }
  }

  predicate Acceptable(patch: FeePatch) {
    forall field :: field in patch.bps ==> ValidRate(patch.bps[field])
  }

  /** Account creation keeps the acceptable rates of its patch and ignores the others. */
  function Clamped(patch: FeePatch): FeeConfig {
    Patched(DEFAULT_CONFIG,
            patch.(bps := map field | field in patch.bps && ValidRate(patch.bps[field]) :: patch.bps[field]))
  }

  /** A patch is acceptable exactly when each of its rates is a whole number from 0 to 10000. */
  lemma AcceptableIff(patch: FeePatch)
    ensures Acceptable(patch) <==> forall field :: field in patch.bps ==> WholeRate(patch.bps[field])
  {
    assert forall field :: field in patch.bps ==> (ValidRate(patch.bps[field]) <==> WholeRate(patch.bps[field]));
  }

  predicate WholeRate(value: real) {
    0.0 <= value <= 10000.0 && value == value.Floor as real
  }

  /** The rate a patch gives a field that stood at `stored`. */
  function NewRate(patch: FeePatch, field: BpsField, stored: int): real {
    if field in patch.bps then patch.bps[field] else stored as real
  }

  /** An updated schedule takes exactly the values the patch names, and is bounded if the stored one was. */
  lemma PatchedMeaning(config: FeeConfig, patch: FeePatch)
    requires Acceptable(patch)
    ensures var c := Patched(config, patch);
            && c.collectionBelowBps as real == NewRate(patch, CollectionBelow, config.collectionBelowBps)
            && c.collectionAboveBps as real == NewRate(patch, CollectionAbove, config.collectionAboveBps)
            && c.disbursementBelowBps as real == NewRate(patch, DisbursementBelow, config.disbursementBelowBps)
            && c.disbursementAboveBps as real == NewRate(patch, DisbursementAbove, config.disbursementAboveBps)
            && c.transferBps as real == NewRate(patch, TransferRate, config.transferBps)
            && (patch.collectionThreshold == None ==> c.collectionThreshold == config.collectionThreshold)
            && (forall t :: patch.collectionThreshold == Some(t) ==> c.collectionThreshold == t)
            && (patch.disbursementThreshold == None ==> c.disbursementThreshold == config.disbursementThreshold)
            && (forall t :: patch.disbursementThreshold == Some(t) ==> c.disbursementThreshold == t)
    ensures Bounded(config) ==> Bounded(Patched(config, patch))
  {
    forall f | f in patch.bps ensures patch.bps[f] == patch.bps[f].Floor as real && 0 <= patch.bps[f].Floor <= MAX_BPS {
      assert ValidRate(patch.bps[f]);
    }
    assert Bounded(config) ==>
        0 <= Bps(config, CollectionBelow) <= MAX_BPS && 0 <= Bps(config, CollectionAbove) <= MAX_BPS
        && 0 <= Bps(config, DisbursementBelow) <= MAX_BPS && 0 <= Bps(config, DisbursementAbove) <= MAX_BPS
        && 0 <= Bps(config, TransferRate) <= MAX_BPS;
  }

  /** The rate that creation gives a field whose default is `standard`. */
  ghost predicate KeptOrDefault(patch: FeePatch, field: BpsField, standard: int, rate: int) {
    if field in patch.bps && WholeRate(patch.bps[field]) then patch.bps[field] == rate as real else rate == standard
  }

  /**
   Whatever rates the creation request carries, each whole rate from 0 to 10000 is kept, any other gives way
   to 5% below and 2% from 3000.00 and 2% for transfers, and the stored schedule is bounded.
   */
  lemma ClampedMeaning(patch: FeePatch)
    ensures Bounded(Clamped(patch)) && Bounded(DEFAULT_CONFIG)
    ensures var c := Clamped(patch);
            && KeptOrDefault(patch, CollectionBelow, 500, c.collectionBelowBps)
            && KeptOrDefault(patch, CollectionAbove, 200, c.collectionAboveBps)
            && KeptOrDefault(patch, DisbursementBelow, 500, c.disbursementBelowBps)
            && KeptOrDefault(patch, DisbursementAbove, 200, c.disbursementAboveBps)
            && KeptOrDefault(patch, TransferRate, 200, c.transferBps)
            && (patch.collectionThreshold == None ==> c.collectionThreshold == 300000)
            && (forall t :: patch.collectionThreshold == Some(t) ==> c.collectionThreshold == t)
            && (patch.disbursementThreshold == None ==> c.disbursementThreshold == 300000)
            && (forall t :: patch.disbursementThreshold == Some(t) ==> c.disbursementThreshold == t)
  {
    var kept := patch.(bps := map field | field in patch.bps && ValidRate(patch.bps[field]) :: patch.bps[field]);
    assert Bounded(DEFAULT_CONFIG);
    PatchedMeaning(DEFAULT_CONFIG, kept);
    hide Patched;
    forall field | field in patch.bps ensures field in kept.bps <==> WholeRate(patch.bps[field]) {
      AcceptableIff(FeePatch(map[field := patch.bps[field]], None, None));
    }
  }

  /** toFixed(2) of numer / 10000 cents: the nearest cent, ties away from zero. */
  function RoundHalfUp(numer: int): int {
    if numer >= 0 then (numer + 5000) / 10000 else -((5000 - numer) / 10000)
  }

  function FeeAt(amount: int, bps: int): int {
    RoundHalfUp(amount * bps)
  }

  /** A fee of bps / 10000 of an amount, to the nearest cent; half a cent goes away from zero. */
  ghost predicate NearestCent(amount: int, bps: int, fee: int) {
    if amount * bps >= 0 then amount * bps - 5000 < 10000 * fee <= amount * bps + 5000
    else amount * bps - 5000 <= 10000 * fee < amount * bps + 5000
  }

  /** The fee is the one nearest cent. */
  lemma NearestIff(amount: int, bps: int, fee: int)
    ensures NearestCent(amount, bps, fee) <==> fee == FeeAt(amount, bps)
  {
  }

  function Threshold(kind: FeeKind, config: FeeConfig): int {
    if kind.CollectionFee? then config.collectionThreshold else config.disbursementThreshold
  }

  function TierBps(kind: FeeKind, config: FeeConfig, below: bool): int {
    match kind
    case CollectionFee => if below then config.collectionBelowBps else config.collectionAboveBps
    case DisbursementFee => if below then config.disbursementBelowBps else config.disbursementAboveBps
  }

  function ComputeFee(kind: FeeKind, config: FeeConfig, amount: int): Fee {
    var bps := TierBps(kind, config, amount < Threshold(kind, config));
    Fee(FeeAt(amount, bps), bps)
  }

  function ComputeTransferFee(config: FeeConfig, amount: int): Fee {
    Fee(FeeAt(amount, config.transferBps), config.transferBps)
  }

  // ------------------------------- Arithmetic -------------------------------

  /** A fee lies between nothing and the amount and is off by at most half a cent. */
  lemma FeeBounds(amount: int, bps: int)
    requires 0 <= amount && 0 <= bps <= MAX_BPS
    ensures 0 <= FeeAt(amount, bps) <= amount
    ensures Abs(20000 * FeeAt(amount, bps) - 2 * (amount * bps)) <= 10000
  {
    assert 0 <= amount * bps <= amount * MAX_BPS by { Scale(amount, bps); }
  }

  lemma Scale(amount: int, bps: int)
    requires 0 <= amount && 0 <= bps <= MAX_BPS
    ensures 0 <= amount * bps <= amount * MAX_BPS
  {
    assert amount * (MAX_BPS - bps) >= 0;
  }

  /** One more cent raises the fee by at most one cent and never lowers it. */
  lemma FeeStep(amount: int, bps: int)
    requires 0 <= amount && 0 <= bps <= MAX_BPS
    ensures FeeAt(amount, bps) <= FeeAt(amount + 1, bps) <= FeeAt(amount, bps) + 1
  {
    Scale(amount, bps);
    assert (amount + 1) * bps == amount * bps + bps;
  }

  /** Within one tier both the fee and the amount net of fee grow with the amount. */
  lemma {:induction false} FeeMonotone(low: int, high: int, bps: int)
    requires 0 <= low <= high && 0 <= bps <= MAX_BPS
    ensures FeeAt(low, bps) <= FeeAt(high, bps)
    ensures low - FeeAt(low, bps) <= high - FeeAt(high, bps)
    decreases high - low
  {
    if low < high {
      FeeMonotone(low, high - 1, bps);
      FeeStep(high - 1, bps);
    }
  }

  function Sum(parts: seq<nat>): nat {
    if parts == [] then 0 else parts[0] + Sum(parts[1..])
  }

  function SumOfFees(parts: seq<nat>, bps: int): int {
    if parts == [] then 0 else FeeAt(parts[0], bps) + SumOfFees(parts[1..], bps)
  }

  /** Splitting an amount into n parts of one tier moves the total fee by at most (n + 1) / 2 cents. */
  lemma {:induction false} SplitFee(parts: seq<nat>, bps: int)
    requires 0 <= bps <= MAX_BPS
    ensures 2 * Abs(FeeAt(Sum(parts), bps) - SumOfFees(parts, bps)) <= |parts| + 1
  {
    SplitError(parts, bps);
    FeeBounds(Sum(parts), bps);
  }

  lemma {:induction false} SplitError(parts: seq<nat>, bps: int)
    requires 0 <= bps <= MAX_BPS
    ensures Abs(20000 * SumOfFees(parts, bps) - 2 * (Sum(parts) * bps)) <= 10000 * |parts|
  {
    if parts != [] {
      var head, tail := parts[0], Sum(parts[1..]);
      SplitError(parts[1..], bps);
      FeeBounds(head, bps);
      Distribute(head, tail, bps);
      AddErrors(FeeAt(head, bps), SumOfFees(parts[1..], bps), head * bps, tail * bps, |parts| - 1);
    }
  }

  lemma Distribute(a: int, b: int, c: int)
    ensures (a + b) * c == a * c + b * c
  {
  }

  /** The error of one part and the error of the others add up. */
  lemma AddErrors(fee: int, fees: int, exact: int, exacts: int, n: nat)
    requires Abs(20000 * fee - 2 * exact) <= 10000 && Abs(20000 * fees - 2 * exacts) <= 10000 * n
    ensures Abs(20000 * (fee + fees) - 2 * (exact + exacts)) <= 10000 * (n + 1)
  {
  }

  function Net(kind: FeeKind, config: FeeConfig, amount: int): int {
    amount - ComputeFee(kind, config, amount).amount
  }

  /**
   Across the tier boundary the amount received can fall as the amount paid grows. It never does
   exactly when the boundary itself is not a drop.
   */
  lemma NetMonotoneIff(kind: FeeKind, config: FeeConfig)
    requires Bounded(config)
    ensures (forall low, high :: 0 <= low <= high ==> Net(kind, config, low) <= Net(kind, config, high))
       <==> Threshold(kind, config) <= 0
            || Net(kind, config, Threshold(kind, config) - 1) <= Net(kind, config, Threshold(kind, config))
  {
    var t := Threshold(kind, config);
    var below, above := TierBps(kind, config, true), TierBps(kind, config, false);
    assert 0 <= below <= MAX_BPS && 0 <= above <= MAX_BPS by {
      assert 0 <= Bps(config, CollectionBelow) <= MAX_BPS && 0 <= Bps(config, CollectionAbove) <= MAX_BPS;
      assert 0 <= Bps(config, DisbursementBelow) <= MAX_BPS && 0 <= Bps(config, DisbursementAbove) <= MAX_BPS;
    }
    if t <= 0 || Net(kind, config, t - 1) <= Net(kind, config, t) {
      forall low, high | 0 <= low <= high
        ensures Net(kind, config, low) <= Net(kind, config, high)
      {
        if high < t {
          FeeMonotone(low, high, below);
        } else if low >= t {
          FeeMonotone(low, high, above);
        } else {
          FeeMonotone(low, t - 1, below);
          FeeMonotone(t, high, above);
        }
      }
    }
  }

  /** A schedule under which a payer of 30.00 leaves the merchant with less than a payer of 29.99. */
  lemma NetDropExists()
    ensures var config := FeeConfig(0, 3000, 5000, 0, 0, 0, 0);
            Bounded(config) && Net(CollectionFee, config, 2999) > Net(CollectionFee, config, 3000)
  {
  }
}
