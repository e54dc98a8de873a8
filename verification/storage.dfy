/** The low-storage check of `useStorage` (hooks/use-storage.ts). */
module StorageCheck {
  import opened Wrappers

  /** `navigator.storage.estimate()` in bytes; `None` is an undefined field. */
  datatype Estimate = Estimate(quota: Option<int>, usage: Option<int>)

  /** The estimate API is absent, threw, or answered. */
  datatype EstimateOutcome = Unsupported | Threw | Estimated(estimate: Estimate)

  /** Less than this much free space counts as low; exactly this much is low too. */
  const LowStorageThreshold: int := 50 * 1024 * 1024

  /** `estimate.quota ? estimate.quota - (estimate.usage || 0) : 0`. */
  function AvailableSpace(e: Estimate): (r: int)
    ensures e.quota.None? || e.quota.value == 0 ==> r == 0
    ensures e.quota.Some? && e.quota.value != 0 ==> r + e.usage.GetOr(0) == e.quota.value
  {
    if e.quota.Some? && e.quota.value != 0 then e.quota.value - e.usage.GetOr(0) else 0
  }

  /** `hasStorage` after `checkStorage` ran, given its value before (it starts as `true`). */
  function CheckStorage(hasStorage: bool, outcome: EstimateOutcome): (r: bool)
    ensures !outcome.Estimated? ==> r == hasStorage
    ensures outcome.Estimated? ==> (r <==> AvailableSpace(outcome.estimate) > LowStorageThreshold)
  {
    match outcome
    case Estimated(e) => AvailableSpace(e) > LowStorageThreshold
    case _ => hasStorage
  }

  /** A missing or zero quota always reports low storage, and so does exactly
      50 MiB free; one byte more is enough. */
  lemma ThresholdBoundary(usage: Option<int>)
    ensures !CheckStorage(true, Estimated(Estimate(None, usage)))
    ensures !CheckStorage(true, Estimated(Estimate(Some(0), usage)))
    ensures !CheckStorage(true, Estimated(Estimate(Some(LowStorageThreshold), Some(0))))
    ensures CheckStorage(false, Estimated(Estimate(Some(LowStorageThreshold + 1), None)))
  {
  }
}

/** The same check, duplicated inside `StorageProvider`
    (components/storage-provider.tsx). */
module StorageProvider {
  import opened Wrappers
  import StorageCheck

  /** The provider's `checkStorage`; its code repeats the hook's line for line. */
  function ProviderCheckStorage(hasStorage: bool, outcome: StorageCheck.EstimateOutcome): (r: bool)
    ensures !outcome.Estimated? ==> r == hasStorage
    ensures outcome.Estimated? && (outcome.estimate.quota.None? || outcome.estimate.quota.value == 0) ==> !r
    ensures outcome.Estimated? && outcome.estimate.quota.Some? && outcome.estimate.quota.value != 0 ==>
              (r <==> outcome.estimate.quota.value - outcome.estimate.usage.GetOr(0) > StorageCheck.LowStorageThreshold)
  {
    match outcome
    case Estimated(e) =>
      var available := if e.quota.Some? && e.quota.value != 0 then e.quota.value - e.usage.GetOr(0) else 0;
      available > 50 * 1024 * 1024
    case _ => hasStorage
  }

  /** The provider and the hook always agree. */
  lemma ProviderAgreesWithHook(hasStorage: bool, outcome: StorageCheck.EstimateOutcome)
    ensures ProviderCheckStorage(hasStorage, outcome) == StorageCheck.CheckStorage(hasStorage, outcome)
  {
  }
}
