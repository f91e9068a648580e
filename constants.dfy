/** The constants table of build/lib/hotplots/constants.py. */
module Constants {
  import opened Wrappers

  const GIGABYTE: nat := 1_000_000_000
  const TERABYTE: nat := 1_000_000_000_000

  /** Expected size in bytes of a finished plot of each k-size. */
  const PLOT_BYTES_BY_K: map<int, nat> := map[
    32 := 108_880_000_000,
    33 := 224_200_000_000,
    34 := 461_490_000_000,
    35 := 949_300_000_000
  ]

  /** STAGED_FILES_ERROR_TERM = 1.05, kept as the exact ratio 105/100. */
  const STAGED_FILES_ERROR_TERM_NUM: nat := 105
  const STAGED_FILES_ERROR_TERM_DEN: nat := 100

  /** `PLOT_BYTES_BY_K[k]`: a k-size outside the table raises KeyError. */
  function PlotBytesByK(k: int): (r: Option<nat>)
    ensures r.Some? <==> 32 <= k <= 35
    ensures r.Some? ==> r.value == PLOT_BYTES_BY_K[k]
  {
    if k in PLOT_BYTES_BY_K then Some(PLOT_BYTES_BY_K[k]) else None
  }

  lemma PlotBytesStrictlyIncreasing(j: int, k: int)
    requires PlotBytesByK(j).Some? && PlotBytesByK(k).Some?
    requires j < k
    ensures PlotBytesByK(j).value < PlotBytesByK(k).value
  {
  }

  lemma TerabyteIsThousandGigabytes()
    ensures TERABYTE == 1000 * GIGABYTE == 1_000_000_000_000
  {
  }

  /** The error term is above one: scaling committed bytes by it never
      makes them smaller, and makes any positive amount strictly larger. */
  lemma ErrorTermOverstates(committed: int)
    ensures committed >= 0 ==>
      STAGED_FILES_ERROR_TERM_DEN * committed <= STAGED_FILES_ERROR_TERM_NUM * committed
    ensures committed > 0 ==>
      STAGED_FILES_ERROR_TERM_DEN * committed < STAGED_FILES_ERROR_TERM_NUM * committed
  {
  }
}
