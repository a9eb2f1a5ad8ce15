/** `Phase3BackendIntegrator.choose_optimal_processor`: the engine the user
    interface hands a batch of database files to. Each file is its existence
    and its size; each processor is whether it is enabled and constructed. */
module UiMode {
  import opened Sizes

  datatype DbFile = DbFile(exists_: bool, size: nat)

  datatype Backends = Backends(
    enableAsync: bool, asyncPresent: bool,
    enableDistributed: bool, distributedPresent: bool,
    enableCaching: bool, cachedPresent: bool)

  const LargeAverage: nat := 500000

  /** `sum(size(f) for f in db_files if f.exists())` */
  function ExistingTotal(files: seq<DbFile>): (t: nat)
    ensures forall i :: 0 <= i < |files| && files[i].exists_ ==> files[i].size <= t
  {
    if |files| == 0 then 0
    else (if files[0].exists_ then files[0].size else 0) + ExistingTotal(files[1..])
  }

  function ChooseOptimalProcessor(files: seq<DbFile>, b: Backends): (m: string)
    ensures m == "none" <==> |files| == 0
    ensures m == "none" || m == "async" || m == "distributed" || m == "cached" || m == "sequential"
    ensures m == "async" <==>
      |files| >= 4 && ExistingTotal(files) > LargeAverage * |files| && b.enableAsync && b.asyncPresent
    ensures m == "distributed" <==>
      |files| >= 4 && ExistingTotal(files) > LargeAverage * |files| &&
      !(b.enableAsync && b.asyncPresent) && b.enableDistributed && b.distributedPresent
    ensures m == "cached" <==>
      |files| >= 2 && !(|files| >= 4 && ExistingTotal(files) > LargeAverage * |files|) &&
      b.enableCaching && b.cachedPresent
  {
    if |files| == 0 then "none"
    else
      var count := |files|;
      var avg := Average(ExistingTotal(files), count);
      AverageExceeds(ExistingTotal(files), count, LargeAverage);
      if count >= 4 && avg > LargeAverage as real then
        if b.enableAsync && b.asyncPresent then "async"
        else if b.enableDistributed && b.distributedPresent then "distributed"
        else "sequential"
      else if count >= 2 then
        if b.enableCaching && b.cachedPresent then "cached" else "sequential"
      else "sequential"
  }

  /** A missing file adds nothing to the total although it still counts in
      the average's denominator. */
  lemma MissingFileAddsNothing(files: seq<DbFile>, size: nat)
    ensures ExistingTotal([DbFile(false, size)] + files) == ExistingTotal(files)
  {
    assert ([DbFile(false, size)] + files)[1..] == files;
  }
}
