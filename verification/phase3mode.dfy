/** `Phase3IntegratedProcessor.choose_processing_mode` and the size split of
    `process_hybrid_mode`: which engine converts a batch of database files,
    decided from the number of files and their sizes in bytes. */
module Phase3Mode {
  import opened Sizes

  datatype Config = Config(hybridThreshold: int, enableDistributed: bool, enableAsync: bool)

  const LargeAverage: nat := 500000
  const LargeFile: nat := 200000

  predicate IsMode(m: string)
  {
    m == "distributed_async" || m == "distributed" || m == "async" || m == "sequential"
  }

  function ChooseProcessingMode(cfg: Config, sizes: seq<nat>): (m: string)
    ensures IsMode(m)
    ensures |sizes| >= cfg.hybridThreshold && cfg.enableDistributed ==>
      (m == "distributed_async" <==> Sum(sizes) > LargeAverage * |sizes|) &&
      (m == "distributed" <==> Sum(sizes) <= LargeAverage * |sizes|)
    ensures !(|sizes| >= cfg.hybridThreshold && cfg.enableDistributed) ==>
      (m == "async" <==> |sizes| >= 2 && cfg.enableAsync) &&
      (m == "sequential" <==> !(|sizes| >= 2 && cfg.enableAsync))
  {
    var count := |sizes|;
    var avg := Average(Sum(sizes), count);
    AverageExceeds(Sum(sizes), count, LargeAverage);
    if count >= cfg.hybridThreshold && cfg.enableDistributed then
      if avg > LargeAverage as real then "distributed_async" else "distributed"
    else if count >= 2 && cfg.enableAsync then "async"
    else "sequential"
  }

  /** `[f for f in db_files if size(f) < 200000]` */
  function SmallFiles(sizes: seq<nat>): (r: seq<nat>)
    ensures forall i :: 0 <= i < |r| ==> r[i] < LargeFile
  {
    if |sizes| == 0 then []
    else if sizes[0] < LargeFile then [sizes[0]] + SmallFiles(sizes[1..])
    else SmallFiles(sizes[1..])
  }

  /** `[f for f in db_files if size(f) >= 200000]` */
  function LargeFiles(sizes: seq<nat>): (r: seq<nat>)
    ensures forall i :: 0 <= i < |r| ==> r[i] >= LargeFile
  {
    if |sizes| == 0 then []
    else if sizes[0] >= LargeFile then [sizes[0]] + LargeFiles(sizes[1..])
    else LargeFiles(sizes[1..])
  }

  /** Every file lands in exactly one of the two groups. */
  lemma {:induction false} PartitionIsExact(sizes: seq<nat>)
    ensures multiset(SmallFiles(sizes)) + multiset(LargeFiles(sizes)) == multiset(sizes)
  {
    if |sizes| > 0 {
      PartitionIsExact(sizes[1..]);
      assert sizes == [sizes[0]] + sizes[1..];
    }
  }
}
