/** `Phase3ProductionProcessor.choose_optimal_processor`: the production
    engine for a batch of database files, from their count and sizes. */
module ProdMode {
  import opened Sizes

  const LargeAverage: nat := 500000

  function ChooseOptimalProcessor(sizes: seq<nat>): (m: string)
    ensures m == "async" || m == "distributed" || m == "cached" || m == "sequential"
    ensures m == "async" <==> |sizes| >= 4 && Sum(sizes) > LargeAverage * |sizes|
    ensures m == "distributed" <==> |sizes| >= 4 && Sum(sizes) <= LargeAverage * |sizes|
    ensures m == "cached" <==> 2 <= |sizes| < 4
    ensures m == "sequential" <==> |sizes| <= 1
  {
    var count := |sizes|;
    var avg := Average(Sum(sizes), count);
    AverageExceeds(Sum(sizes), count, LargeAverage);
    if count >= 4 then
      if avg > LargeAverage as real then "async" else "distributed"
    else if count >= 2 then "cached"
    else "sequential"
  }
}
