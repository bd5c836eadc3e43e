/** Splitting the VCF between independent runs: run `thread_i` of `n_threads` (1-based on the
    command line) handles the sites whose 1-based position in the file leaves remainder
    `thread_i - 1` modulo `n_threads`. */
module Sharding {
  import opened Wrappers

  datatype ThreadError =
    | ThreadIndexNotPositive(threadI: int)
    | ThreadIndexAboveCount(threadI: int, nThreads: int)

  /** The argument check on `--thread-i` and `--n-threads`, then the conversion to a 0-based
      index. */
  function ZeroBasedThread(threadI: int, nThreads: int): (r: Result<nat, ThreadError>)
    ensures r.Ok? <==> 1 <= threadI <= nThreads
    ensures r.Ok? ==> r.value + 1 == threadI && r.value < nThreads
    ensures r.Err? && threadI <= 0 ==> r.error == ThreadIndexNotPositive(threadI)
  {
    if threadI <= 0 then Err(ThreadIndexNotPositive(threadI))
    else if threadI > nThreads then Err(ThreadIndexAboveCount(threadI, nThreads))
    else Ok(threadI - 1)
  }

  /** Whether the run with 0-based index `thread0` handles the `site`-th site (1-based). */
  predicate Processes(site: nat, nThreads: nat, thread0: nat)
    requires nThreads > 0
  {
    site % nThreads == thread0
  }

  /** Every site is handled by exactly one of the `nThreads` runs. */
  lemma ExactlyOneRun(site: nat, nThreads: nat)
    requires nThreads > 0
    ensures Processes(site, nThreads, site % nThreads) && site % nThreads < nThreads
    ensures forall t :: 0 <= t < nThreads && Processes(site, nThreads, t) ==> t == site % nThreads
  {
  }

  /** The 1-based site numbers among the first `m` that run `thread0` handles, in file order. */
  function ShardSites(m: nat, nThreads: nat, thread0: nat): seq<nat>
    requires nThreads > 0
  {
    if m == 0 then []
    else ShardSites(m - 1, nThreads, thread0) + (if Processes(m, nThreads, thread0) then [m] else [])
  }

  /** A run handles exactly the sites of its residue, each once and in increasing order. */
  lemma {:induction false} ShardSitesExact(m: nat, nThreads: nat, thread0: nat)
    requires nThreads > 0
    ensures forall k: int :: k in ShardSites(m, nThreads, thread0) <==> 1 <= k <= m && k % nThreads == thread0
    ensures forall i, j :: 0 <= i < j < |ShardSites(m, nThreads, thread0)| ==>
      ShardSites(m, nThreads, thread0)[i] < ShardSites(m, nThreads, thread0)[j]
  {
    if m > 0 {
      ShardSitesExact(m - 1, nThreads, thread0);
      var prev := ShardSites(m - 1, nThreads, thread0);
      var s := ShardSites(m, nThreads, thread0);
      assert s == prev + (if Processes(m, nThreads, thread0) then [m] else []);
      forall k: int ensures k in s <==> 1 <= k <= m && k % nThreads == thread0 {
        assert k in s <==> k in prev || (k == m && Processes(m, nThreads, thread0));
      }
      forall i, j | 0 <= i < j < |s| ensures s[i] < s[j] {
        assert s[i] == prev[i] && prev[i] in prev;
        if j < |prev| {
          assert s[j] == prev[j];
        } else {
          assert s[j] == m;
        }
      }
    }
  }

  /** The runs partition the sites: each of the first `m` sites is handled by one run and no other. */
  lemma ShardsPartition(m: nat, nThreads: nat, site: nat)
    requires nThreads > 0 && 1 <= site <= m
    ensures site in ShardSites(m, nThreads, site % nThreads)
    ensures forall t :: 0 <= t < nThreads && t != site % nThreads ==> site !in ShardSites(m, nThreads, t)
  {
    ShardSitesExact(m, nThreads, site % nThreads);
    forall t | 0 <= t < nThreads && t != site % nThreads ensures site !in ShardSites(m, nThreads, t) {
      ShardSitesExact(m, nThreads, t);
    }
  }
}
