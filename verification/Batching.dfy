/** The metrics goroutine on its own: when it uploads, and how much. */
module Batching {
  import opened Wrappers

  /** applyDefaults, for the size of a metrics batch. */
  function ClampBatch(configured: int): (n: nat)
    ensures 1 <= n <= 100
  {
    if configured <= 0 then 10 else if configured > 100 then 100 else configured
  }

  /** A size in range means itself, none means 10, and a larger one 100. */
  lemma ClampMeans(configured: int)
    ensures 1 <= configured <= 100 ==> ClampBatch(configured) == configured
    ensures configured < 1 ==> ClampBatch(configured) == 10
    ensures configured > 100 ==> ClampBatch(configured) == 100
  {
  }

  predicate ShouldUpload(queued: nat, batch: nat, firstUploaded: bool) {
    queued >= batch || (!firstUploaded && queued > 0)
  }

  /** What one tick meets: the sample collected, if any, and the outcome of an upload if there is one. */
  datatype Tick = Tick(sample: Option<nat>, uploadOk: bool)

  /** An upload the loop made. */
  datatype Upload = Upload(batch: seq<nat>, ok: bool)

  /** One of the first n uploads succeeded. */
  ghost predicate Succeeded(uploads: seq<Upload>, n: nat)
    requires n <= |uploads|
  {
    exists j :: 0 <= j < n && uploads[j].ok
  }

  /** The samples collected on some ticks, in order. */
  function Samples(ticks: seq<Tick>): seq<nat> {
    if ticks == [] then [] else Samples(ticks[..|ticks| - 1]) + Sampled(ticks[|ticks| - 1])
  }

  function Sampled(tick: Tick): seq<nat> {
    if tick.sample.Some? then [tick.sample.value] else []
  }

  function Carried(uploads: seq<Upload>): seq<nat> {
    if uploads == [] then [] else Carried(uploads[..|uploads| - 1]) + uploads[|uploads| - 1].batch
  }

  /** Before the first success an upload carries one sample, after it a full batch. */
  ghost predicate SizesFollowTheRule(uploads: seq<Upload>, batchSize: nat) {
    forall k | 0 <= k < |uploads| :: |uploads[k].batch| == if Succeeded(uploads, k) then batchSize else 1
  }

  lemma SucceededBefore(uploads: seq<Upload>, u: Upload, k: nat)
    requires k <= |uploads|
    ensures Succeeded(uploads + [u], k) <==> Succeeded(uploads, k)
  {
    if Succeeded(uploads, k) {
      var j :| 0 <= j < k && uploads[j].ok;
      assert (uploads + [u])[j].ok;
    }
  }

  lemma SucceededAfter(uploads: seq<Upload>, u: Upload)
    ensures Succeeded(uploads + [u], |uploads| + 1) <==> Succeeded(uploads, |uploads|) || u.ok
  {
    var uploads' := uploads + [u];
    SucceededBefore(uploads, u, |uploads|);
    assert uploads'[|uploads|] == u;
    if Succeeded(uploads', |uploads|) {
      var j :| 0 <= j < |uploads| && uploads'[j].ok;
    }
  }

  lemma AppendUpload(uploads: seq<Upload>, u: Upload, batchSize: nat)
    requires SizesFollowTheRule(uploads, batchSize)
    requires |u.batch| == if Succeeded(uploads, |uploads|) then batchSize else 1
    ensures SizesFollowTheRule(uploads + [u], batchSize)
    ensures Succeeded(uploads + [u], |uploads| + 1) <==> Succeeded(uploads, |uploads|) || u.ok
    ensures Carried(uploads + [u]) == Carried(uploads) + u.batch
  {
    assert (uploads + [u])[..|uploads|] == uploads;
    forall k | 0 <= k <= |uploads| ensures Succeeded(uploads + [u], k) <==> Succeeded(uploads, k) {
      SucceededBefore(uploads, u, k);
    }
    SucceededAfter(uploads, u);
  }

  /**
   The loop over ticks until the agent stops.  Before the first success every upload carries one sample,
   after it every upload carries a full batch; the queue left over is shorter than a batch, and empty until
   the first success; and the uploads and the queue together are the samples, each once and in order.
   */
  method CollectAndUpload(configured: int, ticks: seq<Tick>) returns (queue: seq<nat>, firstUploaded: bool, uploads: seq<Upload>)
    ensures |queue| < ClampBatch(configured)
    ensures !firstUploaded ==> queue == []
    ensures firstUploaded <==> Succeeded(uploads, |uploads|)
    ensures SizesFollowTheRule(uploads, ClampBatch(configured))
    ensures Carried(uploads) + queue == Samples(ticks)
  {
    var batchSize := ClampBatch(configured);
    queue, firstUploaded, uploads := [], false, [];
    for i := 0 to |ticks|
      invariant |queue| < batchSize
      invariant !firstUploaded ==> queue == []
      invariant firstUploaded <==> Succeeded(uploads, |uploads|)
      invariant SizesFollowTheRule(uploads, batchSize)
      invariant Carried(uploads) + queue == Samples(ticks[..i])
    {
      assert ticks[..i + 1][..i] == ticks[..i];
      assert Samples(ticks[..i + 1]) == Samples(ticks[..i]) + Sampled(ticks[i]);
      if ticks[i].sample.Some? {
        var m := ticks[i].sample.value;
        assert Carried(uploads) + (queue + [m]) == (Carried(uploads) + queue) + [m];
        queue := queue + [m];
        if ShouldUpload(|queue|, batchSize, firstUploaded) {
          var u := Upload(queue, ticks[i].uploadOk);
          AppendUpload(uploads, u, batchSize);
          uploads := uploads + [u];
          if ticks[i].uploadOk {
            firstUploaded := true;
          }
          queue := [];
        }
      }
    }
    assert ticks[..|ticks|] == ticks;
  }
}
