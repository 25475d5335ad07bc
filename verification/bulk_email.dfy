/**
 * `handleSendBulkEmails` of components/admin/BulkEmailButton.tsx: pick the
 * responses still waiting for a confirmation email and post them to the
 * confirmation route two at a time, counting failures and reporting
 * progress after every pair. The throttling timer and the parallel requests
 * inside a pair are run in sequence here.
 */
module BulkEmail {
  import opened Wrappers
  import opened Records

  const BATCH_SIZE: nat := 2

  /** `!response.welcome_email_sent && response.email`. */
  predicate IsPending(r: Response) {
    r.welcome_email_sent != Some(true) && r.email != ""
  }

  /** `responses.filter(...)`: the pending responses, in their original order. */
  function Pending(rs: seq<Response>): (p: seq<Response>)
    ensures |p| <= |rs|
    ensures forall i :: 0 <= i < |p| ==> IsPending(p[i])
  {
    if rs == [] then []
    else Pending(rs[..|rs| - 1]) + (if IsPending(rs[|rs| - 1]) then [rs[|rs| - 1]] else [])
  }

  /** A response is picked exactly when it is in the list and pending. */
  lemma {:induction false} PendingMembers(rs: seq<Response>, r: Response)
    ensures r in Pending(rs) <==> r in rs && IsPending(r)
  {
    if rs != [] {
      PendingMembers(rs[..|rs| - 1], r);
      assert rs == rs[..|rs| - 1] + [rs[|rs| - 1]];
    }
  }

  /** Picking keeps the original order: it distributes over concatenation. */
  lemma {:induction false} PendingOfConcat(a: seq<Response>, b: seq<Response>)
    ensures Pending(a + b) == Pending(a) + Pending(b)
  {
    if b != [] {
      assert (a + b)[..|a + b| - 1] == a + b[..|b| - 1];
      PendingOfConcat(a, b[..|b| - 1]);
    } else {
      assert a + b == a;
    }
  }

  /** The ids posted for a list of responses. */
  function Ids(rs: seq<Response>): (ids: seq<string>)
    ensures |ids| == |rs| && forall i :: 0 <= i < |rs| ==> ids[i] == rs[i].id
  {
    if rs == [] then [] else [rs[0].id] + Ids(rs[1..])
  }

  /** Consecutive slices of at most two, from index `i` on. */
  function Batches(ids: seq<string>, i: nat): (bs: seq<seq<string>>)
    ensures forall j :: 0 <= j < |bs| ==> 1 <= |bs[j]| <= BATCH_SIZE
    decreases |ids| - i
  {
    if i >= |ids| then [] else [ids[i..Min(i + BATCH_SIZE, |ids|)]] + Batches(ids, i + BATCH_SIZE)
  }

  function Flatten(bs: seq<seq<string>>): seq<string> {
    if bs == [] then [] else bs[0] + Flatten(bs[1..])
  }

  lemma {:induction false} FlattenOfConcat(a: seq<seq<string>>, b: seq<seq<string>>)
    ensures Flatten(a + b) == Flatten(a) + Flatten(b)
  {
    if a != [] {
      assert (a + b)[1..] == a[1..] + b;
      FlattenOfConcat(a[1..], b);
    } else {
      assert a + b == b;
    }
  }

  /** The batches, put back together, are the ids in order: each id is posted exactly once. */
  lemma {:induction false} BatchesCoverInOrder(ids: seq<string>, i: nat)
    requires i <= |ids|
    ensures Flatten(Batches(ids, i)) == ids[i..]
    decreases |ids| - i
  {
    if i < |ids| {
      var end := Min(i + BATCH_SIZE, |ids|);
      BatchesCoverInOrder(ids, end);
      assert ids[i..] == ids[i..end] + ids[end..];
    }
  }

  /** There are `ceil(n / 2)` batches. */
  lemma {:induction false} BatchCount(ids: seq<string>, i: nat)
    requires i <= |ids|
    ensures |Batches(ids, i)| == (|ids| - i + 1) / 2
    decreases |ids| - i
  {
    if i < |ids| {
      BatchCount(ids, Min(i + BATCH_SIZE, |ids|));
    }
  }

  /** How many of the first `n` requests failed; `delivered(k)` is whether request `k` came back ok. */
  function Failures(n: nat, delivered: nat -> bool): (f: nat)
    ensures f <= n
  {
    if n == 0 then 0 else Failures(n - 1, delivered) + (if delivered(n - 1) then 0 else 1)
  }

  function Min(a: int, b: int): int {
    if a <= b then a else b
  }

  /** The `progress` state after a batch. */
  datatype Progress = Progress(sent: nat, total: nat, failed: nat)

  /** What the admin is told at the end. */
  datatype Notice = NothingPending | Cancelled | Completed(succeeded: int, failed: nat)

  /**
   * The button's run. `confirmed` is the answer to the confirmation dialog;
   * `delivered(k)` is whether the `k`-th posted request returned ok. The
   * results are the ids posted, grouped by batch, the progress after each
   * batch, the final notice and how many times `onComplete` ran.
   */
  method SendBulkEmails(responses: seq<Response>, confirmed: bool, delivered: nat -> bool)
    returns (batches: seq<seq<string>>, progress: seq<Progress>, notice: Notice, completions: nat)
    ensures var ids := Ids(Pending(responses));
      if ids == [] then batches == [] && progress == [] && notice == NothingPending && completions == 0
      else if !confirmed then batches == [] && progress == [] && notice == Cancelled && completions == 0
      else
        && batches == Batches(ids, 0)
        && Reported(progress, |ids|, delivered)
        && notice == Completed(|ids| - Failures(|ids|, delivered), Failures(|ids|, delivered))
        && completions == 1
  {
    var pending := Pending(responses);
    if |pending| == 0 {
      return [], [], NothingPending, 0;
    }
    if !confirmed {
      return [], [], Cancelled, 0;
    }
    var failedCount;
    batches, progress, failedCount := SendWithThrottling(Ids(pending), delivered);
    // `onComplete` runs once, when `processNext` finds nothing left.
    completions := 1;
    notice := Completed(|pending| - failedCount, failedCount);
  }

  /** The progress after each batch `j`: `min(2 * (j + 1), total)` sent, and the failures among them. */
  ghost predicate Reported(progress: seq<Progress>, total: nat, delivered: nat -> bool) {
    forall j :: 0 <= j < |progress| ==>
      progress[j] == Progress(Min(2 * (j + 1), total), total, Failures(Min(2 * (j + 1), total), delivered))
  }

  lemma ReportedSnoc(progress: seq<Progress>, total: nat, delivered: nat -> bool)
    requires Reported(progress, total, delivered)
    ensures var done := Min(2 * (|progress| + 1), total);
      Reported(progress + [Progress(done, total, Failures(done, delivered))], total, delivered)
  {
  }

  /** `sendEmailWithThrottling`: `processNext` over the pending ids, two at a time. */
  method SendWithThrottling(ids: seq<string>, delivered: nat -> bool)
    returns (batches: seq<seq<string>>, progress: seq<Progress>, failedCount: nat)
    ensures batches == Batches(ids, 0) && |progress| == |batches|
    ensures Reported(progress, |ids|, delivered)
    ensures failedCount == Failures(|ids|, delivered)
  {
    var total := |ids|;
    var currentIndex := 0;
    batches, progress, failedCount := [], [], 0;
    while currentIndex < total
      invariant currentIndex == 2 * |batches| && |progress| == |batches|
      invariant currentIndex <= total + 1
      invariant batches + Batches(ids, currentIndex) == Batches(ids, 0)
      invariant failedCount == Failures(Min(currentIndex, total), delivered)
      invariant Reported(progress, total, delivered)
      decreases total - currentIndex
    {
      var end := Min(currentIndex + BATCH_SIZE, total);
      var batch := ids[currentIndex..end];
      assert Batches(ids, currentIndex) == [batch] + Batches(ids, currentIndex + BATCH_SIZE);
      failedCount := SendBatch(currentIndex, end, delivered, failedCount);
      currentIndex := currentIndex + BATCH_SIZE;
      assert batches + ([batch] + Batches(ids, currentIndex)) == (batches + [batch]) + Batches(ids, currentIndex);
      batches := batches + [batch];
      ReportedSnoc(progress, total, delivered);
      progress := progress + [Progress(Min(currentIndex, total), total, failedCount)];
    }
  }

  /** The requests of one batch, `start` to `end`, adding each failure to the count. */
  method SendBatch(start: nat, end: nat, delivered: nat -> bool, failedBefore: nat) returns (failedCount: nat)
    requires start <= end && failedBefore == Failures(start, delivered)
    ensures failedCount == Failures(end, delivered)
  {
    failedCount := failedBefore;
    for k := start to end
      invariant failedCount == Failures(k, delivered)
    {
      if !delivered(k) {
        failedCount := failedCount + 1;
      }
    }
  }

  /** Progress never reports more than the total, and never goes backwards. */
  lemma ProgressBounded(n: nat, delivered: nat -> bool, j: nat, j': nat)
    requires j <= j'
    ensures Min(2 * (j + 1), n) <= Min(2 * (j' + 1), n) <= n
    ensures Failures(Min(2 * (j + 1), n), delivered) <= Failures(Min(2 * (j' + 1), n), delivered)
  {
    FailuresMonotone(Min(2 * (j + 1), n), Min(2 * (j' + 1), n), delivered);
  }

  lemma {:induction false} FailuresMonotone(m: nat, n: nat, delivered: nat -> bool)
    requires m <= n
    ensures Failures(m, delivered) <= Failures(n, delivered)
  {
    if m < n {
      FailuresMonotone(m, n - 1, delivered);
    }
  }
}
