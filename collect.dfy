/** The loop both `getCombinedFile` functions share: call the per-subject merge for each
    uid in order, stop at the first exception or the first subject without a frame
    (None), and keep the frames of the others. The per-subject merge is a parameter
    here, so that what is proved about the loop does not depend on how one subject is
    merged. */
module Collecting {
  import opened Results
  import opened Frames

  /** The first n subjects each produced a frame. */
  ghost predicate AllOk(uids: seq<string>, n: nat, merge: string -> Result<Option<Frame>>)
    requires n <= |uids|
  {
    forall k :: 0 <= k < n ==> merge(uids[k]).Success? && merge(uids[k]).value.Some?
  }

  /** Their frames, in uid order. */
  ghost function Collected(uids: seq<string>, n: nat, merge: string -> Result<Option<Frame>>): seq<Frame>
    requires n <= |uids| && AllOk(uids, n, merge)
  {
    if n == 0 then [] else Collected(uids, n - 1, merge) + [merge(uids[n - 1]).value.value]
  }

  lemma CollectedNext(uids: seq<string>, n: nat, merge: string -> Result<Option<Frame>>)
    requires n < |uids| && AllOk(uids, n + 1, merge)
    ensures AllOk(uids, n, merge)
    ensures Collected(uids, n + 1, merge) == Collected(uids, n, merge) + [merge(uids[n]).value.value]
  {
  }

  /** One frame per subject, in uid order, each the subject's own frame; and when every
      subject's frame has the columns cols, so does every collected frame. */
  lemma {:induction false} CollectedFrames(uids: seq<string>, n: nat, merge: string -> Result<Option<Frame>>, cols: seq<string>)
    requires n <= |uids| && AllOk(uids, n, merge)
    requires forall u :: merge(u).Success? && merge(u).value.Some? ==> merge(u).value.value.cols == cols
    ensures |Collected(uids, n, merge)| == n
    ensures forall j :: 0 <= j < n ==> Collected(uids, n, merge)[j] == merge(uids[j]).value.value
    ensures forall j :: 0 <= j < n ==> Collected(uids, n, merge)[j].cols == cols
  {
    if n > 0 {
      CollectedFrames(uids, n - 1, merge, cols);
    }
  }

  /** The loop of `getCombinedFile`: each subject's frame in uid order, the exception of
      the first subject that raises, or None from the first subject that has none. */
  method Collect(uids: seq<string>, merge: string -> Result<Option<Frame>>) returns (r: Result<Option<seq<Frame>>>)
    ensures r.Failure? ==> exists j :: 0 <= j < |uids| && AllOk(uids, j, merge)
                                      && merge(uids[j]) == Failure(r.error)
    ensures r == Success(None) ==> exists j :: 0 <= j < |uids| && AllOk(uids, j, merge)
                                              && merge(uids[j]) == Success(None)
    ensures r.Success? && r.value.Some? ==> AllOk(uids, |uids|, merge) && r.value.value == Collected(uids, |uids|, merge)
    ensures AllOk(uids, |uids|, merge) ==> r.Success? && r.value.Some?
    ensures (forall u :: merge(u) != Success(None)) ==> r != Success(None)
  {
    var dataframes: seq<Frame> := [];
    var i := 0;
    while i < |uids|
      invariant 0 <= i <= |uids|
      invariant AllOk(uids, i, merge)
      invariant dataframes == Collected(uids, i, merge)
    {
      var df := merge(uids[i]);
      if df.Failure? || df.value.None? {
        assert !AllOk(uids, |uids|, merge) by {
          assert !(merge(uids[i]).Success? && merge(uids[i]).value.Some?);
        }
        return if df.Failure? then Failure(df.error) else Success(None);
      }
      dataframes := dataframes + [df.value.value];
      CollectedNext(uids, i, merge);
      i := i + 1;
    }
    return Success(Some(dataframes));
  }
}
