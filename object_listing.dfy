/** getObjectInfo lists a bucket with listObjectsV2, one page after another,
    passing each page's continuation token to the next request, until a page
    is not truncated; getObjectNameList keeps the keys of what it found. */
module ObjectListing {
  import opened Java
  import opened Sdk

  /** The summaries gathered, the calls made, and whether no call failed. */
  datatype Listed = Listed(summaries: seq<ObjectSummary>, calls: seq<Call>, ok: bool)

  /** The request's maxKeys: set only for a positive argument. */
  function MaxKeysOf(maxKeys: int): (m: Option<int>)
    ensures m.Some? <==> maxKeys > 0
    ensures m.Some? ==> m.value == maxKeys
  {
    if maxKeys > 0 then Some(maxKeys) else None
  }

  /** The do-while loop of getObjectInfo from a request carrying `token`. */
  function ListV2Pages(be: Backend, log: seq<Call>, bucket: string, maxKeys: Option<int>, token: JString): Listed
    decreases ListingBudget(be, log)
  {
    var c := ListObjectsV2(bucket, maxKeys, token);
    var r := be.answer(log, c);
    if r.SdkClientException? then Listed([], [c], false)
    else if !r.truncated then Listed(r.objects, [c], true)
    else
      TruncatedLeavesBudget(be, log, c);
      var rest := ListV2Pages(be, log + [c], bucket, maxKeys, r.handle);
      Listed(r.objects + rest.summaries, [c] + rest.calls, rest.ok)
  }

  /** getObjectInfo(bucketName, maxKeys): nothing for an empty bucket name or
      after a failed call, otherwise every summary listed. */
  function GetObjectInfoRun(be: Backend, log: seq<Call>, bucketName: JString, maxKeys: int)
    : Run<Option<seq<ObjectSummary>>>
  {
    if StrIsEmpty(bucketName) then Run(None, [])
    else
      var listed := ListV2Pages(be, log, bucketName.value, MaxKeysOf(maxKeys), Null);
      Run(if listed.ok then Some(listed.summaries) else None, listed.calls)
  }

  /** getObjectNameList(bucketName, maxKeys): the keys of what getObjectInfo
      found, or nothing when it found nothing. */
  function GetObjectNameListRun(be: Backend, log: seq<Call>, bucketName: JString, maxKeys: int)
    : Run<Option<seq<string>>>
  {
    var info := GetObjectInfoRun(be, log, bucketName, maxKeys);
    if info.value.None? || info.value.value == [] then Run(None, info.calls)
    else
      var summaries := info.value.value;
      Run(Some(seq(|summaries|, i requires 0 <= i < |summaries| => summaries[i].key)), info.calls)
  }

  /** The summaries of the successful pages among `rs`, page after page. */
  function PageObjects(rs: seq<Reply>): seq<ObjectSummary> {
    if rs == [] then []
    else (if rs[0].Answer? then rs[0].objects else []) + PageObjects(rs[1..])
  }

  /** Every request lists `bucket` with the same maxKeys; the first carries
      `token` and each later one the continuation token of the page before,
      which was truncated. The run stops at its first failure, and when it
      succeeds its last page is the first that was not truncated and the
      result is every page's summaries, in order. */
  lemma {:induction false} ListV2PagesTrace(be: Backend, log: seq<Call>, bucket: string, maxKeys: Option<int>,
                                            token: JString)
    ensures var l := ListV2Pages(be, log, bucket, maxKeys, token);
      var rs := Replies(be, log, l.calls);
      && l.calls != [] && l.calls[0] == ListObjectsV2(bucket, maxKeys, token)
      && (forall k :: 0 <= k < |l.calls| ==>
            l.calls[k].ListObjectsV2? && l.calls[k].bucket == bucket && l.calls[k].maxKeys == maxKeys)
      && (forall k :: 0 <= k < |l.calls| - 1 ==>
            rs[k].Truncated() && l.calls[k + 1].continuationToken == rs[k].handle)
      && StopsAtFirstFailure(be, log, l.calls, l.ok)
      && (l.ok ==> !rs[|rs| - 1].truncated && l.summaries == PageObjects(rs))
    decreases ListingBudget(be, log)
  {
    var c := ListObjectsV2(bucket, maxKeys, token);
    var r := be.answer(log, c);
    OneCallStops(be, log, c);
    OneCall(be, log, c);
    if r.Answer? {
      assert PageObjects([r]) == r.objects by {
        assert [r][1..] == [];
      }
      if r.truncated {
        TruncatedLeavesBudget(be, log, c);
        var rest := ListV2Pages(be, log + [c], bucket, maxKeys, r.handle);
        ListV2PagesTrace(be, log + [c], bucket, maxKeys, r.handle);
        var l := ListV2Pages(be, log, bucket, maxKeys, token);
        assert l.calls == [c] + rest.calls;
        RepliesCons(be, log, c, rest.calls);
        var rs := Replies(be, log, l.calls);
        var restReplies := Replies(be, log + [c], rest.calls);
        assert rs == [r] + restReplies;
        StopsAfterSuccess(be, log, [c], rest.calls, rest.ok);
        forall k | 0 <= k < |l.calls|
          ensures l.calls[k].ListObjectsV2? && l.calls[k].bucket == bucket && l.calls[k].maxKeys == maxKeys
        {
          if k > 0 {
            assert l.calls[k] == rest.calls[k - 1];
          }
        }
        forall k | 0 <= k < |l.calls| - 1
          ensures rs[k].Truncated() && l.calls[k + 1].continuationToken == rs[k].handle
        {
          if k > 0 {
            assert rs[k] == restReplies[k - 1];
            assert l.calls[k + 1] == rest.calls[k];
          }
        }
        if rest.ok {
          assert rs[1..] == restReplies;
        }
      }
    }
  }

  /** getObjectInfo makes no call and returns nothing for an empty bucket
      name; otherwise its first request carries no continuation token and
      every request carries maxKeys exactly when the argument is positive. */
  lemma GetObjectInfoRequests(be: Backend, log: seq<Call>, bucketName: JString, maxKeys: int)
    ensures var r := GetObjectInfoRun(be, log, bucketName, maxKeys);
      && (StrIsEmpty(bucketName) ==> r == Run(None, []))
      && (!StrIsEmpty(bucketName) ==>
            && r.calls != [] && r.calls[0].continuationToken == Null
            && forall k :: 0 <= k < |r.calls| ==>
                 && r.calls[k].ListObjectsV2? && r.calls[k].bucket == bucketName.value
                 && (r.calls[k].maxKeys.Some? <==> maxKeys > 0)
                 && (maxKeys > 0 ==> r.calls[k].maxKeys == Some(maxKeys)))
  {
    if !StrIsEmpty(bucketName) {
      ListV2PagesTrace(be, log, bucketName.value, MaxKeysOf(maxKeys), Null);
    }
  }

  /** getObjectInfo returns a list exactly when the bucket name is not empty
      and no request failed, and that list is the concatenation, in order,
      of the summaries of every page fetched, the last page being the first
      one not truncated. */
  lemma GetObjectInfoConcatenatesPages(be: Backend, log: seq<Call>, bucketName: JString, maxKeys: int)
    ensures var r := GetObjectInfoRun(be, log, bucketName, maxKeys);
      var rs := Replies(be, log, r.calls);
      && (r.value.Some? <==> !StrIsEmpty(bucketName) && AllSucceeded(be, log, r.calls))
      && (!StrIsEmpty(bucketName) && r.value.None? ==> FailedAtLast(be, log, r.calls))
      && (r.value.Some? ==>
            && r.value.value == PageObjects(rs)
            && (forall k :: 0 <= k < |rs| - 1 ==> rs[k].Truncated())
            && !rs[|rs| - 1].truncated)
  {
    if !StrIsEmpty(bucketName) {
      ListV2PagesTrace(be, log, bucketName.value, MaxKeysOf(maxKeys), Null);
      var l := ListV2Pages(be, log, bucketName.value, MaxKeysOf(maxKeys), Null);
      if !l.ok {
        assert !AllSucceeded(be, log, l.calls);
      }
    }
  }

  /** getObjectNameList issues exactly getObjectInfo's calls and returns the
      keys, in order, of a non-empty list getObjectInfo found, and nothing
      otherwise. */
  lemma GetObjectNameListKeys(be: Backend, log: seq<Call>, bucketName: JString, maxKeys: int)
    ensures var info := GetObjectInfoRun(be, log, bucketName, maxKeys);
      var r := GetObjectNameListRun(be, log, bucketName, maxKeys);
      && r.calls == info.calls
      && (r.value.Some? <==> info.value.Some? && info.value.value != [])
      && (r.value.Some? ==>
            && |r.value.value| == |info.value.value|
            && forall i :: 0 <= i < |r.value.value| ==> r.value.value[i] == info.value.value[i].key)
  {
  }
}
