/** The calls multipartUploadV1 makes and what it returns: initiate an upload
    under the generated key, upload every part of the plan in order with
    the upload id the service handed out, then complete with the collected
    ETags. The first SdkClientException ends the run with false; no later
    call is made, and the upload is never aborted. */
module Multipart {
  import opened Java
  import opened Sdk
  import opened ObjectNames
  import opened MultipartPlan

  /** The two facts the template reads from a java.io.File. */
  datatype File = File(name: string, length: nat)

  /** The upload calls issued for a run of parts, the ETags collected, and
      whether every upload succeeded. */
  datatype PartUploads = PartUploads(calls: seq<Call>, partETags: seq<PartETag>, ok: bool)

  function PartCall(bucket: string, key: string, uploadId: JString, p: Part): Call {
    UploadPart(bucket, key, uploadId, p.number, p.offset, p.size)
  }

  /** Uploading `parts` one after another after `log`, stopping at the first
      failure. The SDK fills each PartETag with the request's part number. */
  function UploadParts(be: Backend, log: seq<Call>, bucket: string, key: string, uploadId: JString,
                       parts: seq<Part>): PartUploads
    decreases |parts|
  {
    if parts == [] then PartUploads([], [], true)
    else
      var c := PartCall(bucket, key, uploadId, parts[0]);
      var r := be.answer(log, c);
      if r.SdkClientException? then PartUploads([c], [], false)
      else
        var rest := UploadParts(be, log + [c], bucket, key, uploadId, parts[1..]);
        PartUploads([c] + rest.calls, [PartETag(parts[0].number, r.handle)] + rest.partETags, rest.ok)
  }

  /** Everything after a successful initiation: upload the parts, then, if
      all went through, complete the upload with the ETags collected. */
  function UploadAndComplete(be: Backend, log: seq<Call>, bucket: string, key: string, uploadId: JString,
                             parts: seq<Part>): Run<bool>
  {
    var uploads := UploadParts(be, log, bucket, key, uploadId, parts);
    if !uploads.ok then Run(false, uploads.calls)
    else
      var complete := CompleteMultipartUpload(bucket, key, uploadId, uploads.partETags);
      Run(be.answer(log + uploads.calls, complete).Answer?, uploads.calls + [complete])
  }

  /** multipartUploadV1(bucketName, file, baseDir) with the date and UUID of
      the key given. */
  function MultipartUploadRun(be: Backend, log: seq<Call>, bucket: string, file: File, baseDir: JString,
                              date: string, uuid: string): Run<bool>
  {
    var key := ObjectKey(file.name, baseDir, date, uuid);
    var init := InitiateMultipartUpload(bucket, key);
    var initReply := be.answer(log, init);
    if initReply.SdkClientException? then Run(false, [init])
    else
      var rest := UploadAndComplete(be, log + [init], bucket, key, initReply.handle, Plan(file.length));
      Run(rest.value, [init] + rest.calls)
  }

  /** Part uploads follow the parts in order and stop at the first failure. */
  lemma {:induction false} UploadPartsTrace(be: Backend, log: seq<Call>, bucket: string, key: string,
                                            uploadId: JString, parts: seq<Part>)
    ensures var u := UploadParts(be, log, bucket, key, uploadId, parts);
      && |u.calls| <= |parts|
      && (forall k :: 0 <= k < |u.calls| ==> u.calls[k] == PartCall(bucket, key, uploadId, parts[k]))
      && (u.ok ==> |u.calls| == |parts| && AllSucceeded(be, log, u.calls))
      && (!u.ok ==> FailedAtLast(be, log, u.calls))
    decreases |parts|
  {
    if parts != [] {
      var c := PartCall(bucket, key, uploadId, parts[0]);
      OneCall(be, log, c);
      if be.answer(log, c).Answer? {
        var u := UploadParts(be, log, bucket, key, uploadId, parts);
        var rest := UploadParts(be, log + [c], bucket, key, uploadId, parts[1..]);
        UploadPartsTrace(be, log + [c], bucket, key, uploadId, parts[1..]);
        AllSucceededAppend(be, log, [c], rest.calls);
        if !rest.ok {
          FailedAtLastAppend(be, log, [c], rest.calls);
        }
        forall k | 0 <= k < |u.calls|
          ensures u.calls[k] == PartCall(bucket, key, uploadId, parts[k])
        {
          if k > 0 {
            assert u.calls[k] == rest.calls[k - 1] && parts[1..][k - 1] == parts[k];
          }
        }
      }
    }
  }

  /** Each successful part upload contributes one ETag, tagged with its
      part's number and carrying the ETag the service returned for it; a
      failed run collected one fewer ETag than it made calls. */
  lemma {:induction false} UploadPartsETags(be: Backend, log: seq<Call>, bucket: string, key: string,
                                            uploadId: JString, parts: seq<Part>, u: PartUploads)
    requires u == UploadParts(be, log, bucket, key, uploadId, parts)
    ensures |u.partETags| <= |u.calls| <= |parts|
    ensures u.ok ==> |u.partETags| == |u.calls|
    ensures !u.ok ==> |u.partETags| == |u.calls| - 1
    ensures forall k :: 0 <= k < |u.partETags| ==>
      && Replies(be, log, u.calls)[k].Answer?
      && u.partETags[k] == PartETag(parts[k].number, Replies(be, log, u.calls)[k].handle)
    decreases |parts|
  {
    if parts != [] {
      var c := PartCall(bucket, key, uploadId, parts[0]);
      var r := be.answer(log, c);
      if r.Answer? {
        var rest := UploadParts(be, log + [c], bucket, key, uploadId, parts[1..]);
        UploadPartsETags(be, log + [c], bucket, key, uploadId, parts[1..], rest);
        assert u == PartUploads([c] + rest.calls, [PartETag(parts[0].number, r.handle)] + rest.partETags, rest.ok);
        RepliesCons(be, log, c, rest.calls);
        var rs := Replies(be, log, u.calls);
        var restReplies := Replies(be, log + [c], rest.calls);
        assert rs == [r] + restReplies;
        forall k | 0 <= k < |u.partETags|
          ensures rs[k].Answer? && u.partETags[k] == PartETag(parts[k].number, rs[k].handle)
        {
          if k > 0 {
            assert rs[k] == restReplies[k - 1];
            assert u.partETags[k] == rest.partETags[k - 1] && parts[1..][k - 1] == parts[k];
          }
        }
      }
    }
  }

  /** The state of the upload loop at `position`, with part number `number`
      and carried part size `carried`: the uploads `done` so far and the
      ETags collected, followed by what the rest of the loop will do, make
      up the whole run `whole` of part uploads begun after `start`. */
  ghost predicate UploadLoopState(be: Backend, start: seq<Call>, bucket: string, key: string, uploadId: JString,
                                  length: nat, whole: PartUploads, done: seq<Call>, partETags: seq<PartETag>,
                                  position: nat, number: nat, carried: nat)
  {
    && carried > 0
    && var rest := UploadParts(be, start + done, bucket, key, uploadId, PlanFrom(position, number, carried, length));
    && whole.calls == done + rest.calls
    && whole.partETags == partETags + rest.partETags
    && whole.ok == rest.ok
  }

  /** The loop starts in that state at offset 0, part 1, 5 MiB. */
  lemma UploadLoopStarts(be: Backend, start: seq<Call>, bucket: string, key: string, uploadId: JString,
                         length: nat, whole: PartUploads)
    requires whole == UploadParts(be, start, bucket, key, uploadId, Plan(length))
    ensures UploadLoopState(be, start, bucket, key, uploadId, length, whole, [], [], 0, 1, PartSize)
  {
    assert start + [] == start;
  }

  /** One round of the loop: uploading the part at `position`, of the
      smaller of the carried size and the bytes left, either raises, and the
      whole run ends with that upload, or succeeds and leaves the loop in
      its state one part further on. */
  lemma UploadLoopRound(be: Backend, start: seq<Call>, bucket: string, key: string, uploadId: JString,
                        length: nat, whole: PartUploads, done: seq<Call>, partETags: seq<PartETag>,
                        position: nat, number: nat, carried: nat, size: nat, reply: Reply)
    requires UploadLoopState(be, start, bucket, key, uploadId, length, whole, done, partETags, position, number, carried)
    requires position < length && size == Min(carried, length - position)
    requires reply == be.answer(start + done, UploadPart(bucket, key, uploadId, number, position, size))
    ensures reply.SdkClientException? ==>
      whole == PartUploads(done + [UploadPart(bucket, key, uploadId, number, position, size)], partETags, false)
    ensures reply.Answer? ==>
      UploadLoopState(be, start, bucket, key, uploadId, length, whole,
                      done + [UploadPart(bucket, key, uploadId, number, position, size)],
                      partETags + [PartETag(number, reply.handle)], position + size, number + 1, size)
  {
    var c := UploadPart(bucket, key, uploadId, number, position, size);
    var parts := PlanFrom(position, number, carried, length);
    assert parts[0] == Part(number, position, size);
    assert parts[1..] == PlanFrom(position + size, number + 1, size, length);
    if reply.SdkClientException? {
      assert partETags + [] == partETags;
    } else {
      var next := UploadParts(be, start + done + [c], bucket, key, uploadId, parts[1..]);
      assert start + (done + [c]) == start + done + [c];
      ConcatAssoc(done, [c], next.calls);
      ConcatAssoc(partETags, [PartETag(number, reply.handle)], next.partETags);
    }
  }

  /** The loop ends in that state once `position` reaches the end of the
      file: everything has been uploaded. */
  lemma UploadLoopEnds(be: Backend, start: seq<Call>, bucket: string, key: string, uploadId: JString,
                       length: nat, whole: PartUploads, done: seq<Call>, partETags: seq<PartETag>,
                       position: nat, number: nat, carried: nat)
    requires UploadLoopState(be, start, bucket, key, uploadId, length, whole, done, partETags, position, number, carried)
    requires position >= length
    ensures whole == PartUploads(done, partETags, true)
  {
    assert done + [] == done && partETags + [] == partETags;
  }

  /** A call that belongs to the multipart upload of `key` into `bucket`:
      initiation, a part upload or completion, and nothing else (no abort). */
  predicate IsUploadStep(c: Call, bucket: string, key: string) {
    && (c.InitiateMultipartUpload? || c.UploadPart? || c.CompleteMultipartUpload?)
    && c.bucket == bucket && c.key == key
  }

  /** After initiation: only upload steps for this bucket and key; success
      exactly when no call failed, otherwise the run stops at its first
      failure; on success one upload per part, in order, then completion
      with one PartETag per part carrying that part's number and the ETag
      the service returned for it. */
  lemma UploadAndCompleteTrace(be: Backend, log: seq<Call>, bucket: string, key: string, uploadId: JString,
                               parts: seq<Part>, r: Run<bool>)
    requires r == UploadAndComplete(be, log, bucket, key, uploadId, parts)
    ensures forall c :: c in r.calls ==> IsUploadStep(c, bucket, key)
    ensures r.value ==> AllSucceeded(be, log, r.calls)
    ensures !r.value ==> FailedAtLast(be, log, r.calls)
    ensures r.value ==>
      && |r.calls| == |parts| + 1
      && (forall k :: 0 <= k < |parts| ==> r.calls[k] == PartCall(bucket, key, uploadId, parts[k]))
      && r.calls[|parts|].CompleteMultipartUpload?
      && r.calls[|parts|].bucket == bucket && r.calls[|parts|].key == key
      && r.calls[|parts|].uploadId == uploadId
      && |r.calls[|parts|].partETags| == |parts|
      && (forall k :: 0 <= k < |parts| ==>
            r.calls[|parts|].partETags[k] == PartETag(parts[k].number, Replies(be, log, r.calls)[k].handle))
  {
    var u := UploadParts(be, log, bucket, key, uploadId, parts);
    UploadPartsTrace(be, log, bucket, key, uploadId, parts);
    UploadPartsETags(be, log, bucket, key, uploadId, parts, u);
    assert forall c :: c in u.calls ==> IsUploadStep(c, bucket, key);
    if u.ok {
      var complete := CompleteMultipartUpload(bucket, key, uploadId, u.partETags);
      OneCall(be, log + u.calls, complete);
      AllSucceededAppend(be, log, u.calls, [complete]);
      if !r.value {
        FailedAtLastAppend(be, log, u.calls, [complete]);
      }
      RepliesAppend(be, log, u.calls, [complete]);
      forall k | 0 <= k < |parts|
        ensures r.calls[|parts|].partETags[k] == PartETag(parts[k].number, Replies(be, log, r.calls)[k].handle)
      {
        assert Replies(be, log, r.calls)[k] == Replies(be, log, u.calls)[k];
      }
    }
  }

  /** The run starts by initiating an upload for the generated key, only ever
      talks about that bucket and key, never aborts, returns true exactly
      when no call failed, and stops at its first failure. */
  lemma MultipartUploadStopsAtFirstFailure(be: Backend, log: seq<Call>, bucket: string, file: File,
                                           baseDir: JString, date: string, uuid: string, r: Run<bool>)
    requires r == MultipartUploadRun(be, log, bucket, file, baseDir, date, uuid)
    ensures r.calls != [] && r.calls[0] == InitiateMultipartUpload(bucket, ObjectKey(file.name, baseDir, date, uuid))
    ensures forall c :: c in r.calls ==> IsUploadStep(c, bucket, ObjectKey(file.name, baseDir, date, uuid))
    ensures r.value ==> AllSucceeded(be, log, r.calls)
    ensures !r.value ==> FailedAtLast(be, log, r.calls)
  {
    var key := ObjectKey(file.name, baseDir, date, uuid);
    var init := InitiateMultipartUpload(bucket, key);
    OneCall(be, log, init);
    if be.answer(log, init).Answer? {
      var rest := UploadAndComplete(be, log + [init], bucket, key, be.answer(log, init).handle, Plan(file.length));
      UploadAndCompleteTrace(be, log + [init], bucket, key, be.answer(log, init).handle, Plan(file.length), rest);
      AllSucceededAppend(be, log, [init], rest.calls);
      if !rest.value {
        FailedAtLastAppend(be, log, [init], rest.calls);
      }
    }
  }

  function Last<T>(s: seq<T>): T
    requires s != []
  {
    s[|s| - 1]
  }

  /** A successful run, seen from the start: initiation, then one upload per
      part under the upload id initiation returned, then completion with each
      part's number and the ETag returned for it. */
  lemma InitiatedRunShape(be: Backend, log: seq<Call>, bucket: string, key: string, parts: seq<Part>,
                          r: Run<bool>)
    requires be.answer(log, InitiateMultipartUpload(bucket, key)).Answer?
    requires r == var init := InitiateMultipartUpload(bucket, key);
      var rest := UploadAndComplete(be, log + [init], bucket, key, be.answer(log, init).handle, parts);
      Run(rest.value, [init] + rest.calls)
    requires r.value
    ensures |r.calls| == |parts| + 2
    ensures AllSucceeded(be, log, r.calls)
    ensures forall k :: 0 <= k < |parts| ==>
      r.calls[k + 1] == PartCall(bucket, key, Replies(be, log, r.calls)[0].handle, parts[k])
    ensures Last(r.calls) == CompleteMultipartUpload(bucket, key, Replies(be, log, r.calls)[0].handle,
                                                     Last(r.calls).partETags)
    ensures |Last(r.calls).partETags| == |parts|
    ensures forall k :: 0 <= k < |parts| ==>
      Last(r.calls).partETags[k] == PartETag(parts[k].number, Replies(be, log, r.calls)[k + 1].handle)
  {
    var init := InitiateMultipartUpload(bucket, key);
    var uploadId := be.answer(log, init).handle;
    var rest := UploadAndComplete(be, log + [init], bucket, key, uploadId, parts);
    UploadAndCompleteTrace(be, log + [init], bucket, key, uploadId, parts, rest);
    OneCall(be, log, init);
    AllSucceededAppend(be, log, [init], rest.calls);
    RepliesCons(be, log, init, rest.calls);
    var rs := Replies(be, log, r.calls);
    var restReplies := Replies(be, log + [init], rest.calls);
    forall k | 0 <= k < |parts|
      ensures r.calls[k + 1] == PartCall(bucket, key, uploadId, parts[k])
      ensures Last(r.calls).partETags[k] == PartETag(parts[k].number, rs[k + 1].handle)
    {
      assert r.calls[k + 1] == rest.calls[k];
      assert rs[k + 1] == restReplies[k];
    }
  }

  /** A successful run uploaded n = ceil(length / 5 MiB) parts numbered 1, 2,
      ... at consecutive 5 MiB offsets, each 5 MiB long but the last, all
      under the upload id from initiation, with nothing failing. */
  lemma MultipartUploadCompleted(be: Backend, log: seq<Call>, bucket: string, file: File,
                                 baseDir: JString, date: string, uuid: string, r: Run<bool>, n: nat)
    requires r == MultipartUploadRun(be, log, bucket, file, baseDir, date, uuid)
    requires r.value
    requires n == (file.length + PartSize - 1) / PartSize
    ensures |r.calls| == n + 2
    ensures AllSucceeded(be, log, r.calls)
    ensures r.calls[0] == InitiateMultipartUpload(bucket, ObjectKey(file.name, baseDir, date, uuid))
    ensures forall k :: 1 <= k <= n ==>
      && r.calls[k].UploadPart?
      && r.calls[k].bucket == bucket && r.calls[k].key == ObjectKey(file.name, baseDir, date, uuid)
      && r.calls[k].uploadId == Replies(be, log, r.calls)[0].handle
      && r.calls[k].partNumber == k
      && r.calls[k].fileOffset == (k - 1) * PartSize
      && r.calls[k].partSize == Min(PartSize, file.length - (k - 1) * PartSize)
  {
    var key := ObjectKey(file.name, baseDir, date, uuid);
    var parts := Plan(file.length);
    MultipartUploadStopsAtFirstFailure(be, log, bucket, file, baseDir, date, uuid, r);
    InitiatedRunShape(be, log, bucket, key, parts, r);
    PartCallsFollowPlan(r.calls, bucket, key, Replies(be, log, r.calls)[0].handle, file.length, n);
  }

  /** Calls that upload the plan's parts from position 1 on carry part
      number k, offset (k - 1) * 5 MiB and the smaller of 5 MiB and the
      bytes left at position k. */
  lemma PartCallsFollowPlan(calls: seq<Call>, bucket: string, key: string, uploadId: JString, length: nat, n: nat)
    requires n == (length + PartSize - 1) / PartSize
    requires |calls| == |Plan(length)| + 2
    requires forall k :: 0 <= k < |Plan(length)| ==> calls[k + 1] == PartCall(bucket, key, uploadId, Plan(length)[k])
    ensures |calls| == n + 2
    ensures forall k :: 1 <= k <= n ==>
      && calls[k].UploadPart?
      && calls[k].bucket == bucket && calls[k].key == key && calls[k].uploadId == uploadId
      && calls[k].partNumber == k
      && calls[k].fileOffset == (k - 1) * PartSize
      && calls[k].partSize == Min(PartSize, length - (k - 1) * PartSize)
  {
    var parts := Plan(length);
    PlanParts(length);
    forall k | 1 <= k <= n
      ensures calls[k] == PartCall(bucket, key, uploadId, parts[k - 1])
      ensures parts[k - 1].number == k && parts[k - 1].offset == (k - 1) * PartSize
      ensures parts[k - 1].size == Min(PartSize, length - (k - 1) * PartSize)
    {
      var j := k - 1;
      assert calls[j + 1] == PartCall(bucket, key, uploadId, parts[j]);
    }
  }

  /** A successful run ends by completing the upload under the id from
      initiation with one PartETag per part, in upload order, each carrying
      the part's number and the ETag the service returned for that part. */
  lemma MultipartUploadCompletesWithETags(be: Backend, log: seq<Call>, bucket: string, file: File,
                                          baseDir: JString, date: string, uuid: string, r: Run<bool>, n: nat)
    requires r == MultipartUploadRun(be, log, bucket, file, baseDir, date, uuid)
    requires r.value
    requires n == (file.length + PartSize - 1) / PartSize
    ensures |r.calls| == n + 2
    ensures AllSucceeded(be, log, r.calls)
    ensures Last(r.calls) == CompleteMultipartUpload(bucket, ObjectKey(file.name, baseDir, date, uuid),
                                                     Replies(be, log, r.calls)[0].handle, Last(r.calls).partETags)
    ensures |Last(r.calls).partETags| == n
    ensures forall k :: 0 <= k < n ==>
      Last(r.calls).partETags[k] == PartETag(k + 1, Replies(be, log, r.calls)[k + 1].handle)
  {
    var key := ObjectKey(file.name, baseDir, date, uuid);
    var parts := Plan(file.length);
    MultipartUploadStopsAtFirstFailure(be, log, bucket, file, baseDir, date, uuid, r);
    InitiatedRunShape(be, log, bucket, key, parts, r);
    PlanParts(file.length);
  }

  /** An empty file uploads no part: initiation is followed directly by
      completion with an empty ETag list. */
  lemma MultipartUploadEmptyFile(be: Backend, log: seq<Call>, bucket: string, file: File,
                                 baseDir: JString, date: string, uuid: string)
    requires file.length == 0
    requires be.answer(log, InitiateMultipartUpload(bucket, ObjectKey(file.name, baseDir, date, uuid))).Answer?
    ensures var key := ObjectKey(file.name, baseDir, date, uuid);
      var uploadId := be.answer(log, InitiateMultipartUpload(bucket, key)).handle;
      MultipartUploadRun(be, log, bucket, file, baseDir, date, uuid).calls
        == [InitiateMultipartUpload(bucket, key), CompleteMultipartUpload(bucket, key, uploadId, [])]
  {
    PlanParts(0);
  }
}
