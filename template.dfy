/** AmazonS3V1Template: the template object holding the SDK client. Each
    method does what the Java method does, step by step, sending its
    requests through the client; each is proved to leave in the client's
    log exactly the calls of its specification function and to return that
    function's value. */
module Template {
  import opened Java
  import opened Sdk
  import opened ObjectNames
  import opened Guards
  import opened MultipartPlan
  import opened Multipart
  import opened BucketOps
  import opened BucketSweep
  import opened ObjectListing
  import opened ObjectOps

  class AmazonS3V1Template {
    const s3Client: S3Client

    constructor (s3Client: S3Client)
      ensures this.s3Client == s3Client
    {
      this.s3Client := s3Client;
    }

    /** isEmpty(args...): scans the arguments and stops at the first empty one. */
    method IsEmpty(args: seq<JString>) returns (empty: bool)
      ensures empty == AnyEmpty(args)
    {
      if |args| == 0 {
        return true;
      }
      for i := 0 to |args|
        invariant forall j :: 0 <= j < i ==> !StrIsEmpty(args[j])
      {
        if StrIsEmpty(args[i]) {
          return true;
        }
      }
      return false;
    }

    /** handlerUploadObjectName(objectName, baseDir), appending to a builder;
        the date and UUID are given. */
    method HandlerUploadObjectName(objectName: string, baseDir: JString, date: string, uuid: string)
      returns (key: string)
      ensures key == ObjectKey(objectName, baseDir, date, uuid)
      ensures ParseKey(key) == Some(KeyParts(AppendText(baseDir), date, uuid, objectName))
              || !(NoSlash(AppendText(baseDir)) && IsDateText(date) && IsSimpleUuid(uuid))
    {
      var builder := FileSeparator;
      builder := builder + AppendText(baseDir);
      builder := builder + FileSeparator;
      builder := builder + date;
      builder := builder + FileSeparator;
      builder := builder + uuid;
      builder := builder + FilenameLink;
      builder := builder + objectName;
      key := builder;
      if NoSlash(AppendText(baseDir)) && IsDateText(date) && IsSimpleUuid(uuid) {
        ParseObjectKey(objectName, baseDir, date, uuid);
      }
    }

    method BucketExists(bucketName: JString) returns (exists_: bool)
      modifies s3Client
      ensures var run := BucketExistsRun(s3Client.backend, old(s3Client.log), bucketName);
        s3Client.log == old(s3Client.log) + run.calls && exists_ == run.value
    {
      if StrIsEmpty(bucketName) {
        return false;
      }
      var name := HandlerBucketName(bucketName);
      var reply := s3Client.Send(DoesBucketExistV2(name.value));
      exists_ := reply.Answer? && reply.flag;
    }

    method GetBucketByName(bucketName: JString) returns (found: Outcome<Option<Bucket>>)
      modifies s3Client
      ensures var run := GetBucketByNameRun(s3Client.backend, old(s3Client.log), bucketName);
        s3Client.log == old(s3Client.log) + run.calls && found == run.value
    {
      var reply := s3Client.Send(ListBuckets);
      if reply.SdkClientException? {
        return Raised(SdkClientError);
      }
      var bucketList := reply.buckets;
      if bucketList == [] {
        return Normal(None);
      }
      for i := 0 to |bucketList|
        invariant forall j :: 0 <= j < i ==> Str(bucketList[j].name) != bucketName
      {
        if Str(bucketList[i].name) == bucketName {
          return Normal(Some(bucketList[i]));
        }
      }
      return Normal(None);
    }

    method CreateBucket(bucketName: JString) returns (bucket: Option<Bucket>)
      modifies s3Client
      ensures var run := CreateBucketRun(s3Client.backend, old(s3Client.log), bucketName);
        s3Client.log == old(s3Client.log) + run.calls && bucket == run.value
    {
      if StrIsEmpty(bucketName) {
        return None;
      }
      var name := HandlerBucketName(bucketName);
      var exists_ := BucketExists(name);
      if exists_ {
        var lookup := GetBucketByName(name);
        return if lookup.Raised? then None else lookup.value;
      }
      var created := s3Client.Send(Sdk.CreateBucket(name.value));
      if created.SdkClientException? {
        return None;
      }
      var located := s3Client.Send(GetBucketLocation(name.value));
      if located.SdkClientException? {
        return None;
      }
      bucket := if created.handle.Null? then None else Some(Bucket(created.handle.value));
    }

    /** Sends `calls` in order and stops at the first that fails: the inner
        for-each loops of deleteBucket. */
    method SendEach(calls: seq<Call>) returns (ok: bool)
      modifies s3Client
      ensures var run := SendAll(s3Client.backend, old(s3Client.log), calls);
        s3Client.log == old(s3Client.log) + run.calls && ok == run.ok
    {
      var be := s3Client.backend;
      ghost var start := s3Client.log;
      ghost var whole := SendAll(be, start, calls);
      SendLoopStarts(be, start, calls);
      for i := 0 to |calls|
        invariant s3Client.log == start + calls[..i]
        invariant SendLoopState(be, start, calls, whole, i)
      {
        var reply := s3Client.Send(calls[i]);
        SendLoopRound(be, start, calls, whole, i, reply);
        if reply.SdkClientException? {
          return false;
        }
      }
      SendLoopEnds(be, start, calls, whole);
      return true;
    }

    /** One `while (true)` loop of deleteBucket, from its listing call on. */
    method SweepPages(listing: Call) returns (ok: bool)
      requires IsListing(listing)
      modifies s3Client
      ensures var run := Pages(s3Client.backend, old(s3Client.log), listing);
        s3Client.log == old(s3Client.log) + run.calls && ok == run.ok
    {
      var be := s3Client.backend;
      var page := s3Client.Send(listing);
      if page.SdkClientException? {
        return false;
      }
      BudgetStep(be, old(s3Client.log), listing);
      var current := listing;
      ghost var whole := Pages(be, old(s3Client.log), listing);
      ghost var done := [listing];
      while true
        invariant IsListing(current) && page.Answer?
        invariant s3Client.log == old(s3Client.log) + done
        invariant whole.calls == done + AfterListing(be, s3Client.log, current, page).calls
        invariant whole.ok == AfterListing(be, s3Client.log, current, page).ok
        decreases ListingBudget(be, s3Client.log) + (if page.truncated then 1 else 0)
      {
        ghost var before := s3Client.log;
        ghost var round := AfterListing(be, before, current, page);
        AfterListingRound(be, before, current, page);
        var deleted := SendEach(ListingDeletes(current, page));
        ghost var sent := SendAll(be, before, ListingDeletes(current, page)).calls;
        if !deleted {
          ConcatAssoc(old(s3Client.log), done, sent);
          return false;
        }
        if !page.truncated {
          ConcatAssoc(old(s3Client.log), done, sent);
          break;
        }
        var next := NextListing(current);
        ghost var mid := s3Client.log;
        var reply := s3Client.Send(next);
        ConcatAssoc(old(s3Client.log), done, sent);
        ConcatAssoc(old(s3Client.log), done + sent, [next]);
        ConcatAssoc(done, sent, [next]);
        if reply.SdkClientException? {
          return false;
        }
        BudgetStep(be, mid, next);
        ConcatAssoc(done + sent + [next], AfterListing(be, s3Client.log, next, reply).calls, []);
        ConcatAssoc(done, sent + [next], AfterListing(be, s3Client.log, next, reply).calls);
        ConcatAssoc(done, sent, [next]);
        ConcatAssoc(done + sent, [next], AfterListing(be, s3Client.log, next, reply).calls);
        current, page := next, reply;
        done := done + sent + [next];
      }
      return true;
    }

    method DeleteBucket(bucketName: string) returns (deleted: bool)
      modifies s3Client
      ensures var run := DeleteBucketRun(s3Client.backend, old(s3Client.log), bucketName);
        s3Client.log == old(s3Client.log) + run.calls && deleted == run.value
    {
      var be := s3Client.backend;
      ghost var start := s3Client.log;
      ghost var objects := Pages(be, start, ListObjects(bucketName));
      var objectsSwept := SweepPages(ListObjects(bucketName));
      if !objectsSwept {
        return false;
      }
      ghost var versions := Pages(be, start + objects.calls, ListVersions(bucketName));
      var versionsSwept := SweepPages(ListVersions(bucketName));
      ConcatAssoc(start, objects.calls, versions.calls);
      if !versionsSwept {
        return false;
      }
      var reply := s3Client.Send(Sdk.DeleteBucket(bucketName));
      ConcatAssoc(start, objects.calls + versions.calls, [Sdk.DeleteBucket(bucketName)]);
      return reply.Answer?;
    }

    /** copyObject(srcBucketName, srcObjectName, destBucketName, destObjectName). */
    method CopyObject(srcBucket: JString, srcKey: JString, destBucket: JString, destKey: JString)
      returns (result: Outcome<Option<SdkResult>>)
      modifies s3Client
      ensures var run := CopyObjectRun(s3Client.backend, old(s3Client.log), srcBucket, srcKey, destBucket, destKey);
        s3Client.log == old(s3Client.log) + run.calls && result == run.value
    {
      var missing := IsEmpty([srcBucket, srcKey, destBucket, destKey]);
      if missing {
        return Normal(None);
      }
      if srcBucket == destBucket && srcKey == destKey {
        return Raised(IllegalArgumentException);
      }
      var reply := s3Client.Send(Sdk.CopyObject(Contents(srcBucket), Contents(srcKey), Contents(destBucket), Contents(destKey)));
      if reply.SdkClientException? {
        return Normal(None);
      }
      return Normal(if reply.handle.Null? then None else Some(SdkResult(reply.handle.value)));
    }

    /** copyObject(srcBucketName, srcObjectName, destBucketName). */
    method CopyObjectKeepName(srcBucket: JString, srcKey: JString, destBucket: JString)
      returns (result: Outcome<Option<SdkResult>>)
      modifies s3Client
      ensures var run := CopyObjectKeepNameRun(s3Client.backend, old(s3Client.log), srcBucket, srcKey, destBucket);
        s3Client.log == old(s3Client.log) + run.calls && result == run.value
    {
      result := CopyObject(srcBucket, srcKey, destBucket, srcKey);
    }

    /** deleteObjects(bucketName, objectVersionList, quiet); a null list is `None`. */
    method DeleteObjects(bucketName: JString, keys: Option<seq<KeyVersion>>, quiet: bool)
      returns (result: Option<SdkResult>)
      modifies s3Client
      ensures var run := DeleteObjectsRun(s3Client.backend, old(s3Client.log), bucketName, keys, quiet);
        s3Client.log == old(s3Client.log) + run.calls && result == run.value
    {
      if StrIsEmpty(bucketName) {
        return None;
      }
      if keys.None? || keys.value == [] {
        return None;
      }
      var configuration := s3Client.Send(GetBucketVersioningConfiguration(Contents(bucketName)));
      if configuration.SdkClientException? {
        return None;
      }
      var bucketVersionStatus := configuration.handle;
      if !(bucketVersionStatus.Str? && EqualsIgnoreCase(Enabled, bucketVersionStatus.value)) {
        return None;
      }
      var reply := s3Client.Send(Sdk.DeleteObjects(Contents(bucketName), keys.value, quiet));
      if reply.SdkClientException? {
        return None;
      }
      return if reply.handle.Null? then None else Some(SdkResult(reply.handle.value));
    }

    /** deleteObjects(bucketName, objectVersionList). */
    method DeleteObjectsLoud(bucketName: JString, keys: Option<seq<KeyVersion>>) returns (result: Option<SdkResult>)
      modifies s3Client
      ensures var run := DeleteObjectsLoudRun(s3Client.backend, old(s3Client.log), bucketName, keys);
        s3Client.log == old(s3Client.log) + run.calls && result == run.value
    {
      result := DeleteObjects(bucketName, keys, false);
    }

    /** deleteObjectsWithNoVersionBucket(bucketName, keyNameList, quiet) as
        written; a null list is `None`. */
    method DeleteObjectsWithNoVersionBucket(bucketName: JString, keyNames: Option<seq<string>>, quiet: bool)
      returns (result: Outcome<Option<SdkResult>>)
      modifies s3Client
      ensures var run := DeleteObjectsWithNoVersionBucketRun(s3Client.backend, old(s3Client.log), bucketName,
                                                             keyNames, quiet);
        s3Client.log == old(s3Client.log) + run.calls && result == run.value
    {
      if keyNames.None? {
        return Raised(NullPointerException);
      }
      var keyVersionList := KeyVersions(keyNames.value);
      var deleted := DeleteObjects(bucketName, Some(keyVersionList), quiet);
      return Normal(deleted);
    }

    /** deleteObjectsWithNoVersionBucket(bucketName, keyNameList): not quiet. */
    method DeleteObjectsWithNoVersionBucketLoud(bucketName: JString, keyNames: Option<seq<string>>)
      returns (result: Outcome<Option<SdkResult>>)
      modifies s3Client
      ensures var run := DeleteObjectsWithNoVersionBucketRun(s3Client.backend, old(s3Client.log), bucketName,
                                                             keyNames, false);
        s3Client.log == old(s3Client.log) + run.calls && result == run.value
    {
      result := DeleteObjectsWithNoVersionBucket(bucketName, keyNames, false);
    }

    /** upload(bucketName, objectName, baseDir, content); the date and UUID
        of the key are given. */
    method Upload(bucketName: JString, objectName: JString, baseDir: JString, content: JString,
                  date: string, uuid: string) returns (uploaded: bool)
      modifies s3Client
      ensures var run := UploadRun(s3Client.backend, old(s3Client.log), bucketName, objectName, baseDir, content,
                                   date, uuid);
        s3Client.log == old(s3Client.log) + run.calls && uploaded == run.value
    {
      var missing := IsEmpty([bucketName, objectName, content]);
      if missing {
        return false;
      }
      var uploadObjectName := HandlerUploadObjectName(Contents(objectName), baseDir, date, uuid);
      var reply := s3Client.Send(PutObject(Contents(bucketName), uploadObjectName, Contents(content)));
      if reply.SdkClientException? {
        return false;
      }
      return true;
    }

    /** upload(bucketName, objectName, content). */
    method UploadDefaultDir(bucketName: JString, objectName: JString, content: JString, date: string, uuid: string)
      returns (uploaded: bool)
      modifies s3Client
      ensures var run := UploadDefaultDirRun(s3Client.backend, old(s3Client.log), bucketName, objectName, content,
                                             date, uuid);
        s3Client.log == old(s3Client.log) + run.calls && uploaded == run.value
    {
      uploaded := Upload(bucketName, objectName, Str(DefaultUploadBaseDir), content, date, uuid);
    }

    /** The part-upload loop of multipartUploadV1: from offset 0, part 1 and
        5 MiB, upload the smaller of the carried size and the bytes left, and
        advance, collecting each part's ETag; an exception ends the loop. */
    method UploadFileParts(bucketName: string, objectName: string, uploadId: JString, contentLength: nat)
      returns (partETags: seq<PartETag>, ok: bool)
      modifies s3Client
      ensures var run := UploadParts(s3Client.backend, old(s3Client.log), bucketName, objectName, uploadId,
                                     Plan(contentLength));
        s3Client.log == old(s3Client.log) + run.calls && partETags == run.partETags && ok == run.ok
    {
      var be := s3Client.backend;
      ghost var start := s3Client.log;
      ghost var whole := UploadParts(be, start, bucketName, objectName, uploadId, Plan(contentLength));
      ghost var done: seq<Call> := [];
      partETags := [];
      var partSize: nat := PartSize;
      var filePosition: nat := 0;
      var i: nat := 1;
      UploadLoopStarts(be, start, bucketName, objectName, uploadId, contentLength, whole);
      while filePosition < contentLength
        invariant s3Client.log == start + done
        invariant UploadLoopState(be, start, bucketName, objectName, uploadId, contentLength, whole, done, partETags,
                                  filePosition, i, partSize)
        decreases contentLength - filePosition
      {
        ghost var carried := partSize;
        partSize := Min(partSize, contentLength - filePosition);
        var uploadRequest := UploadPart(bucketName, objectName, uploadId, i, filePosition, partSize);
        var uploadResult := s3Client.Send(uploadRequest);
        UploadLoopRound(be, start, bucketName, objectName, uploadId, contentLength, whole, done, partETags,
                        filePosition, i, carried, partSize, uploadResult);
        if uploadResult.SdkClientException? {
          return partETags, false;
        }
        partETags := partETags + [PartETag(i, uploadResult.handle)];
        done := done + [uploadRequest];
        filePosition := filePosition + partSize;
        i := i + 1;
      }
      UploadLoopEnds(be, start, bucketName, objectName, uploadId, contentLength, whole, done, partETags,
                     filePosition, i, partSize);
      return partETags, true;
    }

    /** multipartUploadV1(bucketName, file, baseDir); the date and UUID of the
        key are given. */
    method MultipartUploadV1(bucketName: string, file: File, baseDir: JString, date: string, uuid: string)
      returns (uploaded: bool)
      modifies s3Client
      ensures var run := MultipartUploadRun(s3Client.backend, old(s3Client.log), bucketName, file, baseDir, date, uuid);
        s3Client.log == old(s3Client.log) + run.calls && uploaded == run.value
    {
      var objectName := HandlerUploadObjectName(file.name, baseDir, date, uuid);
      var initResponse := s3Client.Send(InitiateMultipartUpload(bucketName, objectName));
      if initResponse.SdkClientException? {
        return false;
      }
      var uploadId := initResponse.handle;
      ghost var start := s3Client.log;
      var partETags, partsUploaded := UploadFileParts(bucketName, objectName, uploadId, file.length);
      ghost var parts := s3Client.log[|start|..];
      assert s3Client.log == start + parts;
      if !partsUploaded {
        ConcatAssoc(old(s3Client.log), [InitiateMultipartUpload(bucketName, objectName)], parts);
        return false;
      }
      var complete := CompleteMultipartUpload(bucketName, objectName, uploadId, partETags);
      var completed := s3Client.Send(complete);
      ConcatAssoc(start, parts, [complete]);
      ConcatAssoc(old(s3Client.log), [InitiateMultipartUpload(bucketName, objectName)], parts + [complete]);
      return completed.Answer?;
    }

    /** getObjectInfo(bucketName, maxKeys): the do-while loop over
        listObjectsV2 pages. */
    method GetObjectInfo(bucketName: JString, maxKeys: int) returns (summaries: Option<seq<ObjectSummary>>)
      modifies s3Client
      ensures var run := GetObjectInfoRun(s3Client.backend, old(s3Client.log), bucketName, maxKeys);
        s3Client.log == old(s3Client.log) + run.calls && summaries == run.value
    {
      if StrIsEmpty(bucketName) {
        return None;
      }
      var be := s3Client.backend;
      var request := ListObjectsV2(bucketName.value, None, Null);
      if maxKeys > 0 {
        request := request.(maxKeys := Some(maxKeys));
      }
      var s3ObjectSummaryList: seq<ObjectSummary> := [];
      ghost var whole := ListV2Pages(be, old(s3Client.log), bucketName.value, MaxKeysOf(maxKeys), Null);
      ghost var done: seq<Call> := [];
      while true
        invariant request.ListObjectsV2? && request.bucket == bucketName.value && request.maxKeys == MaxKeysOf(maxKeys)
        invariant s3Client.log == old(s3Client.log) + done
        invariant whole.calls
                  == done + ListV2Pages(be, s3Client.log, request.bucket, request.maxKeys, request.continuationToken).calls
        invariant whole.summaries
                  == s3ObjectSummaryList
                     + ListV2Pages(be, s3Client.log, request.bucket, request.maxKeys, request.continuationToken).summaries
        invariant whole.ok == ListV2Pages(be, s3Client.log, request.bucket, request.maxKeys, request.continuationToken).ok
        decreases ListingBudget(be, s3Client.log)
      {
        ghost var before := s3Client.log;
        ghost var sent := request;
        var result := s3Client.Send(request);
        if result.SdkClientException? {
          ConcatAssoc(old(s3Client.log), done, [request]);
          return None;
        }
        ghost var rest := ListV2Pages(be, s3Client.log, request.bucket, request.maxKeys, result.handle);
        ConcatAssoc(old(s3Client.log), done, [request]);
        ConcatAssoc(s3ObjectSummaryList, result.objects, rest.summaries);
        ConcatAssoc(done, [request], rest.calls);
        s3ObjectSummaryList := s3ObjectSummaryList + result.objects;
        done := done + [request];
        var token := result.handle;
        request := request.(continuationToken := token);
        if !result.truncated {
          break;
        }
        TruncatedLeavesBudget(be, before, sent);
      }
      return Some(s3ObjectSummaryList);
    }

    /** getObjectNameList(bucketName, maxKeys). */
    method GetObjectNameList(bucketName: JString, maxKeys: int) returns (names: Option<seq<string>>)
      modifies s3Client
      ensures var run := GetObjectNameListRun(s3Client.backend, old(s3Client.log), bucketName, maxKeys);
        s3Client.log == old(s3Client.log) + run.calls && names == run.value
    {
      var objectInfo := GetObjectInfo(bucketName, maxKeys);
      if objectInfo.Some? {
        var s3ObjectSummaryList := objectInfo.value;
        if s3ObjectSummaryList == [] {
          return None;
        }
        return Some(seq(|s3ObjectSummaryList|, i requires 0 <= i < |s3ObjectSummaryList| => s3ObjectSummaryList[i].key));
      }
      return None;
    }

    /** getPresignedObjectUrl(bucketName, objectName, expireTime, httpMethod)
        as written; `now` is the clock reading in milliseconds, a null
        duration or method is `None`. */
    method GetPresignedObjectUrl(bucketName: JString, objectName: JString, expireMillis: Option<int>,
                                 httpMethod: Option<HttpMethod>, now: int) returns (url: Outcome<Option<string>>)
      modifies s3Client
      ensures var run := GetPresignedObjectUrlRun(s3Client.backend, old(s3Client.log), bucketName, objectName,
                                                  expireMillis, httpMethod, now);
        s3Client.log == old(s3Client.log) + run.calls && url == run.value
    {
      var missing := IsEmpty([bucketName, objectName]);
      if missing || expireMillis.None? || httpMethod.None? {
        return Normal(None);
      }
      var expTimeMillis := now;
      expTimeMillis := expTimeMillis + expireMillis.value;
      var reply := s3Client.Send(GeneratePresignedUrl(Contents(bucketName), Contents(objectName), GET, expTimeMillis));
      if reply.SdkClientException? {
        return Normal(None);
      }
      if reply.handle.Null? {
        return Raised(NullPointerException);
      }
      return Normal(Some(reply.handle.value));
    }

    /** getPresignedObjectUrl(bucketName, objectName, expireTime): a GET URL. */
    method GetPresignedObjectGetUrl(bucketName: JString, objectName: JString, expireMillis: Option<int>, now: int)
      returns (url: Outcome<Option<string>>)
      modifies s3Client
      ensures var run := GetPresignedObjectUrlRun(s3Client.backend, old(s3Client.log), bucketName, objectName,
                                                  expireMillis, Some(GET), now);
        s3Client.log == old(s3Client.log) + run.calls && url == run.value
    {
      url := GetPresignedObjectUrl(bucketName, objectName, expireMillis, Some(GET), now);
    }

    /** getPresignedObjectPutUrl(bucketName, objectName, expireTime). */
    method GetPresignedObjectPutUrl(bucketName: JString, objectName: JString, expireMillis: Option<int>, now: int)
      returns (url: Outcome<Option<string>>)
      modifies s3Client
      ensures var run := GetPresignedObjectPutUrlRun(s3Client.backend, old(s3Client.log), bucketName, objectName,
                                                     expireMillis, now);
        s3Client.log == old(s3Client.log) + run.calls && url == run.value
    {
      url := GetPresignedObjectUrl(bucketName, objectName, expireMillis, Some(PUT), now);
    }
  }
}
