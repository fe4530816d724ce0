/** copyObject, deleteObjects, deleteObjectsWithNoVersionBucket, upload and
    getPresignedObjectUrl as functions of the service and the calls made so
    far: the value each returns, or the exception it throws, and the calls
    it issues. */
module ObjectOps {
  import opened Java
  import opened Sdk
  import opened ObjectNames
  import opened Guards

  /** An opaque SDK result: nothing for a failed call or a null result. */
  function ResultOf(r: Reply): Option<SdkResult> {
    if r.SdkClientException? || r.handle.Null? then None else Some(SdkResult(r.handle.value))
  }

  /** copyObject(srcBucketName, srcObjectName, destBucketName, destObjectName). */
  function CopyObjectRun(be: Backend, log: seq<Call>, srcBucket: JString, srcKey: JString, destBucket: JString,
                         destKey: JString): Run<Outcome<Option<SdkResult>>>
  {
    if AnyEmpty([srcBucket, srcKey, destBucket, destKey]) then Run(Normal(None), [])
    else if srcBucket == destBucket && srcKey == destKey then Run(Raised(IllegalArgumentException), [])
    else
      var c := CopyObject(Contents(srcBucket), Contents(srcKey), Contents(destBucket), Contents(destKey));
      Run(Normal(ResultOf(be.answer(log, c))), [c])
  }

  /** copyObject(srcBucketName, srcObjectName, destBucketName): the copy keeps
      the object's name. */
  function CopyObjectKeepNameRun(be: Backend, log: seq<Call>, srcBucket: JString, srcKey: JString,
                                 destBucket: JString): Run<Outcome<Option<SdkResult>>>
  {
    CopyObjectRun(be, log, srcBucket, srcKey, destBucket, srcKey)
  }

  /** copyObject makes no call when a name is missing (returning nothing) or
      when source and destination coincide (throwing
      IllegalArgumentException); otherwise it issues exactly the copy and
      returns what the service returned. */
  lemma CopyObjectDecisions(be: Backend, log: seq<Call>, srcBucket: JString, srcKey: JString, destBucket: JString,
                            destKey: JString)
    ensures var r := CopyObjectRun(be, log, srcBucket, srcKey, destBucket, destKey);
      var missing := AnyEmpty([srcBucket, srcKey, destBucket, destKey]);
      var same := srcBucket == destBucket && srcKey == destKey;
      && (r.calls == [] <==> missing || same)
      && (missing ==> r.value == Normal(None))
      && (r.value.Raised? <==> !missing && same)
      && (r.value.Raised? ==> r.value.exception == IllegalArgumentException)
      && (r.calls != [] ==>
            && r.calls == [CopyObject(Contents(srcBucket), Contents(srcKey), Contents(destBucket), Contents(destKey))]
            && r.value.Normal?
            && (r.value.value.Some? <==> Replies(be, log, r.calls)[0].Answer? && Replies(be, log, r.calls)[0].handle.Str?)
            && (r.value.value.Some? ==> r.value.value.value == SdkResult(Replies(be, log, r.calls)[0].handle.value)))
  {
    var r := CopyObjectRun(be, log, srcBucket, srcKey, destBucket, destKey);
    if r.calls != [] {
      OneCall(be, log, r.calls[0]);
    }
  }

  /** The three-argument copyObject throws exactly when all three names are
      present and the two buckets are equal: it can only copy between
      different buckets. */
  lemma CopyObjectKeepNameThrowsOnSameBucket(be: Backend, log: seq<Call>, srcBucket: JString, srcKey: JString,
                                             destBucket: JString)
    ensures var r := CopyObjectKeepNameRun(be, log, srcBucket, srcKey, destBucket);
      r.value.Raised? <==> !AnyEmpty([srcBucket, srcKey, destBucket]) && srcBucket == destBucket
  {
    var three := [srcBucket, srcKey, destBucket];
    var four := [srcBucket, srcKey, destBucket, srcKey];
    if AnyEmpty(four) {
      var i :| 0 <= i < 4 && StrIsEmpty(four[i]);
      assert StrIsEmpty(three[if i == 3 then 1 else i]);
    }
    if AnyEmpty(three) {
      var i :| 0 <= i < 3 && StrIsEmpty(three[i]);
      assert StrIsEmpty(four[i]);
    }
  }

  /** BucketVersioningConfiguration.ENABLED. */
  const Enabled: string := "Enabled"

  /** The versioning status is "Enabled", ignoring case; a null status is not. */
  predicate VersioningEnabled(status: JString) {
    status.Str? && EqualsIgnoreCase(Enabled, status.value)
  }

  /** A status counts as enabled exactly when it lower-cases to "enabled". */
  lemma VersioningEnabledIffLowerEnabled(status: string)
    ensures VersioningEnabled(Str(status)) <==> Lower(status) == "enabled"
  {
    EqualsIgnoreCaseIffSameLower(Enabled, status);
    LowerOfEnabled();
  }

  lemma LowerOfEnabled()
    ensures Lower(Enabled) == "enabled"
  {
    var l := Lower(Enabled);
    assert l[0] == 'e' && l[1] == 'n' && l[2] == 'a' && l[3] == 'b' && l[4] == 'l' && l[5] == 'e' && l[6] == 'd';
  }

  /** deleteObjects(bucketName, objectVersionList, quiet): a null list is
      `None`. */
  function DeleteObjectsRun(be: Backend, log: seq<Call>, bucketName: JString, keys: Option<seq<KeyVersion>>,
                            quiet: bool): Run<Option<SdkResult>>
  {
    if StrIsEmpty(bucketName) then Run(None, [])
    else if keys.None? || keys.value == [] then Run(None, [])
    else
      var check := GetBucketVersioningConfiguration(Contents(bucketName));
      var status := be.answer(log, check);
      if status.SdkClientException? || !VersioningEnabled(status.handle) then Run(None, [check])
      else
        var c := DeleteObjects(Contents(bucketName), keys.value, quiet);
        Run(ResultOf(be.answer(log + [check], c)), [check, c])
  }

  /** deleteObjects(bucketName, objectVersionList): not quiet. */
  function DeleteObjectsLoudRun(be: Backend, log: seq<Call>, bucketName: JString, keys: Option<seq<KeyVersion>>)
    : Run<Option<SdkResult>>
  {
    DeleteObjectsRun(be, log, bucketName, keys, false)
  }

  /** deleteObjects makes no call for an empty bucket name or an empty or
      null list. Otherwise it reads the versioning status first, and it
      issues the multi-object delete, with the list and quiet flag it was
      given, exactly when that read succeeded and the status is "Enabled"
      ignoring case. A result comes back only from that delete: exactly
      when it succeeded with a non-null result, and it is that result. */
  lemma DeleteObjectsOnlyWhenVersioned(be: Backend, log: seq<Call>, bucketName: JString,
                                       keys: Option<seq<KeyVersion>>, quiet: bool)
    ensures var r := DeleteObjectsRun(be, log, bucketName, keys, quiet);
      var guarded := StrIsEmpty(bucketName) || keys.None? || keys.value == [];
      && (guarded ==> r == Run(None, []))
      && (!guarded ==>
            var status := be.answer(log, GetBucketVersioningConfiguration(Contents(bucketName)));
            && r.calls[0] == GetBucketVersioningConfiguration(Contents(bucketName))
            && (|r.calls| == 2 <==> status.Answer? && VersioningEnabled(status.handle))
            && (|r.calls| == 2 ==> r.calls[1] == DeleteObjects(Contents(bucketName), keys.value, quiet))
            && |r.calls| <= 2
            && (r.value.Some? ==> |r.calls| == 2 && AllSucceeded(be, log, r.calls))
            && (|r.calls| == 2 ==>
                  var deleted := Replies(be, log, r.calls)[1];
                  && (r.value.Some? <==> deleted.Answer? && deleted.handle.Str?)
                  && (r.value.Some? ==> r.value.value == SdkResult(deleted.handle.value))))
  {
    var r := DeleteObjectsRun(be, log, bucketName, keys, quiet);
    if |r.calls| == 2 {
      RepliesCons(be, log, r.calls[0], [r.calls[1]]);
      assert r.calls == [r.calls[0]] + [r.calls[1]];
      OneCall(be, log + [r.calls[0]], r.calls[1]);
    }
  }

  /** The key list deleteObjectsWithNoVersionBucket builds: each name without
      a version id. */
  function KeyVersions(names: seq<string>): (keys: seq<KeyVersion>)
    ensures |keys| == |names|
    ensures forall i :: 0 <= i < |names| ==> keys[i] == KeyVersion(names[i], Null)
  {
    if names == [] then [] else [KeyVersion(names[0], Null)] + KeyVersions(names[1..])
  }

  /** deleteObjectsWithNoVersionBucket(bucketName, keyNameList, quiet) as
      written: a null list throws NullPointerException while the keys are
      mapped, everything else goes through deleteObjects. */
  function DeleteObjectsWithNoVersionBucketRun(be: Backend, log: seq<Call>, bucketName: JString,
                                               keyNames: Option<seq<string>>, quiet: bool)
    : Run<Outcome<Option<SdkResult>>>
  {
    if keyNames.None? then Run(Raised(NullPointerException), [])
    else
      var r := DeleteObjectsRun(be, log, bucketName, Some(KeyVersions(keyNames.value)), quiet);
      Run(Normal(r.value), r.calls)
  }

  /** As written, the method meant for buckets without versioning never
      deletes anything from such a bucket: when the bucket's versioning
      status is anything but "Enabled" it only reads that status and returns
      nothing. */
  lemma NoVersionDeleteSkipsUnversionedBucket(be: Backend, log: seq<Call>, bucketName: JString,
                                              keyNames: seq<string>, quiet: bool)
    requires !StrIsEmpty(bucketName) && keyNames != []
    requires var status := be.answer(log, GetBucketVersioningConfiguration(Contents(bucketName)));
      status.Answer? && !VersioningEnabled(status.handle)
    ensures DeleteObjectsWithNoVersionBucketRun(be, log, bucketName, Some(keyNames), quiet)
            == Run(Normal(None), [GetBucketVersioningConfiguration(Contents(bucketName))])
  {
  }

  /** deleteObjectsWithNoVersionBucket as its documentation describes it:
      delete the named objects without consulting the versioning status. */
  function DeleteObjectsWithNoVersionBucketIntendedRun(be: Backend, log: seq<Call>, bucketName: JString,
                                                       keyNames: Option<seq<string>>, quiet: bool)
    : Run<Outcome<Option<SdkResult>>>
  {
    if keyNames.None? then Run(Raised(NullPointerException), [])
    else if StrIsEmpty(bucketName) || keyNames.value == [] then Run(Normal(None), [])
    else
      var c := DeleteObjects(Contents(bucketName), KeyVersions(keyNames.value), quiet);
      Run(Normal(ResultOf(be.answer(log, c))), [c])
  }

  /** Whatever the bucket's versioning state, the intended method issues
      exactly one multi-object delete naming every key, in order, without a
      version id, and returns its result. */
  lemma NoVersionDeleteIntendedDeletesNames(be: Backend, log: seq<Call>, bucketName: JString,
                                            keyNames: seq<string>, quiet: bool)
    requires !StrIsEmpty(bucketName) && keyNames != []
    ensures var r := DeleteObjectsWithNoVersionBucketIntendedRun(be, log, bucketName, Some(keyNames), quiet);
      && |r.calls| == 1 && r.calls[0].DeleteObjects?
      && r.calls[0].bucket == Contents(bucketName) && r.calls[0].quiet == quiet
      && |r.calls[0].keys| == |keyNames|
      && (forall i :: 0 <= i < |keyNames| ==> r.calls[0].keys[i] == KeyVersion(keyNames[i], Null))
      && r.value.Normal?
      && (r.value.value.Some? <==> Replies(be, log, r.calls)[0].Answer? && Replies(be, log, r.calls)[0].handle.Str?)
      && (r.value.value.Some? ==> r.value.value.value == SdkResult(Replies(be, log, r.calls)[0].handle.value))
  {
    var r := DeleteObjectsWithNoVersionBucketIntendedRun(be, log, bucketName, Some(keyNames), quiet);
    OneCall(be, log, r.calls[0]);
  }

  /** upload(bucketName, objectName, baseDir, content), with the date and
      UUID of the key given. */
  function UploadRun(be: Backend, log: seq<Call>, bucketName: JString, objectName: JString, baseDir: JString,
                     content: JString, date: string, uuid: string): Run<bool>
  {
    if AnyEmpty([bucketName, objectName, content]) then Run(false, [])
    else
      var c := PutObject(Contents(bucketName), ObjectKey(Contents(objectName), baseDir, date, uuid), Contents(content));
      Run(be.answer(log, c).Answer?, [c])
  }

  /** upload(bucketName, objectName, content): under the "uploads" directory. */
  function UploadDefaultDirRun(be: Backend, log: seq<Call>, bucketName: JString, objectName: JString,
                               content: JString, date: string, uuid: string): Run<bool>
  {
    UploadRun(be, log, bucketName, objectName, Str(DefaultUploadBaseDir), content, date, uuid)
  }

  /** upload makes no call and returns false when the bucket, the object
      name or the content is missing; otherwise it puts the content once,
      into that bucket under the generated key, and returns whether the put
      succeeded. When the directory has no '/' and the date and UUID have
      their usual shape, the key splits back into the directory, date, UUID
      and object name it was built from. */
  lemma UploadPutsUnderGeneratedKey(be: Backend, log: seq<Call>, bucketName: JString, objectName: JString,
                                    baseDir: JString, content: JString, date: string, uuid: string)
    ensures var r := UploadRun(be, log, bucketName, objectName, baseDir, content, date, uuid);
      && (AnyEmpty([bucketName, objectName, content]) ==> r == Run(false, []))
      && (!AnyEmpty([bucketName, objectName, content]) ==>
            && |r.calls| == 1 && r.calls[0].PutObject?
            && r.calls[0].bucket == Contents(bucketName) && r.calls[0].content == Contents(content)
            && r.calls[0].key == ObjectKey(Contents(objectName), baseDir, date, uuid)
            && (r.value <==> Replies(be, log, r.calls)[0].Answer?)
            && (NoSlash(AppendText(baseDir)) && IsDateText(date) && IsSimpleUuid(uuid) ==>
                  ParseKey(r.calls[0].key) == Some(KeyParts(AppendText(baseDir), date, uuid, Contents(objectName)))))
  {
    if !AnyEmpty([bucketName, objectName, content]) && NoSlash(AppendText(baseDir)) && IsDateText(date)
       && IsSimpleUuid(uuid) {
      ParseObjectKey(Contents(objectName), baseDir, date, uuid);
    }
  }

  /** The three-argument upload files the content under "/uploads/". */
  lemma UploadDefaultDirKey(be: Backend, log: seq<Call>, bucketName: JString, objectName: JString,
                            content: JString, date: string, uuid: string)
    requires !AnyEmpty([bucketName, objectName, content])
    ensures var r := UploadDefaultDirRun(be, log, bucketName, objectName, content, date, uuid);
      |r.calls| == 1 && r.calls[0].PutObject? && r.calls[0].key[..9] == "/uploads/"
  {
  }

  /** getPresignedObjectUrl(bucketName, objectName, expireTime, httpMethod) as
      written, with the expiry in milliseconds, `now` the clock reading in
      milliseconds, and a null duration or method `None`. */
  function GetPresignedObjectUrlRun(be: Backend, log: seq<Call>, bucketName: JString, objectName: JString,
                                    expireMillis: Option<int>, httpMethod: Option<HttpMethod>, now: int)
    : Run<Outcome<Option<string>>>
  {
    if AnyEmpty([bucketName, objectName]) || expireMillis.None? || httpMethod.None? then Run(Normal(None), [])
    else
      var c := GeneratePresignedUrl(Contents(bucketName), Contents(objectName), GET, now + expireMillis.value);
      var r := be.answer(log, c);
      if r.SdkClientException? then Run(Normal(None), [c])
      else if r.handle.Null? then Run(Raised(NullPointerException), [c])
      else Run(Normal(Some(r.handle.value)), [c])
  }

  /** getPresignedObjectPutUrl(bucketName, objectName, expireTime). */
  function GetPresignedObjectPutUrlRun(be: Backend, log: seq<Call>, bucketName: JString, objectName: JString,
                                       expireMillis: Option<int>, now: int): Run<Outcome<Option<string>>>
  {
    GetPresignedObjectUrlRun(be, log, bucketName, objectName, expireMillis, Some(PUT), now)
  }

  /** The URL request is made only with both names present and a duration
      and method given; it expires `expireMillis` after `now`, and it is
      always a GET, whatever method was asked for: the URL
      getPresignedObjectPutUrl hands out is not signed for PUT. */
  lemma PresignedUrlIgnoresMethod(be: Backend, log: seq<Call>, bucketName: JString, objectName: JString,
                                  expireMillis: Option<int>, httpMethod: Option<HttpMethod>, now: int)
    ensures var r := GetPresignedObjectUrlRun(be, log, bucketName, objectName, expireMillis, httpMethod, now);
      var allowed := !AnyEmpty([bucketName, objectName]) && expireMillis.Some? && httpMethod.Some?;
      && (!allowed ==> r == Run(Normal(None), []))
      && (allowed ==>
            && r.calls == [GeneratePresignedUrl(Contents(bucketName), Contents(objectName), GET, now + expireMillis.value)]
            && (r.value == Normal(None) <==> Replies(be, log, r.calls)[0].SdkClientException?))
    ensures var r := GetPresignedObjectPutUrlRun(be, log, bucketName, objectName, expireMillis, now);
      r.calls != [] ==> r.calls[0].httpMethod == GET
  {
    var r := GetPresignedObjectUrlRun(be, log, bucketName, objectName, expireMillis, httpMethod, now);
    if r.calls != [] {
      OneCall(be, log, r.calls[0]);
    }
  }

  /** getPresignedObjectUrl as its signature intends it: the request is
      signed for the method asked for. */
  function GetPresignedObjectUrlIntendedRun(be: Backend, log: seq<Call>, bucketName: JString, objectName: JString,
                                            expireMillis: Option<int>, httpMethod: Option<HttpMethod>, now: int)
    : Run<Outcome<Option<string>>>
  {
    if AnyEmpty([bucketName, objectName]) || expireMillis.None? || httpMethod.None? then Run(Normal(None), [])
    else
      var c := GeneratePresignedUrl(Contents(bucketName), Contents(objectName), httpMethod.value, now + expireMillis.value);
      var r := be.answer(log, c);
      if r.SdkClientException? then Run(Normal(None), [c])
      else if r.handle.Null? then Run(Raised(NullPointerException), [c])
      else Run(Normal(Some(r.handle.value)), [c])
  }

  /** The intended method signs exactly one request, for the requested
      method and expiry, and otherwise behaves as written. */
  lemma PresignedUrlIntendedUsesMethod(be: Backend, log: seq<Call>, bucketName: JString, objectName: JString,
                                       expireMillis: Option<int>, httpMethod: Option<HttpMethod>, now: int)
    ensures var r := GetPresignedObjectUrlIntendedRun(be, log, bucketName, objectName, expireMillis, httpMethod, now);
      var asWritten := GetPresignedObjectUrlRun(be, log, bucketName, objectName, expireMillis, httpMethod, now);
      && (r.calls == [] <==> asWritten.calls == [])
      && (r.calls != [] ==>
            && r.calls == [GeneratePresignedUrl(Contents(bucketName), Contents(objectName), httpMethod.value,
                                                now + expireMillis.value)]
            && (r.value == Normal(None) <==> Replies(be, log, r.calls)[0].SdkClientException?))
      && (httpMethod == Some(GET) ==> r == asWritten)
  {
    var r := GetPresignedObjectUrlIntendedRun(be, log, bucketName, objectName, expireMillis, httpMethod, now);
    if r.calls != [] {
      OneCall(be, log, r.calls[0]);
    }
  }
}
