/** bucketExists, getBucketByName and createBucket as functions of the
    service and the calls made so far: the value each returns and the calls
    it issues. */
module BucketOps {
  import opened Java
  import opened Sdk
  import opened ObjectNames

  /** bucketExists: no call for an empty name; otherwise one
      doesBucketExistV2 on the lower-cased name, whose failure reads as
      false. */
  function BucketExistsRun(be: Backend, log: seq<Call>, bucketName: JString): Run<bool> {
    if StrIsEmpty(bucketName) then Run(false, [])
    else
      var c := DoesBucketExistV2(HandlerBucketName(bucketName).value);
      var r := be.answer(log, c);
      Run(r.Answer? && r.flag, [c])
  }

  /** The first bucket whose name equals `name` exactly (a null name matches
      none). */
  function FirstNamed(buckets: seq<Bucket>, name: JString): (found: Option<Bucket>)
    ensures found.Some? ==>
      exists i :: 0 <= i < |buckets| && buckets[i] == found.value && Str(buckets[i].name) == name
                  && forall j :: 0 <= j < i ==> Str(buckets[j].name) != name
    ensures found.None? ==> forall i :: 0 <= i < |buckets| ==> Str(buckets[i].name) != name
  {
    if buckets == [] then None
    else if Str(buckets[0].name) == name then Some(buckets[0])
    else
      var rest := FirstNamed(buckets[1..], name);
      assert forall i :: 1 <= i < |buckets| ==> buckets[i] == buckets[1..][i - 1];
      rest
  }

  /** getBucketByName: one listBuckets call, whose failure escapes; an empty
      list gives nothing, otherwise the first exact match. */
  function GetBucketByNameRun(be: Backend, log: seq<Call>, bucketName: JString): Run<Outcome<Option<Bucket>>> {
    var r := be.answer(log, ListBuckets);
    if r.SdkClientException? then Run(Raised(SdkClientError), [ListBuckets])
    else if r.buckets == [] then Run(Normal(None), [ListBuckets])
    else Run(Normal(FirstNamed(r.buckets, bucketName)), [ListBuckets])
  }

  /** createBucket: nothing for an empty name; otherwise the lower-cased name
      is checked for existence, and an existing bucket is looked up by name
      while a missing one is created and its location read. Any failure,
      including one from the look-up, gives nothing. */
  function CreateBucketRun(be: Backend, log: seq<Call>, bucketName: JString): Run<Option<Bucket>> {
    if StrIsEmpty(bucketName) then Run(None, [])
    else
      var name := HandlerBucketName(bucketName);
      var exists_ := BucketExistsRun(be, log, name);
      if exists_.value then
        var lookup := GetBucketByNameRun(be, log + exists_.calls, name);
        Run(if lookup.value.Raised? then None else lookup.value.value, exists_.calls + lookup.calls)
      else
        var create := CreateBucket(name.value);
        var created := be.answer(log + exists_.calls, create);
        if created.SdkClientException? then Run(None, exists_.calls + [create])
        else
          var locate := GetBucketLocation(name.value);
          var located := be.answer(log + exists_.calls + [create], locate);
          var bucket := if located.SdkClientException? || created.handle.Null? then None
                        else Some(Bucket(created.handle.value));
          Run(bucket, exists_.calls + [create, locate])
  }

  /** The bucket a call is addressed to, for calls that name one bucket. */
  function BucketOf(c: Call): Option<string> {
    match c
    case DoesBucketExistV2(b) => Some(b)
    case CreateBucket(b) => Some(b)
    case GetBucketLocation(b) => Some(b)
    case _ => None
  }

  /** bucketExists answers without a call exactly for an empty name, and
      otherwise asks once about the lower-cased name; true means the service
      said yes. */
  lemma BucketExistsNormalises(be: Backend, log: seq<Call>, bucketName: JString)
    ensures var r := BucketExistsRun(be, log, bucketName);
      && (r.calls == [] <==> StrIsEmpty(bucketName))
      && (!StrIsEmpty(bucketName) ==> r.calls == [DoesBucketExistV2(Lower(bucketName.value))])
      && (r.value <==> !StrIsEmpty(bucketName) && Replies(be, log, r.calls)[0].Answer?
                       && Replies(be, log, r.calls)[0].flag)
  {
    if !StrIsEmpty(bucketName) {
      OneCall(be, log, DoesBucketExistV2(Lower(bucketName.value)));
    }
  }

  /** getBucketByName finds a bucket exactly when the listing succeeded and
      holds a bucket of that exact name, and then returns the first one; a
      failed listing escapes as an exception. */
  lemma GetBucketByNameFindsFirstMatch(be: Backend, log: seq<Call>, bucketName: JString)
    ensures var r := GetBucketByNameRun(be, log, bucketName);
      var reply := be.answer(log, ListBuckets);
      && r.calls == [ListBuckets]
      && (r.value.Raised? <==> reply.SdkClientException?)
      && (r.value.Raised? ==> r.value.exception == SdkClientError)
      && (r.value.Normal? && r.value.value.Some? <==>
            reply.Answer? && exists i :: 0 <= i < |reply.buckets| && Str(reply.buckets[i].name) == bucketName)
      && (r.value.Normal? && r.value.value.Some? ==> r.value.value == FirstNamed(reply.buckets, bucketName))
  {
  }

  /** Every bucket createBucket names to the service is the lower-cased
      input, whichever branch it takes. */
  lemma CreateBucketPassesNormalisedName(be: Backend, log: seq<Call>, bucketName: JString)
    ensures var r := CreateBucketRun(be, log, bucketName);
      forall c :: c in r.calls ==> BucketOf(c).None? || BucketOf(c) == Some(Lower(bucketName.value))
  {
    if !StrIsEmpty(bucketName) {
      HandlerBucketNameIdempotent(bucketName);
    }
  }

  /** createBucket on an empty name gives nothing without a call; otherwise
      it first asks whether the lower-cased bucket exists, and when it does,
      its only other call is the look-up by name (listBuckets), and it
      returns what that look-up returns. */
  lemma CreateBucketExisting(be: Backend, log: seq<Call>, bucketName: JString)
    ensures var r := CreateBucketRun(be, log, bucketName);
      && (StrIsEmpty(bucketName) ==> r == Run(None, []))
      && (!StrIsEmpty(bucketName) ==> r.calls[0] == DoesBucketExistV2(Lower(bucketName.value)))
      && (!StrIsEmpty(bucketName) && BucketExistsRun(be, log, bucketName).value ==>
            && r.calls == [DoesBucketExistV2(Lower(bucketName.value)), ListBuckets]
            && var lookup := GetBucketByNameRun(be, log + [r.calls[0]], Str(Lower(bucketName.value)));
               r.value == (if lookup.value.Raised? then None else lookup.value.value))
  {
    if !StrIsEmpty(bucketName) {
      HandlerBucketNameIdempotent(bucketName);
    }
  }

  /** A missing bucket is created under the lower-cased name. A failed
      create ends the run with nothing; a successful one is followed by
      reading the bucket's location, and the created bucket is returned
      exactly when both calls succeeded and the service named the bucket it
      created. */
  lemma CreateBucketMissing(be: Backend, log: seq<Call>, bucketName: JString)
    requires !StrIsEmpty(bucketName) && !BucketExistsRun(be, log, bucketName).value
    ensures var r := CreateBucketRun(be, log, bucketName);
      var name := Lower(bucketName.value);
      var created := Replies(be, log, r.calls)[1];
      && r.calls[..2] == [DoesBucketExistV2(name), CreateBucket(name)]
      && (created.SdkClientException? ==> r == Run(None, [DoesBucketExistV2(name), CreateBucket(name)]))
      && (created.Answer? ==> r.calls == [DoesBucketExistV2(name), CreateBucket(name), GetBucketLocation(name)])
      && (r.value.Some? ==>
            && r.calls == [DoesBucketExistV2(name), CreateBucket(name), GetBucketLocation(name)]
            && created.Answer? && Replies(be, log, r.calls)[2].Answer?
            && Str(r.value.value.name) == created.handle)
      && (created.Answer? && created.handle.Str? && Replies(be, log, r.calls)[2].Answer? ==>
            r.value == Some(Bucket(created.handle.value)))
  {
    HandlerBucketNameIdempotent(bucketName);
    var name := Lower(bucketName.value);
    var r := CreateBucketRun(be, log, bucketName);
    if |r.calls| == 2 {
      var calls := [DoesBucketExistV2(name), CreateBucket(name)];
      assert r.calls == calls;
      RepliesAppend(be, log, calls[..1], calls[1..]);
      assert calls[..1] + calls[1..] == calls;
      OneCall(be, log + calls[..1], calls[1]);
    } else {
      var calls := [DoesBucketExistV2(name), CreateBucket(name), GetBucketLocation(name)];
      assert r.calls == calls;
      RepliesAppend(be, log, calls[..1], calls[1..]);
      assert calls[..1] + calls[1..] == calls;
      RepliesAppend(be, log + calls[..1], calls[1..2], calls[2..]);
      assert calls[1..2] + calls[2..] == calls[1..];
      OneCall(be, log + calls[..1], calls[1]);
      OneCall(be, log + calls[..2], calls[2]);
      assert log + calls[..1] + calls[1..2] == log + calls[..2];
    }
  }
}
