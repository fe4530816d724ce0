/** The AWS SDK client as the template sees it: every SDK method the
    template calls is a `Call` value, and the service answers each call from
    the whole history of calls before it. The answer is arbitrary, so every
    ETag, page, status and failure the real service could produce is
    covered; the client records the calls it was asked to make. */
module Sdk {
  import opened Java

  datatype Bucket = Bucket(name: string)

  datatype ObjectSummary = ObjectSummary(key: string)

  datatype VersionSummary = VersionSummary(key: string, versionId: JString)

  /** DeleteObjectsRequest.KeyVersion: a key and an optional version id. */
  datatype KeyVersion = KeyVersion(key: string, version: JString)

  /** The part number and ETag that completion needs for each uploaded part. */
  datatype PartETag = PartETag(partNumber: nat, eTag: JString)

  datatype HttpMethod = GET | PUT

  /** An SDK result object the template hands back unopened
      (CopyObjectResult, DeleteObjectsResult). */
  datatype SdkResult = SdkResult(handle: string)

  /** One request issued through the SDK client, with the arguments the
      template supplies. */
  datatype Call =
    | DoesBucketExistV2(bucket: string)
    | ListBuckets
    | CreateBucket(bucket: string)
    | GetBucketLocation(bucket: string)
    | ListObjects(bucket: string)
    | ListNextBatchOfObjects(bucket: string)
    | DeleteObject(bucket: string, key: string)
    | ListVersions(bucket: string)
    | ListNextBatchOfVersions(bucket: string)
    | DeleteVersion(bucket: string, key: string, versionId: JString)
    | DeleteBucket(bucket: string)
    | CopyObject(srcBucket: string, srcKey: string, destBucket: string, destKey: string)
    | GetBucketVersioningConfiguration(bucket: string)
    | DeleteObjects(bucket: string, keys: seq<KeyVersion>, quiet: bool)
    | PutObject(bucket: string, key: string, content: string)
    | InitiateMultipartUpload(bucket: string, key: string)
    | UploadPart(bucket: string, key: string, uploadId: JString, partNumber: nat, fileOffset: nat, partSize: nat)
    | CompleteMultipartUpload(bucket: string, key: string, uploadId: JString, partETags: seq<PartETag>)
    | AbortMultipartUpload(bucket: string, key: string, uploadId: JString)
    | ListObjectsV2(bucket: string, maxKeys: Option<int>, continuationToken: JString)
    | GeneratePresignedUrl(bucket: string, key: string, httpMethod: HttpMethod, expirationMillis: int)

  /** What a call produced: an SdkClientException, or a result object. Each
      call reads the part its Java return type carries: `handle` for a
      string-like result (upload id, ETag, versioning status, continuation
      token, URL, created bucket's name, an opaque result; null where the
      SDK returns null), `flag` for doesBucketExistV2, `buckets` for
      listBuckets, `objects`, `versions` and `truncated` for listings. */
  datatype Reply =
    | SdkClientException
    | Answer(handle: JString, flag: bool, buckets: seq<Bucket>,
             objects: seq<ObjectSummary>, versions: seq<VersionSummary>, truncated: bool)
  {
    predicate Truncated() {
      Answer? && truncated
    }
  }

  /** What an operation of the template returned and the calls it issued. */
  datatype Run<T> = Run(value: T, calls: seq<Call>)

  /** A service: the reply to each call given the calls made before it, and a
      history length after which no listing is truncated any more. */
  datatype Service = Service(answer: (seq<Call>, Call) -> Reply, listingBound: nat)

  ghost predicate ListingsEnd(s: Service) {
    forall h: seq<Call>, c: Call :: |h| >= s.listingBound ==> !s.answer(h, c).Truncated()
  }

  /** Services whose listings end: every bucket holds finitely many objects. */
  type Backend = s: Service | ListingsEnd(s)
    witness Service((h: seq<Call>, c: Call) => SdkClientException, 0)

  /** How many more calls may still receive a truncated listing. */
  function ListingBudget(be: Backend, log: seq<Call>): nat {
    if |log| < be.listingBound then be.listingBound - |log| else 0
  }

  lemma TruncatedLeavesBudget(be: Backend, log: seq<Call>, c: Call)
    requires be.answer(log, c).Truncated()
    ensures ListingBudget(be, log) > 0
    ensures ListingBudget(be, log + [c]) < ListingBudget(be, log)
  {
  }

  lemma ConcatAssoc<T>(a: seq<T>, b: seq<T>, c: seq<T>)
    ensures a + (b + c) == a + b + c
  {
  }

  /** The replies a sequence of calls receives when issued after `log`. */
  function Replies(be: Backend, log: seq<Call>, calls: seq<Call>): (rs: seq<Reply>)
    ensures |rs| == |calls|
    ensures calls != [] ==> rs[0] == be.answer(log, calls[0])
    decreases |calls|
  {
    if calls == [] then []
    else [be.answer(log, calls[0])] + Replies(be, log + [calls[0]], calls[1..])
  }

  lemma {:induction false} RepliesAppend(be: Backend, log: seq<Call>, a: seq<Call>, b: seq<Call>)
    ensures Replies(be, log, a + b) == Replies(be, log, a) + Replies(be, log + a, b)
    decreases |a|
  {
    if a != [] {
      assert (a + b)[0] == a[0];
      assert (a + b)[1..] == a[1..] + b;
      RepliesAppend(be, log + [a[0]], a[1..], b);
      assert log + [a[0]] + a[1..] == log + a;
      calc {
        Replies(be, log, a + b);
        [be.answer(log, a[0])] + Replies(be, log + [a[0]], a[1..] + b);
        [be.answer(log, a[0])] + (Replies(be, log + [a[0]], a[1..]) + Replies(be, log + a, b));
        ([be.answer(log, a[0])] + Replies(be, log + [a[0]], a[1..])) + Replies(be, log + a, b);
        Replies(be, log, a) + Replies(be, log + a, b);
      }
    } else {
      assert a + b == b && log + a == log;
    }
  }

  lemma RepliesCons(be: Backend, log: seq<Call>, c: Call, rest: seq<Call>)
    ensures Replies(be, log, [c] + rest) == [be.answer(log, c)] + Replies(be, log + [c], rest)
  {
    assert ([c] + rest)[1..] == rest;
  }

  /** No call among `calls` raised. */
  ghost predicate AllSucceeded(be: Backend, log: seq<Call>, calls: seq<Call>) {
    forall k :: 0 <= k < |calls| ==> Replies(be, log, calls)[k].Answer?
  }

  /** Every call but the last succeeded and the last one raised: the run
      stopped at its first failure. */
  ghost predicate FailedAtLast(be: Backend, log: seq<Call>, calls: seq<Call>) {
    && |calls| > 0
    && (forall k :: 0 <= k < |calls| - 1 ==> Replies(be, log, calls)[k].Answer?)
    && Replies(be, log, calls)[|calls| - 1].SdkClientException?
  }

  lemma OneCall(be: Backend, log: seq<Call>, c: Call)
    ensures Replies(be, log, [c]) == [be.answer(log, c)]
    ensures AllSucceeded(be, log, [c]) <==> be.answer(log, c).Answer?
    ensures FailedAtLast(be, log, [c]) <==> be.answer(log, c).SdkClientException?
  {
    assert [c][1..] == [];
  }

  /** A run made of two stretches succeeds exactly when both do. */
  lemma AllSucceededAppend(be: Backend, log: seq<Call>, a: seq<Call>, b: seq<Call>)
    ensures AllSucceeded(be, log, a + b) <==> AllSucceeded(be, log, a) && AllSucceeded(be, log + a, b)
  {
    RepliesAppend(be, log, a, b);
    var rs := Replies(be, log, a + b);
    if AllSucceeded(be, log, a + b) {
      forall k | 0 <= k < |a| ensures Replies(be, log, a)[k].Answer? {
        assert rs[k] == Replies(be, log, a)[k];
      }
      forall k | 0 <= k < |b| ensures Replies(be, log + a, b)[k].Answer? {
        assert rs[|a| + k] == Replies(be, log + a, b)[k];
      }
    }
  }

  /** After a stretch that succeeded, a run stops at its first failure exactly
      when its remainder does. */
  lemma FailedAtLastAppend(be: Backend, log: seq<Call>, a: seq<Call>, b: seq<Call>)
    requires AllSucceeded(be, log, a)
    ensures FailedAtLast(be, log, a + b) <==> FailedAtLast(be, log + a, b)
  {
    RepliesAppend(be, log, a, b);
    var rs := Replies(be, log, a + b);
    var rb := Replies(be, log + a, b);
    assert forall k :: 0 <= k < |b| ==> rs[|a| + k] == rb[k];
    if FailedAtLast(be, log + a, b) {
      forall k | 0 <= k < |a + b| - 1 ensures rs[k].Answer? {
        if k >= |a| {
          assert rs[k] == rb[k - |a|];
        }
      }
    }
  }

  /** A run that reports `ok` succeeded on every call when `ok` holds and
      otherwise stopped right after its first failure. */
  ghost predicate StopsAtFirstFailure(be: Backend, log: seq<Call>, calls: seq<Call>, ok: bool) {
    && (ok ==> AllSucceeded(be, log, calls))
    && (!ok ==> FailedAtLast(be, log, calls))
  }

  /** A stretch that succeeded followed by a run that stops at its first
      failure is a run that stops at its first failure. */
  lemma StopsAfterSuccess(be: Backend, log: seq<Call>, a: seq<Call>, b: seq<Call>, ok: bool)
    requires AllSucceeded(be, log, a) && StopsAtFirstFailure(be, log + a, b, ok)
    ensures StopsAtFirstFailure(be, log, a + b, ok)
  {
    AllSucceededAppend(be, log, a, b);
    FailedAtLastAppend(be, log, a, b);
  }

  /** A single call stops at its first failure, reporting whether it succeeded. */
  lemma OneCallStops(be: Backend, log: seq<Call>, c: Call)
    ensures StopsAtFirstFailure(be, log, [c], be.answer(log, c).Answer?)
  {
    OneCall(be, log, c);
  }

  /** The SDK client the template holds: it forwards each call to the service
      and keeps the log of calls made. */
  class S3Client {
    const backend: Backend
    var log: seq<Call>

    constructor (backend: Backend)
      ensures this.backend == backend && log == []
    {
      this.backend := backend;
      log := [];
    }

    method Send(c: Call) returns (r: Reply)
      modifies this
      ensures log == old(log) + [c]
      ensures r == backend.answer(old(log), c)
    {
      r := backend.answer(log, c);
      log := log + [c];
    }
  }
}
