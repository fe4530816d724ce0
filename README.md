# AmazonS3V1Template, modelled in Dafny

`AmazonS3V1Template` is a Spring-managed facade over the AWS SDK for Java
(v1) S3 client. Most of its methods hand one request to the SDK and catch
`SdkClientException`. A few of them decide, loop or build names before they
call the SDK:

- `multipartUploadV1` cuts a file into 5 MiB parts, uploads them, and
  completes the upload with the collected ETags.
- `getObjectInfo` and `getObjectNameList` page through `listObjectsV2`.
- `deleteBucket` deletes every listed object and every listed version, page
  by page, and then deletes the bucket.
- `copyObject`, `deleteObjects`, `deleteObjectsWithNoVersionBucket` and
  `upload` check their arguments before they call the SDK. `copyObject`
  refuses a copy onto itself. `deleteObjects` requires a versioned bucket.
- `bucketExists` and `createBucket` lower-case the bucket name before they
  call the SDK. `getBucketByName` searches the bucket list for the name
  exactly as given.
- `handlerBucketName`, `handlerUploadObjectName` and `isEmpty` are the
  helpers behind the checks above.

This project models that logic. The SDK client is `Sdk.S3Client`. It
records every call in `log`, and it answers each call from a `Backend`.
A `Backend` is an arbitrary function from the history of calls and the new
call to a reply: either an `SdkClientException` or a result. So upload ids,
ETags, listing pages, versioning status and failures are all
unconstrained. The one restriction is that listings stop being truncated
after some number of calls, since a bucket holds finitely many objects.

Each template method is described by a specification function
(`…Run`) of the backend, the log so far and the arguments. The function
gives the value returned and the calls issued. Each method of the class
`Template.AmazonS3V1Template` is imperative, like its Java counterpart, and
is proved to append exactly those calls to the log and return that value.
The lemmas about the specification functions state what the template
promises:

- which calls are made and in which order;
- that no call is made when a guard fails;
- that a run stops at the first failing call;
- that the multipart loop tiles the file exactly;
- that paging visits every page until the first one that is not truncated.

The date, the UUID and the clock reading that the Java code takes from
`LocalDateTime.now()`, `UUID.randomUUID()` and `Instant.now()` are
parameters here. A Java `String` that may be null is `Java.JString`. A
Java method that may throw returns a `Java.Outcome`.

Modules:

| module | content |
|---|---|
| `Java` | null strings, `StrUtil.isEmpty`, ASCII lower-casing, `equalsIgnoreCase` |
| `Sdk` | calls, replies, the backend, the logging client, trace predicates |
| `ObjectNames` | `handlerBucketName`, `handlerUploadObjectName` and the key's parser |
| `Guards` | the varargs `isEmpty` |
| `MultipartPlan` | the part offsets and sizes of the multipart loop |
| `Multipart` | `multipartUploadV1` |
| `BucketOps` | `bucketExists`, `getBucketByName`, `createBucket` |
| `BucketSweep` | `deleteBucket` |
| `ObjectListing` | `getObjectInfo`, `getObjectNameList` |
| `ObjectOps` | `copyObject`, `deleteObjects*`, `upload`, `getPresigned*Url` |
| `Template` | the class `AmazonS3V1Template`, method by method |

Where the documentation and the code disagree, the class methods follow
the code (see Findings).

## Model

Source paths are relative to the repository root.

| member | source | states |
|---|---|---|
| `Java.Lower` | src/main/java/com/amazon/s3/v1/template/AmazonS3V1Template.java:826 | `toLowerCase` keeps the length and lower-cases each ASCII capital on its own, leaving every other character alone |
| `Java.EqualsIgnoreCaseIffSameLower` | src/main/java/com/amazon/s3/v1/template/AmazonS3V1Template.java:482 | two strings are `equalsIgnoreCase` exactly when their lower-case forms are equal |
| `Java.LowerFixesExactlyNoUpper` | src/main/java/com/amazon/s3/v1/template/AmazonS3V1Template.java:826 | lower-casing leaves no capital, and it changes a string exactly when the string has a capital |
| `Java.LowerIsUniqueCaselessMatch` | src/main/java/com/amazon/s3/v1/template/AmazonS3V1Template.java:826 | the lower-case form is the only capital-free string equal to the input ignoring case |
| `ObjectNames.HandlerBucketName` | src/main/java/com/amazon/s3/v1/template/AmazonS3V1Template.java:820-827 | a null or empty name comes back unchanged; any other name comes back non-empty, capital-free and equal to the input ignoring case |
| `ObjectNames.HandlerBucketNameIdempotent` | src/main/java/com/amazon/s3/v1/template/AmazonS3V1Template.java:820-827 | normalising a normalised name changes nothing |
| `ObjectNames.HandlerBucketNameCharacterised` | src/main/java/com/amazon/s3/v1/template/AmazonS3V1Template.java:820-827 | for a non-empty name, the result is exactly the capital-free string that equals the input ignoring case (both directions) |
| `ObjectNames.ObjectKey` | src/main/java/com/amazon/s3/v1/template/AmazonS3V1Template.java:838-848 | the key starts with `/`, ends with `-` followed by the object name, and starts with `//` when baseDir is empty |
| `ObjectNames.SlashIndex` | src/main/java/com/amazon/s3/v1/constant/BusinessV1Constant.java:12 | the result is the first `/` at or after the start position; no `/` is found exactly when none occurs |
| `ObjectNames.ParseKey` | src/main/java/com/amazon/s3/v1/constant/BusinessV1Constant.java:11-13 | a key that parses has a slash-free directory, a `yyyy/MM/dd` date and a 32-hex-digit UUID |
| `ObjectNames.ParseObjectKey` | src/main/java/com/amazon/s3/v1/template/AmazonS3V1Template.java:838-848 | the key of a slash-free directory, a date and a UUID parses back to exactly those parts and the object name (null baseDir reads as "null") |
| `ObjectNames.ParsedKeyRebuilds` | src/main/java/com/amazon/s3/v1/template/AmazonS3V1Template.java:838-848 | every string that parses is the key built from its parts, so parsing and building are inverse |
| `ObjectNames.DistinctUuidsGiveDistinctKeys` | src/main/java/com/amazon/s3/v1/template/AmazonS3V1Template.java:844 | two uploads that drew different UUIDs never share a key, when both directories are slash-free and the dates and UUIDs are well-formed |
| `MultipartPlan.Min` | src/main/java/com/amazon/s3/v1/template/AmazonS3V1Template.java:640 | `Math.min` is at most each argument and equal to one of them |
| `MultipartPlan.PlanFromShape` | src/main/java/com/amazon/s3/v1/template/AmazonS3V1Template.java:637-658 | from any loop state, the parts are numbered consecutively, each size is in (0, carried], consecutive parts touch with no gap or overlap, the last ends at the file length, and all but the last have the carried size |
| `MultipartPlan.PlanParts` | src/main/java/com/amazon/s3/v1/template/AmazonS3V1Template.java:620-658 | a file of length S has ceil(S / 5 MiB) parts, none exactly when S = 0; part k is number k + 1, at offset k * 5 MiB, of size min(5 MiB, S - k * 5 MiB) |
| `MultipartPlan.OffsetsAreMultiples` | src/main/java/com/amazon/s3/v1/template/AmazonS3V1Template.java:637-657 | part k starts at k * 5 MiB |
| `MultipartPlan.PlanOffsetsArePrefixSums` | src/main/java/com/amazon/s3/v1/template/AmazonS3V1Template.java:637-657 | each part's offset is the sum of the sizes before it, and the sizes sum to the file length |
| `Multipart.UploadPartsTrace` | src/main/java/com/amazon/s3/v1/template/AmazonS3V1Template.java:638-658 | part uploads follow the plan in order; they upload every part when none fails and otherwise stop right after the first failure |
| `Multipart.UploadPartsETags` | src/main/java/com/amazon/s3/v1/template/AmazonS3V1Template.java:654-655 | ETag k carries part k's number and the ETag returned for upload k; a complete run has one ETag per part, and a failed run one fewer ETag than calls |
| `Multipart.UploadLoopStarts` | src/main/java/com/amazon/s3/v1/template/AmazonS3V1Template.java:621-638 | the loop begins at offset 0, part 1, size 5 MiB, with no calls and no ETags |
| `Multipart.UploadLoopRound` | src/main/java/com/amazon/s3/v1/template/AmazonS3V1Template.java:638-658 | one round uploads min(carried, bytes left) at the current offset; it either fails and ends the run there, or moves the offset on by that size and the part number on by one, carrying the size |
| `Multipart.UploadLoopEnds` | src/main/java/com/amazon/s3/v1/template/AmazonS3V1Template.java:638 | when the offset reaches the length, the loop has made every upload and collected every ETag of the run |
| `Multipart.UploadAndCompleteTrace` | src/main/java/com/amazon/s3/v1/template/AmazonS3V1Template.java:637-665 | after initiation only this upload's parts and completion are sent; it succeeds exactly when no call failed, otherwise it stops at the first failure; completion carries one PartETag per part, in order |
| `Multipart.MultipartUploadStopsAtFirstFailure` | src/main/java/com/amazon/s3/v1/template/AmazonS3V1Template.java:619-677 | the run first initiates under the generated key, touches only that bucket and key, never aborts, returns true exactly when no call failed, and otherwise stops at the first failure |
| `Multipart.InitiatedRunShape` | src/main/java/com/amazon/s3/v1/template/AmazonS3V1Template.java:633-665 | a successful run is initiation, one upload per part under the returned upload id, then completion |
| `Multipart.MultipartUploadCompleted` | src/main/java/com/amazon/s3/v1/template/AmazonS3V1Template.java:620-658 | a successful run makes ceil(S / 5 MiB) + 2 calls, none of which failed: initiation, then uploads numbered 1..n at offsets (k-1) * 5 MiB, each 5 MiB long but the last, under the upload id from initiation (the final call, completion, is stated by `Multipart.MultipartUploadCompletesWithETags`) |
| `Multipart.PartCallsFollowPlan` | src/main/java/com/amazon/s3/v1/template/AmazonS3V1Template.java:643-650 | upload k carries part number k, offset (k-1) * 5 MiB and size min(5 MiB, S - (k-1) * 5 MiB) |
| `Multipart.MultipartUploadCompletesWithETags` | src/main/java/com/amazon/s3/v1/template/AmazonS3V1Template.java:655-665 | a successful run ends by completing under the same bucket, key and upload id, with one PartETag per part, in upload order, each holding that part's number and returned ETag |
| `Multipart.MultipartUploadEmptyFile` | src/main/java/com/amazon/s3/v1/template/AmazonS3V1Template.java:637-665 | an empty file uploads no part: initiation is followed directly by completion with an empty ETag list |
| `BucketOps.FirstNamed` | src/main/java/com/amazon/s3/v1/template/AmazonS3V1Template.java:152-157 | the result is the first bucket whose name equals the argument exactly, and nothing when no bucket has that name |
| `BucketOps.BucketExistsNormalises` | src/main/java/com/amazon/s3/v1/template/AmazonS3V1Template.java:95-107 | no call exactly for an empty name; otherwise one `doesBucketExistV2` on the lower-cased name; true exactly when that call succeeded and said yes |
| `BucketOps.GetBucketByNameFindsFirstMatch` | src/main/java/com/amazon/s3/v1/template/AmazonS3V1Template.java:145-158 | one `listBuckets` call; a failure escapes as an exception; a bucket is found exactly when one of that exact name was listed, and it is the first such bucket |
| `BucketOps.CreateBucketPassesNormalisedName` | src/main/java/com/amazon/s3/v1/template/AmazonS3V1Template.java:111-141 | every bucket name createBucket sends is the lower-cased input |
| `BucketOps.CreateBucketExisting` | src/main/java/com/amazon/s3/v1/template/AmazonS3V1Template.java:111-127 | an empty name gives nothing and makes no call; otherwise the existence check comes first, and for an existing bucket the only further call is one `listBuckets` look-up by name, nothing is created, and the look-up's bucket (empty on its failure) is returned |
| `BucketOps.CreateBucketMissing` | src/main/java/com/amazon/s3/v1/template/AmazonS3V1Template.java:124-140 | a missing bucket is created under the lower-cased name; a failed create ends the run with nothing; a successful create is followed by exactly one location read; the bucket is returned exactly when both calls succeeded and the create reply named a bucket, and it is that bucket |
| `BucketSweep.NextListing` | src/main/java/com/amazon/s3/v1/template/AmazonS3V1Template.java:179-194 | the follow-up listing has the same kind (objects or versions) and the same bucket |
| `BucketSweep.SendAllTrace` | src/main/java/com/amazon/s3/v1/template/AmazonS3V1Template.java:173-175 | the deletions of a page are sent in order, all of them when none fails, otherwise up to and including the first failure |
| `BucketSweep.PagesTrace` | src/main/java/com/amazon/s3/v1/template/AmazonS3V1Template.java:171-198 | a page loop sends only listings and deletions of its kind on its bucket, starting with the listing, and stops at the first failure; every later listing is the next-batch call of its kind, sent only after a truncated page |
| `BucketSweep.PagesRelists` | src/main/java/com/amazon/s3/v1/template/AmazonS3V1Template.java:179-183 | after the first listing, the loop lists again only when the page before was truncated, and then with the next-batch call of the same kind |
| `BucketSweep.AfterListingRelists` | src/main/java/com/amazon/s3/v1/template/AmazonS3V1Template.java:192-196 | from a page in hand, every listing the loop sends is the next-batch call, sent only after a truncated page |
| `BucketSweep.PagesDeleteListed` | src/main/java/com/amazon/s3/v1/template/AmazonS3V1Template.java:171-198 | a page loop that succeeded deleted exactly what its pages listed, in listing order, and its last page was not truncated |
| `BucketSweep.DeleteBucketOnlyTouchesBucket` | src/main/java/com/amazon/s3/v1/template/AmazonS3V1Template.java:168-201 | deleteBucket starts by listing the objects of its bucket and addresses no other bucket |
| `BucketSweep.DeleteBucketStopsAtFirstFailure` | src/main/java/com/amazon/s3/v1/template/AmazonS3V1Template.java:168-208 | deleteBucket returns true exactly when no call failed, and otherwise stops at the first failure |
| `BucketSweep.DeleteBucketDeletesEverythingListed` | src/main/java/com/amazon/s3/v1/template/AmazonS3V1Template.java:168-208 | on success every listed object and version was deleted, in listing order, nothing else was deleted, and deleting the bucket was the last call |
| `BucketSweep.DeleteBucketSweepsObjectsThenVersions` | src/main/java/com/amazon/s3/v1/template/AmazonS3V1Template.java:168-201 | on success the calls are the object sweep, then the version sweep, then the bucket deletion; the sweeps start with `listObjects` and `listVersions` of the bucket, touch only that bucket, and each ends on a page that was not truncated |
| `ObjectListing.ListV2PagesTrace` | src/main/java/com/amazon/s3/v1/template/AmazonS3V1Template.java:758-767 | every request lists the bucket with the same maxKeys; each later request carries the continuation token of the truncated page before it; the loop stops at the first failure; on success the last page is the first one not truncated, and the result is all pages' summaries in order |
| `ObjectListing.GetObjectInfoRequests` | src/main/java/com/amazon/s3/v1/template/AmazonS3V1Template.java:740-759 | an empty bucket name gives nothing and makes no call; otherwise the first request has no continuation token and every request sets maxKeys exactly when it is positive |
| `ObjectListing.GetObjectInfoConcatenatesPages` | src/main/java/com/amazon/s3/v1/template/AmazonS3V1Template.java:740-774 | a list comes back exactly when the name is non-empty and no call failed; it is the concatenation in order of every page fetched, every page but the last was truncated, and the last was not |
| `ObjectListing.GetObjectNameListKeys` | src/main/java/com/amazon/s3/v1/template/AmazonS3V1Template.java:724-737 | same calls as getObjectInfo; the keys, in order, come back exactly when getObjectInfo found a non-empty list |
| `ObjectOps.CopyObjectDecisions` | src/main/java/com/amazon/s3/v1/template/AmazonS3V1Template.java:406-433 | no call and nothing returned when a name is missing; no call and `IllegalArgumentException` when source equals destination; otherwise exactly the copy call; a result is returned exactly when the copy succeeded with a non-null result, and it is that result |
| `ObjectOps.CopyObjectKeepNameThrowsOnSameBucket` | src/main/java/com/amazon/s3/v1/template/AmazonS3V1Template.java:392-394 | the three-argument form throws exactly when all names are present and the two buckets are equal |
| `ObjectOps.VersioningEnabledIffLowerEnabled` | src/main/java/com/amazon/s3/v1/template/AmazonS3V1Template.java:481-482 | a status counts as enabled exactly when it lower-cases to "enabled" |
| `ObjectOps.DeleteObjectsOnlyWhenVersioned` | src/main/java/com/amazon/s3/v1/template/AmazonS3V1Template.java:462-500 | no call for an empty name or an empty or null list; otherwise the versioning status is read first, and the delete is sent, with the given keys and quiet flag, exactly when that read succeeded and said "Enabled" ignoring case; a result comes back exactly when that delete succeeded with a non-null result, and it is that result |
| `ObjectOps.KeyVersions` | src/main/java/com/amazon/s3/v1/template/AmazonS3V1Template.java:454-457 | one key per name, in order, none with a version id |
| `ObjectOps.NoVersionDeleteSkipsUnversionedBucket` | src/main/java/com/amazon/s3/v1/template/AmazonS3V1Template.java:448-459 | as written: a null list throws `NullPointerException`; on a bucket that is not "Enabled", the only call reads the status and nothing is deleted |
| `ObjectOps.NoVersionDeleteIntendedDeletesNames` | src/main/java/com/amazon/s3/v1/template/AmazonS3V1Template.java:448-459 | as intended: whatever the versioning state, exactly one delete naming every key, in order, without version ids; a result is returned exactly when the delete succeeded with a non-null result, and it is that result |
| `ObjectOps.UploadPutsUnderGeneratedKey` | src/main/java/com/amazon/s3/v1/template/AmazonS3V1Template.java:565-579 | no call and false when the bucket, name or content is missing; otherwise one put of the content into that bucket under `ObjectKey` of the name, directory, date and UUID, for any directory, date and UUID text; true exactly when the put succeeded; with a slash-free directory and a well-formed date and UUID, the key parses back into its parts |
| `ObjectOps.UploadDefaultDirKey` | src/main/java/com/amazon/s3/v1/template/AmazonS3V1Template.java:582-584 | with every argument present, the three-argument upload makes one put, under a key that starts with "/uploads/" |
| `ObjectOps.PresignedUrlIgnoresMethod` | src/main/java/com/amazon/s3/v1/template/AmazonS3V1Template.java:782-812 | as written: a request is signed only when both names, a duration and a method are given; it expires `expireTime` after now, and it is always a GET, even from getPresignedObjectPutUrl |
| `ObjectOps.PresignedUrlIntendedUsesMethod` | src/main/java/com/amazon/s3/v1/template/AmazonS3V1Template.java:782-812 | as intended: a request is signed exactly when the code as written signs one, for the method asked for and the same expiry; nothing comes back exactly when signing failed; for GET it coincides with the code as written |
| `Guards.AnyEmpty` | src/main/java/com/amazon/s3/v1/template/AmazonS3V1Template.java:856-868 | definition of `isEmpty`: true when no argument was passed or some argument is null or has no characters |
| `MultipartPlan.PlanFrom` | src/main/java/com/amazon/s3/v1/template/AmazonS3V1Template.java:637-658 | definition of the part loop from a given offset, part number and carried size: each part is min(carried, bytes left) long, and the size is carried into the next round |
| `MultipartPlan.Plan` | src/main/java/com/amazon/s3/v1/template/AmazonS3V1Template.java:620-638 | definition of the parts of a whole file: the loop from offset 0, part 1, 5 MiB |
| `Multipart.UploadParts` | src/main/java/com/amazon/s3/v1/template/AmazonS3V1Template.java:638-658 | definition of the part uploads: one `uploadPart` per planned part, in order, collecting a PartETag of the part's number and the returned ETag, stopping at the first exception |
| `Multipart.UploadAndComplete` | src/main/java/com/amazon/s3/v1/template/AmazonS3V1Template.java:637-665 | definition of the run after initiation: the part uploads, then, if none failed, completion under the same bucket, key and upload id with the collected ETags |
| `Multipart.MultipartUploadRun` | src/main/java/com/amazon/s3/v1/template/AmazonS3V1Template.java:619-677 | definition of `multipartUploadV1`: initiation under the generated key, then the above with the returned upload id; false after any exception |
| `BucketOps.BucketExistsRun` | src/main/java/com/amazon/s3/v1/template/AmazonS3V1Template.java:95-107 | definition of `bucketExists` |
| `BucketOps.GetBucketByNameRun` | src/main/java/com/amazon/s3/v1/template/AmazonS3V1Template.java:145-158 | definition of `getBucketByName`: one `listBuckets`, whose exception escapes; nothing for an empty list; otherwise the first exact match |
| `BucketOps.CreateBucketRun` | src/main/java/com/amazon/s3/v1/template/AmazonS3V1Template.java:111-141 | definition of `createBucket`, including the look-up of an existing bucket and the location read after creation |
| `BucketSweep.SendAll` | src/main/java/com/amazon/s3/v1/template/AmazonS3V1Template.java:173-175 | definition of one page's deletion loop: the calls in order, stopping at the first exception |
| `BucketSweep.Pages` | src/main/java/com/amazon/s3/v1/template/AmazonS3V1Template.java:171-198 | definition of one page loop of `deleteBucket` from its first listing call |
| `BucketSweep.AfterListing` | src/main/java/com/amazon/s3/v1/template/AmazonS3V1Template.java:172-184 | definition of that loop once a page is in hand: delete its entries, then fetch the next batch while the page is truncated |
| `BucketSweep.DeleteBucketRun` | src/main/java/com/amazon/s3/v1/template/AmazonS3V1Template.java:168-208 | definition of `deleteBucket`: the object loop, the version loop, then `deleteBucket`; false after any exception |
| `ObjectListing.ListV2Pages` | src/main/java/com/amazon/s3/v1/template/AmazonS3V1Template.java:758-767 | definition of the do-while loop: list with the current token, add the page's summaries, carry the next token, repeat while truncated |
| `ObjectListing.GetObjectInfoRun` | src/main/java/com/amazon/s3/v1/template/AmazonS3V1Template.java:740-774 | definition of `getObjectInfo` |
| `ObjectListing.GetObjectNameListRun` | src/main/java/com/amazon/s3/v1/template/AmazonS3V1Template.java:724-737 | definition of `getObjectNameList` |
| `ObjectOps.CopyObjectRun` | src/main/java/com/amazon/s3/v1/template/AmazonS3V1Template.java:406-433 | definition of the four-argument `copyObject` |
| `ObjectOps.CopyObjectKeepNameRun` | src/main/java/com/amazon/s3/v1/template/AmazonS3V1Template.java:392-394 | definition of the three-argument `copyObject` |
| `ObjectOps.DeleteObjectsRun` | src/main/java/com/amazon/s3/v1/template/AmazonS3V1Template.java:467-500 | definition of the three-argument `deleteObjects` |
| `ObjectOps.DeleteObjectsLoudRun` | src/main/java/com/amazon/s3/v1/template/AmazonS3V1Template.java:462-464 | definition of the two-argument `deleteObjects` |
| `ObjectOps.DeleteObjectsWithNoVersionBucketRun` | src/main/java/com/amazon/s3/v1/template/AmazonS3V1Template.java:453-459 | definition of `deleteObjectsWithNoVersionBucket` as written |
| `ObjectOps.DeleteObjectsWithNoVersionBucketIntendedRun` | src/main/java/com/amazon/s3/v1/template/AmazonS3V1Template.java:453-459 | definition of `deleteObjectsWithNoVersionBucket` as intended (see Findings) |
| `ObjectOps.UploadRun` | src/main/java/com/amazon/s3/v1/template/AmazonS3V1Template.java:565-579 | definition of the four-argument `upload` |
| `ObjectOps.UploadDefaultDirRun` | src/main/java/com/amazon/s3/v1/template/AmazonS3V1Template.java:582-584 | definition of the three-argument `upload` |
| `ObjectOps.GetPresignedObjectUrlRun` | src/main/java/com/amazon/s3/v1/template/AmazonS3V1Template.java:782-807 | definition of `getPresignedObjectUrl` as written |
| `ObjectOps.GetPresignedObjectPutUrlRun` | src/main/java/com/amazon/s3/v1/template/AmazonS3V1Template.java:810-812 | definition of `getPresignedObjectPutUrl` |
| `ObjectOps.GetPresignedObjectUrlIntendedRun` | src/main/java/com/amazon/s3/v1/template/AmazonS3V1Template.java:782-807 | definition of `getPresignedObjectUrl` as intended (see Findings) |
| `Template.AmazonS3V1Template.IsEmpty` | src/main/java/com/amazon/s3/v1/template/AmazonS3V1Template.java:856-868 | the short-circuiting scan returns exactly `Guards.AnyEmpty` of its arguments |
| `Template.AmazonS3V1Template.HandlerUploadObjectName` | src/main/java/com/amazon/s3/v1/template/AmazonS3V1Template.java:838-848 | the appended buffer is `ObjectNames.ObjectKey`, and it parses back into its parts when the directory is slash-free and the date and UUID are well-formed |
| `Template.AmazonS3V1Template.BucketExists` | src/main/java/com/amazon/s3/v1/template/AmazonS3V1Template.java:95-107 | the client log grows by exactly the calls of `BucketOps.BucketExistsRun`, and the result is its value |
| `Template.AmazonS3V1Template.GetBucketByName` | src/main/java/com/amazon/s3/v1/template/AmazonS3V1Template.java:145-158 | the first-match loop over the listed buckets: log and result as `BucketOps.GetBucketByNameRun` |
| `Template.AmazonS3V1Template.CreateBucket` | src/main/java/com/amazon/s3/v1/template/AmazonS3V1Template.java:111-141 | log and result as `BucketOps.CreateBucketRun` |
| `Template.AmazonS3V1Template.DeleteBucket` | src/main/java/com/amazon/s3/v1/template/AmazonS3V1Template.java:168-208 | the two `while (true)` page loops and the final delete: log and result as `BucketSweep.DeleteBucketRun` |
| `Template.AmazonS3V1Template.SweepPages` | src/main/java/com/amazon/s3/v1/template/AmazonS3V1Template.java:172-184 | one page loop, reassigning the listing until a page is not truncated: log and result as `BucketSweep.Pages` |
| `Template.AmazonS3V1Template.SendEach` | src/main/java/com/amazon/s3/v1/template/AmazonS3V1Template.java:173-175 | the for loop deleting a page's entries: log and result as `BucketSweep.SendAll` |
| `Template.AmazonS3V1Template.CopyObject` | src/main/java/com/amazon/s3/v1/template/AmazonS3V1Template.java:406-433 | log and outcome as `ObjectOps.CopyObjectRun` |
| `Template.AmazonS3V1Template.CopyObjectKeepName` | src/main/java/com/amazon/s3/v1/template/AmazonS3V1Template.java:392-394 | log and outcome as `ObjectOps.CopyObjectKeepNameRun` |
| `Template.AmazonS3V1Template.DeleteObjects` | src/main/java/com/amazon/s3/v1/template/AmazonS3V1Template.java:467-500 | log and result as `ObjectOps.DeleteObjectsRun` |
| `Template.AmazonS3V1Template.DeleteObjectsLoud` | src/main/java/com/amazon/s3/v1/template/AmazonS3V1Template.java:462-464 | log and result as `ObjectOps.DeleteObjectsLoudRun` |
| `Template.AmazonS3V1Template.DeleteObjectsWithNoVersionBucket` | src/main/java/com/amazon/s3/v1/template/AmazonS3V1Template.java:453-459 | log and outcome as `ObjectOps.DeleteObjectsWithNoVersionBucketRun` (the code as written) |
| `Template.AmazonS3V1Template.DeleteObjectsWithNoVersionBucketLoud` | src/main/java/com/amazon/s3/v1/template/AmazonS3V1Template.java:448-450 | log and outcome as `ObjectOps.DeleteObjectsWithNoVersionBucketRun` with quiet false |
| `Template.AmazonS3V1Template.Upload` | src/main/java/com/amazon/s3/v1/template/AmazonS3V1Template.java:565-579 | log and result as `ObjectOps.UploadRun` |
| `Template.AmazonS3V1Template.UploadDefaultDir` | src/main/java/com/amazon/s3/v1/template/AmazonS3V1Template.java:582-584 | log and result as `ObjectOps.UploadDefaultDirRun` |
| `Template.AmazonS3V1Template.UploadFileParts` | src/main/java/com/amazon/s3/v1/template/AmazonS3V1Template.java:637-658 | the for loop updating filePosition, partSize and i: log, ETags and success as `Multipart.UploadParts` over `MultipartPlan.Plan` of the length |
| `Template.AmazonS3V1Template.MultipartUploadV1` | src/main/java/com/amazon/s3/v1/template/AmazonS3V1Template.java:619-677 | log and result as `Multipart.MultipartUploadRun` |
| `Template.AmazonS3V1Template.GetObjectInfo` | src/main/java/com/amazon/s3/v1/template/AmazonS3V1Template.java:740-774 | the do-while loop updating the request's continuation token and accumulating summaries: log and result as `ObjectListing.GetObjectInfoRun` |
| `Template.AmazonS3V1Template.GetObjectNameList` | src/main/java/com/amazon/s3/v1/template/AmazonS3V1Template.java:724-737 | log and result as `ObjectListing.GetObjectNameListRun` |
| `Template.AmazonS3V1Template.GetPresignedObjectUrl` | src/main/java/com/amazon/s3/v1/template/AmazonS3V1Template.java:782-807 | log and outcome as `ObjectOps.GetPresignedObjectUrlRun` (the code as written) |
| `Template.AmazonS3V1Template.GetPresignedObjectGetUrl` | src/main/java/com/amazon/s3/v1/template/AmazonS3V1Template.java:777-779 | log and outcome as `ObjectOps.GetPresignedObjectUrlRun` with GET |
| `Template.AmazonS3V1Template.GetPresignedObjectPutUrl` | src/main/java/com/amazon/s3/v1/template/AmazonS3V1Template.java:810-812 | log and outcome as `ObjectOps.GetPresignedObjectPutUrlRun`, which still signs GET |

Each class method's contract ties the client's new log and the method's
result to the specification function named in its row; the `definition`
rows give those functions, and the lemmas above state what they guarantee.

## Left out

- `init` (lines 51-76): URL parsing, credentials, client construction and
  `System.setProperty`. These are foreign-library setup. The model starts
  from a constructed client.
- `getDefaultBucketName` and `getS3Client`: these are accessors.
- `multipartUploadV2`: it delegates to the SDK's `TransferManager`, whose
  threads and waiting are outside the template.
- Single-call pass-throughs that add only a try/catch and logging:
  - CORS, policy and lifecycle configuration;
  - `listObjects*` and `listObjectsV2*`;
  - `getObject`, `getBucketList`, `deleteObject`, `deleteVersion`;
  - `copyObject(CopyObjectRequest)` and `deleteObjects(DeleteObjectsRequest)`.
- `upload(String, File, String, ObjectMetadata)`: it builds the same key as
  `upload` and sends one `putObject`. File contents and metadata are not
  modelled.
- The Java code writes its inner loops inline. The model moves each one
  into a helper method of the class: the multipart part loop into
  `UploadFileParts`, each page loop of `deleteBucket` into `SweepPages`,
  and each page's deletion loop into `SendEach`.
- Logging, `printStackTrace` and the messages of exceptions are not modelled.
- `LocalDateTime.now()`, `UUID.randomUUID()` and `Instant.now()` are
  parameters of the methods that use them. The date and UUID are strings,
  and the clock is milliseconds.
- Presigned URL signing and `URL.toString()`: the URL is the backend's reply.
- `Java.Lower`: only the ASCII letters `A`-`Z` are lower-cased. The source's
  `toLowerCase(Locale.ENGLISH)` also maps other scripts' capitals.
- Integer widths: file lengths, offsets and part numbers are unbounded
  naturals. Java's `long` arithmetic cannot overflow for real file sizes,
  and the `int` part number would wrap only past 2^31 parts.
- `ObjectOps.GetPresignedObjectUrlRun`: the expiry `now + expireTime` is an
  unbounded integer. In the source, `Duration.toMillis` throws
  `ArithmeticException` for a duration too large for a `long`, and the
  `long` sum at lines 792-793 wraps around for an expiry past the `long`
  range. Neither is modelled.
- Non-terminating listings: a `Backend` stops answering truncated pages
  after finitely many calls. Against a service that keeps answering
  truncated pages, `deleteBucket` (lines 171-198) and `getObjectInfo`
  (lines 758-767) loop forever. The model does not cover that case.
- `Template.AmazonS3V1Template.DeleteBucket` and
  `Template.AmazonS3V1Template.MultipartUploadV1` take the bucket name as a
  non-null string. Java would throw inside the SDK on a null name.
- `Template.AmazonS3V1Template.IsEmpty`: a null varargs array is not
  distinguished from an empty one. Both give true in the source.
- `Template.AmazonS3V1Template.DeleteObjects`: null keys inside the key list
  are not modelled. Only a null list is.
- Runtime exceptions other than `SdkClientException` (for example a null
  `Bucket` name in `getBucketByName`, or a null reply) are not modelled. The
  backend's replies are always well formed.
- `ObjectNames.DistinctUuidsGiveDistinctKeys`: stated only for slash-free
  directories and well-formed dates and UUIDs. When `baseDir` or the object
  name contains `/`, keys built from different UUIDs can coincide in the
  source as well, so no wider statement holds.
- `multipartUploadV1` does not abort the upload after a failure. The model
  keeps that behaviour and proves that no abort is sent.

## Findings

| source | as written | input that shows it | evidently intended | confidence | as-written member | corrected member |
|---|---|---|---|---|---|---|
| src/main/java/com/amazon/s3/v1/template/AmazonS3V1Template.java:453-459 | `deleteObjectsWithNoVersionBucket` forwards to `deleteObjects`, which returns empty unless the bucket's versioning status is "Enabled" | a bucket whose versioning status is "Off" and a non-empty key list: the status is read, nothing is deleted, and empty is returned | delete the named keys, without version ids, from a bucket without versioning | not executed | `ObjectOps.NoVersionDeleteSkipsUnversionedBucket` | `ObjectOps.NoVersionDeleteIntendedDeletesNames` |
| src/main/java/com/amazon/s3/v1/template/AmazonS3V1Template.java:798 | the presign request is always built with `HttpMethod.GET`, ignoring the `httpMethod` argument | `getPresignedObjectPutUrl("b", "k", 60s)`: the request sent is signed for GET | sign the request for the method passed in, so a PUT URL permits an upload | not executed | `ObjectOps.PresignedUrlIgnoresMethod` | `ObjectOps.PresignedUrlIntendedUsesMethod` |
