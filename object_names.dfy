/** How the template names things: bucket names are lower-cased before they
    reach the service, and uploaded objects get the key
    "/" + baseDir + "/" + date + "/" + uuid + "-" + objectName, where the
    date ("yyyy/MM/dd") and the UUID (32 lower-case hex digits) are supplied
    by the caller instead of the clock and the random source. */
module ObjectNames {
  import opened Java

  const FileSeparator: string := "/"
  const FilenameLink: string := "-"
  const DefaultUploadBaseDir: string := "uploads"

  /** handlerBucketName: empty or null names pass through, any other name is
      lower-cased. */
  function HandlerBucketName(bucketName: JString): (r: JString)
    ensures StrIsEmpty(bucketName) ==> r == bucketName
    ensures !StrIsEmpty(bucketName) ==>
      && r.Str? && r.value != []
      && NoUpper(r.value)
      && EqualsIgnoreCase(r.value, bucketName.value)
  {
    if StrIsEmpty(bucketName) then bucketName else Str(Lower(bucketName.value))
  }

  lemma HandlerBucketNameIdempotent(bucketName: JString)
    ensures HandlerBucketName(HandlerBucketName(bucketName)) == HandlerBucketName(bucketName)
  {
    if !StrIsEmpty(bucketName) {
      LowerFixesExactlyNoUpper(Lower(bucketName.value));
    }
  }

  /** For a non-empty name, the normalised name is exactly the string without
      upper-case letters that equals the input ignoring case. */
  lemma HandlerBucketNameCharacterised(bucketName: JString, t: string)
    requires !StrIsEmpty(bucketName)
    ensures HandlerBucketName(bucketName) == Str(t) <==> NoUpper(t) && EqualsIgnoreCase(t, bucketName.value)
  {
    if NoUpper(t) && EqualsIgnoreCase(t, bucketName.value) {
      LowerIsUniqueCaselessMatch(bucketName.value, t);
    }
  }

  /** The key handlerUploadObjectName builds. */
  function ObjectKey(objectName: string, baseDir: JString, date: string, uuid: string): (key: string)
    ensures |key| > |objectName| && key[0] == '/'
    ensures key[|key| - |objectName| - 1..] == FilenameLink + objectName
    ensures baseDir == Str("") ==> key[..2] == "//"
  {
    FileSeparator + AppendText(baseDir) + FileSeparator + date + FileSeparator + uuid + FilenameLink + objectName
  }

  predicate IsDigit(c: char) {
    '0' <= c <= '9'
  }

  predicate IsLowerHex(c: char) {
    IsDigit(c) || 'a' <= c <= 'f'
  }

  /** Text of the "yyyy/MM/dd" date pattern (four-digit year). */
  predicate IsDateText(d: string) {
    && |d| == 10
    && d[4] == '/' && d[7] == '/'
    && forall i :: 0 <= i < 10 && i != 4 && i != 7 ==> IsDigit(d[i])
  }

  /** Text of UUID.toString(true): 32 lower-case hexadecimal digits. */
  predicate IsSimpleUuid(u: string) {
    |u| == 32 && forall i :: 0 <= i < 32 ==> IsLowerHex(u[i])
  }

  predicate NoSlash(s: string) {
    forall i :: 0 <= i < |s| ==> s[i] != '/'
  }

  /** The index of the first '/' at or after `from`. */
  function SlashIndex(s: string, from: nat): (j: Option<nat>)
    requires from <= |s|
    ensures j.Some? ==> from <= j.value < |s| && s[j.value] == '/' && NoSlash(s[from..j.value])
    ensures j.None? ==> NoSlash(s[from..])
    decreases |s| - from
  {
    if from == |s| then None
    else if s[from] == '/' then Some(from)
    else SlashIndex(s, from + 1)
  }

  lemma {:induction false} SlashIndexFindsFirst(s: string, from: nat, j: nat)
    requires from <= j < |s| && s[j] == '/' && NoSlash(s[from..j])
    ensures SlashIndex(s, from) == Some(j)
    decreases j - from
  {
    if from < j {
      assert s[from..j][0] == s[from];
      assert s[from + 1..j] == s[from..j][1..];
      SlashIndexFindsFirst(s, from + 1, j);
    }
  }

  datatype KeyParts = KeyParts(baseDir: string, date: string, uuid: string, objectName: string)

  /** Splits a key of the shape ObjectKey builds back into its parts; None for
      any other string. The base directory must be free of '/', the only
      way to tell where it ends. */
  function ParseKey(key: string): (p: Option<KeyParts>)
    ensures p.Some? ==> NoSlash(p.value.baseDir) && IsDateText(p.value.date) && IsSimpleUuid(p.value.uuid)
  {
    if |key| == 0 || key[0] != '/' then None
    else match SlashIndex(key, 1)
      case None => None
      case Some(j) =>
        if j + 45 <= |key| && key[j + 11] == '/' && key[j + 44] == '-'
           && IsDateText(key[j + 1..j + 11]) && IsSimpleUuid(key[j + 12..j + 44])
        then Some(KeyParts(key[1..j], key[j + 1..j + 11], key[j + 12..j + 44], key[j + 45..]))
        else None
  }

  /** Every well-formed key parses back to the parts it was built from. */
  lemma ParseObjectKey(objectName: string, baseDir: JString, date: string, uuid: string)
    requires NoSlash(AppendText(baseDir)) && IsDateText(date) && IsSimpleUuid(uuid)
    ensures ParseKey(ObjectKey(objectName, baseDir, date, uuid))
            == Some(KeyParts(AppendText(baseDir), date, uuid, objectName))
  {
    var d := AppendText(baseDir);
    var key := ObjectKey(objectName, baseDir, date, uuid);
    var j := 1 + |d|;
    assert key == "/" + d + "/" + date + "/" + uuid + "-" + objectName;
    assert key[1..j] == d;
    assert key[j] == '/';
    SlashIndexFindsFirst(key, 1, j);
    assert key[j + 1..j + 11] == date;
    assert key[j + 12..j + 44] == uuid;
    assert key[j + 45..] == objectName;
  }

  /** Every string that parses is the key of its parts. */
  lemma ParsedKeyRebuilds(key: string)
    requires ParseKey(key).Some?
    ensures var p := ParseKey(key).value;
      ObjectKey(p.objectName, Str(p.baseDir), p.date, p.uuid) == key
  {
    var j := SlashIndex(key, 1).value;
    var p := ParseKey(key).value;
    assert key[..1] == FileSeparator;
    PrefixJoin(key, 1, j);
    PrefixJoin(key, j, j + 1);
    assert key[j..j + 1] == FileSeparator;
    PrefixJoin(key, j + 1, j + 11);
    PrefixJoin(key, j + 11, j + 12);
    assert key[j + 11..j + 12] == FileSeparator;
    PrefixJoin(key, j + 12, j + 44);
    PrefixJoin(key, j + 44, j + 45);
    assert key[j + 44..j + 45] == FilenameLink;
    PrefixJoin(key, j + 45, |key|);
    assert key[..|key|] == key;
  }

  lemma PrefixJoin(s: string, a: nat, b: nat)
    requires a <= b <= |s|
    ensures s[..a] + s[a..b] == s[..b]
  {
  }

  /** Two uploads that drew different UUIDs never get the same key. */
  lemma DistinctUuidsGiveDistinctKeys(objectName1: string, objectName2: string, baseDir1: JString, baseDir2: JString,
                                      date1: string, date2: string, uuid1: string, uuid2: string)
    requires NoSlash(AppendText(baseDir1)) && IsDateText(date1) && IsSimpleUuid(uuid1)
    requires NoSlash(AppendText(baseDir2)) && IsDateText(date2) && IsSimpleUuid(uuid2)
    requires uuid1 != uuid2
    ensures ObjectKey(objectName1, baseDir1, date1, uuid1) != ObjectKey(objectName2, baseDir2, date2, uuid2)
  {
    ParseObjectKey(objectName1, baseDir1, date1, uuid1);
    ParseObjectKey(objectName2, baseDir2, date2, uuid2);
  }
}
