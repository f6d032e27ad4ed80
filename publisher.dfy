/**
 * `Post_AMI` and `Post_AMI_s3`: share a new image with other accounts and
 * write its id to S3. Both check the id first and never raise: a failing
 * call is folded into the returned text.
 */
module Publisher {
  import opened Common
  import opened Text
  import opened Records

  /** The text a publisher returns and the calls it made. */
  datatype Posted = Posted(text: string, actions: seq<Action>)

  const NotSharedPrefix: string := "AMI not shared: "
  const NotSharedNoId: string := "AMI not shared: [No AMI ID]"
  const NotStoredStem: string := "AMI ID not "
  const NotStoredNoId: string := NotStoredStem + "write to s3: [No AMI ID]"
  const NotStoredPrefix: string := NotStoredStem + "put to s3: "

  /** `'%s' % userids` for the share list: Python's rendering of a list of strings, or None. */
  function AccountsText(accounts: Option<seq<string>>): string
  {
    match accounts
    case None => "None"
    case Some(ids) =>
      "[" + Join(seq(|ids|, i requires 0 <= i < |ids| => "'" + ids[i] + "'"), ", ") + "]"
  }

  /** `Post_AMI(amiid, userids)`: one `modify_image_attribute` call for a well-formed id. */
  function PostAmi(amiId: string, accounts: Option<seq<string>>, failure: Option<string>): (p: Posted)
    ensures p.text != ""
    ensures !IsAmiId(amiId) ==> p == Posted(NotSharedNoId, [])
    ensures IsAmiId(amiId) ==> p.actions == [Share(amiId, accounts)]
    ensures IsAmiId(amiId) && failure.Some? ==> p.text == NotSharedPrefix + failure.value
  {
    if IsAmiId(amiId) then
      var call := [Share(amiId, accounts)];
      match failure
      case Some(e) => Posted(NotSharedPrefix + e, call)
      case None => Posted("AMI [" + amiId + "] shared with accounts: " + AccountsText(accounts), call)
    else
      Posted(NotSharedNoId, [])
  }

  /** The share is reported as not done exactly when no call was made or the call failed. */
  lemma ShareReportedFailedIff(amiId: string, accounts: Option<seq<string>>, failure: Option<string>)
    ensures NotSharedPrefix <= PostAmi(amiId, accounts, failure).text <==> !IsAmiId(amiId) || failure.Some?
  {
    var text := PostAmi(amiId, accounts, failure).text;
    if IsAmiId(amiId) && failure.None? {
      assert text[4] == '[' != NotSharedPrefix[4];
    } else if !IsAmiId(amiId) {
      assert text == NotSharedPrefix + "[No AMI ID]";
    }
  }

  /** A folder key (ending in `/`) gets `<amiid>.txt` appended; any other key is used as it is. */
  function ObjectKey(key: string, amiId: string): (k: string)
    ensures key <= k
    ensures k == key || (|key| > 0 && key[|key| - 1] == '/')
  {
    if |key| > 0 && key[|key| - 1] == '/' then key + amiId + ".txt" else key
  }

  /** Under a folder key the object's name is the image id followed by `.txt`. */
  lemma ObjectKeyNamesImage(key: string, amiId: string)
    requires |key| > 0 && key[|key| - 1] == '/'
    ensures var k := ObjectKey(key, amiId);
            |k| == |key| + |amiId| + 4 && k[|key|..|key| + |amiId|] == amiId && k[|k| - 4..] == ".txt"
  {
    var k := ObjectKey(key, amiId);
    assert k == key + amiId + ".txt";
    assert k[|key|..|key| + |amiId|] == amiId;
  }

  /**
   * `Post_AMI_s3(amiid, s3bucket, key)`: one `put_object` call for a
   * well-formed id, whose body is the id itself.
   */
  function PostAmiS3(amiId: string, bucket: string, key: string, failure: Option<string>): (p: Posted)
    ensures p.text != ""
    ensures !IsAmiId(amiId) ==> p == Posted(NotStoredNoId, [])
    ensures IsAmiId(amiId) ==> p.actions == [PutS3(bucket, ObjectKey(key, amiId), amiId)]
    ensures IsAmiId(amiId) && failure.Some? ==> p.text == NotStoredPrefix + failure.value
  {
    if IsAmiId(amiId) then
      var objectKey := ObjectKey(key, amiId);
      var call := [PutS3(bucket, objectKey, amiId)];
      match failure
      case Some(e) => Posted(NotStoredPrefix + e, call)
      case None => Posted("AMI ID [" + amiId + "] put into s3: " + bucket + " " + objectKey, call)
    else
      Posted(NotStoredNoId, [])
  }

  /** The write is reported as not done exactly when no call was made or the call failed. */
  lemma StoreReportedFailedIff(amiId: string, bucket: string, key: string, failure: Option<string>)
    ensures NotStoredStem <= PostAmiS3(amiId, bucket, key, failure).text <==> !IsAmiId(amiId) || failure.Some?
  {
    if IsAmiId(amiId) && failure.None? {
      StoreSucceededText(amiId, bucket, key);
    }
  }

  lemma StoreSucceededText(amiId: string, bucket: string, key: string)
    requires IsAmiId(amiId)
    ensures !(NotStoredStem <= PostAmiS3(amiId, bucket, key, None).text)
  {
    var text := PostAmiS3(amiId, bucket, key, None).text;
    assert text == "AMI ID [" + amiId + "] put into s3: " + bucket + " " + ObjectKey(key, amiId);
    assert text[7] == '[';
  }

  /** A malformed id is neither shared nor written, and no call is made. */
  lemma MalformedIdMakesNoCall(accounts: Option<seq<string>>, bucket: string, key: string, failure: Option<string>)
    ensures PostAmi("not-an-ami", accounts, failure) == Posted(NotSharedNoId, [])
    ensures PostAmiS3("not-an-ami", bucket, key, failure) == Posted(NotStoredNoId, [])
  {
    AmiIdExamples();
  }
}
