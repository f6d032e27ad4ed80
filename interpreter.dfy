/**
 * `Automation_Result`: reads the finished automation execution and turns it
 * into the text of the alert, or into `False` when the job stopped because
 * there was nothing to update. A successful job has its image id written to
 * S3 and shared; a failed one has its leaked build instance terminated.
 */
module Interpreter {
  import opened Common
  import opened Text
  import opened Records
  import opened Publisher

  const LaunchStepName: string := "LaunchInstance"
  const CheckStepName: string := "CheckUpdates"
  const ImageOutputName: string := "CreateImage.ImageId"
  const BlankIdText: string := "Execution ID is blank, why???"
  const UnableText: string := "Unable to get automation results, why???"
  const NewAmiLinePrefix: string := "* New AMI ID:\t["
  const NoAmiLine: string := "* New AMI ID:\t[]"
  const NoShareLine: string := "AMI Not shared: [No AMI ID]"

  /** The components the success report lists as updated. */
  const ComponentLines: seq<string> := [
    " - Windows updates", " - AWSPowerShell", " - AWS SSM agent",
    " - EC2Config / EC2Launch", " - AWSPVDriver", " - AWSCloudFormationHelperScripts"]

  /** What `Automation_Result` returns: a report string, or `False`. */
  datatype Message = Report(text: string) | Suppressed

  datatype Interpretation = Interpretation(message: Message, actions: seq<Action>)

  /** The index of the first step called `name`: the head of the list comprehension. */
  function FirstStepIndex(steps: seq<Step>, name: string): (r: Option<nat>)
    ensures r.Some? ==> r.value < |steps| && steps[r.value].name == name
    ensures r.Some? ==> forall j :: 0 <= j < r.value ==> steps[j].name != name
    ensures r.None? ==> forall j :: 0 <= j < |steps| ==> steps[j].name != name
  {
    if steps == [] then None
    else if steps[0].name == name then Some(0)
    else
      match FirstStepIndex(steps[1..], name)
      case None => None
      case Some(i) => Some(i + 1)
  }

  /**
   * The instance to terminate: the first `InstanceIds` entry of the first
   * LaunchInstance step, when it has the shape of an instance id. A missing
   * step, a missing or empty list and a malformed id all end in an exception
   * or a failed match that the source swallows.
   */
  function LeakedInstance(steps: seq<Step>): Option<string>
  {
    match FirstStepIndex(steps, LaunchStepName)
    case None => None
    case Some(i) =>
      var outputs := steps[i].outputs;
      if "InstanceIds" in outputs && |outputs["InstanceIds"]| > 0 && IsInstanceId(outputs["InstanceIds"][0])
      then Some(outputs["InstanceIds"][0])
      else None
  }

  /** The first CheckUpdates step exists and its status is exactly `Failed`. */
  predicate CheckUpdatesFailed(steps: seq<Step>)
  {
    match FirstStepIndex(steps, CheckStepName)
    case None => false
    case Some(i) => steps[i].status == "Failed"
  }

  function SuccessLines(amiId: string, name: string, status: string, document: string,
                        executionId: string, shareText: string): seq<string>
  {
    ["\n",
     "The scheduled patching of AWS AMI has completed: Please find below new AMI details for general use.\n",
     NewAmiLinePrefix + amiId + "]",
     "* New AMI Name:\t[" + name + "]",
     "* Overall result:\t[" + status + "]",
     "* Document name:\t[" + document + "]",
     "* Execution ID:\t[" + executionId + "]",
     "\n",
     shareText,
     "\n",
     "Below components have updated:"]
    + ComponentLines + ["\n"]
  }

  function FailureLines(status: string, document: string, executionId: string): seq<string>
  {
    ["\n",
     "The scheduled patching of AWS AMI has failed: Please investigate further via AWS console.\n",
     NoAmiLine,
     "* New AMI Name:\t[]",
     "* Overall result:\t[" + status + "]",
     "* Document name:\t[" + document + "]",
     "* Execution ID:\t[" + executionId + "]",
     "\n",
     NoShareLine,
     "\n"]
  }

  /** The `Success` branch: write the id to S3, read the image's name, share it. */
  function Succeeded(cfg: Config, executionId: string, e: Execution, w: World): (r: Interpretation)
    ensures r.message.Report? && r.message.text != ""
    ensures forall a :: a in r.actions ==> a.PutS3? || a.Share?
    ensures ImageOutputName !in e.outputs || |e.outputs[ImageOutputName]| == 0 || w.newImage.DescribeRaised? ==>
              r == Interpretation(Report(UnableText), [])
    ensures ImageOutputName in e.outputs && |e.outputs[ImageOutputName]| > 0 ==>
              var amiId := e.outputs[ImageOutputName][0];
              && (w.newImage.DescribeEmpty? ==>
                    r == Interpretation(Report(UnableText), PostAmiS3(amiId, cfg.s3Bucket, cfg.s3Key, w.s3Error).actions))
              && (w.newImage.DescribeFound? ==>
                    r.actions == PostAmiS3(amiId, cfg.s3Bucket, cfg.s3Key, w.s3Error).actions
                                 + PostAmi(amiId, cfg.shareAccounts, w.shareError).actions)
  {
    if ImageOutputName !in e.outputs || |e.outputs[ImageOutputName]| == 0 then
      Interpretation(Report(UnableText), [])
    else
      var amiId := e.outputs[ImageOutputName][0];
      match w.newImage
      case DescribeRaised => Interpretation(Report(UnableText), [])
      case DescribeEmpty =>
        // Post_AMI_s3 has run before `Image['Images'][0]` raises
        Interpretation(Report(UnableText), PostAmiS3(amiId, cfg.s3Bucket, cfg.s3Key, w.s3Error).actions)
      case DescribeFound(name) =>
        var stored := PostAmiS3(amiId, cfg.s3Bucket, cfg.s3Key, w.s3Error);
        var shared := PostAmi(amiId, cfg.shareAccounts, w.shareError);
        var lines := SuccessLines(amiId, name, e.status, e.documentName, executionId, shared.text);
        Interpretation(Report(Join(lines, "\n")), stored.actions + shared.actions)
  }

  /** Every other status: clean up the build instance, then report or stay silent. */
  function Failed(executionId: string, e: Execution): (r: Interpretation)
    ensures r.message.Suppressed? <==> CheckUpdatesFailed(e.steps)
    ensures r.message.Report? ==> r.message.text != ""
    ensures r.actions == if LeakedInstance(e.steps).Some? then [Terminate(LeakedInstance(e.steps).value)] else []
  {
    var cleanup := match LeakedInstance(e.steps)
      case Some(id) => [Terminate(id)]
      case None => [];
    if CheckUpdatesFailed(e.steps) then Interpretation(Suppressed, cleanup)
    else Interpretation(Report(Join(FailureLines(e.status, e.documentName, executionId), "\n")), cleanup)
  }

  /** `Automation_Result(ExecutionID)`. */
  function Interpret(cfg: Config, executionId: Option<string>, w: World): (r: Interpretation)
    ensures r.message.Report? ==> r.message.text != ""
    ensures r.message.Suppressed? <==>
              executionId.Some? && executionId.value != "" && w.execution.Some?
              && w.execution.value.status != "Success" && CheckUpdatesFailed(w.execution.value.steps)
    ensures forall a :: a in r.actions ==> a.PutS3? || a.Share? || a.Terminate?
    ensures forall a :: a in r.actions && a.Terminate? ==> r.actions == [a]
    ensures executionId.None? || executionId.value == "" ==> r == Interpretation(Report(BlankIdText), [])
    ensures executionId.Some? && executionId.value != "" && w.execution.None? ==>
              r == Interpretation(Report(UnableText), [])
  {
    if executionId.None? || executionId.value == "" then
      Interpretation(Report(BlankIdText), [])
    else if w.execution.None? then
      Interpretation(Report(UnableText), [])
    else if w.execution.value.status == "Success" then
      Succeeded(cfg, executionId.value, w.execution.value, w)
    else
      Failed(executionId.value, w.execution.value)
  }

  /**
   * A termination is issued only for a job that did not succeed, and only
   * for the well-formed first `InstanceIds` entry of its first
   * LaunchInstance step.
   */
  lemma TerminationTarget(cfg: Config, executionId: Option<string>, w: World, id: string)
    requires Terminate(id) in Interpret(cfg, executionId, w).actions
    ensures executionId.Some? && executionId.value != ""
    ensures w.execution.Some? && w.execution.value.status != "Success"
    ensures IsInstanceId(id)
    ensures var steps := w.execution.value.steps;
            exists i :: 0 <= i < |steps| && steps[i].name == LaunchStepName
                        && (forall j :: 0 <= j < i ==> steps[j].name != LaunchStepName)
                        && "InstanceIds" in steps[i].outputs && |steps[i].outputs["InstanceIds"]| > 0
                        && steps[i].outputs["InstanceIds"][0] == id
  {
    var steps := w.execution.value.steps;
    assert LeakedInstance(steps) == Some(id);
    var i := FirstStepIndex(steps, LaunchStepName).value;
    assert steps[i].outputs["InstanceIds"][0] == id;
  }

  /** A failed job whose first LaunchInstance step names a well-formed instance has it terminated. */
  lemma LeakedInstanceTerminated(cfg: Config, executionId: string, w: World, i: nat)
    requires executionId != "" && w.execution.Some? && w.execution.value.status != "Success"
    requires var steps := w.execution.value.steps;
             i < |steps| && steps[i].name == LaunchStepName
             && (forall j :: 0 <= j < i ==> steps[j].name != LaunchStepName)
             && "InstanceIds" in steps[i].outputs && |steps[i].outputs["InstanceIds"]| > 0
             && IsInstanceId(steps[i].outputs["InstanceIds"][0])
    ensures Interpret(cfg, Some(executionId), w).actions == [Terminate(w.execution.value.steps[i].outputs["InstanceIds"][0])]
  {
    var steps := w.execution.value.steps;
    assert FirstStepIndex(steps, LaunchStepName) == Some(i);
  }

  /**
   * The success report names the new image by id and by name, gives the
   * overall result, the document and the execution id, carries the text of
   * the share attempt and lists the six updated components; the S3 object's
   * body is the same id.
   */
  lemma SuccessReportContents(cfg: Config, executionId: string, w: World)
    requires executionId != "" && w.execution.Some? && w.execution.value.status == "Success"
    requires var outputs := w.execution.value.outputs;
             ImageOutputName in outputs && |outputs[ImageOutputName]| > 0
    requires w.newImage.DescribeFound?
    ensures var amiId := w.execution.value.outputs[ImageOutputName][0];
            var r := Interpret(cfg, Some(executionId), w);
            && r.message.Report?
            && Contains(r.message.text, NewAmiLinePrefix + amiId + "]")
            && Contains(r.message.text, "* New AMI Name:\t[" + w.newImage.value + "]")
            && Contains(r.message.text, "* Overall result:\t[" + w.execution.value.status + "]")
            && Contains(r.message.text, "* Document name:\t[" + w.execution.value.documentName + "]")
            && Contains(r.message.text, "* Execution ID:\t[" + executionId + "]")
            && Contains(r.message.text, PostAmi(amiId, cfg.shareAccounts, w.shareError).text)
            && (forall c :: c in ComponentLines ==> Contains(r.message.text, c))
            && (forall a :: a in r.actions && a.PutS3? ==> a.body == amiId)
  {
    var e := w.execution.value;
    var amiId := e.outputs[ImageOutputName][0];
    var shared := PostAmi(amiId, cfg.shareAccounts, w.shareError);
    var lines := SuccessLines(amiId, w.newImage.value, e.status, e.documentName, executionId, shared.text);
    JoinContains(lines, "\n", 2);
    JoinContains(lines, "\n", 3);
    JoinContains(lines, "\n", 4);
    JoinContains(lines, "\n", 5);
    JoinContains(lines, "\n", 6);
    JoinContains(lines, "\n", 8);
    forall c | c in ComponentLines ensures Contains(Join(lines, "\n"), c) {
      var j :| 0 <= j < |ComponentLines| && ComponentLines[j] == c;
      assert lines[11 + j] == c;
      JoinContains(lines, "\n", 11 + j);
    }
  }

  /**
   * The success path: a missing image output or a failing image lookup
   * gives the "unable" text with no call; an empty lookup answer gives it
   * after the S3 write; a found image gives the report after the write and
   * the share, in that order.
   */
  lemma SuccessOutcomes(cfg: Config, executionId: string, w: World)
    requires executionId != "" && w.execution.Some? && w.execution.value.status == "Success"
    ensures var outputs := w.execution.value.outputs;
            var r := Interpret(cfg, Some(executionId), w);
            && (ImageOutputName !in outputs || |outputs[ImageOutputName]| == 0 || w.newImage.DescribeRaised? ==>
                  r == Interpretation(Report(UnableText), []))
            && (ImageOutputName in outputs && |outputs[ImageOutputName]| > 0 && w.newImage.DescribeEmpty? ==>
                  r == Interpretation(Report(UnableText),
                                      PostAmiS3(outputs[ImageOutputName][0], cfg.s3Bucket, cfg.s3Key, w.s3Error).actions))
            && (ImageOutputName in outputs && |outputs[ImageOutputName]| > 0 && w.newImage.DescribeFound? ==>
                  r.message.Report?
                  && r.actions == PostAmiS3(outputs[ImageOutputName][0], cfg.s3Bucket, cfg.s3Key, w.s3Error).actions
                                  + PostAmi(outputs[ImageOutputName][0], cfg.shareAccounts, w.shareError).actions)
  {
    var e := w.execution.value;
    assert Interpret(cfg, Some(executionId), w) == Succeeded(cfg, executionId, e, w);
  }

  /**
   * For a well-formed new image id, a success with a found image makes
   * exactly two calls: the S3 write of the id, then the share.
   */
  lemma SuccessWritesThenShares(cfg: Config, executionId: string, w: World)
    requires executionId != "" && w.execution.Some? && w.execution.value.status == "Success"
    requires var outputs := w.execution.value.outputs;
             ImageOutputName in outputs && |outputs[ImageOutputName]| > 0 && IsAmiId(outputs[ImageOutputName][0])
    requires w.newImage.DescribeFound?
    ensures var amiId := w.execution.value.outputs[ImageOutputName][0];
            Interpret(cfg, Some(executionId), w).actions ==
              [PutS3(cfg.s3Bucket, ObjectKey(cfg.s3Key, amiId), amiId), Share(amiId, cfg.shareAccounts)]
  {
  }

  /**
   * The failure report says that no image was made and none was shared, and
   * gives the overall result, the document and the execution id.
   */
  lemma FailureReportContents(cfg: Config, executionId: string, w: World)
    requires executionId != "" && w.execution.Some? && w.execution.value.status != "Success"
    requires !CheckUpdatesFailed(w.execution.value.steps)
    ensures var r := Interpret(cfg, Some(executionId), w);
            && r.message.Report?
            && Contains(r.message.text, NoAmiLine)
            && Contains(r.message.text, NoShareLine)
            && Contains(r.message.text, "* New AMI Name:\t[]")
            && Contains(r.message.text, "* Overall result:\t[" + w.execution.value.status + "]")
            && Contains(r.message.text, "* Document name:\t[" + w.execution.value.documentName + "]")
            && Contains(r.message.text, "* Execution ID:\t[" + executionId + "]")
  {
    var e := w.execution.value;
    var lines := FailureLines(e.status, e.documentName, executionId);
    JoinContains(lines, "\n", 2);
    JoinContains(lines, "\n", 3);
    JoinContains(lines, "\n", 4);
    JoinContains(lines, "\n", 5);
    JoinContains(lines, "\n", 6);
    JoinContains(lines, "\n", 8);
  }
}
