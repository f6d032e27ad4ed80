/**
 * The values the handler works on. Every answer of an outside service (EC2,
 * SSM, SNS, S3, the security-bulletin feed) is an input field of `World`;
 * every call that changes something outside is an `Action` the handler emits.
 */
module Records {
  import opened Common

  /** An image as `describe_images` reports it. */
  datatype Image = Image(
    id: string,
    creationDate: string,      // `CreationDate`, an ISO-8601 string compared as text
    created: Option<nat>)      // that date as an instant, None when strptime rejects it

  /** What a `describe_images(ImageIds=[...])` call yields. */
  datatype Describe<T> = DescribeRaised | DescribeEmpty | DescribeFound(value: T)

  /** One entry of `StepExecutions` of an automation execution. */
  datatype Step = Step(name: string, status: string, outputs: map<string, seq<string>>)

  /** The `AutomationExecution` record returned by `get_automation_execution`. */
  datatype Execution = Execution(
    status: string,
    documentName: string,
    outputs: map<string, seq<string>>,
    steps: seq<Step>)

  /** The answers the outside world gives to one invocation. */
  datatype World = World(
    patternImages: Result<seq<Image>>,  // own images whose name matches the lookup pattern
    defaultImage: Describe<Image>,      // lookup of DEFAULT_AMI_ID
    feed: Option<seq<nat>>,             // pubDate instants in feed order; None on any fetch or parse failure
    launch: Result<string>,             // AutomationExecutionId of a started job, or the call's error
    execution: Option<Execution>,       // None when the execution cannot be retrieved
    newImage: Describe<string>,         // name of the image the job produced
    shareError: Option<string>,         // error text of modify_image_attribute, if it fails
    s3Error: Option<string>,            // error text of put_object, if it fails
    snsErrors: map<string, string>)     // topic ARN -> error text, for the topics whose publish raises;
                                        // the failure is per topic: a topic listed twice cannot succeed once and then fail

  /** Parameters of `start_automation_execution`; each is a one-element list there. */
  datatype LaunchParams = LaunchParams(
    sourceAmiId: string,
    subnetId: string,
    instanceProfileName: string,
    automationAssumeRole: string,
    targetAmiName: string,
    owner: string,
    description: Option<string>,
    preUpdateScript: string)

  /** A call that changes something outside the handler. */
  datatype Action =
    | StartAutomation(document: string, params: LaunchParams)
    | Terminate(instanceId: string)
    | PutS3(bucket: string, key: string, body: string)
    | Share(imageId: string, accounts: Option<seq<string>>)
    | Publish(topicArn: string, subject: string, message: string)

  /** The settings read from the environment, fixed for one invocation. */
  datatype Config = Config(
    automationName: string,
    platform: string,
    lookupPattern: string,              // "" when AMI_LOOKUP_PATTERN is unset or empty
    profileRole: string,
    automationRole: string,
    subnet: string,
    targetAmiName: string,
    tagOwner: string,
    s3Bucket: string,
    s3Key: string,
    tagDescription: Option<string>,
    alertArns: seq<string>,
    shareAccounts: Option<seq<string>>,
    defaultAmiId: string)               // "" when DEFAULT_AMI_ID is unset or blank

  /** The inbound event: its `Event` field and its `detail` object. */
  datatype Event = Event(marker: Option<string>, detail: Option<map<string, string>>)

  /** A Python return value of the handler. */
  datatype Value = Str(text: string) | NoneValue

  /** How a call ends: it returns a value or raises an exception with a message. */
  datatype Outcome = Returned(value: Value) | Raised(error: string)
}
