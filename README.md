# AMI auto-update handler, modelled in Dafny

`ami-update.py` is an AWS Lambda handler that keeps a Windows AMI patched.
A scheduled event (`{"Event": "AMI_Update_Startup"}`) makes it pick a base
image and check the security-bulletin feed. If a bulletin is newer than the
image, it starts an SSM automation that builds a patched image. When that
automation finishes, a status-change event makes it read the execution's
result. On success it writes the new image id to S3, shares the image with
other accounts and mails a report to every `ALERT_ARN*` SNS topic. On failure
it terminates the leaked build instance and mails a failure report. It stays
silent when the job stopped only because there was nothing to install.

The model keeps the handler's decisions and leaves the services out:

- Every answer of an outside service is a field of the `Records.World` input:
  - the images `describe_images` finds;
  - the feed's `pubDate` instants;
  - the automation execution;
  - the error text of a failing share, S3 write or publish.
- Every call that changes something outside becomes an `Records.Action` value
  in the order the handler makes it:
  - `StartAutomation`
  - `Terminate`
  - `PutS3`
  - `Share`
  - `Publish`

  This is what lets the model state "exactly one launch" and "no call".
- An exception leaving the handler is `Records.Outcome.Raised` with its
  message. A returned value is `Returned(Str(..))`, or `Returned(NoneValue)`
  for the `None` that `Automation_Status` returns.

Modules, in the order of the program:

- `Common`: the `Option` and `Result` types.
- `Text`: the string handling the handler relies on.
  - `str.strip`, `str.split(',')` and `str.lower` on ASCII.
  - The two id patterns `(?i)^ami-\w+?$` and `(?i)^i-[a-z0-9]+?$`. `$` also
    matches before one final newline (`Chomp`).
  - The `S3_PATH` split `^(.+):/(.+?)$`.
  - Python's lexicographic string order, which is used to sort on
    `CreationDate`.
- `Records`: the inputs, the config record, the actions and the outcomes.
- `Settings`: how `lambda_handler` reads the environment into its globals
  (method `LoadConfig`).
- `Selection`: `Get_AMI`.
- `UpdateFeed`: `LookupUpdate`, with its loop.
- `Publisher`: `Post_AMI` and `Post_AMI_s3`.
- `Interpreter`: `Automation_Result`.
- `Handler`: the dispatch, `Startup`, `Automation_Status` with its publishing
  loop, and `lambda_handler` (method `Handle`).

The form follows the source:

- Code that works step by step is a method:
  - the environment checks that set globals one at a time, a straight
    sequence of checks with an early return each;
  - the feed scan with its early return, a loop with its invariants;
  - the publishing loop, with its invariants;
  - the driver chain (`Startup`, `Automation_Status`, `lambda_handler`).
- Code without loops is a function, proved against its own contract and lemmas:
  - image selection;
  - interpretation of the execution;
  - the two publishers;
  - the dispatch.

  Local rebinding in that code (`ami_togo`, `key`, `Step_LaunchInstance`) is
  written as `var` bindings.

Two behaviours of the code are surprising; the model follows the code:

- **Default image lookup that finds no image.** When the `DEFAULT_AMI_ID`
  lookup answers with an empty `Images` list, `Get_AMI` raises a `KeyError`
  for `'ImageId'`. It does not return `None`, because `ami_togo` still holds
  the (truthy) response. `Selection.SelectBase` gives `Raises("'ImageId'")`.
- **Typo kept.** The S3 format message keeps the source's "corrent".

## Model

| member | source | states |
|---|---|---|
| Text.Lower | ami-update.py:256 | `status.lower()` keeps the length and lowers each ASCII capital, leaving every other character |
| Text.Chomp | ami-update.py:104 | what `$` matches against: when the text ends in a newline, the text is the result followed by that newline; otherwise the result is the text |
| Text.AmiIdExamples | ami-update.py:358 | the image-id pattern accepts `ami-0abc` and `AMI-0` followed by a newline (case-insensitive, `$` before a final newline); it rejects `not-an-ami` and a bare `ami-` |
| Text.AmiPrefixLowered | ami-update.py:358 | both letter cases of the `ami-` prefix match the case-insensitive pattern
| Text.InstanceIdExamples | ami-update.py:324 | the instance-id pattern accepts `i-0123abcd`; it rejects an underscore in the id and an image id |
| Text.TrimLeft | ami-update.py:115 | drops exactly the leading whitespace: a suffix of the input whose first character is not whitespace |
| Text.TrimRight | ami-update.py:115 | drops exactly the trailing whitespace: a prefix of the input whose last character is not whitespace |
| Text.Strip | ami-update.py:115 | `str.strip()`: the result neither starts nor ends with whitespace |
| Text.StripIsSlice | ami-update.py:115 | the stripped text is one contiguous slice of the input, and every character before it and after it is whitespace |
| Text.TrimBothSlice | ami-update.py:115 | trimming the leading, then the trailing whitespace leaves a slice of the input with only whitespace after it, neither end of it whitespace |
| Text.StripFixedPoint | ami-update.py:115 | strip leaves a text unchanged if and only if the text is empty or has no whitespace at either end |
| Text.StripIdempotent | ami-update.py:126 | stripping twice is stripping once |
| Text.IndexOf | ami-update.py:120 | the first position of the separator |
| Text.IndexOfFirst | ami-update.py:120 | any position that holds the separator with none before it is the one `IndexOf` finds |
| Text.Split | ami-update.py:120 | `str.split(',')` yields at least one field, and no field contains the separator |
| Text.JoinSplit | ami-update.py:120 | joining the fields of a split with the separator restores the text |
| Text.SplitJoin | ami-update.py:120 | splitting the join of separator-free fields gives the fields back |
| Text.JoinContains | ami-update.py:352 | every line of a `'\n'.join` occurs in the joined report |
| Text.StrLeReflexive | ami-update.py:197 | the string order used to sort on `CreationDate` is reflexive |
| Text.StrLeTotal | ami-update.py:197 | any two dates are comparable |
| Text.StrLeAntisymmetric | ami-update.py:197 | two dates each at most the other are equal |
| Text.StrLeTransitive | ami-update.py:197 | the order is transitive |
| Text.LastSepAtOrBelow | ami-update.py:104 | the last `:/` at or below a position that leaves a non-empty bucket and key |
| Text.SplitS3Path | ami-update.py:103-106 | the match succeeds if and only if there is no newline before the end and some `:/` has text on both sides; bucket and key are non-empty, `bucket + ":/" + key` is the path, and the split is at the last `:/` (greedy first group) |
| Text.S3PathRoundTrip | ami-update.py:104 | a non-empty bucket and a non-empty key with no further `:/` and no newline are split back into exactly that bucket and key |
| Settings.FirstUnsetIsFirst | ami-update.py:42-100 | the first unset required setting is unset and every one checked before it is set; none is reported if and only if all are set |
| Settings.ArnsFrom | ami-update.py:114-115 | a value is an alert topic if and only if it is the stripped, non-blank value of a variable whose name starts with `ALERT_ARN`; no topic is blank |
| Settings.ArnsFromAppend | ami-update.py:114-115 | the topics follow the order of the variables: the list for two runs of names is the two lists concatenated |
| Settings.ArnsFromOne | ami-update.py:114-115 | one variable contributes its stripped value when it is an alert setting with a non-blank value, and nothing otherwise |
| Settings.DuplicateTopicsKept | ami-update.py:114-115 | duplicates are kept: two alert variables with the same value give that topic twice, in the order of the variables |
| Settings.AlertArnsOfEnv | ami-update.py:114-115 | when the listed names are exactly the environment's variables, each once, a value is an alert topic if and only if some `ALERT_ARN*` variable holds it, stripped and non-blank |
| Settings.ShareAccounts | ami-update.py:118-120 | there is an account list if and only if `AMI_SHARE_ACCOUNTS` is set and non-empty; it has one entry per comma-separated field, and each entry is that field stripped |
| Settings.ConfigOf | ami-update.py:42-126 | the globals a successful load leaves: every required setting non-empty, and bucket `:/` key is `S3_PATH` without a final newline |
| Settings.LoadConfig | ami-update.py:42-126 | raises the message naming the first missing required setting, then the S3 format message. It succeeds if and only if all eight are set and `S3_PATH` splits, and then its config is exactly `ConfigOf` of the environment |
| Selection.NewestIndex | ami-update.py:197-199 | the last element of the stable sort on `CreationDate`: its date is at least every other, and every image after it has a strictly smaller date |
| Selection.SelectBase | ami-update.py:173-218 | a failing pattern query raises. A pattern with matches picks a match with the greatest date, ties to the last listed. Otherwise: no default gives `False`; a failing default lookup gives `None`; an empty default answer raises; a found default is picked |
| Selection.MatchWinsOverDefault | ami-update.py:186-201 | when the pattern matches, the default lookup has no influence on the choice |
| Selection.TieGoesToLast | ami-update.py:197-199 | of two images with the same date, the later one in the list is picked |
| UpdateFeed.AnyLaterMeans | ami-update.py:160-165 | the scan finds a later item if and only if some item is strictly later than the image |
| UpdateFeed.NoUpdateMeans | ami-update.py:149-170 | "no update" is answered if and only if the creation date and the feed were read, the feed is non-empty and no item is later; every failure answers "update due" |
| UpdateFeed.OlderImageStillDue | ami-update.py:149-170 | an image no newer than one that needs an update needs one too |
| UpdateFeed.FeedOrderIrrelevant | ami-update.py:160-168 | two feeds with the same items in any order give the same answer |
| UpdateFeed.LookupUpdate | ami-update.py:149-170 | the loop with its early return answers `UpdateDue`: false exactly for a readable, non-empty feed with no item later than the image |
| Publisher.PostAmi | ami-update.py:357-374 | a malformed id makes no call and returns the fixed "[No AMI ID]" text. A well-formed id makes one share call with the given accounts, and a failing call is reported after the "AMI not shared: " prefix. The text is never empty |
| Publisher.ShareReportedFailedIff | ami-update.py:357-374 | the text starts with "AMI not shared: " if and only if the id is malformed or the share call failed |
| Publisher.ObjectKey | ami-update.py:381-382 | the object key extends the configured key, and differs from it only when that key ends in `/` |
| Publisher.ObjectKeyNamesImage | ami-update.py:381-382 | under a folder key the object is named by the image id followed by `.txt` |
| Publisher.PostAmiS3 | ami-update.py:377-396 | a malformed id makes no call and returns the fixed "[No AMI ID]" text. A well-formed id makes one write of the id to the derived key, and a failing write is reported after the "AMI ID not put to s3: " prefix |
| Publisher.StoreReportedFailedIff | ami-update.py:377-396 | the text starts with "AMI ID not " if and only if the id is malformed or the write failed |
| Publisher.StoreSucceededText | ami-update.py:387-390 | a successful write is not reported as a failure |
| Publisher.MalformedIdMakesNoCall | ami-update.py:357-396 | for a malformed id both publishers return their fixed texts and make no call |
| Interpreter.FirstStepIndex | ami-update.py:318 | the first step with the given name, or none when no step has it |
| Interpreter.Succeeded | ami-update.py:286-354 | the success branch always returns a non-empty report and only writes and shares. A missing image output or a failing image lookup gives the "unable" text with no call. An empty lookup answer gives it after the S3 write. A found image gives the S3 write's calls followed by the share's calls |
| Interpreter.Failed | ami-update.py:315-351 | the failure branch is silent if and only if the first CheckUpdates step failed; it terminates exactly the leaked instance, if any |
| Interpreter.Interpret | ami-update.py:280-354 | a blank or absent id gives the "blank" text with no call; an unreadable execution gives the "unable" text with no call. A report is never empty. The result is `False` if and only if the id is non-blank, the execution was read, its status is not exactly `Success`, and its first CheckUpdates step failed. It only writes, shares or terminates, and when it terminates, that is its only action |
| Interpreter.SuccessOutcomes | ami-update.py:286-354 | for a successful execution: no image output or a failing lookup gives the "unable" text with no call; an empty lookup answer gives it after the S3 write; a found image gives a report after the S3 write's and then the share's calls |
| Interpreter.SuccessWritesThenShares | ami-update.py:292-303 | for a well-formed new image id that is found, exactly two calls: the write of the id to the derived S3 key, then the share with the configured accounts |
| Interpreter.TerminationTarget | ami-update.py:315-332 | a terminated instance belongs to a non-blank, readable, unsuccessful execution. It is well formed and is the first `InstanceIds` entry of the first LaunchInstance step |
| Interpreter.LeakedInstanceTerminated | ami-update.py:315-332 | conversely, such an entry of a failed execution is terminated, and nothing else is done |
| Interpreter.SuccessReportContents | ami-update.py:292-313 | the success report has the new image id, the image name, the overall result, the document name and the execution id lines, carries the share result and all six component lines. The S3 object's body is that id |
| Interpreter.FailureReportContents | ami-update.py:334-352 | a non-silent failure report contains "* New AMI ID:\t[]", "* New AMI Name:\t[]", "AMI Not shared: [No AMI ID]", and the overall result, document name and execution id lines |
| Handler.Classify | ami-update.py:132-146 | the startup marker is checked first. A non-empty detail whose `Definition` is the automation's name is a status change. A non-empty detail naming another document is foreign. Everything else is unknown |
| Handler.Startup | ami-update.py:221-251 | a failing image query raises. No usable image, or no update due, returns the fixed text with no launch. Otherwise exactly one launch runs on the picked image with the configured parameters and the fixed pre-update script, and the new execution id is returned |
| Handler.StatusWordRoundTrip | ami-update.py:260-267 | the word in a subject is its status capitalised: lower-casing it gives the status back |
| Handler.LowerCapitalised | ami-update.py:256 | lower-casing a word whose capitals have lower-case counterparts in place gives that lower-case word |
| Handler.KnownStatuses | ami-update.py:256-269 | a status, in any letter case, has a subject if and only if it lowers to success, failed, cancelled or timedout |
| Handler.SubjectNamesStatus | ami-update.py:260-267 | the status-to-subject mapping is one-to-one |
| Handler.AlertsMeans | ami-update.py:274-275 | every topic is sent the same subject and text, in order. When no publish raises, every topic is sent. Otherwise the sending stops at the first topic that raises, and its error is the one raised |
| Handler.PublishAll | ami-update.py:274-275 | the loop sends exactly `Alerts` and reports exactly the first rejection |
| Handler.SuppressedSendsNothing | ami-update.py:271 | a `False` result sends no alert |
| Handler.AutomationStatus | ami-update.py:254-277 | a missing status raises before anything is done. Otherwise the interpretation's actions are taken first, and an unknown status raises only afterwards. A known status alerts every topic with its subject and the report, unless the report is `False` or there are no topics. It returns `None` unless a publish raises. It never launches an automation |
| Handler.Handle | ami-update.py:32-146 | a settings error raises before any action. A scheduled startup does exactly what `Startup` does and a status change of our automation exactly what `Automation_Status` does, both with `ConfigOf` the environment. A foreign or unknown event returns its fixed text and does nothing. A launch is the only action of a run and happens only on the startup route, for the configured document with the fixed script. Every other action comes from a status change of our automation |

## Left out

- The boto3 clients are not modelled. Their answers are inputs and their calls are actions. Service semantics such as the name-filter wildcard of `describe_images` or the validation of `UserIds=None` are not modelled.
- The `sts.get_caller_identity` call in `Get_AMI` is not modelled: its failure is not a separate case. The account id only scopes the image query, whose answer is an input.
- The RSS fetch and the XML parsing are not modelled. The feed is its items' `pubDate` instants in feed order, or None on any failure. An empty channel is the empty sequence.
- `datetime.strptime` is not modelled. An image's creation instant is the `created` input, None when its date does not parse. A feed date that does not parse counts as a feed failure.
- Unicode behaviour of `str.lower`, `str.strip` and the regex `\w` is not modelled: all of them are on ASCII.
- Handler.AutomationStatus: the message of a missing `Status` is the AttributeError text, whatever the Python version prints.
- Publisher.PostAmi: the account list is rendered as a Python list of quoted strings. Python's escaping of quotes or backslashes inside an account id is not modelled.
- Settings.ShareAccounts: `AMI_SHARE_ACCOUNTS` set to the empty string stays `''` in the source and is `None` in the model. The share call gets `None` instead of `''`, and that call's answer is an input. The success text of `Post_AMI` then ends in `None` in the model, where the source's `'%s' % ''` ends in nothing.
- Handler.PublishAll: a publish failure is an input per topic ARN. A topic listed under two `ALERT_ARN*` variables therefore cannot have its first publish succeed and its second raise.
- Logging, `print`, `json.dumps` and the unused `strDate` are not modelled.
- An event or detail that is not a dictionary of strings is not modelled. `AutomationExecutionStatus`, `DocumentName`, `Outputs` and `StepExecutions` are always present in a fetched execution. An execution that cannot be fetched or is absent is None.
- The Timsort algorithm is not modelled, only the element `sorted(...)[-1]` yields.
- The globals `lambda_handler` sets persist between invocations in a warm Lambda. The model is one invocation.
