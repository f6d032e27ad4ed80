/**
 * `lambda_handler` and the two jobs it dispatches to: `Startup`, which
 * launches the patching automation when the base image is older than the
 * latest bulletin, and `Automation_Status`, which reports how a finished
 * automation went to the alert topics.
 */
module Handler {
  import opened Common
  import opened Text
  import opened Records
  import opened Settings
  import opened Selection
  import opened UpdateFeed
  import opened Interpreter

  const StartupMarker: string := "AMI_Update_Startup"
  const PreUpdateScript: string := "Set-MpPreference -DisableRealtimeMonitoring $true -ErrorAction:SilentlyContinue"
  const NoTemplateText: string := "No AMI can be used as template, script quit."
  const NoUpdateText: string := "There is no any update published in RSS"
  const LaunchedPrefix: string := "Automation job launched with ID: "
  const ForeignText: string := "The automation change is not our concern"
  const UnknownEventText: string := "Unknown event"
  const SubjectPrefix: string := "AWS AMI Autopatch Report for "
  const SubjectStatus: string := ": Status: "
  /** The AttributeError of `None.lower()` when the detail carries no Status. */
  const NoStatusError: string := "'NoneType' object has no attribute 'lower'"
  const UnknownStatusPrefix: string := "Unknown status: ["

  /** Which branch of `lambda_handler` an event takes once the settings are loaded. */
  datatype Route =
    | ScheduledStartup
    | ForeignAutomation
    | StatusChange(detail: map<string, string>)
    | UnknownEvent

  /**
   * The dispatch: the startup marker wins; otherwise a non-empty `detail`
   * is a status change, ours exactly when its `Definition` is the
   * automation's name; anything else is unknown.
   */
  function Classify(automationName: string, event: Event): (r: Route)
    ensures r.ScheduledStartup? <==> event.marker == Some(StartupMarker)
    ensures r.StatusChange? <==>
              event.marker != Some(StartupMarker) && event.detail.Some? && |event.detail.value| > 0
              && "Definition" in event.detail.value && event.detail.value["Definition"] == automationName
    ensures r.StatusChange? ==> r.detail == event.detail.value
    ensures r.UnknownEvent? <==> event.marker != Some(StartupMarker) && (event.detail.None? || |event.detail.value| == 0)
  {
    if event.marker == Some(StartupMarker) then ScheduledStartup
    else if event.detail.Some? && |event.detail.value| > 0 then
      var detail := event.detail.value;
      if "Definition" in detail && detail["Definition"] == automationName then StatusChange(detail)
      else ForeignAutomation
    else UnknownEvent
  }

  /** The parameters `Startup` passes to `start_automation_execution`. */
  function LaunchParamsFor(cfg: Config, amiId: string): LaunchParams
  {
    LaunchParams(amiId, cfg.subnet, cfg.profileRole, cfg.automationRole, cfg.targetAmiName,
                 cfg.tagOwner, cfg.tagDescription, PreUpdateScript)
  }

  /**
   * What `Startup()` promises for the chosen base image and the feed: a
   * failing image query raises; without a usable image, or without a due
   * update, a fixed text and no launch; otherwise exactly one launch on the
   * chosen image, answered by the new execution id or the call's error.
   */
  predicate StartupDoes(cfg: Config, w: World, out: Outcome, actions: seq<Action>)
  {
    var base := SelectBase(cfg, w);
    && (base.Raises? ==> out == Raised(base.error) && actions == [])
    && (!base.Raises? && !base.Picked? ==> out == Returned(Str(NoTemplateText)) && actions == [])
    && (base.Picked? && !UpdateDue(base.image.created, w.feed) ==> out == Returned(Str(NoUpdateText)) && actions == [])
    && (base.Picked? && UpdateDue(base.image.created, w.feed) ==>
          && actions == [StartAutomation(cfg.automationName, LaunchParamsFor(cfg, base.image.id))]
          && out == (if w.launch.Ok? then Returned(Str(LaunchedPrefix + w.launch.value)) else Raised(w.launch.error)))
  }

  /**
   * `Startup()`: picks the base image, asks the feed whether an update is
   * due and, only then, starts one automation on that image.
   */
  method Startup(cfg: Config, w: World) returns (out: Outcome, actions: seq<Action>)
    ensures StartupDoes(cfg, w, out, actions)
  {
    var base := SelectBase(cfg, w);
    if base.Raises? {
      return Raised(base.error), [];
    }
    if !base.Picked? {
      return Returned(Str(NoTemplateText)), [];
    }
    var due := LookupUpdate(base.image.created, w.feed);
    if !due {
      return Returned(Str(NoUpdateText)), [];
    }
    actions := [StartAutomation(cfg.automationName, LaunchParamsFor(cfg, base.image.id))];
    match w.launch {
      case Ok(executionId) => out := Returned(Str(LaunchedPrefix + executionId));
      case Err(e) => out := Raised(e);
    }
  }

  /** The capitalised word a known lower-case status is reported under. */
  function StatusWord(status: string): Option<string>
  {
    if status == "success" then Some("Success")
    else if status == "failed" then Some("Failed")
    else if status == "cancelled" then Some("Cancelled")
    else if status == "timedout" then Some("TimedOut")
    else None
  }

  /** The alert subject for a lower-cased status; None for a status the handler rejects. */
  function Subject(platform: string, status: string): Option<string>
  {
    match StatusWord(status)
    case None => None
    case Some(word) => Some(SubjectPrefix + platform + SubjectStatus + word)
  }

  /** The reported word is the status itself, capitalised: lower-casing it gives the status back. */
  lemma StatusWordRoundTrip(status: string)
    requires StatusWord(status).Some?
    ensures Lower(StatusWord(status).value) == status
  {
    var word := StatusWord(status).value;
    LowerCapitalised(word, status);
  }

  /**
   * Lower-casing a word that starts with a capital and whose other capitals
   * have their lower-case counterparts in place (`TimedOut` over `timedout`).
   */
  lemma LowerCapitalised(word: string, lowered: string)
    requires |word| == |lowered| > 0 && 'A' <= word[0] <= 'Z' && lowered[0] as int == word[0] as int + 32
    requires forall i :: 0 < i < |word| ==> word[i] == lowered[i] || (lowered[i] as int == word[i] as int + 32 && 'A' <= word[i] <= 'Z')
    requires forall i :: 0 < i < |word| ==> !('A' <= lowered[i] <= 'Z')
    ensures Lower(word) == lowered
  {
  }

  /** Only the four statuses, in any letter case, have a subject. */
  lemma KnownStatuses(platform: string, status: string)
    ensures Subject(platform, Lower(status)).Some? <==>
              Lower(status) in {"success", "failed", "cancelled", "timedout"}
  {
  }

  /** A subject names its status: two statuses with the same subject are the same. */
  lemma SubjectNamesStatus(platform: string, status: string, other: string)
    requires Subject(platform, status).Some?
    requires Subject(platform, status) == Subject(platform, other)
    ensures status == other
  {
    var head := SubjectPrefix + platform + SubjectStatus;
    var word, word' := StatusWord(status).value, StatusWord(other).value;
    assert (head + word)[|head|..] == word;
    assert (head + word')[|head|..] == word';
    StatusWordRoundTrip(status);
    StatusWordRoundTrip(other);
  }

  /** The first topic, in order, whose publish raises: its error text. */
  function FirstRejection(arns: seq<string>, errors: map<string, string>): Option<string>
  {
    if arns == [] then None
    else if arns[0] in errors then Some(errors[arns[0]])
    else FirstRejection(arns[1..], errors)
  }

  /** The publishes the loop over ALERT_ARNS attempts: up to and including the first that raises. */
  function Alerts(arns: seq<string>, errors: map<string, string>, subject: string, text: string): seq<Action>
  {
    if arns == [] then []
    else [Publish(arns[0], subject, text)] + (if arns[0] in errors then [] else Alerts(arns[1..], errors, subject, text))
  }

  /**
   * Every topic is sent the same subject and text, in order; all of them
   * when none raises, otherwise exactly those up to the first that raises,
   * whose error is the one reported.
   */
  lemma {:induction false} AlertsMeans(arns: seq<string>, errors: map<string, string>, subject: string, text: string)
    ensures var sent := Alerts(arns, errors, subject, text);
            |sent| <= |arns| && forall i :: 0 <= i < |sent| ==> sent[i] == Publish(arns[i], subject, text)
    ensures var sent := Alerts(arns, errors, subject, text);
            forall i :: 0 <= i < |sent| - 1 ==> arns[i] !in errors
    ensures FirstRejection(arns, errors).None? <==> forall i :: 0 <= i < |arns| ==> arns[i] !in errors
    ensures FirstRejection(arns, errors).None? ==> |Alerts(arns, errors, subject, text)| == |arns|
    ensures FirstRejection(arns, errors).Some? ==>
              var sent := Alerts(arns, errors, subject, text);
              |sent| > 0 && arns[|sent| - 1] in errors && errors[arns[|sent| - 1]] == FirstRejection(arns, errors).value
  {
    if arns != [] && arns[0] !in errors {
      var tail := arns[1..];
      AlertsMeans(tail, errors, subject, text);
      var sent := Alerts(arns, errors, subject, text);
      assert sent == [Publish(arns[0], subject, text)] + Alerts(tail, errors, subject, text);
      assert forall i :: 0 < i < |arns| ==> arns[i] == tail[i - 1];
      if FirstRejection(arns, errors).None? {
        forall i | 0 <= i < |arns| ensures arns[i] !in errors {
          if i > 0 { assert arns[i] == tail[i - 1]; }
        }
      }
    }
  }

  /** The publishing loop: one `sns.publish` per topic, stopping at the first that raises. */
  method PublishAll(arns: seq<string>, errors: map<string, string>, subject: string, text: string)
    returns (failure: Option<string>, sent: seq<Action>)
    ensures sent == Alerts(arns, errors, subject, text)
    ensures failure == FirstRejection(arns, errors)
    ensures forall a :: a in sent ==> a.Publish?
  {
    AlertsMeans(arns, errors, subject, text);
    sent := [];
    for i := 0 to |arns|
      invariant |sent| == i
      invariant forall j :: 0 <= j < i ==> sent[j] == Publish(arns[j], subject, text) && arns[j] !in errors
    {
      sent := sent + [Publish(arns[i], subject, text)];
      if arns[i] in errors {
        assert FirstRejection(arns, errors).Some?;
        return Some(errors[arns[i]]), sent;
      }
    }
    failure := None;
  }

  /** The alerts `Automation_Status` sends: none without topics or without a report. */
  function Notices(arns: seq<string>, errors: map<string, string>, subject: string, message: Message): seq<Action>
  {
    if |arns| > 0 && message.Report? then Alerts(arns, errors, subject, message.text) else []
  }

  /** A silent result (`False`) sends no alert, whatever the topics. */
  lemma SuppressedSendsNothing(arns: seq<string>, errors: map<string, string>, subject: string)
    ensures Notices(arns, errors, subject, Suppressed) == []
  {
  }

  /** `detail.get('ExecutionId')`. */
  function ExecutionIdOf(detail: map<string, string>): Option<string>
  {
    if "ExecutionId" in detail then Some(detail["ExecutionId"]) else None
  }

  /**
   * What `Automation_Status(event)` promises: a missing status raises
   * before anything is done. Otherwise the execution is interpreted first
   * (taking its clean-up, S3 and share actions); an unknown status raises
   * only afterwards; a known one alerts every topic with its subject and
   * the report, and a publish that raises ends the run with its error.
   */
  predicate StatusDoes(cfg: Config, detail: map<string, string>, w: World, out: Outcome, actions: seq<Action>)
  {
    && ("Status" !in detail ==> out == Raised(NoStatusError) && actions == [])
    && ("Status" in detail ==>
          var status := Lower(detail["Status"]);
          var result := Interpret(cfg, ExecutionIdOf(detail), w);
          && (Subject(cfg.platform, status).None? ==>
                out == Raised(UnknownStatusPrefix + status + "]") && actions == result.actions)
          && (Subject(cfg.platform, status).Some? ==>
                var subject := Subject(cfg.platform, status).value;
                && actions == result.actions + Notices(cfg.alertArns, w.snsErrors, subject, result.message)
                && out == (if |cfg.alertArns| > 0 && result.message.Report? && FirstRejection(cfg.alertArns, w.snsErrors).Some?
                           then Raised(FirstRejection(cfg.alertArns, w.snsErrors).value)
                           else Returned(NoneValue))))
  }

  /** `Automation_Status(event)`, given the event's `detail`. */
  method AutomationStatus(cfg: Config, detail: map<string, string>, w: World) returns (out: Outcome, actions: seq<Action>)
    ensures StatusDoes(cfg, detail, w, out, actions)
    ensures forall a :: a in actions ==> !a.StartAutomation?
  {
    if "Status" !in detail {
      return Raised(NoStatusError), [];
    }
    var status := Lower(detail["Status"]);
    var result := Interpret(cfg, ExecutionIdOf(detail), w);
    var subject := Subject(cfg.platform, status);
    if subject.None? {
      return Raised(UnknownStatusPrefix + status + "]"), result.actions;
    }
    var failure, sent := None, [];
    if |cfg.alertArns| > 0 && result.message.Report? {
      failure, sent := PublishAll(cfg.alertArns, w.snsErrors, subject.value, result.message.text);
    }
    out := if failure.Some? then Raised(failure.value) else Returned(NoneValue);
    actions := result.actions + sent;
  }

  /**
   * `lambda_handler(event, context)`: loads the settings, then dispatches.
   * A settings error raises before anything is done. A scheduled startup
   * does what `Startup` does and a status change of our own automation what
   * `Automation_Status` does, both with the loaded settings; only the former
   * can start an automation, and at most one.
   */
  method Handle(env: Env, event: Event, w: World) returns (out: Outcome, actions: seq<Action>)
    ensures FirstUnset(env, Required).Some? ==>
              out == Raised(MissingMessage(FirstUnset(env, Required).value)) && actions == []
    ensures FirstUnset(env, Required).None? && SplitS3Path(Setting(env, "S3_PATH")).None? ==>
              out == Raised(S3FormatMessage) && actions == []
    ensures ConfigOk(env) && Classify(Setting(env, "AUTOMATION_NAME"), event).ScheduledStartup? ==>
              StartupDoes(ConfigOf(env), w, out, actions)
    ensures ConfigOk(env) && Classify(Setting(env, "AUTOMATION_NAME"), event).StatusChange? ==>
              StatusDoes(ConfigOf(env), event.detail.value, w, out, actions)
    ensures ConfigOk(env) && Classify(Setting(env, "AUTOMATION_NAME"), event).ForeignAutomation? ==>
              out == Returned(Str(ForeignText)) && actions == []
    ensures ConfigOk(env) && Classify(Setting(env, "AUTOMATION_NAME"), event).UnknownEvent? ==>
              out == Returned(Str(UnknownEventText)) && actions == []
    ensures forall a :: a in actions && a.StartAutomation? ==>
              actions == [a] && Classify(Setting(env, "AUTOMATION_NAME"), event).ScheduledStartup?
              && a.document == Setting(env, "AUTOMATION_NAME") && a.params.preUpdateScript == PreUpdateScript
    ensures actions != [] ==> ConfigOk(env)
    ensures forall a :: a in actions && !a.StartAutomation? ==>
              Classify(Setting(env, "AUTOMATION_NAME"), event).StatusChange?
  {
    var loaded := LoadConfig(env);
    if loaded.Err? {
      return Raised(loaded.error), [];
    }
    var cfg := loaded.value;
    match Classify(cfg.automationName, event) {
      case ScheduledStartup =>
        out, actions := Startup(cfg, w);
      case StatusChange(detail) =>
        out, actions := AutomationStatus(cfg, detail, w);
      case ForeignAutomation =>
        out, actions := Returned(Str(ForeignText)), [];
      case UnknownEvent =>
        out, actions := Returned(Str(UnknownEventText)), [];
    }
  }
}
