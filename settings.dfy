/**
 * The start of `lambda_handler`: it reads the environment setting by setting,
 * raises `ValueError` for the first required one that is missing or empty,
 * splits `S3_PATH` into bucket and key and builds the alert and share lists.
 */
module Settings {
  import opened Common
  import opened Text
  import opened Records

  /** The process environment: its variables and the order `os.environ.keys()` lists them in. */
  datatype Env = Env(vars: map<string, string>, order: seq<string>)

  /** `os.getenv(name)`. */
  function Getenv(env: Env, name: string): Option<string>
  {
    if name in env.vars then Some(env.vars[name]) else None
  }

  /** The setting as text, "" when it is unset: only its truth value is tested. */
  function Setting(env: Env, name: string): string
  {
    if name in env.vars then env.vars[name] else ""
  }

  /** `if not os.getenv(name)` does not fire. */
  predicate IsSet(env: Env, name: string)
  {
    Setting(env, name) != ""
  }

  /** The settings whose absence raises, in the order they are checked. */
  const Required: seq<string> := [
    "AUTOMATION_NAME", "PLATFORM", "PROFILE_ROLE", "AUTOMATION_ROLE",
    "AMI_SUBNET", "TARGET_AMI_NAME", "TAG_OWNER", "S3_PATH"]

  function MissingMessage(name: string): string
  {
    "Please set " + name + " environment variable"
  }

  const S3FormatMessage: string :=
    "Please set S3_PATH environment variable with corrent format \"s3-bucket-name:/key1/key2/key3\""

  /** The first of `names` that is not set, if any. */
  function FirstUnset(env: Env, names: seq<string>): Option<string>
  {
    if names == [] then None
    else if !IsSet(env, names[0]) then Some(names[0])
    else FirstUnset(env, names[1..])
  }

  /** FirstUnset finds a setting that is unset and every one before it is set. */
  lemma {:induction false} FirstUnsetIsFirst(env: Env, names: seq<string>)
    ensures FirstUnset(env, names).None? <==> forall i :: 0 <= i < |names| ==> IsSet(env, names[i])
    ensures FirstUnset(env, names).Some? ==>
              exists i :: 0 <= i < |names| && names[i] == FirstUnset(env, names).value
                          && !IsSet(env, names[i]) && forall j :: 0 <= j < i ==> IsSet(env, names[j])
  {
    if names != [] && IsSet(env, names[0]) {
      var tail := names[1..];
      FirstUnsetIsFirst(env, tail);
      if FirstUnset(env, tail).Some? {
        var i :| 0 <= i < |tail| && tail[i] == FirstUnset(env, tail).value && !IsSet(env, tail[i])
                 && forall j :: 0 <= j < i ==> IsSet(env, tail[j]);
        assert names[i + 1] == tail[i];
        assert forall j :: 0 <= j < i + 1 ==> IsSet(env, names[j]) by {
          forall j | 0 <= j < i + 1 ensures IsSet(env, names[j]) {
            if j > 0 { assert names[j] == tail[j - 1]; }
          }
        }
      } else {
        forall i | 0 <= i < |names| ensures IsSet(env, names[i]) {
          if i > 0 { assert names[i] == tail[i - 1]; }
        }
      }
    }
  }

  /** `re.search('^ALERT_ARN\d*', name)`: the name starts with ALERT_ARN. */
  predicate IsAlertArnName(name: string)
  {
    "ALERT_ARN" <= name
  }

  /** The stripped, non-blank values of the ALERT_ARN* variables among `names`, in order. */
  function ArnsFrom(vars: map<string, string>, names: seq<string>): (arns: seq<string>)
    ensures forall a :: a in arns ==> a != ""
    ensures forall a :: a in arns <==> exists n :: n in names && n in vars && IsAlertArnName(n)
                                                   && a == Strip(vars[n]) && a != ""
  {
    if names == [] then []
    else
      var n := names[0];
      var rest := ArnsFrom(vars, names[1..]);
      assert forall m :: m in names <==> m == n || m in names[1..];
      if n in vars && IsAlertArnName(n) && Strip(vars[n]) != "" then [Strip(vars[n])] + rest
      else rest
  }

  /**
   * The topics keep the order of the variables, one entry per variable:
   * the list for a concatenation is the concatenation of the lists.
   */
  lemma {:induction false} ArnsFromAppend(vars: map<string, string>, a: seq<string>, b: seq<string>)
    ensures ArnsFrom(vars, a + b) == ArnsFrom(vars, a) + ArnsFrom(vars, b)
  {
    if a != [] {
      assert (a + b)[0] == a[0] && (a + b)[1..] == a[1..] + b;
      ArnsFromAppend(vars, a[1..], b);
    } else {
      assert a + b == b;
    }
  }

  /** One variable gives its stripped value if it is an alert setting and not blank, else nothing. */
  lemma ArnsFromOne(vars: map<string, string>, name: string)
    ensures ArnsFrom(vars, [name]) ==
              if name in vars && IsAlertArnName(name) && Strip(vars[name]) != "" then [Strip(vars[name])] else []
  {
    assert [name][1..] == [];
  }

  /** Two alert variables with the same value give two topics, so the topic is alerted twice. */
  lemma DuplicateTopicsKept(vars: map<string, string>, n1: string, n2: string)
    requires n1 in vars && n2 in vars && IsAlertArnName(n1) && IsAlertArnName(n2)
    requires Strip(vars[n1]) != "" && vars[n1] == vars[n2]
    ensures ArnsFrom(vars, [n1, n2]) == [Strip(vars[n1]), Strip(vars[n1])]
  {
    ArnsFromAppend(vars, [n1], [n2]);
    ArnsFromOne(vars, n1);
    ArnsFromOne(vars, n2);
    assert [n1] + [n2] == [n1, n2];
  }

  /**
   * An environment `os.environ` can be: `order` lists every variable, and
   * each exactly once.
   */
  predicate EnvOk(env: Env)
  {
    && (forall n :: n in env.vars ==> n in env.order)
    && (forall i :: 0 <= i < |env.order| ==> env.order[i] in env.vars)
    && (forall i, j :: 0 <= i < j < |env.order| ==> env.order[i] != env.order[j])
  }

  /** ALERT_ARNS: the topics alerts go to. */
  function AlertArns(env: Env): seq<string>
  {
    ArnsFrom(env.vars, env.order)
  }

  /**
   * In an environment `os.environ` can be, a value is a topic exactly when
   * some alert variable holds it, stripped and non-blank.
   */
  lemma AlertArnsOfEnv(env: Env, a: string)
    requires EnvOk(env)
    ensures a in AlertArns(env) <==>
              exists n :: n in env.vars && IsAlertArnName(n) && a == Strip(env.vars[n]) && a != ""
  {
    if exists n :: n in env.vars && IsAlertArnName(n) && a == Strip(env.vars[n]) && a != "" {
      var n :| n in env.vars && IsAlertArnName(n) && a == Strip(env.vars[n]) && a != "";
      assert n in env.order;
    }
  }

  /** AMI_SHARE_ACCOUNTS split at commas, each field stripped; None when unset or empty. */
  function ShareAccounts(env: Env): (r: Option<seq<string>>)
    ensures r.Some? <==> IsSet(env, "AMI_SHARE_ACCOUNTS")
    ensures r.Some? ==> |r.value| == |Split(Setting(env, "AMI_SHARE_ACCOUNTS"), ',')|
    ensures r.Some? ==> forall i :: 0 <= i < |r.value| ==>
                          r.value[i] == Strip(Split(Setting(env, "AMI_SHARE_ACCOUNTS"), ',')[i])
  {
    var v := Setting(env, "AMI_SHARE_ACCOUNTS");
    if v == "" then None
    else
      var fields := Split(v, ',');
      Some(seq(|fields|, i requires 0 <= i < |fields| => Strip(fields[i])))
  }

  /** DEFAULT_AMI_ID stripped; "" when unset or empty. */
  function DefaultAmiId(env: Env): string
  {
    Strip(Setting(env, "DEFAULT_AMI_ID"))
  }

  /** Every required setting is present and S3_PATH has the bucket:/key form. */
  predicate ConfigOk(env: Env)
  {
    FirstUnset(env, Required).None? && SplitS3Path(Setting(env, "S3_PATH")).Some?
  }

  /**
   * The settings as a successful load leaves them in the handler's globals:
   * every required one non-empty, and S3_PATH exactly bucket, `:/`, key.
   */
  function ConfigOf(env: Env): (cfg: Config)
    requires ConfigOk(env)
    ensures cfg.automationName != "" && cfg.platform != "" && cfg.profileRole != ""
            && cfg.automationRole != "" && cfg.subnet != "" && cfg.targetAmiName != "" && cfg.tagOwner != ""
    ensures cfg.s3Bucket != "" && cfg.s3Key != "" && cfg.s3Bucket + ":/" + cfg.s3Key == Chomp(Setting(env, "S3_PATH"))
  {
    FirstUnsetIsFirst(env, Required);
    assert IsSet(env, Required[0]) && IsSet(env, Required[1]) && IsSet(env, Required[2]) && IsSet(env, Required[3]);
    assert IsSet(env, Required[4]) && IsSet(env, Required[5]) && IsSet(env, Required[6]);
    var (bucket, key) := SplitS3Path(Setting(env, "S3_PATH")).value;
    Config(Setting(env, "AUTOMATION_NAME"), Setting(env, "PLATFORM"), Setting(env, "AMI_LOOKUP_PATTERN"),
           Setting(env, "PROFILE_ROLE"), Setting(env, "AUTOMATION_ROLE"), Setting(env, "AMI_SUBNET"),
           Setting(env, "TARGET_AMI_NAME"), Setting(env, "TAG_OWNER"), bucket, key,
           Getenv(env, "TAG_DESCRIPTION"), AlertArns(env), ShareAccounts(env), DefaultAmiId(env))
  }

  /**
   * The configuration part of `lambda_handler`. It fails with the message of
   * the first required setting that is missing, then with the S3 format
   * message; otherwise every required setting is non-empty and `S3_PATH`
   * is exactly bucket, `:/`, key.
   */
  method LoadConfig(env: Env) returns (r: Result<Config>)
    ensures FirstUnset(env, Required).Some? ==> r == Err(MissingMessage(FirstUnset(env, Required).value))
    ensures FirstUnset(env, Required).None? && SplitS3Path(Setting(env, "S3_PATH")).None? ==>
              r == Err(S3FormatMessage)
    ensures r.Ok? <==> ConfigOk(env)
    ensures r.Ok? ==> r.value == ConfigOf(env)
  {
    assert Required[0..][0] == "AUTOMATION_NAME" && FirstUnset(env, Required) == FirstUnset(env, Required[0..]);
    var automationName := Setting(env, "AUTOMATION_NAME");
    if automationName == "" {
      return Err(MissingMessage("AUTOMATION_NAME"));
    }
    assert Required[0..][1..] == Required[1..];
    assert Required[1..][0] == "PLATFORM" && FirstUnset(env, Required) == FirstUnset(env, Required[1..]);
    var platform := Setting(env, "PLATFORM");
    if platform == "" {
      return Err(MissingMessage("PLATFORM"));
    }
    assert Required[1..][1..] == Required[2..];
    var lookupPattern := Setting(env, "AMI_LOOKUP_PATTERN");
    assert Required[2..][0] == "PROFILE_ROLE" && FirstUnset(env, Required) == FirstUnset(env, Required[2..]);
    var profileRole := Setting(env, "PROFILE_ROLE");
    if profileRole == "" {
      return Err(MissingMessage("PROFILE_ROLE"));
    }
    assert Required[2..][1..] == Required[3..];
    assert Required[3..][0] == "AUTOMATION_ROLE" && FirstUnset(env, Required) == FirstUnset(env, Required[3..]);
    var automationRole := Setting(env, "AUTOMATION_ROLE");
    if automationRole == "" {
      return Err(MissingMessage("AUTOMATION_ROLE"));
    }
    assert Required[3..][1..] == Required[4..];
    assert Required[4..][0] == "AMI_SUBNET" && FirstUnset(env, Required) == FirstUnset(env, Required[4..]);
    var subnet := Setting(env, "AMI_SUBNET");
    if subnet == "" {
      return Err(MissingMessage("AMI_SUBNET"));
    }
    assert Required[4..][1..] == Required[5..];
    assert Required[5..][0] == "TARGET_AMI_NAME" && FirstUnset(env, Required) == FirstUnset(env, Required[5..]);
    var targetAmiName := Setting(env, "TARGET_AMI_NAME");
    if targetAmiName == "" {
      return Err(MissingMessage("TARGET_AMI_NAME"));
    }
    assert Required[5..][1..] == Required[6..];
    assert Required[6..][0] == "TAG_OWNER" && FirstUnset(env, Required) == FirstUnset(env, Required[6..]);
    var tagOwner := Setting(env, "TAG_OWNER");
    if tagOwner == "" {
      return Err(MissingMessage("TAG_OWNER"));
    }
    assert Required[6..][1..] == Required[7..];
    assert Required[7..][0] == "S3_PATH" && FirstUnset(env, Required) == FirstUnset(env, Required[7..]);
    var s3Path := Setting(env, "S3_PATH");
    if s3Path == "" {
      return Err(MissingMessage("S3_PATH"));
    }
    assert Required[7..][1..] == [];
    assert FirstUnset(env, Required) == FirstUnset(env, Required[7..][1..]) == None;
    var split := SplitS3Path(s3Path);
    if split.None? {
      return Err(S3FormatMessage);
    }
    var (s3Bucket, s3Key) := split.value;
    var tagDescription := Getenv(env, "TAG_DESCRIPTION");
    var alertArns := AlertArns(env);
    var shareAccounts := ShareAccounts(env);
    var defaultAmiId := DefaultAmiId(env);
    r := Ok(Config(automationName, platform, lookupPattern, profileRole, automationRole, subnet,
                   targetAmiName, tagOwner, s3Bucket, s3Key, tagDescription, alertArns,
                   shareAccounts, defaultAmiId));
  }
}
