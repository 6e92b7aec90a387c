/**
 * The shapes of the messages the Tilt server streams to the view, and the
 * rules its schemas enforce, as datatypes and validators. A field whose
 * presence or JSON type matters is a `Field`.
 */
module TiltWebsocket {
  import opened Wrappers
  import opened IsoDatetime

  /** A JSON field: absent, present with a value of the wrong JSON type, or present and well typed. */
  datatype Field<+T> = Missing | Ill | Given(value: T)

  /** A JSON scalar. */
  datatype Scalar = Null | Bool(b: bool) | Number(n: int) | Str(s: string)

  // ---------------------------------------------------------------- enums

  datatype TriggerMode =
    | TriggerModeAuto
    | TriggerModeManualWithAutoInit
    | TriggerModeManual
    | TriggerModeAutoWithManualInit

  function TriggerModeValue(m: TriggerMode): int {
    match m
    case TriggerModeAuto => 0
    case TriggerModeManualWithAutoInit => 1
    case TriggerModeManual => 2
    case TriggerModeAutoWithManualInit => 3
  }

  /** The numeric enum accepts exactly its four values, and reads each back as the mode it names. */
  function ParseTriggerMode(n: int): (r: Option<TriggerMode>)
    ensures r.Some? <==> 0 <= n <= 3
    ensures r.Some? ==> TriggerModeValue(r.value) == n
  {
    if n == 0 then Some(TriggerModeAuto)
    else if n == 1 then Some(TriggerModeManualWithAutoInit)
    else if n == 2 then Some(TriggerModeManual)
    else if n == 3 then Some(TriggerModeAutoWithManualInit)
    else None
  }

  lemma TriggerModeRoundTrip(m: TriggerMode)
    ensures ParseTriggerMode(TriggerModeValue(m)) == Some(m)
  {
  }

  datatype RuntimeStatus = Ok | Pending | Error | NotApplicable | Unknown | NoStatus

  const RuntimeStatusOptions: seq<string> := ["ok", "pending", "error", "not_applicable", "unknown", "none"]

  function RuntimeStatusName(r: RuntimeStatus): string {
    match r
    case Ok => "ok"
    case Pending => "pending"
    case Error => "error"
    case NotApplicable => "not_applicable"
    case Unknown => "unknown"
    case NoStatus => "none"
  }

  /** `RuntimeStatus` accepts exactly its six option strings and reads each back as itself. */
  function ParseRuntimeStatus(s: string): (r: Option<RuntimeStatus>)
    ensures r.Some? <==> s in RuntimeStatusOptions
    ensures r.Some? ==> RuntimeStatusName(r.value) == s
  {
    if s == "ok" then Some(Ok)
    else if s == "pending" then Some(Pending)
    else if s == "error" then Some(Error)
    else if s == "not_applicable" then Some(NotApplicable)
    else if s == "unknown" then Some(Unknown)
    else if s == "none" then Some(NoStatus)
    else None
  }

  lemma RuntimeStatusRoundTrip(r: RuntimeStatus)
    ensures ParseRuntimeStatus(RuntimeStatusName(r)) == Some(r)
  {
  }

  /** `UpdateStatus` is built from the runtime options plus `in_progress`. */
  datatype UpdateStatus = Settled(status: RuntimeStatus) | InProgress

  const UpdateStatusOptions: seq<string> := RuntimeStatusOptions + ["in_progress"]

  function ParseUpdateStatus(s: string): (r: Option<UpdateStatus>)
    ensures r.Some? <==> s in UpdateStatusOptions
    ensures r == Some(InProgress) <==> s == "in_progress"
  {
    match ParseRuntimeStatus(s)
    case Some(status) => Some(Settled(status))
    case None => if s == "in_progress" then Some(InProgress) else None
  }

  datatype TargetType = TargetUnspecified | TargetImage | TargetK8s | TargetDockerCompose | TargetLocal

  const TargetTypeOptions: seq<string> := ["unspecified", "image", "k8s", "docker-compose", "local"]

  function TargetTypeName(t: TargetType): string {
    match t
    case TargetUnspecified => "unspecified"
    case TargetImage => "image"
    case TargetK8s => "k8s"
    case TargetDockerCompose => "docker-compose"
    case TargetLocal => "local"
  }

  /** `TargetType` accepts exactly its five option strings and reads each back as itself. */
  function ParseTargetType(s: string): (r: Option<TargetType>)
    ensures r.Some? <==> s in TargetTypeOptions
    ensures r.Some? ==> TargetTypeName(r.value) == s
  {
    if s == "unspecified" then Some(TargetUnspecified)
    else if s == "image" then Some(TargetImage)
    else if s == "k8s" then Some(TargetK8s)
    else if s == "docker-compose" then Some(TargetDockerCompose)
    else if s == "local" then Some(TargetLocal)
    else None
  }

  lemma TargetTypeRoundTrip(t: TargetType)
    ensures ParseTargetType(TargetTypeName(t)) == Some(t)
  {
  }

  // ---------------------------------------------------------------- dates

  /**
   * A field read with `z.coerce.date()`: absent, a value `new Date` turns into
   * a valid date, or one it turns into an invalid date. The conversion itself
   * is not modelled, only its outcome.
   */
  datatype DateInput = NoDate | ValidDate | InvalidDate

  /** A required date: an absent value becomes an invalid date, so only a valid one passes. */
  predicate RequiredDate(d: DateInput) {
    d.ValidDate?
  }

  /** `z.optional(z.coerce.date())`: absent passes, and a present value must make a valid date. */
  predicate OptionalDate(d: DateInput) {
    !d.InvalidDate?
  }

  // ---------------------------------------------------------------- resource status

  /** The preprocess step of a condition's `status`: the strings `True` and `False` become booleans. */
  function PreprocessConditionStatus(v: Scalar): (p: Scalar)
    ensures p.Bool? <==> v.Bool? || v == Str("True") || v == Str("False")
    ensures v != Str("True") && v != Str("False") ==> p == v
  {
    if v == Str("True") then Bool(true)
    else if v == Str("False") then Bool(false)
    else v
  }

  /** After the preprocess step the value must be a boolean. */
  function CoerceConditionStatus(v: Scalar): (r: Option<bool>)
    ensures r == Some(true) <==> v == Str("True") || v == Bool(true)
    ensures r == Some(false) <==> v == Str("False") || v == Bool(false)
    ensures r.None? <==> v != Str("True") && v != Str("False") && !v.Bool?
  {
    match PreprocessConditionStatus(v)
    case Bool(b) => Some(b)
    case _ => None
  }

  const UpToDateReasons: seq<string> := ["Disabled", "UpdateError", "UpdatePending", "Unknown"]
  const ReadyReasons: seq<string> := ["Disabled", "RuntimeError", "UpdateError", "RuntimePending", "UpdatePending", "Unknown"]

  datatype Condition = Condition(
    conditionType: string,
    status: Field<Scalar>,
    lastTransitionTime: DateInput,
    reason: Field<string>)

  /**
   * The discriminated union over `type`: `UpToDate` and `Ready`, each with its
   * own reasons, so the runtime reasons only ever come with `Ready`.
   */
  function ValidCondition(c: Condition): (ok: bool)
    ensures ok ==> c.status.Given? && (c.status.value.Bool? || c.status.value == Str("True") || c.status.value == Str("False"))
    ensures ok ==> RequiredDate(c.lastTransitionTime)
    ensures ok && c.reason.Given? && (c.reason.value == "RuntimeError" || c.reason.value == "RuntimePending") ==>
      c.conditionType == "Ready"
  {
    && c.status.Given? && CoerceConditionStatus(c.status.value).Some?
    && RequiredDate(c.lastTransitionTime)
    && (c.conditionType == "UpToDate" || c.conditionType == "Ready")
    && !c.reason.Ill?
    && (c.reason.Given? ==>
          c.reason.value in (if c.conditionType == "UpToDate" then UpToDateReasons else ReadyReasons))
  }

  datatype ConfigMapSource = ConfigMapSource(name: string, key: string)

  datatype DisableStatus = DisableStatus(
    state: string,
    sources: seq<ConfigMapSource>,
    disabledCount: Field<int>,
    enabledCount: Field<int>)

  /** First member of the union: a number `disabledCount` and no `enabledCount`. */
  predicate DisabledCountShape(d: DisableStatus) {
    d.disabledCount.Given? && d.enabledCount.Missing?
  }

  /** Second member of the union: no `disabledCount` and a number `enabledCount`. */
  predicate EnabledCountShape(d: DisableStatus) {
    d.disabledCount.Missing? && d.enabledCount.Given?
  }

  /** The intersection of the state object and the union of the two count shapes: exactly one count is present, and it is a number. */
  function ValidDisableStatus(d: DisableStatus): (ok: bool)
    ensures ok <==>
      && (d.state == "Enabled" || d.state == "Disabled")
      && !d.disabledCount.Ill? && !d.enabledCount.Ill?
      && (d.disabledCount.Given? != d.enabledCount.Given?)
  {
    && (d.state == "Enabled" || d.state == "Disabled")
    && (DisabledCountShape(d) || EnabledCountShape(d))
  }

  /** An entry of `specs`: a string `id` and a `TargetType`. */
  datatype TargetSpec = TargetSpec(id: string, targetType: string)

  /** `localResourceInfo`: an object with an optional string `pid`. */
  datatype LocalResourceInfo = LocalResourceInfo(pid: Field<string>)

  /**
   * `$uiResourceStatus`. `buildHistory` is an array of `z.object()`; each entry
   * is kept only as whether it is a JSON object.
   */
  datatype ResourceStatus = ResourceStatus(
    buildHistory: Field<seq<bool>>,
    lastDeployTime: DateInput,
    triggerMode: Field<int>,
    pendingBuildSince: DateInput,
    hasPendingChanges: Field<bool>,
    localResourceInfo: Field<LocalResourceInfo>,
    runtimeStatus: string,
    updateStatus: string,
    specs: Field<seq<TargetSpec>>,
    order: Field<int>,
    disableStatus: Field<DisableStatus>,
    conditions: seq<Condition>)

  predicate ValidResourceStatus(s: ResourceStatus) {
    && !s.buildHistory.Ill? && (s.buildHistory.Given? ==> forall i | 0 <= i < |s.buildHistory.value| :: s.buildHistory.value[i])
    && OptionalDate(s.lastDeployTime)
    && !s.triggerMode.Ill? && (s.triggerMode.Given? ==> ParseTriggerMode(s.triggerMode.value).Some?)
    && OptionalDate(s.pendingBuildSince)
    && !s.hasPendingChanges.Ill?
    && !s.localResourceInfo.Ill? && (s.localResourceInfo.Given? ==> !s.localResourceInfo.value.pid.Ill?)
    && ParseRuntimeStatus(s.runtimeStatus).Some?
    && ParseUpdateStatus(s.updateStatus).Some?
    && !s.specs.Ill? && (s.specs.Given? ==> forall i | 0 <= i < |s.specs.value| :: ParseTargetType(s.specs.value[i].targetType).Some?)
    && s.order.Given?
    && !s.disableStatus.Ill? && (s.disableStatus.Given? ==> ValidDisableStatus(s.disableStatus.value))
    && (forall i | 0 <= i < |s.conditions| :: ValidCondition(s.conditions[i]))
  }

  // ---------------------------------------------------------------- resources and buttons

  /** `labels` is an optional string record; its entries are kept in key order. */
  datatype ResourceMetadata = ResourceMetadata(
    name: string,
    uid: string,
    resourceVersion: string,
    creationTimestamp: DateInput,
    labels: Option<seq<(string, string)>>)

  predicate ValidResourceMetadata(m: ResourceMetadata) {
    RequiredDate(m.creationTimestamp)
  }

  datatype Resource = Resource(metadata: ResourceMetadata, status: ResourceStatus)

  predicate ValidResource(r: Resource) {
    ValidResourceMetadata(r.metadata) && ValidResourceStatus(r.status)
  }

  /** `/^[0-9]*$/`, matched one character at a time. */
  function MatchesDigitString(s: string): (ok: bool)
    ensures ok <==> AllDigits(s)
  {
    if s == [] then true
    else
      assert s == [s[0]] + s[1..];
      IsDigit(s[0]) && MatchesDigitString(s[1..])
  }

  datatype ButtonMetadata = ButtonMetadata(name: string, resourceVersion: string)

  predicate ValidButtonMetadata(m: ButtonMetadata) {
    MatchesDigitString(m.resourceVersion)
  }

  /** `$uiButtonSpecInput`: `{name: 'action', hidden: {value: 'on' | 'off'}}`. */
  datatype ButtonInput = ButtonInput(name: string, hiddenValue: string)

  /** The only valid inputs are the `action` input set `on` and the `action` input set `off`. */
  function ValidButtonInput(i: ButtonInput): (ok: bool)
    ensures ok <==> i == ButtonInput("action", "on") || i == ButtonInput("action", "off")
  {
    i.name == "action" && (i.hiddenValue == "on" || i.hiddenValue == "off")
  }

  datatype ButtonLocation = ButtonLocation(componentId: string, componentType: string)

  datatype ButtonSpec = ButtonSpec(
    location: ButtonLocation,
    text: string,
    iconName: Field<string>,
    requiresConfirmation: Field<bool>,
    inputs: Field<seq<ButtonInput>>)

  /** First member of the union: an optional `iconName` of `cancel` or `download`. */
  predicate IconShape(s: ButtonSpec) {
    s.iconName.Missing? || (s.iconName.Given? && (s.iconName.value == "cancel" || s.iconName.value == "download"))
  }

  /** Second member of the union: optional `requiresConfirmation` and optional valid `inputs`. */
  predicate InputsShape(s: ButtonSpec) {
    && !s.requiresConfirmation.Ill?
    && !s.inputs.Ill?
    && (s.inputs.Given? ==> forall i | 0 <= i < |s.inputs.value| :: ValidButtonInput(s.inputs.value[i]))
  }

  /**
   * The base object intersected with the union of the two shapes. Objects are
   * not strict, so a spec without `iconName` matches the first shape whatever
   * its `inputs`, and a spec with any other `iconName` must match the second.
   */
  function ValidButtonSpec(s: ButtonSpec): (ok: bool)
    ensures ok ==> s.location.componentType == "Resource" || s.location.componentType == "Global"
    ensures s.iconName.Missing? ==>
      (ok <==> s.location.componentType == "Resource" || s.location.componentType == "Global")
    ensures s.iconName.Given? && (s.iconName.value == "cancel" || s.iconName.value == "download") ==>
      (ok <==> s.location.componentType == "Resource" || s.location.componentType == "Global")
    ensures s.iconName.Given? && s.iconName.value != "cancel" && s.iconName.value != "download" ==>
      (ok <==> (s.location.componentType == "Resource" || s.location.componentType == "Global") && InputsShape(s))
  {
    && (s.location.componentType == "Resource" || s.location.componentType == "Global")
    && (IconShape(s) || InputsShape(s))
  }

  datatype Button = Button(metadata: ButtonMetadata, spec: ButtonSpec)

  predicate ValidButton(b: Button) {
    ValidButtonMetadata(b.metadata) && ValidButtonSpec(b.spec)
  }

  // ---------------------------------------------------------------- logs and the initial event

  datatype LogSegment = LogSegment(spanId: Field<string>, level: string, text: string, time: string)

  predicate ValidLogSegment(g: LogSegment) {
    && !g.spanId.Ill?
    && (g.level == "INFO" || g.level == "WARN" || g.level == "ERROR")
    && IsIsoDatetime(g.time)
  }

  datatype Span = Span(manifestName: Field<string>)

  predicate ValidSpan(s: Span) {
    !s.manifestName.Ill?
  }

  /** `spans` is a record from span id to span, kept in key order. */
  datatype LogList = LogList(segments: seq<LogSegment>, spans: seq<(string, Span)>)

  predicate ValidLogList(l: LogList) {
    && (forall i | 0 <= i < |l.segments| :: ValidLogSegment(l.segments[i]))
    && (forall i | 0 <= i < |l.spans| :: ValidSpan(l.spans[i].1))
  }

  /** A message whose data decodes to a JSON object: the four top-level fields the view looks at. */
  datatype Message = Message(
    isComplete: Field<bool>,
    logList: Field<LogList>,
    uiResources: Field<seq<Resource>>,
    uiButtons: Field<seq<Button>>)

  datatype InitialEvent = InitialEvent(
    isComplete: bool,
    logList: LogList,
    uiResources: Option<seq<Resource>>,
    uiButtons: seq<Button>)

  /** An array schema: every item must pass. */
  function ParseItems<T>(items: seq<T>, valid: T -> bool): (r: Option<seq<T>>)
    ensures r.Some? <==> forall i | 0 <= i < |items| :: valid(items[i])
    ensures r.Some? ==> r.value == items
    decreases |items|
  {
    if items == [] then Some([])
    else
      match ParseItems(items[..|items| - 1], valid)
      case None => None
      case Some(init) => if valid(items[|items| - 1]) then Some(init + [items[|items| - 1]]) else None
  }

  /** `z.array(item).safeParse(field)`: a missing field, or one that is not an array, fails. */
  function ParseArray<T>(f: Field<seq<T>>, valid: T -> bool): (r: Option<seq<T>>)
    ensures r.Some? <==> f.Given? && forall i | 0 <= i < |f.value| :: valid(f.value[i])
    ensures r.Some? ==> r.value == f.value
  {
    match f
    case Given(items) => ParseItems(items, valid)
    case _ => None
  }

  /**
   * One resource whose `specs` holds a type outside the enum, such as `helm`,
   * makes the whole `uiResources` array fail to parse.
   */
  lemma UnknownTargetTypeFailsArray(rs: seq<Resource>, i: nat, j: nat)
    requires i < |rs| && rs[i].status.specs.Given? && j < |rs[i].status.specs.value|
    requires rs[i].status.specs.value[j].targetType == "helm"
    ensures ParseArray(Given(rs), ValidResource).None?
  {
    assert ParseTargetType("helm").None?;
    assert !ValidResource(rs[i]);
  }

  /**
   * `$initialEvent.safeParse`: `isComplete`, `logList` and `uiButtons` are
   * required; `uiResources` may be missing but not ill-typed.
   */
  function ParseInitialEvent(m: Message): (r: Option<InitialEvent>)
    ensures r.Some? <==>
      && m.isComplete.Given?
      && m.logList.Given? && ValidLogList(m.logList.value)
      && !m.uiResources.Ill?
      && (m.uiResources.Given? ==> forall i | 0 <= i < |m.uiResources.value| :: ValidResource(m.uiResources.value[i]))
      && m.uiButtons.Given? && (forall i | 0 <= i < |m.uiButtons.value| :: ValidButton(m.uiButtons.value[i]))
    ensures r.Some? ==>
      && r.value.isComplete == m.isComplete.value
      && r.value.logList == m.logList.value
      && r.value.uiButtons == m.uiButtons.value
      && r.value.uiResources == (if m.uiResources.Given? then Some(m.uiResources.value) else None)
  {
    if !m.isComplete.Given? || !m.logList.Given? || !ValidLogList(m.logList.value) then None
    else
      var buttons := ParseArray(m.uiButtons, ValidButton);
      if buttons.None? then None
      else if m.uiResources.Missing? then
        Some(InitialEvent(m.isComplete.value, m.logList.value, None, buttons.value))
      else
        match ParseArray(m.uiResources, ValidResource)
        case None => None
        case Some(resources) => Some(InitialEvent(m.isComplete.value, m.logList.value, Some(resources), buttons.value))
  }

  // ---------------------------------------------------------------- the restart request

  /** `BuildReasonFlagTriggerWeb` */
  const BuildReasonFlagTriggerWeb: int := 16

  datatype RestartPayload = RestartPayload(manifestNames: seq<string>, buildReason: int)

  /** A one-element tuple of names and the literal build reason. */
  function ValidRestartPayload(p: RestartPayload): (ok: bool)
    ensures ok <==> |p.manifestNames| > 0 && p == RestartPayload(p.manifestNames[..1], 16)
  {
    |p.manifestNames| == 1 && p.buildReason == BuildReasonFlagTriggerWeb
  }
}
