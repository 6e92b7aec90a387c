# tilt-view.nvim: the tree view's reconciliation state, in Dafny

This project models the core of the Tilt tree view:

- **`TiltViewProvider`** (`src/tilt-view.ts`) keeps:
  - the initialised flag;
  - the snapshot list `resources`;
  - the `manifests`;
  - a label → uid → resource index `labeledResources`, seeded with the `unlabeled` bucket;
  - a name → button table `buttons`.

  Its `message` listener dispatches each decoded message:
  - a message with `isComplete` goes to `initialize`;
  - otherwise, a message with `uiResources` goes to `updateResources`;
  - then a message with `uiButtons` goes to `updateButtons`;
  - then it fires one refresh.

  `labels` and `getChildren` answer the tree's queries.
- **`addMicrosecondOffsetToIsoDatetime`** (`src/utils.ts`) obtains an ISO datetime text from a string or a `Date`. It then widens the three millisecond digits to six, or throws.
- **The zod message schemas** (`src/types/tilt-websocket.ts`) become datatypes and validators:
  - the status enums;
  - the condition-status preprocess step;
  - the `disableStatus` union;
  - the button metadata, spec and inputs;
  - the initial event;
  - the restart payload.

Files:

- `wrappers.dfy` holds `Option` and `Result`.
- `sequences.dfy` holds two sequence facts shared by the other modules.
- `ordered_map.dfy` models a JavaScript `Map`, with the two facts the code relies on:
  - a `set` of an existing key keeps its position;
  - a new key goes last.

  It also holds the map-of-maps operations the label index is built from.
- `iso_datetime.dfy` holds the accepted ISO datetime shape and `Date.prototype.toISOString`.
- `utils.dfy` models the datetime helper.
- `tilt_websocket.dfy` models the schemas.
- `tilt_view.dfy` has two parts:
  - functions on `ViewState` saying what each handler does to the whole state;
  - the class `TiltViewProvider`, whose methods change the same fields in place with the source's loops. Each method is proved to end in the state its function describes.
- `tilt_view_lemmas.dfy` proves what the view promises about those functions.

## Model

| member | source | states |
|---|---|---|
| OrderedMaps.OrderedMap.Put | src/tilt-view.ts:252 | `Map.set` stores the value; the old key order is a prefix of the new one; validity is kept |
| OrderedMaps.PutAll | src/tilt-view.ts:250-254 | one `set` per pair, in order; every key written is present afterwards |
| OrderedMaps.PutAllValues | src/tilt-view.ts:250-254 | a run of `set`s leaves the old contents overridden by the last write of each key |
| OrderedMaps.LastWritesLast | src/tilt-view.ts:250-254 | a pair that no later pair overrides is what the run of writes leaves for its key |
| OrderedMaps.PutAllKeepsOrder | src/tilt-view.ts:250-254 | a run of `set`s never removes or reorders keys, and keeps the map valid |
| OrderedMaps.PutAllPresentKeys | src/tilt-view.ts:250-254 | writes to keys already present leave the key order unchanged |
| OrderedMaps.PutAllIdempotent | src/tilt-view.ts:250-254 | replaying the same run of `set`s changes nothing |
| OrderedMaps.NestedPutAll | src/tilt-view.ts:239-246 | one get-or-create-then-`set` per write; no label is removed and the old label order is a prefix of the new |
| OrderedMaps.NestedPutAllAppend | src/tilt-view.ts:232-248 | filing two runs of writes is filing the first, then the second |
| OrderedMaps.NestedPutAllInner | src/tilt-view.ts:239-246 | each bucket after filing is the old bucket plus the writes addressed to it, in order |
| OrderedMaps.NestedPutAllOuter | src/tilt-view.ts:240-244 | the labels after filing are the old labels plus every label written to |
| OrderedMaps.NestedPutAllValid | src/tilt-view.ts:240-245 | filing keeps the outer map and every bucket valid |
| OrderedMaps.NestedPutAllPresentKeys | src/tilt-view.ts:240-241 | writes only to existing labels leave the label list unchanged |
| OrderedMaps.NestedPutAllIdempotent | src/tilt-view.ts:232-248 | filing the same writes twice is filing them once |
| OrderedMaps.NestedPutAllKeyOrder | src/tilt-view.ts:240-244 | the label list after filing is the old list followed by each new label in first-written order |
| IsoDatetime.IsIsoDatetime | src/utils.ts:10 | defines what `z.iso.datetime()` accepts by default: `YYYY-MM-DDThh:mm`, optional `:ss` with an optional fraction, then `Z` and no offset (its properties are `IsoDot` and `IsoWithFraction`) |
| IsoDatetime.IsoDot | src/utils.ts:10-13 | an accepted datetime has no `.`, or exactly one, at index 19 right after the seconds |
| IsoDatetime.IsoWithFraction | src/test/utils.spec.ts:14-17 | date, time, seconds and a digit fraction assemble into an accepted datetime |
| IsoDatetime.ToIsoString | src/utils.ts:7-8 | an invalid date throws; a valid one gives text ending in `.`, three digits and `Z`, with no other `.` |
| IsoDatetime.DateExampleText | src/test/utils.spec.ts:7-11 | 1 February 2020 01:02:03 formats as `2020-02-01T01:02:03` |
| Utils.Split | src/utils.ts:13 | `split('.')` gives at least one part, and no part holds a `.` |
| Utils.SplitWithoutSeparator | src/utils.ts:13 | splitting text without `.` gives one part, so `dtMillis` is undefined |
| Utils.SplitJoin | src/utils.ts:13 | joining the parts of a split with the separator gives the text back |
| Utils.SplitOnce | src/utils.ts:13 | splitting `p.q`, with no `.` in `p` or `q`, gives exactly `[p, q]` |
| Utils.IndexOfFirst | src/utils.ts:13 | the first `.` is the one with no `.` before it |
| Utils.SplitAtOnlyDot | src/utils.ts:13 | when the `.` at position i is the only one, the split gives the text before it and the text after it |
| Utils.SplitDatetime | src/utils.ts:13 | a datetime text splits at its first `.` into at most two parts |
| Utils.MatchesMillis | src/utils.ts:15 | the millisecond check: exactly three digits then `Z`; a part that passes holds no `.` |
| Utils.DatetimeText | src/utils.ts:6-11 | a `Date` gives its `toISOString` text, and an invalid date fails with `RangeError`; an accepted string comes back unchanged, and any other fails with `ValidationError` of itself |
| Utils.AddMicrosecondOffsetToIsoDatetime | src/utils.ts:3-23 | the errors of obtaining the text pass through; success only for text ending in `.dddZ`, and then the text with `000` before `Z` |
| Utils.PadMilliseconds | src/utils.ts:13-22 | after the split, success implies the text ends in three digits and `Z` and the result pads them |
| Utils.PadsExactlyMilliseconds | src/utils.ts:13-22 | for any input whose text was obtained, success holds exactly when the text ends in `.dddZ`, and the result is that text padded |
| Utils.PadsMillisecondText | src/utils.ts:13-22 | text ending in `.dddZ` is padded to `.ddd000Z` |
| Utils.PadsThreeDigits | src/utils.ts:13-22 | an accepted `P.dddZ` with no `.` in `P` becomes `P.ddd000Z` |
| Utils.PaddedShape | src/utils.ts:21-22 | the output is three characters longer, copies the text before the `Z`, and ends in `000Z` |
| Utils.FormatErrorNamesSuffix | src/utils.ts:15-19 | any other fraction throws the exact message, ending with the text after the `.` |
| Utils.NoFractionIsTypeError | src/utils.ts:13-15 | an accepted datetime without a fraction fails with the runtime error, not the format message |
| Utils.InvalidTextIsValidationError | src/utils.ts:10 | a non-datetime string is rejected by validation, before any splitting |
| Utils.DatePadded | src/utils.ts:7-22 | a valid `Date` always takes the padding path: `YYYY-MM-DDThh:mm:ss.sss000Z` |
| Utils.PaddedIsNotMilliseconds | src/utils.ts:15-21 | a padded text never ends in three fraction digits |
| Utils.NotIdempotent | src/utils.ts:15-22 | feeding an output back in always fails |
| Utils.StringExample | src/test/utils.spec.ts:14-17 | `2020-02-01T01:02:03.123Z` becomes `2020-02-01T01:02:03.123000Z` |
| Utils.DateExample | src/test/utils.spec.ts:7-12 | the `Date` for 1 February 2020 01:02:03.123 becomes `2020-02-01T01:02:03.123000Z` |
| Utils.SlashDateExample | src/test/utils.spec.ts:19-24 | `02/01/2020` fails validation |
| Utils.MicrosecondsExample | src/test/utils.spec.ts:26-37 | `…03.123456Z` throws the format message ending in `123456Z` |
| TiltWebsocket.ParseTriggerMode | src/types/tilt-websocket.ts:110-115 | the trigger-mode enum accepts exactly 0 to 3, each read as the mode with that value |
| TiltWebsocket.TriggerModeRoundTrip | src/types/tilt-websocket.ts:110-115 | every mode's value parses back to that mode |
| TiltWebsocket.ParseRuntimeStatus | src/types/tilt-websocket.ts:117-124 | accepts exactly the six option strings, each read as the status with that name |
| TiltWebsocket.RuntimeStatusRoundTrip | src/types/tilt-websocket.ts:117-124 | every status's name parses back to that status |
| TiltWebsocket.ParseUpdateStatus | src/types/tilt-websocket.ts:126 | accepts exactly the runtime options plus `in_progress`, and only `in_progress` reads as in progress |
| TiltWebsocket.PreprocessConditionStatus | src/types/tilt-websocket.ts:139-143 | the result is a boolean exactly when the value is a boolean or the string `True` or `False`; any other value passes through unchanged |
| TiltWebsocket.CoerceConditionStatus | src/types/tilt-websocket.ts:139-143 | `True` and `true` give true, `False` and `false` give false, and anything else is rejected |
| TiltWebsocket.ValidCondition | src/types/tilt-websocket.ts:138-221 | a valid condition has a boolean or `True`/`False` status and a `lastTransitionTime` that coerces to a date; the reasons `RuntimeError` and `RuntimePending` only come with `Ready` |
| TiltWebsocket.ValidDisableStatus | src/types/tilt-websocket.ts:169-193 | the state is `Enabled` or `Disabled`, and exactly one of the two counts is present, as a number |
| TiltWebsocket.ParseTargetType | src/types/tilt-websocket.ts:128-134 | the target-type enum accepts exactly its five option strings, each read as the type with that name |
| TiltWebsocket.TargetTypeRoundTrip | src/types/tilt-websocket.ts:128-134 | every target type's name parses back to that type |
| TiltWebsocket.ValidResourceStatus | src/types/tilt-websocket.ts:147-222 | defines a valid status: object `buildHistory` entries, optional dates that coerce, an optional trigger mode, an optional boolean `hasPendingChanges`, an optional `localResourceInfo` with an optional string `pid`, both status enums, `specs` whose types are target types, a numeric `order`, an optional disable status and valid conditions |
| TiltWebsocket.ValidResource | src/types/tilt-websocket.ts:224-238 | defines a valid resource: a `creationTimestamp` that coerces to a date, and a valid status; one invalid resource makes the whole array fail |
| TiltWebsocket.MatchesDigitString | src/types/tilt-websocket.ts:242 | accepts exactly the strings of decimal digits, the empty string included |
| TiltWebsocket.ValidButtonInput | src/types/tilt-websocket.ts:245-250 | the only valid button inputs are `action` set `on` and `action` set `off` |
| TiltWebsocket.ValidButtonSpec | src/types/tilt-websocket.ts:252-272 | a valid spec has a `Resource` or `Global` location; without `iconName`, or with `iconName` `cancel` or `download`, nothing else is checked; with an `iconName` other than `cancel` or `download`, `requiresConfirmation` and `inputs` must fit the second shape |
| TiltWebsocket.ValidLogSegment | src/types/tilt-websocket.ts:284-298 | defines a valid log segment: an optional string `spanId`, a level of `INFO`, `WARN` or `ERROR`, and an accepted datetime `time` |
| TiltWebsocket.ParseItems | src/types/tilt-websocket.ts:307-308 | an array parses exactly when every item is valid, and parses to itself |
| TiltWebsocket.ParseArray | src/tilt-view.ts:109-111 | a missing or ill-typed field fails; an array parses exactly when every item is valid |
| TiltWebsocket.UnknownTargetTypeFailsArray | src/types/tilt-websocket.ts:160-167 | one resource with a spec of type `helm` makes the whole `uiResources` array fail |
| TiltWebsocket.ParseInitialEvent | src/types/tilt-websocket.ts:304-309 | `isComplete`, a valid `logList` and valid `uiButtons` are required; `uiResources` may be missing but not invalid; the event carries the fields |
| TiltWebsocket.ValidRestartPayload | src/types/tilt-websocket.ts:323-331 | a valid payload is exactly one manifest name with build reason 16 |
| TiltView.Targets | src/tilt-view.ts:234-239 | defines where one resource is filed: `unlabeled` without `labels`, otherwise each key of the record in order |
| TiltView.Filings | src/tilt-view.ts:233-246 | defines the writes filing one resource makes: each target with the resource's uid and the resource |
| TiltView.Writes | src/tilt-view.ts:232-248 | defines the writes a run of resources makes: each resource's filings, in order |
| TiltView.MergeResources | src/tilt-view.ts:232-248 | `updateResources` applies those writes; no label is dropped or moved |
| TiltView.MergeButtons | src/tilt-view.ts:250-254 | `updateButtons` sets each button under its name; no name is lost or moved, and every incoming name is present |
| TiltView.ManifestNames | src/tilt-view.ts:215-224 | a name is a manifest exactly when some span has it as a non-empty `manifestName` |
| TiltView.ViewState.Children | src/tilt-view.ts:180-208 | before initialisation the root is empty; after it the root shows the labels in order; a known label shows its bucket's values in insertion order; an unknown label or a resource shows nothing |
| TiltView.InitialViewState | src/tilt-view.ts:65-75 | the labels are just `unlabeled`, and the root shows nothing |
| TiltView.AfterInitialize | src/tilt-view.ts:214-229 | `initialize` always sets the manifests and never refreshes; without `uiResources` it throws with nothing else changed; otherwise the view is initialised with `resources` equal to the snapshot; no label or button is dropped or moved |
| TiltView.AfterDispatch | src/tilt-view.ts:101-117 | for a message that decodes to an object, the first part of the listener throws exactly for an initial event without `uiResources`; it never refreshes; a delta changes only the label index; no label is dropped; the flag never goes back |
| TiltView.AfterButtonsPart | src/tilt-view.ts:118-125 | the `uiButtons` part changes only the buttons and drops none; a part that does not parse changes nothing |
| TiltView.Finish | src/tilt-view.ts:118-126 | the end of the listener completes with exactly one more refresh, and changes nothing but buttons and the refresh count |
| TiltView.AfterMessage | src/tilt-view.ts:95-127 | for a message that decodes to an object, the listener throws exactly for an initial event without `uiResources`; otherwise it refreshes exactly once, and when it throws it does not refresh; no label is dropped; the flag never goes back |
| TiltView.AfterMessages | src/tilt-view.ts:67-75 | over any stream of messages the labels before are a prefix of the labels after, the flag never goes back and the refresh count never falls |
| TiltView.RestartPayloadFor | src/tilt-view.ts:134-153 | only a resource item sends a request: one manifest name and build reason 16 |
| TiltView.TiltViewProvider.constructor | src/tilt-view.ts:65-71 | the fields start as the initial state |
| TiltView.TiltViewProvider.Refresh | src/tilt-view.ts:130-132 | one more change event, and nothing else changes |
| TiltView.TiltViewProvider.UpdateResources | src/tilt-view.ts:232-248 | the index becomes the merge of the resources; no other field changes |
| TiltView.TiltViewProvider.FileResource | src/tilt-view.ts:233-246 | one resource is filed under `unlabeled` or under each label key |
| TiltView.TiltViewProvider.FileUnderLabels | src/tilt-view.ts:239-246 | get-or-create each label's bucket, then set the uid in it |
| TiltView.TiltViewProvider.UpdateButtons | src/tilt-view.ts:250-254 | the buttons become the merge of the incoming buttons; no other field changes |
| TiltView.TiltViewProvider.Initialize | src/tilt-view.ts:214-229 | ends in the state `initialize` describes, and reports whether it threw |
| TiltView.TiltViewProvider.HandleMessage | src/tilt-view.ts:95-127 | ends in the state the listener describes, and reports whether it threw; `unlabeled` stays present |
| TiltViewProperties.FilesUnlabeled | src/tilt-view.ts:234-237 | a resource without `labels` goes into `unlabeled` under its uid; no other bucket or label changes |
| TiltViewProperties.FilesUnderEveryLabel | src/tilt-view.ts:239-246 | a labelled resource is in every label key's bucket under its uid; every other bucket is unchanged; an empty record files it nowhere |
| TiltViewProperties.MergeNeverForgets | src/tilt-view.ts:232-248 | merging keeps every label and every bucket entry, in place |
| TiltViewProperties.ReingestKeepsPosition | src/tilt-view.ts:232-248 | re-filing uids a bucket already has leaves its order unchanged |
| TiltViewProperties.MergeIdempotent | src/tilt-view.ts:232-248 | merging the same resources twice is merging them once |
| TiltViewProperties.LabelsInFirstSeenOrder | src/tilt-view.ts:240-244 | new labels are appended in the order they are first filed |
| TiltViewProperties.MergeKeepsIndex | src/tilt-view.ts:240-244 | merging keeps the index well formed with `unlabeled` first |
| TiltViewProperties.ButtonsLastWriteWins | src/tilt-view.ts:250-254 | each incoming name maps to the last button with that name |
| TiltViewProperties.ButtonsKeepOthers | src/tilt-view.ts:250-254 | a name not in the batch keeps its button; no name is lost or moved |
| TiltViewProperties.ButtonsIdempotent | src/tilt-view.ts:250-254 | merging the same buttons twice is merging them once |
| TiltViewProperties.ManifestNamesAppend | src/tilt-view.ts:215-224 | the manifests of concatenated spans are the concatenated manifests, in order |
| TiltViewProperties.InitializeIdempotent | src/tilt-view.ts:214-229 | applying the same snapshot twice gives the same state as applying it once |
| TiltViewProperties.CompleteMessage | src/tilt-view.ts:101-126 | an initial event with `uiResources` sets the flag, replaces `resources`, sets the manifests, merges the buckets, and merges the buttons as if once (the second `uiButtons` merge adds nothing); one refresh fires |
| TiltViewProperties.FinishWithKnownButtons | src/tilt-view.ts:118-126 | when the `uiButtons` part merges nothing new, only the refresh fires |
| TiltViewProperties.EventButtonsPart | src/tilt-view.ts:118-121 | the buttons of a parsed initial event are the ones the `uiButtons` part parses |
| TiltViewProperties.SnapshotWithoutResourcesThrows | src/tilt-view.ts:214-225 | without `uiResources`, `initialize` throws after setting the manifests; the `uiButtons` part and the refresh are skipped |
| TiltViewProperties.ButtonsMergedDespiteFailedPart | src/tilt-view.ts:101-126 | `uiButtons` are merged even when the other part failed to parse, and one refresh fires |
| TiltViewProperties.UnparsedMessageOnlyRefreshes | src/tilt-view.ts:101-126 | a message none of whose parts parses only refreshes |
| TiltViewProperties.DeltaMessage | src/tilt-view.ts:108-126 | a delta never touches `resources`, `manifests` or the flag; it merges each table whose part parses |
| TiltViewProperties.MessageEffect | src/tilt-view.ts:101-126 | any message merges resources once and buttons twice, each possibly nothing |
| TiltViewProperties.MessageNeverForgets | src/tilt-view.ts:95-127 | no message removes or moves a label, bucket entry or button, and the flag never goes back |
| TiltViewProperties.MessageKeepsValid | src/tilt-view.ts:95-127 | every message keeps the state well formed |
| TiltViewProperties.StreamKeepsValid | src/tilt-view.ts:67-69 | after any stream of messages `unlabeled` is still the first label |
| TiltViewProperties.DeltasKeepTreeEmpty | src/tilt-view.ts:182 | before `initialize`, the root stays empty however many deltas arrive |
| TiltViewProperties.ScenarioWrites | src/tilt-view.ts:232-248 | the scenario's resources are filed under `unlabeled` and then `frontend` |
| TiltViewProperties.ScenarioIndex | src/tilt-view.ts:232-248 | filing the scenario into the initial index gives `unlabeled` then `frontend`, one resource each |
| TiltViewProperties.SingleBucketChildren | src/tilt-view.ts:186-204 | a bucket holding one resource shows exactly that resource |
| TiltViewProperties.TwoLabelTree | src/tilt-view.ts:180-208 | the tree of a two-label index shows both labels and their resources |
| TiltViewProperties.InitialEventScenario | src/tilt-view.ts:95-208 | from construction, one initial event shows `unlabeled` and `frontend`, each with its resource |

## Left out

- The WebSocket, `JSON.parse`, the `error` listener and console logging are I/O. The listener is modelled on an already decoded `Message`, whose fields record presence and JSON type.
- `Message` stands for data that decodes to a JSON object. In the source, data that decodes to `null`, a number, a string or a boolean makes `'isComplete' in parsedData` (src/tilt-view.ts:101) throw a TypeError before any merge, so the `uiButtons` part and the refresh are skipped; that throw is not represented.
- The `fetch` to `/api/trigger` in `restartResourceCommand` is a network call. Only the payload it posts is modelled.
- VS Code tree items, icons, command registration and the `EventEmitter` are host plumbing. `refresh` is a counter, and tree nodes are labels or resources.
- The `host:port` split in the constructor is dead code, because the hostname is the constant `localhost`.
- `$updatePayload` is not used by the view.
- A `z.coerce.date()` field is modelled by its outcome: absent, a valid date or an invalid date. The conversion `new Date(value)` of a JSON value is not modelled.
- A `buildHistory` entry is kept only as whether it is a JSON object.
- Required string fields are modelled as present strings: a resource's `name`, `uid` and `resourceVersion`, a button's `name`, `resourceVersion`, `componentId` and `text`, a log segment's `text`, a disable source's `name` and `key`, and a target spec's `id`. The same holds for the required arrays and objects `conditions`, `sources`, `configMap`, `segments`, `spans`, `metadata`, `status`, `location` and `hidden`, and for the required enum and literal strings `runtimeStatus`, `updateStatus`, a disable status's `state`, a condition's `type`, a segment's `level` and `time`, `componentType` and a button input's `name`. A message where one of them is missing or of the wrong JSON type is not represented; in the source zod then rejects the whole array or event, which is what a represented invalid value does too.
- zod strips unknown keys from the objects it returns. The model stores parsed values as received.
- `Object.keys` lists integer-like keys first. `labels` and `spans` are modelled as lists of pairs in the record's own order.
- TiltWebsocket.ParseTriggerMode: JSON numbers are modelled as `int`, so a fractional number is not represented. The same holds for `order`, `disabledCount` and `enabledCount`, which `z.number()` would accept as `7.5`.
- `z.iso.datetime()` is modelled by its shape. Calendar ranges (month 13, hour 25) are not checked.
- IsoDatetime.ToIsoString: a `Date` is modelled by its UTC fields. The local-time `Date` constructor of the test depends on the time zone, so the date example assumes UTC.
- Resource `labels` arrive already typed as an optional string record. A `labels` value of the wrong type is a parse failure in the source and is not represented.
