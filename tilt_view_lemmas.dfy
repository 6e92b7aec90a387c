/**
 * What the view provider promises about its state: where resources are
 * filed, that merging never forgets, that buttons follow the last write, how
 * the message listener dispatches, and what the tree shows.
 */
module TiltViewProperties {
  import opened Wrappers
  import opened OrderedMaps
  import opened TiltWebsocket
  import opened TiltView

  // ---------------------------------------------------------------- filing one resource

  /** The writes addressed to one label, when a resource is filed under `labelKeys`: all of them carry its uid and itself. */
  lemma {:induction false} SelectTagged(labelKeys: seq<string>, r: Resource, l: string)
    ensures var sel := Select(Tagged(labelKeys, r), l);
      && (|sel| > 0 <==> l in labelKeys)
      && forall i | 0 <= i < |sel| :: sel[i] == (r.metadata.uid, r)
    decreases |labelKeys|
  {
    if labelKeys != [] {
      var n := |labelKeys| - 1;
      assert Tagged(labelKeys, r)[..n] == Tagged(labelKeys[..n], r);
      SelectTagged(labelKeys[..n], r, l);
      assert labelKeys == labelKeys[..n] + [labelKeys[n]];
    }
  }

  /** Replaying writes that all set `k` to `v` onto a map leaves `k` mapped to `v`, if there was at least one. */
  lemma SameWrites<K(!new), V>(m: OrderedMap<K, V>, kvs: seq<(K, V)>, k: K, v: V)
    requires |kvs| > 0
    requires forall i | 0 <= i < |kvs| :: kvs[i] == (k, v)
    ensures k in PutAll(m, kvs).values && PutAll(m, kvs).values[k] == v
  {
    PutAllValues(m, kvs);
    LastWritesLast(kvs, |kvs| - 1);
  }

  /**
   * A resource without a `labels` field goes into the `unlabeled` bucket under
   * its uid, and no other bucket and no label changes.
   */
  lemma FilesUnlabeled(lr: LabeledResources, r: Resource)
    requires Unlabeled in lr.values
    requires r.metadata.labels.None?
    ensures var out := MergeResources(lr, [r]);
      && out.keys == lr.keys
      && out.values[Unlabeled] == lr.values[Unlabeled].Put(r.metadata.uid, r)
      && forall l | l != Unlabeled :: Inner(out, l) == Inner(lr, l)
  {
    var w := (Unlabeled, r.metadata.uid, r);
    assert [r][..0] == [];
    assert Writes([r]) == [] + [w];
    NestedPutAllSnoc(lr, [], w);
    forall l | l != Unlabeled ensures Inner(MergeResources(lr, [r]), l) == Inner(lr, l) {
      NestedPutStep(lr, Unlabeled, r.metadata.uid, r, l);
    }
  }

  /**
   * A resource with a `labels` record goes into the bucket of every label key
   * under its uid, and this call adds it to no other bucket: every other
   * bucket is left exactly as it was. With an empty record it is filed nowhere.
   */
  lemma FilesUnderEveryLabel(lr: LabeledResources, r: Resource, labels: seq<(string, string)>)
    requires r.metadata.labels == Some(labels)
    ensures var out := MergeResources(lr, [r]);
      && (forall l | l in LabelKeys(labels) ::
            l in out.values && r.metadata.uid in out.values[l].values && out.values[l].values[r.metadata.uid] == r)
      && (forall l | l !in LabelKeys(labels) :: Inner(out, l) == Inner(lr, l))
      && (labels == [] ==> out == lr)
  {
    var keys := LabelKeys(labels);
    var out := MergeResources(lr, [r]);
    assert [r][..0] == [];
    assert Writes([r]) == Tagged(keys, r);
    forall l | l in keys
      ensures l in out.values && r.metadata.uid in out.values[l].values && out.values[l].values[r.metadata.uid] == r
    {
      NestedPutAllInner(lr, Tagged(keys, r), l);
      SelectTagged(keys, r, l);
      SameWrites(Inner(lr, l), Select(Tagged(keys, r), l), r.metadata.uid, r);
      NestedPutAllOuter(lr, Tagged(keys, r));
      var i :| 0 <= i < |keys| && keys[i] == l;
      assert Tagged(keys, r)[i].0 == l;
    }
    forall l | l !in keys ensures Inner(out, l) == Inner(lr, l) {
      NestedPutAllInner(lr, Tagged(keys, r), l);
      SelectTagged(keys, r, l);
    }
  }

  // ---------------------------------------------------------------- merging runs of resources

  /**
   * Merging only inserts or overwrites: every label stays, in its place, and
   * every bucket keeps each uid it had, in its place. A resource that drops
   * a label therefore stays in the old bucket.
   */
  lemma MergeNeverForgets(lr: LabeledResources, rs: seq<Resource>)
    ensures var out := MergeResources(lr, rs);
      && lr.keys <= out.keys
      && forall l | l in lr.values ::
           && l in out.values
           && lr.values[l].keys <= out.values[l].keys
           && lr.values[l].values.Keys <= out.values[l].values.Keys
  {
    var out := MergeResources(lr, rs);
    forall l | l in lr.values
      ensures l in out.values
      ensures lr.values[l].keys <= out.values[l].keys
      ensures lr.values[l].values.Keys <= out.values[l].values.Keys
    {
      NestedPutAllInner(lr, Writes(rs), l);
      PutAllKeepsOrder(lr.values[l], Select(Writes(rs), l));
    }
  }

  /**
   * Re-ingesting a uid that a bucket already holds keeps its position: the
   * bucket's key order does not change when every write to it is to a uid it has.
   */
  lemma ReingestKeepsPosition(lr: LabeledResources, rs: seq<Resource>, l: string)
    requires l in lr.values
    requires forall i | 0 <= i < |Select(Writes(rs), l)| :: Select(Writes(rs), l)[i].0 in lr.values[l].values
    ensures l in MergeResources(lr, rs).values
    ensures MergeResources(lr, rs).values[l].keys == lr.values[l].keys
  {
    NestedPutAllInner(lr, Writes(rs), l);
    PutAllPresentKeys(lr.values[l], Select(Writes(rs), l));
  }

  /** Merging the same resources a second time changes nothing. */
  lemma MergeIdempotent(lr: LabeledResources, rs: seq<Resource>)
    ensures MergeResources(MergeResources(lr, rs), rs) == MergeResources(lr, rs)
  {
    NestedPutAllIdempotent(lr, Writes(rs));
  }

  /** The label list after a merge: the old labels, then each new label where it is first filed. */
  lemma LabelsInFirstSeenOrder(lr: LabeledResources, rs: seq<Resource>)
    requires lr.Valid()
    ensures MergeResources(lr, rs).keys == AppendNew(lr.keys, OuterSeq(Writes(rs)))
  {
    NestedPutAllKeyOrder(lr, Writes(rs));
  }

  /** Merging keeps the index well formed, so `unlabeled` stays the first label. */
  lemma MergeKeepsIndex(lr: LabeledResources, rs: seq<Resource>)
    requires WellFormedIndex(lr)
    ensures WellFormedIndex(MergeResources(lr, rs))
  {
    NestedPutAllValid(lr, Writes(rs));
  }

  // ---------------------------------------------------------------- buttons

  /** After `updateButtons`, an incoming name maps to the last button with that name. */
  lemma ButtonsLastWriteWins(bm: Buttons, bs: seq<Button>, i: nat)
    requires i < |bs|
    requires forall j | i < j < |bs| :: bs[j].metadata.name != bs[i].metadata.name
    ensures bs[i].metadata.name in MergeButtons(bm, bs).values
    ensures MergeButtons(bm, bs).values[bs[i].metadata.name] == bs[i]
  {
    PutAllValues(bm, ButtonEntries(bs));
    LastWritesLast(ButtonEntries(bs), i);
  }

  /** After `updateButtons`, a name none of the incoming buttons has keeps its button, and no name is lost or moved. */
  lemma ButtonsKeepOthers(bm: Buttons, bs: seq<Button>, name: string)
    requires forall i | 0 <= i < |bs| :: bs[i].metadata.name != name
    ensures bm.keys <= MergeButtons(bm, bs).keys
    ensures name in MergeButtons(bm, bs).values <==> name in bm.values
    ensures name in bm.values ==> MergeButtons(bm, bs).values[name] == bm.values[name]
  {
    var kvs := ButtonEntries(bs);
    PutAllValues(bm, kvs);
    PutAllKeepsOrder(bm, kvs);
    assert name !in LastWrites(kvs);
  }

  /** Merging the same buttons a second time changes nothing. */
  lemma ButtonsIdempotent(bm: Buttons, bs: seq<Button>)
    ensures MergeButtons(MergeButtons(bm, bs), bs) == MergeButtons(bm, bs)
  {
    PutAllIdempotent(bm, ButtonEntries(bs));
  }

  // ---------------------------------------------------------------- manifests

  lemma ManifestNamesSnoc(spans: seq<(string, Span)>, span: (string, Span))
    ensures ManifestNames(spans + [span]) == ManifestNames(spans) + ManifestOf(span)
  {
    var all := spans + [span];
    assert all[..|all| - 1] == spans;
  }

  /** The manifest names of concatenated span lists are the concatenated names: order is kept. */
  lemma {:induction false} ManifestNamesAppend(a: seq<(string, Span)>, b: seq<(string, Span)>)
    ensures ManifestNames(a + b) == ManifestNames(a) + ManifestNames(b)
    decreases |b|
  {
    if b == [] {
      assert a + b == a;
    } else {
      var n := |b| - 1;
      assert b == b[..n] + [b[n]];
      assert a + b == (a + b[..n]) + [b[n]];
      ManifestNamesSnoc(a + b[..n], b[n]);
      ManifestNamesSnoc(b[..n], b[n]);
      ManifestNamesAppend(a, b[..n]);
    }
  }

  // ---------------------------------------------------------------- initialisation

  /** Applying the same snapshot twice yields the same state as applying it once. */
  lemma InitializeIdempotent(s: ViewState, ev: InitialEvent)
    ensures AfterInitialize(AfterInitialize(s, ev).state, ev) == AfterInitialize(s, ev)
  {
    if ev.uiResources.Some? {
      MergeIdempotent(s.labeledResources, ev.uiResources.value);
      ButtonsIdempotent(s.buttons, ev.uiButtons);
    }
  }

  // ---------------------------------------------------------------- the message listener

  /**
   * A message with `isComplete` that parses as an initial event with
   * `uiResources` initialises the view: the snapshot replaces `resources` and
   * is merged into the buckets once, the buttons are merged (the second merge
   * of the same buttons by the `uiButtons` part changes nothing), and one
   * refresh fires.
   */
  lemma CompleteMessage(s: ViewState, m: Message, ev: InitialEvent, rs: seq<Resource>)
    requires !m.isComplete.Missing? && ParseInitialEvent(m) == Some(ev) && ev.uiResources == Some(rs)
    ensures AfterMessage(s, m) == Completed(s.(
      isInitialized := true,
      resources := rs,
      labeledResources := MergeResources(s.labeledResources, rs),
      manifests := ManifestNames(ev.logList.spans),
      buttons := MergeButtons(s.buttons, ev.uiButtons),
      refreshes := s.refreshes + 1))
  {
    InitializeWithResources(s, ev, rs);
    var t := AfterInitialize(s, ev).state;
    assert AfterDispatch(s, m) == Completed(t);
    EventButtonsPart(m, ev);
    ButtonsIdempotent(s.buttons, ev.uiButtons);
    FinishWithKnownButtons(t, m, ev.uiButtons);
  }

  /** `initialize` with `uiResources` runs to the end. */
  lemma InitializeWithResources(s: ViewState, ev: InitialEvent, rs: seq<Resource>)
    requires ev.uiResources == Some(rs)
    ensures AfterInitialize(s, ev) == Completed(s.(
      isInitialized := true,
      resources := rs,
      labeledResources := MergeResources(s.labeledResources, rs),
      manifests := ManifestNames(ev.logList.spans),
      buttons := MergeButtons(s.buttons, ev.uiButtons)))
  {
  }

  /** The end of the listener when the `uiButtons` part has already been merged. */
  lemma FinishWithKnownButtons(t: ViewState, m: Message, bs: seq<Button>)
    requires !m.uiButtons.Missing? && ParseArray(m.uiButtons, ValidButton) == Some(bs)
    requires MergeButtons(t.buttons, bs) == t.buttons
    ensures Finish(t, m) == Completed(t.(refreshes := t.refreshes + 1))
  {
  }

  /** The buttons of a parsed initial event are the ones the `uiButtons` part of the listener parses. */
  lemma EventButtonsPart(m: Message, ev: InitialEvent)
    requires ParseInitialEvent(m) == Some(ev)
    ensures !m.uiButtons.Missing? && ParseArray(m.uiButtons, ValidButton) == Some(ev.uiButtons)
  {
  }

  /**
   * Without `uiResources`, `initialize` throws once the manifests are
   * assigned: nothing else changes, the `uiButtons` part is skipped and no
   * refresh fires.
   */
  lemma SnapshotWithoutResourcesThrows(s: ViewState, m: Message, ev: InitialEvent)
    requires !m.isComplete.Missing? && ParseInitialEvent(m) == Some(ev) && ev.uiResources.None?
    ensures AfterMessage(s, m) == Threw(s.(manifests := ManifestNames(ev.logList.spans)))
  {
  }

  /**
   * A message whose resource part is absent or fails to parse still has its
   * `uiButtons` merged, and still refreshes once.
   */
  lemma ButtonsMergedDespiteFailedPart(s: ViewState, m: Message)
    requires ParseArray(m.uiButtons, ValidButton).Some?
    requires !m.isComplete.Missing? ==> ParseInitialEvent(m).None?
    requires m.isComplete.Missing? ==> ParseArray(m.uiResources, ValidResource).None?
    ensures AfterMessage(s, m) == Completed(s.(buttons := MergeButtons(s.buttons, m.uiButtons.value), refreshes := s.refreshes + 1))
  {
  }

  /** A message none of whose parts parses leaves every table as it was; only the refresh fires. */
  lemma UnparsedMessageOnlyRefreshes(s: ViewState, m: Message)
    requires ParseArray(m.uiButtons, ValidButton).None?
    requires !m.isComplete.Missing? ==> ParseInitialEvent(m).None?
    requires m.isComplete.Missing? ==> ParseArray(m.uiResources, ValidResource).None?
    ensures AfterMessage(s, m) == Completed(s.(refreshes := s.refreshes + 1))
  {
  }

  /**
   * A message without `isComplete` is a delta: it never touches `resources`,
   * `manifests` or the initialised flag; it merges `uiResources` and
   * `uiButtons` when each parses and leaves that table alone when it does not.
   */
  lemma DeltaMessage(s: ViewState, m: Message)
    requires m.isComplete.Missing?
    ensures var step := AfterMessage(s, m);
      && step.Completed?
      && step.state.isInitialized == s.isInitialized
      && step.state.resources == s.resources
      && step.state.manifests == s.manifests
      && step.state.refreshes == s.refreshes + 1
      && step.state.labeledResources ==
           (match ParseArray(m.uiResources, ValidResource)
            case Some(rs) => MergeResources(s.labeledResources, rs)
            case None => s.labeledResources)
      && step.state.buttons ==
           (match ParseArray(m.uiButtons, ValidButton)
            case Some(bs) => MergeButtons(s.buttons, bs)
            case None => s.buttons)
  {
  }

  /** The resources a message merges into the buckets: the snapshot of an initial event, or a delta. */
  function MergedResources(m: Message): seq<Resource> {
    if !m.isComplete.Missing? then
      match ParseInitialEvent(m)
      case Some(ev) => (match ev.uiResources case Some(rs) => rs case None => [])
      case None => []
    else
      match ParseArray(m.uiResources, ValidResource)
      case Some(rs) => rs
      case None => []
  }

  /** The buttons `initialize` merges. */
  function InitialButtons(m: Message): seq<Button> {
    if !m.isComplete.Missing? && !Throws(m) then
      match ParseInitialEvent(m)
      case Some(ev) => ev.uiButtons
      case None => []
    else []
  }

  /** The buttons the `uiButtons` part merges. */
  function DeltaButtons(m: Message): seq<Button> {
    if Throws(m) then []
    else
      match ParseArray(m.uiButtons, ValidButton)
      case Some(bs) => bs
      case None => []
  }

  /** What any message does to the two tables: one merge of resources, two merges of buttons, each possibly empty. */
  lemma MessageEffect(s: ViewState, m: Message)
    ensures AfterMessage(s, m).state.labeledResources == MergeResources(s.labeledResources, MergedResources(m))
    ensures AfterMessage(s, m).state.buttons == MergeButtons(MergeButtons(s.buttons, InitialButtons(m)), DeltaButtons(m))
  {
    assert Writes([]) == [];
    assert ButtonEntries([]) == [];
  }

  /**
   * No message deletes or moves anything: labels, bucket entries and buttons
   * all survive, in place, and an initialised view stays initialised.
   */
  lemma MessageNeverForgets(s: ViewState, m: Message)
    ensures var t := AfterMessage(s, m).state;
      && s.Labels() <= t.Labels()
      && (forall l | l in s.labeledResources.values ::
            && l in t.labeledResources.values
            && s.labeledResources.values[l].keys <= t.labeledResources.values[l].keys
            && s.labeledResources.values[l].values.Keys <= t.labeledResources.values[l].values.Keys)
      && s.buttons.keys <= t.buttons.keys
      && s.buttons.values.Keys <= t.buttons.values.Keys
      && (s.isInitialized ==> t.isInitialized)
  {
    MessageEffect(s, m);
    MergeNeverForgets(s.labeledResources, MergedResources(m));
    var b1 := MergeButtons(s.buttons, InitialButtons(m));
    PutAllKeepsOrder(s.buttons, ButtonEntries(InitialButtons(m)));
    PutAllKeepsOrder(b1, ButtonEntries(DeltaButtons(m)));
  }

  /** Every message keeps the state well formed, so `unlabeled` stays the first label. */
  lemma MessageKeepsValid(s: ViewState, m: Message)
    requires s.Valid()
    ensures AfterMessage(s, m).state.Valid()
  {
    MessageEffect(s, m);
    MergeKeepsIndex(s.labeledResources, MergedResources(m));
    var b1 := MergeButtons(s.buttons, InitialButtons(m));
    PutAllKeepsOrder(s.buttons, ButtonEntries(InitialButtons(m)));
    PutAllKeepsOrder(b1, ButtonEntries(DeltaButtons(m)));
  }

  // ---------------------------------------------------------------- streams of messages and the tree

  /** From construction on, whatever arrives, the state is well formed and `unlabeled` is the first label. */
  lemma {:induction false} StreamKeepsValid(s: ViewState, ms: seq<Message>)
    requires s.Valid()
    ensures AfterMessages(s, ms).Valid()
    ensures |AfterMessages(s, ms).Labels()| > 0 && AfterMessages(s, ms).Labels()[0] == Unlabeled
    decreases |ms|
  {
    if ms != [] {
      StreamKeepsValid(s, ms[..|ms| - 1]);
      MessageKeepsValid(AfterMessages(s, ms[..|ms| - 1]), ms[|ms| - 1]);
    }
  }

  /**
   * Before `initialize`, the root of the tree stays empty however many deltas
   * are merged, even though the buckets fill up.
   */
  lemma {:induction false} DeltasKeepTreeEmpty(s: ViewState, ms: seq<Message>)
    requires s.Valid() && !s.isInitialized
    requires forall i | 0 <= i < |ms| :: ms[i].isComplete.Missing?
    ensures AfterMessages(s, ms).Valid()
    ensures AfterMessages(s, ms).Children(None) == []
    decreases |ms|
  {
    if ms != [] {
      var n := |ms| - 1;
      DeltasKeepTreeEmpty(s, ms[..n]);
      var before := AfterMessages(s, ms[..n]);
      MessageKeepsValid(before, ms[n]);
      DeltaMessage(before, ms[n]);
    }
  }

  /** The writes of the scenario: `unlabeled` for the first resource, `frontend` for the second. */
  lemma ScenarioWrites(plain: Resource, tagged: Resource, frontend: string, value: string)
    requires plain.metadata.labels.None?
    requires tagged.metadata.labels == Some([(frontend, value)])
    ensures Writes([plain, tagged]) ==
      [(Unlabeled, plain.metadata.uid, plain), (frontend, tagged.metadata.uid, tagged)]
  {
    var w1 := (Unlabeled, plain.metadata.uid, plain);
    var w2 := (frontend, tagged.metadata.uid, tagged);
    assert [plain, tagged][..1] == [plain];
    assert [plain][..0] == [];
    assert LabelKeys([(frontend, value)]) == [frontend];
    assert Filings(tagged) == [w2];
    assert Writes([plain]) == Writes([]) + Filings(plain) == [w1];
    assert Writes([plain, tagged]) == Writes([plain]) + Filings(tagged) == [w1] + [w2];
  }

  /** The label index after filing one resource without labels and one labelled `frontend` into a fresh index. */
  lemma ScenarioIndex(lr: LabeledResources, plain: Resource, tagged: Resource, frontend: string, value: string)
    requires lr == OrderedMap([Unlabeled], map[Unlabeled := Empty()])
    requires frontend != Unlabeled
    requires plain.metadata.labels.None?
    requires tagged.metadata.labels == Some([(frontend, value)])
    ensures var two := MergeResources(lr, [plain, tagged]);
      && two.keys == [Unlabeled, frontend]
      && two.values[Unlabeled] == OrderedMap([plain.metadata.uid], map[plain.metadata.uid := plain])
      && two.values[frontend] == OrderedMap([tagged.metadata.uid], map[tagged.metadata.uid := tagged])
  {
    var w1 := (Unlabeled, plain.metadata.uid, plain);
    var w2 := (frontend, tagged.metadata.uid, tagged);
    ScenarioWrites(plain, tagged, frontend, value);
    NestedPutAllSnoc(lr, [], w1);
    NestedPutAllSnoc(lr, [w1], w2);
    assert [] + [w1] == [w1] && [w1] + [w2] == [w1, w2];
    NestedPutExisting(lr, w1.0, w1.1, w1.2);
    PutIntoEmpty(plain.metadata.uid, plain);
    var one := NestedPut(lr, w1.0, w1.1, w1.2);
    NestedPutNew(one, w2.0, w2.1, w2.2);
  }

  /** A bucket holding one resource shows exactly that resource. */
  lemma SingleBucketChildren(t: ViewState, l: string, r: Resource)
    requires t.Valid()
    requires l in t.labeledResources.values
    requires t.labeledResources.values[l] == OrderedMap([r.metadata.uid], map[r.metadata.uid := r])
    ensures t.Children(Some(LabelItem(l))) == [ResourceItem(r)]
  {
  }

  /** An initialised view with the labels `unlabeled` and `frontend`, one resource in each. */
  lemma TwoLabelTree(t: ViewState, plain: Resource, tagged: Resource, frontend: string)
    requires t.Valid() && t.isInitialized
    requires t.labeledResources.keys == [Unlabeled, frontend]
    requires Unlabeled in t.labeledResources.values && frontend in t.labeledResources.values
    requires t.labeledResources.values[Unlabeled] == OrderedMap([plain.metadata.uid], map[plain.metadata.uid := plain])
    requires t.labeledResources.values[frontend] == OrderedMap([tagged.metadata.uid], map[tagged.metadata.uid := tagged])
    ensures && t.Children(None) == [LabelItem(Unlabeled), LabelItem(frontend)]
            && t.Children(Some(LabelItem(Unlabeled))) == [ResourceItem(plain)]
            && t.Children(Some(LabelItem(frontend))) == [ResourceItem(tagged)]
  {
    SingleBucketChildren(t, Unlabeled, plain);
    SingleBucketChildren(t, frontend, tagged);
  }

  /**
   * An end-to-end run: from construction, an initial event holding one
   * resource without labels and one labelled `frontend` shows the labels
   * `unlabeled` then `frontend`, each holding its own resource.
   */
  lemma InitialEventScenario(m: Message, ev: InitialEvent, plain: Resource, tagged: Resource, frontend: string, value: string)
    requires frontend != Unlabeled
    requires plain.metadata.labels.None?
    requires tagged.metadata.labels == Some([(frontend, value)])
    requires !m.isComplete.Missing? && ParseInitialEvent(m) == Some(ev)
    requires ev.uiResources == Some([plain, tagged])
    ensures var t := AfterMessage(InitialViewState(), m).state;
      && t.Valid()
      && t.Children(None) == [LabelItem(Unlabeled), LabelItem(frontend)]
      && t.Children(Some(LabelItem(Unlabeled))) == [ResourceItem(plain)]
      && t.Children(Some(LabelItem(frontend))) == [ResourceItem(tagged)]
  {
    var s := InitialViewState();
    CompleteMessage(s, m, ev, [plain, tagged]);
    PutAllKeepsOrder(s.buttons, ButtonEntries(ev.uiButtons));
    ScenarioIndex(s.labeledResources, plain, tagged, frontend, value);
    MergeKeepsIndex(s.labeledResources, [plain, tagged]);
    TwoLabelTree(AfterMessage(s, m).state, plain, tagged, frontend);
  }
}
