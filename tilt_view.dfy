/**
 * The reconciliation state of the Tilt tree view: which resources sit under
 * which label, which buttons are known, and what the tree shows.
 *
 * The functions on `ViewState` say what each step does to the whole state;
 * the class `TiltViewProvider` keeps the same fields and changes them in place
 * the way the provider does, and each of its methods is proved to end in the
 * state the matching function describes.
 */
module TiltView {
  import opened Wrappers
  import opened OrderedMaps
  import opened Sequences
  import opened TiltWebsocket

  /** `UNLABELED`: the bucket for resources without a `labels` field. */
  const Unlabeled: string := "unlabeled"

  /** uid -> resource */
  type Bucket = OrderedMap<string, Resource>

  /** label -> bucket */
  type LabeledResources = OrderedMap<string, Bucket>

  /** button name -> button */
  type Buttons = OrderedMap<string, Button>

  // ---------------------------------------------------------------- filing resources

  /** `Object.keys(labels)`, in the record's own order. */
  function LabelKeys(labels: seq<(string, string)>): seq<string> {
    seq(|labels|, i requires 0 <= i < |labels| => labels[i].0)
  }

  /**
   * The buckets `updateResources` files one resource under: `unlabeled` when it
   * has no `labels` field, otherwise each label key, so none at all when the
   * record is empty.
   */
  function Targets(r: Resource): seq<string> {
    match r.metadata.labels
    case None => [Unlabeled]
    case Some(labels) => LabelKeys(labels)
  }

  /** The (label, uid, resource) writes filing one resource causes, in order: buckets are keyed by uid. */
  function Filings(r: Resource): seq<(string, string, Resource)> {
    Tagged(Targets(r), r)
  }

  /** `r` filed under each of `labelKeys`. */
  function Tagged(labelKeys: seq<string>, r: Resource): seq<(string, string, Resource)> {
    seq(|labelKeys|, i requires 0 <= i < |labelKeys| => (labelKeys[i], r.metadata.uid, r))
  }

  /** The writes a run of resources causes, in order. */
  function Writes(rs: seq<Resource>): seq<(string, string, Resource)>
    decreases |rs|
  {
    if rs == [] then [] else Writes(rs[..|rs| - 1]) + Filings(rs[|rs| - 1])
  }

  /** `updateResources(rs)`: each write gets the bucket, adding an empty one at the end when missing, and sets the uid in it. */
  function MergeResources(lr: LabeledResources, rs: seq<Resource>): (out: LabeledResources)
    ensures lr.keys <= out.keys && lr.values.Keys <= out.values.Keys
  {
    NestedPutAll(lr, Writes(rs))
  }

  // ---------------------------------------------------------------- buttons and manifests

  /** The (name, button) writes of `updateButtons`. */
  function ButtonEntries(bs: seq<Button>): seq<(string, Button)> {
    seq(|bs|, i requires 0 <= i < |bs| => (bs[i].metadata.name, bs[i]))
  }

  /** `updateButtons(bs)` */
  function MergeButtons(bm: Buttons, bs: seq<Button>): (out: Buttons)
    ensures bm.keys <= out.keys
    ensures forall i | 0 <= i < |bs| :: bs[i].metadata.name in out.values
  {
    var kvs := ButtonEntries(bs);
    PutAllKeepsOrder(bm, kvs);
    assert forall i | 0 <= i < |bs| :: kvs[i].0 == bs[i].metadata.name;
    PutAll(bm, kvs)
  }

  /** The `reduce` over the spans: each span's `manifestName` when it is a non-empty string, in order. */
  function ManifestNames(spans: seq<(string, Span)>): (names: seq<string>)
    ensures forall n :: n in names <==>
      exists i | 0 <= i < |spans| :: spans[i].1.manifestName == Given(n) && n != ""
    decreases |spans|
  {
    if spans == [] then []
    else
      var n := |spans| - 1;
      assert forall i | 0 <= i < n :: spans[..n][i] == spans[i];
      ManifestNames(spans[..n]) + ManifestOf(spans[n])
  }

  /** What one span adds to the manifests: its name when that is a non-empty string. */
  function ManifestOf(span: (string, Span)): seq<string> {
    match span.1.manifestName
    case Given(name) => if name != "" then [name] else []
    case _ => []
  }

  // ---------------------------------------------------------------- the view state

  /** A node of the tree: a label, or a resource inside a label. */
  datatype TreeItem = LabelItem(name: string) | ResourceItem(resource: Resource)

  /** The label index is well formed: ordered maps throughout, and `unlabeled` first. */
  ghost predicate WellFormedIndex(lr: LabeledResources) {
    && lr.Valid()
    && |lr.keys| > 0 && lr.keys[0] == Unlabeled
    && forall l | l in lr.values :: lr.values[l].Valid()
  }

  function LabelItems(labels: seq<string>): seq<TreeItem> {
    seq(|labels|, i requires 0 <= i < |labels| => LabelItem(labels[i]))
  }

  function ResourceItems(rs: seq<Resource>): seq<TreeItem> {
    seq(|rs|, i requires 0 <= i < |rs| => ResourceItem(rs[i]))
  }

  /** The fields of the provider that its handlers read and write; `refreshes` counts change events. */
  datatype ViewState = ViewState(
    isInitialized: bool,
    resources: seq<Resource>,
    labeledResources: LabeledResources,
    manifests: seq<string>,
    buttons: Buttons,
    refreshes: nat)
  {
    ghost predicate Valid() {
      WellFormedIndex(labeledResources) && buttons.Valid()
    }

    /** The `labels` getter. */
    function Labels(): seq<string> {
      labeledResources.keys
    }

    /**
     * `getChildren`: nothing at the root before initialisation, the labels
     * after it; a known label's bucket in insertion order; nothing for an
     * unknown label or a resource.
     */
    function Children(element: Option<TreeItem>): (items: seq<TreeItem>)
      requires Valid()
      ensures element.None? ==> (items == [] <==> !isInitialized)
      ensures element.None? && isInitialized ==>
        |items| == |Labels()| && forall i | 0 <= i < |items| :: items[i] == LabelItem(Labels()[i])
      ensures element.Some? && element.value.LabelItem? ==>
        var name := element.value.name;
        if name in labeledResources.values then
          var b := labeledResources.values[name];
          |items| == |b.keys| && forall i | 0 <= i < |items| :: items[i] == ResourceItem(b.values[b.keys[i]])
        else items == []
      ensures element.Some? && element.value.ResourceItem? ==> items == []
    {
      match element
      case None => if isInitialized then LabelItems(labeledResources.keys) else []
      case Some(LabelItem(name)) =>
        if name in labeledResources.values then ResourceItems(labeledResources.values[name].Values()) else []
      case Some(ResourceItem(_)) => []
    }
  }

  /** The field initialisers: not initialised, and only the empty `unlabeled` bucket. */
  function InitialViewState(): (s: ViewState)
    ensures s.Valid() && s.Labels() == [Unlabeled] && s.Children(None) == []
  {
    ViewState(false, [], OrderedMap([Unlabeled], map[Unlabeled := Empty()]), [], Empty(), 0)
  }

  // ---------------------------------------------------------------- handling messages

  /** The state after a handler: it ran to the end, or threw part-way and left what it had already assigned. */
  datatype Step = Completed(state: ViewState) | Threw(state: ViewState)

  /**
   * `initialize`: the manifests are assigned first; spreading a missing
   * `uiResources` then throws; otherwise the snapshot replaces `resources`,
   * is merged into the buckets, the buttons are merged and the view is
   * marked initialised.
   */
  function AfterInitialize(s: ViewState, ev: InitialEvent): (r: Step)
    ensures r.Threw? <==> ev.uiResources.None?
    ensures r.state.manifests == ManifestNames(ev.logList.spans) && r.state.refreshes == s.refreshes
    ensures r.Threw? ==> r.state.(manifests := s.manifests) == s
    ensures r.Completed? ==> r.state.isInitialized && r.state.resources == ev.uiResources.value
    ensures s.labeledResources.keys <= r.state.labeledResources.keys && s.buttons.keys <= r.state.buttons.keys
  {
    var s1 := s.(manifests := ManifestNames(ev.logList.spans));
    match ev.uiResources
    case None => Threw(s1)
    case Some(rs) =>
      Completed(s1.(resources := rs,
                    labeledResources := MergeResources(s.labeledResources, rs),
                    buttons := MergeButtons(s.buttons, ev.uiButtons),
                    isInitialized := true))
  }

  /** The `uiButtons` part of the handler: merged when present and valid, otherwise left alone. */
  function AfterButtonsPart(s: ViewState, m: Message): (t: ViewState)
    ensures t.(buttons := s.buttons) == s
    ensures s.buttons.keys <= t.buttons.keys
    ensures ParseArray(m.uiButtons, ValidButton).None? ==> t == s
  {
    if m.uiButtons.Missing? then s
    else
      match ParseArray(m.uiButtons, ValidButton)
      case None => s
      case Some(bs) => s.(buttons := MergeButtons(s.buttons, bs))
  }

  /** The end of the handler: the `uiButtons` part, then one refresh. */
  function Finish(s: ViewState, m: Message): (r: Step)
    ensures r.Completed? && r.state.refreshes == s.refreshes + 1
    ensures r.state.(buttons := s.buttons, refreshes := s.refreshes) == s
  {
    Completed(AfterButtonsPart(s, m).(refreshes := s.refreshes + 1))
  }

  /** For a message that decodes to an object, the listener throws exactly for an initial event without `uiResources`. */
  predicate Throws(m: Message) {
    !m.isComplete.Missing? && ParseInitialEvent(m).Some? && m.uiResources.Missing?
  }

  /**
   * The first part of the `message` listener: a message carrying `isComplete`
   * goes to `initialize`; otherwise a message carrying `uiResources` is merged
   * as a delta. A part that fails to parse changes nothing.
   */
  function AfterDispatch(s: ViewState, m: Message): (r: Step)
    ensures r.Threw? <==> Throws(m)
    ensures r.state.refreshes == s.refreshes
    ensures m.isComplete.Missing? ==> r.state.(labeledResources := s.labeledResources) == s
    ensures s.labeledResources.keys <= r.state.labeledResources.keys
    ensures s.isInitialized ==> r.state.isInitialized
  {
    if !m.isComplete.Missing? then
      match ParseInitialEvent(m)
      case None => Completed(s)
      case Some(ev) => AfterInitialize(s, ev)
    else if !m.uiResources.Missing? then
      match ParseArray(m.uiResources, ValidResource)
      case None => Completed(s)
      case Some(rs) => Completed(s.(labeledResources := MergeResources(s.labeledResources, rs)))
    else
      Completed(s)
  }

  /** The `message` listener, on an already decoded message. */
  function AfterMessage(s: ViewState, m: Message): (r: Step)
    ensures r.Threw? <==> Throws(m)
    ensures r.state.refreshes == if r.Completed? then s.refreshes + 1 else s.refreshes
    ensures s.labeledResources.keys <= r.state.labeledResources.keys
    ensures s.isInitialized ==> r.state.isInitialized
  {
    match AfterDispatch(s, m)
    case Threw(t) => Threw(t)
    case Completed(t) => Finish(t, m)
  }

  /** A stream of messages; a listener that throws does not stop the next message from arriving. */
  function AfterMessages(s: ViewState, ms: seq<Message>): (t: ViewState)
    ensures s.Labels() <= t.Labels()
    ensures s.isInitialized ==> t.isInitialized
    ensures s.refreshes <= t.refreshes
    decreases |ms|
  {
    if ms == [] then s else AfterMessage(AfterMessages(s, ms[..|ms| - 1]), ms[|ms| - 1]).state
  }

  /**
   * The body `restartResourceCommand` posts: the item's resource name and the
   * web-trigger build reason. An item without a resource sends nothing.
   */
  function RestartPayloadFor(item: TreeItem): (p: Option<RestartPayload>)
    ensures p.Some? <==> item.ResourceItem?
    ensures p.Some? ==> ValidRestartPayload(p.value) && p.value.manifestNames == [item.resource.metadata.name]
  {
    match item
    case ResourceItem(r) => Some(RestartPayload([r.metadata.name], BuildReasonFlagTriggerWeb))
    case LabelItem(_) => None
  }

  // ---------------------------------------------------------------- the provider

  class TiltViewProvider {
    var isInitialized: bool
    var resources: seq<Resource>
    var labeledResources: LabeledResources
    var manifests: seq<string>
    var buttons: Buttons
    /** How many times `refresh` has fired the change event. */
    var refreshes: nat

    function Snapshot(): ViewState
      reads this
    {
      ViewState(isInitialized, resources, labeledResources, manifests, buttons, refreshes)
    }

    constructor()
      ensures Snapshot() == InitialViewState()
    {
      isInitialized := false;
      resources := [];
      labeledResources := OrderedMap([Unlabeled], map[Unlabeled := Empty()]);
      manifests := [];
      buttons := Empty();
      refreshes := 0;
    }

    method Refresh()
      modifies this
      ensures Snapshot() == old(Snapshot()).(refreshes := old(refreshes) + 1)
    {
      refreshes := refreshes + 1;
    }

    method UpdateResources(rs: seq<Resource>)
      requires Unlabeled in labeledResources.values
      modifies this
      ensures Snapshot() == old(Snapshot()).(labeledResources := MergeResources(old(labeledResources), rs))
    {
      for i := 0 to |rs|
        invariant Unlabeled in labeledResources.values
        invariant labeledResources == NestedPutAll(old(labeledResources), Writes(rs[..i]))
        invariant Snapshot() == old(Snapshot()).(labeledResources := labeledResources)
      {
        ghost var before := labeledResources;
        FileResource(rs[i]);
        assert rs[..i + 1][..i] == rs[..i];
        NestedPutAllAppend(old(labeledResources), Writes(rs[..i]), Filings(rs[i]));
      }
      assert rs[..|rs|] == rs;
    }

    /** One pass of the `updateResources` loop: file `r` under each of its targets. */
    method FileResource(r: Resource)
      requires Unlabeled in labeledResources.values
      modifies this
      ensures Snapshot() == old(Snapshot()).(labeledResources := NestedPutAll(old(labeledResources), Filings(r)))
    {
      match r.metadata.labels {
        case None =>
          var unlabeled := labeledResources.values[Unlabeled];
          labeledResources := labeledResources.Put(Unlabeled, unlabeled.Put(r.metadata.uid, r));
          assert Filings(r) == [] + [(Unlabeled, r.metadata.uid, r)];
          NestedPutAllSnoc(old(labeledResources), [], (Unlabeled, r.metadata.uid, r));
        case Some(labels) =>
          FileUnderLabels(LabelKeys(labels), r);
      }
    }

    /** The inner loop of `updateResources`: file `r` under each label key, creating missing buckets. */
    method FileUnderLabels(labelKeys: seq<string>, r: Resource)
      modifies this
      ensures Snapshot() == old(Snapshot()).(labeledResources := NestedPutAll(old(labeledResources), Tagged(labelKeys, r)))
    {
      ghost var writes := Tagged(labelKeys, r);
      for j := 0 to |labelKeys|
        invariant labeledResources == NestedPutAll(old(labeledResources), writes[..j])
        invariant isInitialized == old(isInitialized) && resources == old(resources)
        invariant manifests == old(manifests) && buttons == old(buttons) && refreshes == old(refreshes)
      {
        ghost var before := labeledResources;
        var labelKey := labelKeys[j];
        var labeled: Bucket;
        if labelKey in labeledResources.values {
          labeled := labeledResources.values[labelKey];
        } else {
          labeled := Empty();
          labeledResources := labeledResources.Put(labelKey, labeled);
        }
        var filed := labeled.Put(r.metadata.uid, r);
        if labelKey !in before.values {
          PutTwice(before, labelKey, labeled, filed);
        }
        labeledResources := labeledResources.Put(labelKey, filed);
        TakeOneMore(writes, j);
        NestedPutAllSnoc(old(labeledResources), writes[..j], writes[j]);
      }
      assert writes[..|labelKeys|] == writes;
    }

    method UpdateButtons(bs: seq<Button>)
      modifies this
      ensures Snapshot() == old(Snapshot()).(buttons := MergeButtons(old(buttons), bs))
    {
      for i := 0 to |bs|
        invariant buttons == PutAll(old(buttons), ButtonEntries(bs)[..i])
        invariant Snapshot() == old(Snapshot()).(buttons := buttons)
      {
        buttons := buttons.Put(bs[i].metadata.name, bs[i]);
        assert ButtonEntries(bs)[..i + 1][..i] == ButtonEntries(bs)[..i];
      }
      assert ButtonEntries(bs)[..|bs|] == ButtonEntries(bs);
    }

    method Initialize(ev: InitialEvent) returns (completed: bool)
      requires Unlabeled in labeledResources.values
      modifies this
      ensures var step := AfterInitialize(old(Snapshot()), ev);
        completed == step.Completed? && Snapshot() == step.state
    {
      manifests := ManifestNames(ev.logList.spans);
      if ev.uiResources.None? {
        return false;
      }
      resources := ev.uiResources.value;
      UpdateResources(resources);
      UpdateButtons(ev.uiButtons);
      isInitialized := true;
      return true;
    }

    method HandleMessage(m: Message) returns (completed: bool)
      requires Unlabeled in labeledResources.values
      modifies this
      ensures var step := AfterMessage(old(Snapshot()), m);
        completed == step.Completed? && Snapshot() == step.state
      ensures Unlabeled in labeledResources.values
    {
      if !m.isComplete.Missing? {
        var event := ParseInitialEvent(m);
        if event.Some? {
          completed := Initialize(event.value);
          if !completed {
            assert AfterDispatch(old(Snapshot()), m) == Threw(Snapshot());
            return;
          }
        }
      } else if !m.uiResources.Missing? {
        var delta := ParseArray(m.uiResources, ValidResource);
        if delta.Some? {
          UpdateResources(delta.value);
        }
      }
      assert AfterDispatch(old(Snapshot()), m) == Completed(Snapshot());
      ghost var dispatched := Snapshot();
      if !m.uiButtons.Missing? {
        var delta := ParseArray(m.uiButtons, ValidButton);
        if delta.Some? {
          UpdateButtons(delta.value);
        }
      }
      assert Snapshot() == AfterButtonsPart(dispatched, m);
      Refresh();
      completed := true;
    }
  }
}
