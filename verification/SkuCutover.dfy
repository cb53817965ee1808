/** The SKU dictionary cutover: term groups and terms are promoted to attribute definitions and options, template
    segments are rebound from groups to definitions, and the downgrade goes the other way. A group or a definition is
    named by its unique key (product kind, code) wherever the tables hold its surrogate id. */
module SkuCutover {
  import opened Sql

  type Id = nat

  datatype Kind = FOOD | SUPPLY | COMMON | OTHER
  datatype Key = Key(kind: Kind, code: string)

  datatype Group = Group(name: string, multi: bool, required: bool, sortOrder: int, active: bool, remark: Option<string>)
  datatype ValueType = TEXT | NUMBER | OPTION | BOOL
  datatype Def = Def(name: string, valueType: ValueType, multi: bool, skuRequired: bool, skuSegment: bool,
                     sortOrder: int, active: bool, remark: Option<string>)

  /** A term of a group, or an option of a definition: unique on its owner and code. */
  datatype EntryKey = EntryKey(owner: Key, code: string)
  datatype Entry = Entry(name: string, sortOrder: int, active: bool, locked: bool)

  datatype Source = BRAND | CATEGORY | TERM | ATTRIBUTE_OPTION | FREE_TEXT | SPEC

  /** `termGroup` only exists before the cutover, `attributeDef` only after it. */
  datatype Segment = Segment(template: Id, source: Source, termGroup: Option<Key>, attributeDef: Option<Key>)

  type Groups = map<Key, Group>
  type Defs = map<Key, Def>
  type Entries = map<EntryKey, Entry>
  type Segments = map<Id, Segment>

  datatype Tables = Tables(groups: Groups, terms: Entries, defs: Defs, options: Entries,
                           templates: map<Id, Kind>, segments: Segments)

  /** Widths of the columns that the downgrade recreates. */
  const GROUP_CODE_WIDTH := 32
  const GROUP_NAME_WIDTH := 64
  const TERM_CODE_WIDTH := 32

  /** Before the cutover: owners exist, templates are FOOD or SUPPLY, and no segment has a definition. */
  ghost predicate OldSchema(t: Tables) {
    && (forall e :: e in t.terms ==> e.owner in t.groups)
    && (forall e :: e in t.options ==> e.owner in t.defs)
    && (forall m :: m in t.templates ==> Promotable(t.templates[m]))
    && (forall s :: s in t.segments ==>
          && t.segments[s].template in t.templates && t.segments[s].source != ATTRIBUTE_OPTION
          && t.segments[s].attributeDef.None?
          && (t.segments[s].termGroup.Some? ==> t.segments[s].termGroup.value in t.groups))
  }

  // ---------------------------------------------------------------- upgrade

  predicate Promotable(kind: Kind) {
    kind == FOOD || kind == SUPPLY
  }

  /** CASE g.group_code .. ELSE g.group_name: nine codes get a fixed name. */
  function PromotedName(code: string, name: string): string {
    if code == "LIFE_STAGE" then "适用阶段"
    else if code == "PROCESS" then "工艺类型"
    else if code == "FLAVOR" then "口味"
    else if code == "FUNCTION" then "功能属性"
    else if code == "MODEL" then "型号/系列"
    else if code == "MATERIAL" then "材质"
    else if code == "COLOR" then "颜色"
    else if code == "STRUCTURE" then "结构"
    else if code == "FEATURE" then "功能特性"
    else name
  }

  /** The remark that every newly promoted definition gets. */
  const PROMOTED := "由 SKU 编码字典升迁为属性模板预设选项真相源"

  function PromotedDefs(groups: Groups, defs: Defs): Defs {
    map k | k in groups.Keys + defs.Keys && (k in defs || Promotable(k.kind)) ::
      if k !in groups || !Promotable(k.kind) then defs[k]
      else if k in defs then
        defs[k].(valueType := OPTION, multi := groups[k].multi, skuRequired := groups[k].required, skuSegment := true)
      else
        Def(PromotedName(k.code, groups[k].name), OPTION, groups[k].multi, groups[k].required, true,
            groups[k].sortOrder, groups[k].active, Some(PROMOTED))
  }

  /** ON CONFLICT DO NOTHING: an earlier option of the same code wins over the term. */
  function PromotedOptions(terms: Entries, options: Entries): Entries {
    map e | e in terms.Keys + options.Keys && (e in options || Promotable(e.owner.kind)) ::
      if e in options then options[e] else terms[e]
  }

  /** A definition that segments may be bound to. */
  predicate Bindable(defs: Defs, k: Key) {
    k in defs && defs[k].valueType == OPTION && defs[k].skuSegment
  }

  /** UPDATE segments .. FROM templates, groups, defs: the definition is looked up under the kind of the segment's
      template and the code of its group. */
  function Rebound(templates: map<Id, Kind>, defs: Defs, s: Segment): Segment
    requires s.template in templates
  {
    if s.source == TERM && s.termGroup.Some? && Bindable(defs, Key(templates[s.template], s.termGroup.value.code))
    then s.(source := ATTRIBUTE_OPTION, attributeDef := Some(Key(templates[s.template], s.termGroup.value.code)))
    else s
  }

  function ReboundSegments(templates: map<Id, Kind>, defs: Defs, segments: Segments): Segments
    requires forall s :: s in segments ==> segments[s].template in templates
  {
    map s | s in segments :: Rebound(templates, defs, segments[s])
  }

  /** The guard that raises: a TERM segment that was not mapped. */
  predicate GuardRaises(segments: Segments) {
    exists s :: s in segments && segments[s].source == TERM && segments[s].attributeDef.None?
  }

  /** The two checks created after the guard: no TERM segment, and a definition exactly for ATTRIBUTE_OPTION. */
  predicate NewChecksHold(segments: Segments) {
    forall s :: s in segments ==>
      segments[s].source != TERM && (segments[s].source == ATTRIBUTE_OPTION <==> segments[s].attributeDef.Some?)
  }

  function DropTermGroup(segments: Segments): Segments {
    map s | s in segments :: segments[s].(termGroup := None)
  }

  ghost function Upgrade(t: Tables): Outcome<Tables>
    requires OldSchema(t)
  {
    var defs' := PromotedDefs(t.groups, t.defs);
    var segments' := ReboundSegments(t.templates, defs', t.segments);
    if GuardRaises(segments') || !NewChecksHold(segments') then Aborted
    else Done(Tables(map[], map[], defs', PromotedOptions(t.terms, t.options), t.templates, DropTermGroup(segments')))
  }

  /** The segment finds a definition: a FOOD or SUPPLY group of its template's kind and its group's code is there to be
      promoted, or an option definition of that key already serves as a SKU segment. */
  ghost predicate FindsDefinition(t: Tables, s: Id)
    requires OldSchema(t) && s in t.segments
  {
    var g := t.segments[s].termGroup;
    g.Some? && var k := Key(t.templates[t.segments[s].template], g.value.code);
      k in t.groups || Bindable(t.defs, k)
  }

  /** When exactly the guard lets the upgrade through. */
  lemma UpgradeSucceedsExactly(t: Tables)
    requires OldSchema(t)
    ensures Upgrade(t).Done? <==> forall s :: s in t.segments && t.segments[s].source == TERM ==> FindsDefinition(t, s)
  {
    var defs' := PromotedDefs(t.groups, t.defs);
    forall s | s in t.segments && t.segments[s].source == TERM
      ensures Rebound(t.templates, defs', t.segments[s]).source == ATTRIBUTE_OPTION <==> FindsDefinition(t, s)
      ensures Rebound(t.templates, defs', t.segments[s]).attributeDef.Some? <==> FindsDefinition(t, s)
    {
      PromotedIsBindable(t, s);
    }
    hide PromotedDefs, FindsDefinition, PromotedOptions;
    var segments' := ReboundSegments(t.templates, defs', t.segments);
    if s :| s in t.segments && t.segments[s].source == TERM && !FindsDefinition(t, s) {
      assert segments'[s].source == TERM;
    }
  }

  lemma PromotedIsBindable(t: Tables, s: Id)
    requires OldSchema(t) && s in t.segments
    ensures FindsDefinition(t, s) <==>
      t.segments[s].termGroup.Some? &&
      Bindable(PromotedDefs(t.groups, t.defs), Key(t.templates[t.segments[s].template], t.segments[s].termGroup.value.code))
  {
    assert Promotable(t.templates[t.segments[s].template]);
  }

  /** The segment's group is of its template's kind. */
  ghost predicate KindsMatch(t: Tables, s: Id)
    requires OldSchema(t) && s in t.segments
  {
    t.segments[s].termGroup.Some? && t.segments[s].termGroup.value.kind == t.templates[t.segments[s].template]
  }

  lemma MatchingKindsFindDefinitions(t: Tables)
    requires OldSchema(t) && forall s :: s in t.segments && t.segments[s].source == TERM ==> KindsMatch(t, s)
    ensures Upgrade(t).Done?
  {
    forall s | s in t.segments && t.segments[s].source == TERM ensures FindsDefinition(t, s) {
      assert KindsMatch(t, s);
      assert t.segments[s].termGroup.value == Key(t.templates[t.segments[s].template], t.segments[s].termGroup.value.code);
    }
    UpgradeSucceedsExactly(t);
  }

  /** What a segment means: the codes it may take. */
  ghost function TermCodes(terms: Entries, owner: Key): set<string> {
    set e | e in terms && e.owner == owner :: e.code
  }

  /** A TERM segment is bound to the definition of its group's key exactly when the kinds match; all its former codes
      are then still on offer, with nothing but earlier options of that definition added. */
  lemma UpgradeKeepsMeaning(t: Tables, s: Id)
    requires OldSchema(t) && Upgrade(t).Done? && s in t.segments
    ensures var t' := Upgrade(t).state;
      && s in t'.segments
      && (t.segments[s].source != TERM ==> t'.segments[s] == t.segments[s].(termGroup := None))
      && (t.segments[s].source == TERM ==>
            && t.segments[s].termGroup.Some? && t'.segments[s].source == ATTRIBUTE_OPTION
            && t'.segments[s].attributeDef.Some? && t'.segments[s].attributeDef.value in t'.defs
            && (t'.segments[s].attributeDef == t.segments[s].termGroup <==> KindsMatch(t, s))
            && (KindsMatch(t, s) ==> var k := t.segments[s].termGroup.value;
                  TermCodes(t'.options, k) == TermCodes(t.terms, k) + TermCodes(t.options, k)))
  {
    UpgradeSucceedsExactly(t);
    if t.segments[s].source == TERM {
      assert FindsDefinition(t, s);
      PromotedIsBindable(t, s);
      if KindsMatch(t, s) {
        OptionsCoverTerms(t, t.segments[s].termGroup.value);
      }
    }
  }

  lemma OptionsCoverTerms(t: Tables, k: Key)
    requires OldSchema(t) && Promotable(k.kind)
    ensures TermCodes(PromotedOptions(t.terms, t.options), k) == TermCodes(t.terms, k) + TermCodes(t.options, k)
  {
    var options' := PromotedOptions(t.terms, t.options);
    forall e | e in t.terms && e.owner == k ensures e.code in TermCodes(options', k) {
      assert e in options';
    }
    forall e | e in t.options && e.owner == k ensures e.code in TermCodes(options', k) {
      assert e in options';
    }
  }

  // ---------------------------------------------------------------- downgrade

  function RecreatedGroups(defs: Defs): Groups {
    map k | k in defs && Promotable(k.kind) && Bindable(defs, k) ::
      Group(defs[k].name, defs[k].multi, defs[k].skuRequired, defs[k].sortOrder, defs[k].active, defs[k].remark)
  }

  function RecreatedTerms(groups: Groups, options: Entries): Entries {
    map e | e in options && e.owner in groups :: options[e]
  }

  /** The recreated tables accept the rows: narrower code and name columns, and names unique within a group. */
  predicate FitsOldTables(groups: Groups, terms: Entries) {
    && (forall k :: k in groups ==> |k.code| <= GROUP_CODE_WIDTH && |groups[k].name| <= GROUP_NAME_WIDTH)
    && (forall e :: e in terms ==> |e.code| <= TERM_CODE_WIDTH)
    && (forall a, b :: a in terms && b in terms && a != b && a.owner == b.owner ==> terms[a].name != terms[b].name)
  }

  function Unbound(templates: map<Id, Kind>, groups: Groups, s: Segment): Segment
    requires s.template in templates
  {
    if s.source == ATTRIBUTE_OPTION && s.attributeDef.Some? && Key(templates[s.template], s.attributeDef.value.code) in groups
    then s.(source := TERM, termGroup := Some(Key(templates[s.template], s.attributeDef.value.code)))
    else s
  }

  function UnboundSegments(templates: map<Id, Kind>, groups: Groups, segments: Segments): Segments
    requires forall s :: s in segments ==> segments[s].template in templates
  {
    map s | s in segments :: Unbound(templates, groups, segments[s])
  }

  /** The recreated check on source_type. */
  predicate OldCheckHolds(segments: Segments) {
    forall s :: s in segments ==> segments[s].source != ATTRIBUTE_OPTION
  }

  function DropAttributeDef(segments: Segments): Segments {
    map s | s in segments :: segments[s].(attributeDef := None)
  }

  ghost function Downgrade(t: Tables): Outcome<Tables>
    requires forall s :: s in t.segments ==> t.segments[s].template in t.templates
  {
    var groups' := RecreatedGroups(t.defs);
    var terms' := RecreatedTerms(groups', t.options);
    var segments' := UnboundSegments(t.templates, groups', t.segments);
    if !FitsOldTables(groups', terms') || !OldCheckHolds(segments') then Aborted
    else Done(t.(groups := groups', terms := terms', segments := DropAttributeDef(segments')))
  }

  /** A bound segment finds its recreated group again, under its definition's key. */
  lemma BoundSegmentFindsGroup(t: Tables, s: Id)
    requires OldSchema(t) && Upgrade(t).Done? && s in t.segments && t.segments[s].source == TERM
    ensures var t' := Upgrade(t).state; var k := t'.segments[s].attributeDef;
      k.Some? && k == Some(Key(t.templates[t.segments[s].template], t.segments[s].termGroup.value.code)) &&
      k.value in RecreatedGroups(t'.defs)
  {
    UpgradeKeepsMeaning(t, s);
    assert Promotable(t.templates[t.segments[s].template]);
  }

  /** After an upgrade the downgrade fails only on what the older tables cannot hold. */
  lemma DowngradeSucceedsExactly(t: Tables)
    requires OldSchema(t) && Upgrade(t).Done?
    ensures var t' := Upgrade(t).state; var groups' := RecreatedGroups(t'.defs);
      Downgrade(t').Done? <==> FitsOldTables(groups', RecreatedTerms(groups', t'.options))
  {
    var t' := Upgrade(t).state;
    var groups' := RecreatedGroups(t'.defs);
    forall s | s in t'.segments ensures Unbound(t'.templates, groups', t'.segments[s]).source != ATTRIBUTE_OPTION {
      UpgradeKeepsMeaning(t, s);
      if t.segments[s].source == TERM {
        BoundSegmentFindsGroup(t, s);
      }
    }
    hide RecreatedGroups, RecreatedTerms, FitsOldTables, Upgrade, OldSchema;
  }

  /** One segment through the round trip. */
  lemma SegmentRoundTrip(t: Tables, s: Id)
    requires OldSchema(t) && Upgrade(t).Done? && Downgrade(Upgrade(t).state).Done? && s in t.segments
    ensures var back := Downgrade(Upgrade(t).state).state.segments; var seg := t.segments[s];
      s in back && back[s] == if seg.source == TERM
        then seg.(termGroup := Some(Key(t.templates[seg.template], seg.termGroup.value.code)))
        else seg.(termGroup := None)
  {
    UpgradeKeepsMeaning(t, s);
    if t.segments[s].source == TERM {
      BoundSegmentFindsGroup(t, s);
    }
  }

  /** A TERM segment's group is of its template's kind; any other segment names no group. */
  ghost predicate NothingToLose(t: Tables, s: Id)
    requires OldSchema(t) && s in t.segments
  {
    if t.segments[s].source == TERM then KindsMatch(t, s) else t.segments[s].termGroup.None?
  }

  lemma SegmentReturnsExactly(t: Tables, s: Id)
    requires OldSchema(t) && Upgrade(t).Done? && Downgrade(Upgrade(t).state).Done? && s in t.segments
    ensures var back := Downgrade(Upgrade(t).state).state.segments;
      s in back && (back[s] == t.segments[s] <==> NothingToLose(t, s))
  {
    SegmentRoundTrip(t, s);
    UpgradeKeepsMeaning(t, s);
    hide Upgrade, Downgrade;
  }

  lemma SegmentKeysStay(t: Tables)
    requires OldSchema(t) && Upgrade(t).Done? && Downgrade(Upgrade(t).state).Done?
    ensures Downgrade(Upgrade(t).state).state.segments.Keys == t.segments.Keys
  {
    hide Rebound, Unbound, PromotedDefs, PromotedOptions, RecreatedGroups, RecreatedTerms, FitsOldTables, GuardRaises,
         NewChecksHold, OldCheckHolds;
  }

  lemma SameSegments(a: Segments, b: Segments)
    requires a.Keys == b.Keys
    ensures a == b <==> forall s :: s in b ==> a[s] == b[s]
  {
  }

  /** The segments come back verbatim exactly when every TERM segment's group was of its template's kind and no other
      segment named a group. */
  lemma SegmentsRoundTripExactly(t: Tables)
    requires OldSchema(t) && Upgrade(t).Done? && Downgrade(Upgrade(t).state).Done?
    ensures Downgrade(Upgrade(t).state).state.segments == t.segments <==>
      forall s :: s in t.segments ==> NothingToLose(t, s)
  {
    var back := Downgrade(Upgrade(t).state).state.segments;
    hide Upgrade, Downgrade, NothingToLose;
    SegmentKeysStay(t);
    forall s | s in t.segments ensures back[s] == t.segments[s] <==> NothingToLose(t, s) {
      SegmentReturnsExactly(t, s);
    }
    SameSegments(back, t.segments);
  }

  /** Two tables have the same entries of an owner. */
  ghost predicate SameEntries(a: Entries, b: Entries, owner: Key) {
    forall e: EntryKey :: e.owner == owner ==> (e in a <==> e in b) && (e in a ==> a[e] == b[e])
  }

  lemma PromotedGroupReturns(groups: Groups, defs: Defs, k: Key)
    requires k in groups
    ensures var groups'' := RecreatedGroups(PromotedDefs(groups, defs));
      && (k in groups'' <==> Promotable(k.kind))
      && (k in groups'' ==> groups''[k].multi == groups[k].multi && groups''[k].required == groups[k].required)
      && (k in groups'' && k !in defs ==>
            groups''[k] == groups[k].(name := PromotedName(k.code, groups[k].name), remark := Some(PROMOTED)))
  {
    hide PromotedName;
  }

  lemma PromotedTermsReturn(groups: Groups, terms: Entries, options: Entries, k: Key)
    requires k in groups && Promotable(k.kind)
    ensures SameEntries(RecreatedTerms(groups, PromotedOptions(terms, options)), terms, k) <==>
      forall e :: e in options && e.owner == k ==> e in terms && terms[e] == options[e]
  {
    var terms'' := RecreatedTerms(groups, PromotedOptions(terms, options));
    forall e: EntryKey | e.owner == k
      ensures e in terms'' <==> e in terms || e in options
      ensures e in terms'' ==> terms''[e] == if e in options then options[e] else terms[e]
    {
    }
  }

  /** A promoted group comes back with its terms verbatim exactly when its definition had no other option before; a group
      that had no definition before keeps everything but its remark and, for nine codes, its name. Groups of kind COMMON
      are lost. */
  lemma GroupsRoundTrip(t: Tables, k: Key)
    requires OldSchema(t) && Upgrade(t).Done? && Downgrade(Upgrade(t).state).Done?
    requires k in t.groups
    ensures var t'' := Downgrade(Upgrade(t).state).state;
      && (k in t''.groups <==> Promotable(k.kind))
      && (Promotable(k.kind) && k !in t.defs ==>
            t''.groups[k] == t.groups[k].(name := PromotedName(k.code, t.groups[k].name), remark := Some(PROMOTED)))
      && (Promotable(k.kind) ==>
            (SameEntries(t''.terms, t.terms, k) <==>
             forall e :: e in t.options && e.owner == k ==> e in t.terms && t.terms[e] == t.options[e]))
  {
    hide PromotedName, PromotedDefs, PromotedOptions, RecreatedGroups, RecreatedTerms, SameEntries, FitsOldTables,
         Rebound, Unbound;
    var groups'' := RecreatedGroups(PromotedDefs(t.groups, t.defs));
    PromotedGroupReturns(t.groups, t.defs, k);
    if Promotable(k.kind) {
      PromotedTermsReturn(groups'', t.terms, t.options, k);
    }
  }
}
