/** The SKU cutover on the raw columns of its tables: every definition, option, segment, group and term after each migration,
    and what the downgrade cannot hold. */
module SkuCutoverColumns {
  import opened Sql
  import opened SkuCutover

  /** The fixed names of nine group codes. */
  const NAMES := map["LIFE_STAGE" := "适用阶段", "PROCESS" := "工艺类型", "FLAVOR" := "口味", "FUNCTION" := "功能属性",
                     "MODEL" := "型号/系列", "MATERIAL" := "材质", "COLOR" := "颜色", "STRUCTURE" := "结构", "FEATURE" := "功能特性"]

  lemma NamesOnColumns(code: string, name: string)
    ensures PromotedName(code, name) == if code in NAMES then NAMES[code] else name
  {
  }

  /** Every definition after the upgrade. A FOOD or SUPPLY group creates one under its own kind and code, or turns the one there
      into an option definition for SKU segments and leaves its name, order, state and remark alone; other definitions do
      not change. */
  lemma DefinitionsOnColumns(t: Tables, k: Key)
    requires OldSchema(t) && Upgrade(t).Done?
    ensures var defs' := Upgrade(t).state.defs;
      var promoted := k in t.groups && (k.kind == FOOD || k.kind == SUPPLY);
      && (k in defs' <==> k in t.defs || promoted)
      && (k in t.defs && !promoted ==> defs'[k] == t.defs[k])
      && (promoted ==> var g, d := t.groups[k], defs'[k];
            && d.valueType == OPTION && d.skuSegment && d.multi == g.multi && d.skuRequired == g.required
            && (k in t.defs ==> var old_ := t.defs[k];
                  && d.name == old_.name && d.sortOrder == old_.sortOrder && d.active == old_.active && d.remark == old_.remark)
            && (k !in t.defs ==>
                  && d.name == PromotedName(k.code, g.name) && d.sortOrder == g.sortOrder && d.active == g.active
                  && d.remark == Some("由 SKU 编码字典升迁为属性模板预设选项真相源")))
  {
    hide PromotedName, PromotedOptions, ReboundSegments, DropTermGroup, GuardRaises, NewChecksHold;
  }

  /** Every option after the upgrade: those that were there as they were, and each term of a FOOD or SUPPLY group whose code its
      definition did not have. */
  lemma OptionsOnColumns(t: Tables, e: EntryKey)
    requires OldSchema(t) && Upgrade(t).Done?
    ensures var options' := Upgrade(t).state.options;
      && (e in options' <==> e in t.options || (e in t.terms && (e.owner.kind == FOOD || e.owner.kind == SUPPLY)))
      && (e in t.options ==> options'[e] == t.options[e])
      && (e in options' && e !in t.options ==>
            && options'[e].name == t.terms[e].name && options'[e].sortOrder == t.terms[e].sortOrder
            && options'[e].active == t.terms[e].active && options'[e].locked == t.terms[e].locked)
    ensures Upgrade(t).state.groups == map[] && Upgrade(t).state.terms == map[]
  {
    hide PromotedDefs, ReboundSegments, DropTermGroup, GuardRaises, NewChecksHold;
  }

  /** Every segment after the upgrade: a TERM segment takes options of the definition under its template's kind and its group's
      code, and no other segment changes but for the dropped column. */
  lemma SegmentsOnColumns(t: Tables, s: Id)
    requires OldSchema(t) && Upgrade(t).Done? && s in t.segments
    ensures Upgrade(t).state.segments.Keys == t.segments.Keys
    ensures var old_, new_ := t.segments[s], Upgrade(t).state.segments[s];
      && new_.template == old_.template && new_.termGroup == None
      && (old_.source == TERM ==>
            && old_.termGroup.Some? && new_.source == ATTRIBUTE_OPTION
            && new_.attributeDef == Some(Key(t.templates[old_.template], old_.termGroup.value.code)))
      && (old_.source != TERM ==> new_.source == old_.source && new_.attributeDef == None)
  {
    UpgradeKeepsMeaning(t, s);
    hide PromotedDefs, PromotedOptions;
  }

  /** Exactly when the upgrade fails: on a TERM segment without a group, or one for whose template's kind and group's code there is
      neither a group to promote nor an option definition for SKU segments. */
  lemma UpgradeFailsOnColumns(t: Tables)
    requires OldSchema(t)
    ensures Upgrade(t).Done? <==>
      forall s :: s in t.segments && t.segments[s].source == TERM ==>
        && t.segments[s].termGroup.Some?
        && var k := Key(t.templates[t.segments[s].template], t.segments[s].termGroup.value.code);
           k in t.groups || (k in t.defs && t.defs[k].valueType == OPTION && t.defs[k].skuSegment)
  {
    UpgradeSucceedsExactly(t);
    hide Upgrade;
  }

  /** A definition that the downgrade turns into a group. */
  predicate Recreated(defs: Defs, k: Key) {
    k in defs && (k.kind == FOOD || k.kind == SUPPLY) && defs[k].valueType == OPTION && defs[k].skuSegment
  }

  /** Every group and term after the downgrade. */
  lemma GroupsAfterDowngrade(t: Tables, k: Key, e: EntryKey)
    requires forall s :: s in t.segments ==> t.segments[s].template in t.templates
    requires Downgrade(t).Done?
    ensures var t' := Downgrade(t).state;
      && (k in t'.groups <==> Recreated(t.defs, k))
      && (k in t'.groups ==> var g, d := t'.groups[k], t.defs[k];
            && g.name == d.name && g.multi == d.multi && g.required == d.skuRequired && g.sortOrder == d.sortOrder
            && g.active == d.active && g.remark == d.remark)
      && (e in t'.terms <==> e in t.options && Recreated(t.defs, e.owner))
      && (e in t'.terms ==> t'.terms[e] == t.options[e])
      && t'.defs == t.defs && t'.options == t.options && t'.templates == t.templates
  {
    hide UnboundSegments, DropAttributeDef, FitsOldTables, OldCheckHolds;
  }

  /** Every segment after the downgrade: one on a definition whose code names a recreated group of its template's kind becomes a
      TERM segment on that group, and the column of definitions is dropped. */
  lemma SegmentsAfterDowngrade(t: Tables, s: Id)
    requires forall x :: x in t.segments ==> t.segments[x].template in t.templates
    requires Downgrade(t).Done? && s in t.segments
    ensures Downgrade(t).state.segments.Keys == t.segments.Keys
    ensures var old_, new_ := t.segments[s], Downgrade(t).state.segments[s];
      && new_.template == old_.template && new_.attributeDef == None
      && (old_.source == ATTRIBUTE_OPTION ==>
            && old_.attributeDef.Some? && new_.source == TERM
            && new_.termGroup == Some(Key(t.templates[old_.template], old_.attributeDef.value.code))
            && Recreated(t.defs, new_.termGroup.value))
      && (old_.source != ATTRIBUTE_OPTION ==> new_.source == old_.source && new_.termGroup == old_.termGroup)
  {
    hide FitsOldTables, RecreatedTerms;
  }

  /** The three kinds of rows that the recreated tables cannot hold. */
  predicate LongGroup(defs: Defs, k: Key) {
    Recreated(defs, k) && (|k.code| > 32 || |defs[k].name| > 64)
  }

  predicate LongTerm(defs: Defs, options: Entries, e: EntryKey) {
    e in options && Recreated(defs, e.owner) && |e.code| > 32
  }

  predicate SharesName(defs: Defs, options: Entries, a: EntryKey, b: EntryKey) {
    a in options && b in options && a != b && a.owner == b.owner && Recreated(defs, a.owner) &&
    options[a].name == options[b].name
  }

  lemma FitsOnColumns(defs: Defs, options: Entries)
    ensures FitsOldTables(RecreatedGroups(defs), RecreatedTerms(RecreatedGroups(defs), options)) <==>
      && (forall k :: !LongGroup(defs, k)) && (forall e :: !LongTerm(defs, options, e))
      && (forall a, b :: !SharesName(defs, options, a, b))
  {
    var groups := RecreatedGroups(defs);
    var terms := RecreatedTerms(groups, options);
    assert forall k :: k in groups <==> Recreated(defs, k);
    assert forall k :: k in groups ==> groups[k].name == defs[k].name;
    hide RecreatedGroups;
    assert forall e :: e in terms <==> e in options && Recreated(defs, e.owner);
    assert forall e :: e in terms ==> terms[e] == options[e];
    hide RecreatedTerms, Recreated;
    if forall a, b :: !SharesName(defs, options, a, b) {
      forall a, b | a in terms && b in terms && a != b && a.owner == b.owner ensures terms[a].name != terms[b].name {
        assert !SharesName(defs, options, a, b);
      }
    }
    if forall k :: !LongGroup(defs, k) {
      forall k | k in groups ensures |k.code| <= 32 && |groups[k].name| <= 64 {
        assert !LongGroup(defs, k);
      }
    }
    if forall e :: !LongTerm(defs, options, e) {
      forall e | e in terms ensures |e.code| <= 32 {
        assert !LongTerm(defs, options, e);
      }
    }
  }

  /** Exactly when the downgrade after an upgrade fails. */
  lemma DowngradeFailsOnColumns(t: Tables)
    requires OldSchema(t) && Upgrade(t).Done?
    ensures var t' := Upgrade(t).state;
      Downgrade(t').Done? <==>
        && (forall k :: !LongGroup(t'.defs, k)) && (forall e :: !LongTerm(t'.defs, t'.options, e))
        && (forall a, b :: !SharesName(t'.defs, t'.options, a, b))
  {
    DowngradeSucceedsExactly(t);
    FitsOnColumns(Upgrade(t).state.defs, Upgrade(t).state.options);
    hide Upgrade, Downgrade, FitsOldTables, LongGroup, LongTerm, SharesName, RecreatedGroups, RecreatedTerms, OldSchema;
  }
}
