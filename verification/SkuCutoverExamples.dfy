/** Inputs for the SKU cutover: one that both migrations take, one that the upgrade refuses, and two that the downgrade
    refuses after the upgrade. */
module SkuCutoverExamples {
  import opened Sql
  import opened SkuCutover

  /** A database that both migrations take. Below it is changed in one place. */
  const PLAIN: Tables := Tables(
    map[Key(FOOD, "FLAVOR") := Group("口味", false, false, 0, true, None)],
    map[EntryKey(Key(FOOD, "FLAVOR"), "SALMON") := Entry("salmon", 0, true, false)],
    map[Key(FOOD, "ORIGIN") := Def("origin", TEXT, false, false, false, 0, true, None)],
    map[EntryKey(Key(FOOD, "ORIGIN"), "FR") := Entry("France", 0, true, false)],
    map[1 := FOOD],
    map[1 := Segment(1, TERM, Some(Key(FOOD, "FLAVOR")), None)])

  lemma PlainSchema()
    ensures OldSchema(PLAIN) && forall s :: s in PLAIN.segments ==> KindsMatch(PLAIN, s)
  {
  }

  lemma PlainUpgrades()
    ensures OldSchema(PLAIN) && Upgrade(PLAIN).Done?
  {
    hide Upgrade, OldSchema, KindsMatch;
    PlainSchema();
    MatchingKindsFindDefinitions(PLAIN);
  }

  /** More definitions and options never stop the upgrade. */
  lemma MoreDefinitionsUpgrade(t: Tables, t': Tables)
    requires OldSchema(t) && forall s :: s in t.segments ==> KindsMatch(t, s)
    requires t' == t.(defs := t'.defs, options := t'.options) && forall e :: e in t'.options ==> e.owner in t'.defs
    ensures OldSchema(t') && Upgrade(t').Done?
  {
    assert forall s :: s in t'.segments ==> KindsMatch(t', s) == KindsMatch(t, s);
    hide Upgrade, KindsMatch;
    MatchingKindsFindDefinitions(t');
  }

  /** A group may be COMMON while its template is not: no FOOD definition is there for its segment. */
  lemma CommonGroupBlocksUpgrade(t: Tables)
    requires t == PLAIN.(groups := PLAIN.groups[Key(COMMON, "SIZE") := Group("size", false, false, 0, true, None)],
                         segments := PLAIN.segments[2 := Segment(1, TERM, Some(Key(COMMON, "SIZE")), None)])
    ensures OldSchema(t) && Upgrade(t).Aborted?
  {
    assert t.segments[2].source == TERM && t.segments[2].termGroup == Some(Key(COMMON, "SIZE"));
    assert "SIZE"[0] != "FLAVOR"[0] && "SIZE"[0] != "ORIGIN"[0];
    assert !FindsDefinition(t, 2);
    hide Upgrade, FindsDefinition;
    UpgradeSucceedsExactly(t);
  }

  /** An earlier option that shares its name with a promoted term: terms of one group may not. */
  lemma SharedNameAborts(t: Tables, a: EntryKey, b: EntryKey)
    requires OldSchema(t) && Upgrade(t).Done? && Promotable(a.owner.kind) && a.owner == b.owner
    requires a in t.terms && a !in t.options && b in t.options && b !in t.terms
    requires t.terms[a].name == t.options[b].name
    ensures Downgrade(Upgrade(t).state).Aborted?
  {
    DowngradeSucceedsExactly(t);
    var t' := Upgrade(t).state;
    assert a.owner in RecreatedGroups(t'.defs);
    hide Downgrade;
    var terms' := RecreatedTerms(RecreatedGroups(t'.defs), t'.options);
    assert a in terms' && b in terms' && terms'[a].name == terms'[b].name;
  }

  /** A definition whose code no group can carry. */
  lemma LongCodeAborts(t: Tables, k: Key)
    requires OldSchema(t) && Upgrade(t).Done? && Promotable(k.kind) && Bindable(t.defs, k) && |k.code| > GROUP_CODE_WIDTH
    ensures Downgrade(Upgrade(t).state).Aborted?
  {
    DowngradeSucceedsExactly(t);
    assert k in RecreatedGroups(Upgrade(t).state.defs);
    hide Downgrade;
  }

  lemma SharedNameBlocksDowngrade(t: Tables)
    requires t == PLAIN.(defs := PLAIN.defs[Key(FOOD, "FLAVOR") := Def("口味", OPTION, false, false, true, 0, true, None)],
                         options := PLAIN.options[EntryKey(Key(FOOD, "FLAVOR"), "FISH") := Entry("salmon", 0, true, false)])
    ensures OldSchema(t) && Upgrade(t).Done? && Downgrade(Upgrade(t).state).Aborted?
  {
    hide Upgrade, Downgrade, OldSchema, KindsMatch;
    PlainSchema();
    MoreDefinitionsUpgrade(PLAIN, t);
    assert "FISH"[0] != "SALMON"[0] && "FLAVOR"[0] != "ORIGIN"[0];
    SharedNameAborts(t, EntryKey(Key(FOOD, "FLAVOR"), "SALMON"), EntryKey(Key(FOOD, "FLAVOR"), "FISH"));
  }

  lemma LongCodeBlocksDowngrade(t: Tables, code: string)
    requires |code| == 33
    requires t == PLAIN.(defs := PLAIN.defs[Key(FOOD, code) := Def("long", OPTION, false, false, true, 0, true, None)])
    ensures OldSchema(t) && Upgrade(t).Done? && Downgrade(Upgrade(t).state).Aborted?
  {
    hide Upgrade, Downgrade, OldSchema, KindsMatch;
    PlainSchema();
    MoreDefinitionsUpgrade(PLAIN, t);
    LongCodeAborts(t, Key(FOOD, code));
  }
}
