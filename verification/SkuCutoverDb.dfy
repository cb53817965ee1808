/** The cutover and its downgrade as they run: rows inserted one after the other under ON CONFLICT, segments
    updated in place, guards, and the old tables dropped. */
module SkuCutoverDb {
  import opened Sql
  import opened SkuCutover

  class SkuDb {
    var groups: Groups
    var terms: Entries
    var defs: Defs
    var options: Entries
    var templates: map<Id, Kind>
    var segments: Segments

    function Contents(): Tables
      reads this
    {
      Tables(groups, terms, defs, options, templates, segments)
    }

    /** INSERT INTO item_attribute_defs SELECT .. FROM groups ON CONFLICT (product_kind, code) DO UPDATE */
    method PromoteGroups()
      modifies this`defs
      ensures defs == PromotedDefs(groups, old(defs))
    {
      hide PromotedName;
      var todo := set k | k in groups && Promotable(k.kind);
      ghost var all := todo;
      while todo != {}
        invariant todo <= all
        invariant defs.Keys == old(defs).Keys + (all - todo)
        invariant forall k :: k in defs ==>
          defs[k] == if k in all - todo then PromotedDefs(groups, old(defs))[k] else old(defs)[k]
        decreases todo
      {
        var k := NextRow(todo);
        var g := groups[k];
        if k in defs {
          defs := defs[k := defs[k].(valueType := OPTION, multi := g.multi, skuRequired := g.required, skuSegment := true)];
        } else {
          var name := PromotedName(k.code, g.name);
          defs := defs[k := Def(name, OPTION, g.multi, g.required, true, g.sortOrder, g.active, Some(PROMOTED))];
        }
        todo := todo - {k};
      }
    }

    /** INSERT INTO item_attribute_options SELECT .. FROM terms ON CONFLICT DO NOTHING */
    method PromoteTerms()
      modifies this`options
      ensures options == PromotedOptions(terms, old(options))
    {
      var todo := set e | e in terms && Promotable(e.owner.kind);
      ghost var all := todo;
      while todo != {}
        invariant todo <= all
        invariant options.Keys == old(options).Keys + (all - todo)
        invariant forall e :: e in options ==> options[e] == if e in old(options) then old(options)[e] else terms[e]
        decreases todo
      {
        var e := NextRow(todo);
        if e !in options {
          options := options[e := terms[e]];
        }
        todo := todo - {e};
      }
    }

    /** UPDATE sku_code_template_segments .. SET attribute_def_id = d.id, source_type = 'ATTRIBUTE_OPTION' */
    method RebindSegments()
      requires forall s :: s in segments ==> segments[s].template in templates
      modifies this`segments
      ensures segments == ReboundSegments(templates, defs, old(segments))
    {
      hide Bindable;
      var todo := segments.Keys;
      while todo != {}
        invariant todo <= segments.Keys == old(segments).Keys
        invariant forall s :: s in segments ==>
          segments[s] == if s in todo then old(segments)[s] else Rebound(templates, defs, old(segments)[s])
        decreases todo
      {
        var s := NextRow(todo);
        var seg := segments[s];
        if seg.source == TERM && seg.termGroup.Some? {
          var k := Key(templates[seg.template], seg.termGroup.value.code);
          if Bindable(defs, k) {
            segments := segments[s := seg.(attributeDef := Some(k), source := ATTRIBUTE_OPTION)];
          }
        }
        todo := todo - {s};
      }
    }

    method Upgrade() returns (ok: bool)
      requires OldSchema(Contents())
      modifies this
      ensures ok == SkuCutover.Upgrade(old(Contents())).Done?
      ensures Contents() == if ok then SkuCutover.Upgrade(old(Contents())).state else old(Contents())
    {
      hide PromotedDefs, PromotedOptions, ReboundSegments, GuardRaises, NewChecksHold, DropTermGroup;
      var before := Contents();
      PromoteGroups();
      PromoteTerms();
      RebindSegments();
      ok := !GuardRaises(segments) && NewChecksHold(segments);
      if ok {
        segments := DropTermGroup(segments);
        groups, terms := map[], map[];
      } else {
        defs, options, segments := before.defs, before.options, before.segments;
      }
    }

    /** INSERT INTO the recreated group and term tables, then the inverse UPDATE of the segments. */
    method Downgrade() returns (ok: bool)
      requires forall s :: s in segments ==> segments[s].template in templates
      modifies this
      ensures ok == SkuCutover.Downgrade(old(Contents())).Done?
      ensures Contents() == if ok then SkuCutover.Downgrade(old(Contents())).state else old(Contents())
    {
      hide RecreatedGroups, RecreatedTerms, UnboundSegments, FitsOldTables, OldCheckHolds, DropAttributeDef;
      var before := Contents();
      RecreateGroups();
      RecreateTerms();
      ok := FitsOldTables(groups, terms);
      if ok {
        UnbindSegments();
        ok := OldCheckHolds(segments);
      }
      if ok {
        segments := DropAttributeDef(segments);
      } else {
        groups, terms, segments := before.groups, before.terms, before.segments;
      }
    }

    /** INSERT INTO sku_code_term_groups SELECT .. ON CONFLICT DO NOTHING, row by row into the empty table: afterwards it
        holds exactly the definitions that a FOOD or SUPPLY segment may be bound to. */
    method RecreateGroups()
      modifies this`groups
      ensures groups == RecreatedGroups(defs)
      ensures forall k :: k in groups <==> Promotable(k.kind) && Bindable(defs, k)
    {
      groups := map[];
      var todo := defs.Keys;
      while todo != {}
        invariant todo <= defs.Keys
        invariant groups.Keys == RecreatedGroups(defs).Keys - todo
        invariant forall k :: k in groups ==> groups[k] == RecreatedGroups(defs)[k]
        decreases todo
      {
        var k := NextRow(todo);
        var d := defs[k];
        if (k.kind == FOOD || k.kind == SUPPLY) && d.valueType == OPTION && d.skuSegment && k !in groups {
          groups := groups[k := Group(d.name, d.multi, d.skuRequired, d.sortOrder, d.active, d.remark)];
        }
        todo := todo - {k};
      }
    }

    /** INSERT INTO sku_code_terms SELECT .. ON CONFLICT DO NOTHING, joining options, definitions and groups: every option of
        a recreated group is a term again, and nothing else is. */
    method RecreateTerms()
      requires groups == RecreatedGroups(defs)
      modifies this`terms
      ensures terms == RecreatedTerms(groups, options)
      ensures forall k :: k in groups ==> TermCodes(terms, k) == TermCodes(options, k)
      ensures forall e :: e in terms ==> e.owner in groups
    {
      terms := map[];
      var todo := options.Keys;
      while todo != {}
        invariant todo <= options.Keys
        invariant terms.Keys == RecreatedTerms(groups, options).Keys - todo
        invariant forall e :: e in terms ==> terms[e] == options[e]
        decreases todo
      {
        var e := NextRow(todo);
        var k := e.owner;
        if k in defs && (k.kind == FOOD || k.kind == SUPPLY) && defs[k].valueType == OPTION && defs[k].skuSegment &&
           k in groups && e !in terms {
          terms := terms[e := options[e]];
        }
        todo := todo - {e};
      }
    }

    /** UPDATE sku_code_template_segments .. SET term_group_id = g.id, source_type = 'TERM' */
    method UnbindSegments()
      requires forall s :: s in segments ==> segments[s].template in templates
      modifies this`segments
      ensures segments == UnboundSegments(templates, groups, old(segments))
    {
      var todo := segments.Keys;
      while todo != {}
        invariant todo <= segments.Keys == old(segments).Keys
        invariant forall s :: s in segments ==>
          segments[s] == if s in todo then old(segments)[s] else Unbound(templates, groups, old(segments)[s])
        decreases todo
      {
        var s := NextRow(todo);
        var seg := segments[s];
        if seg.source == ATTRIBUTE_OPTION && seg.attributeDef.Some? {
          var g := Key(templates[seg.template], seg.attributeDef.value.code);
          if g in groups {
            segments := segments[s := seg.(termGroup := Some(g), source := TERM)];
          }
        }
        todo := todo - {s};
      }
    }
  }
}
