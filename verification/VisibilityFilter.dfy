/** The visibility engine as it runs: loops over lists, sets and dictionaries, each proved to compute
    the function of `Visibility` that says what it means. */
module VisibilityFilter {
  import opened Text
  import opened Visibility

  lemma Prefix<T>(xs: seq<T>, n: nat)
    requires n < |xs|
    ensures xs[..n + 1][..n] == xs[..n] && xs[..n + 1] != [] && xs[..n + 1][n] == xs[n]
  {
  }

  lemma Snoc<T>(xs: seq<T>, x: T)
    ensures (xs + [x])[..|xs|] == xs && (xs + [x])[|xs|] == x && xs + [x] != []
  {
  }

  method LatestRejectedPlanReviewRound(phases: Phases, target: Option<int>, arts: seq<Artifact>)
    returns (latest: Option<int>)
    ensures latest == MaxOf(RejectedRounds(phases, target, arts))
  {
    latest := None;
    assert arts[..0] == [];
    for n := 0 to |arts|
      invariant latest == MaxOf(RejectedRounds(phases, target, arts[..n]))
    {
      Prefix(arts, n);
      hide RowOf;
      var a := arts[n];
      if IsRejection(phases, target, a) {
        Snoc(RejectedRounds(phases, target, arts[..n]), RowOf(phases, a).value.round.value);
        if latest.None? || RowOf(phases, a).value.round.value > latest.value {
          latest := Some(RowOf(phases, a).value.round.value);
        }
      }
    }
    assert arts[..|arts|] == arts;
  }

  /** The dictionaries of `_latest_complete_artifact_phase`: types and best order key per phase. */
  ghost predicate Tabled(phases: Phases, reports: seq<(string, Artifact)>, ids: seq<string>,
                         types: map<string, set<string>>, order: map<string, Key>)
  {
    && ids == Groups(reports)
    && (forall id :: id in types <==> id in ids)
    && (forall id :: id in order <==> id in ids)
    && (forall id :: id in types ==> types[id] == TypesIn(reports, id))
    && (forall id :: id in order ==> Best(phases, reports, id).Some?
                                     && order[id] == OrderKey(phases, Best(phases, reports, id).value))
    && (forall id :: id !in ids ==> Best(phases, reports, id) == None && TypesIn(reports, id) == {})
  }

  lemma GroupsNext<K>(ps: seq<(K, Artifact)>, id: K, a: Artifact)
    ensures Groups(ps + [(id, a)]) == if id in Groups(ps) then Groups(ps) else Groups(ps) + [id]
  {
    Snoc(ps, (id, a));
  }

  /** The best of group `k` once `a` has joined group `id`. */
  function Improved<K(==)>(phases: Phases, ps: seq<(K, Artifact)>, id: K, a: Artifact, k: K): Option<Artifact> {
    var before := Best(phases, ps, k);
    if id == k && (before.None? || Less(OrderKey(phases, before.value), OrderKey(phases, a))) then Some(a) else before
  }

  lemma BestNext<K>(phases: Phases, ps: seq<(K, Artifact)>, id: K, a: Artifact, k: K)
    ensures Best(phases, ps + [(id, a)], k) == Improved(phases, ps, id, a, k)
  {
    hide Less, OrderKey;
    Snoc(ps, (id, a));
  }

  lemma TypesNext(reports: seq<(string, Artifact)>, id: string, a: Artifact, k: string)
    ensures TypesIn(reports + [(id, a)], k) == TypesIn(reports, k) + if id == k then {a.typ} else {}
  {
    Snoc(reports, (id, a));
  }

  lemma TabledNext(phases: Phases, reports: seq<(string, Artifact)>, ids: seq<string>,
                   types: map<string, set<string>>, order: map<string, Key>, id: string, a: Artifact)
    requires Tabled(phases, reports, ids, types, order)
    ensures Tabled(phases, reports + [(id, a)], if id in ids then ids else ids + [id],
                   types[id := (if id in types then types[id] else {}) + {a.typ}],
                   if id !in order || Less(order[id], OrderKey(phases, a))
                    then order[id := OrderKey(phases, a)] else order)
  {
    hide Less, OrderKey, Best, TypesIn, Groups;
    GroupsNext(reports, id, a);
    forall k ensures TypesIn(reports + [(id, a)], k) == TypesIn(reports, k) + if id == k then {a.typ} else {} {
      TypesNext(reports, id, a, k);
    }
    forall k: string ensures Best(phases, reports + [(id, a)], k) == Improved(phases, reports, id, a, k) {
      BestNext(phases, reports, id, a, k);
    }
  }

  method LatestCompleteArtifactPhase(phases: Phases, before: Option<int>, arts: seq<Artifact>)
    returns (latest: Option<string>)
    ensures latest == CompleteTestPhase(phases, before, arts)
  {
    hide Less, OrderKey, RowOf, Best, TypesIn, Groups, IsReport;
    var ids: seq<string>, types: map<string, set<string>>, order: map<string, Key> := [], map[], map[];
    assert arts[..0] == [];
    NothingTabled(phases);
    for n := 0 to |arts|
      invariant Tabled(phases, Reports(phases, before, arts[..n]), ids, types, order)
    {
      Prefix(arts, n);
      var a := arts[n];
      if IsReport(phases, before, a) {
        var id, key := Or(a.phaseId, ""), OrderKey(phases, a);
        TabledNext(phases, Reports(phases, before, arts[..n]), ids, types, order, id, a);
        ids := if id in ids then ids else ids + [id];
        types := types[id := (if id in types then types[id] else {}) + {a.typ}];
        if id !in order || Less(order[id], key) {
          order := order[id := key];
        }
      }
    }
    assert arts[..|arts|] == arts;
    ghost var reports := Reports(phases, before, arts);
    latest := None;
    assert ids[..0] == [];
    for n := 0 to |ids|
      invariant latest == BestComplete(phases, reports, ids[..n])
      invariant latest.Some? ==> latest.value in ids
    {
      Prefix(ids, n);
      if TEST_REPORTS <= types[ids[n]] && (latest.None? || Less(order[latest.value], order[ids[n]])) {
        latest := Some(ids[n]);
      }
    }
    assert ids[..|ids|] == ids;
  }

  lemma NothingTabled(phases: Phases)
    ensures Tabled(phases, [], [], map[], map[])
  {
  }

  method VisibilityContext(phases: Phases, target: Option<int>, arts: seq<Artifact>) returns (ctx: Context)
    ensures ctx == ContextOf(phases, target, arts)
  {
    var rejected := LatestRejectedPlanReviewRound(phases, target, arts);
    var before: Option<string> := None;
    if target.Some? {
      before := LatestCompleteArtifactPhase(phases, target, arts);
    }
    var latest := LatestCompleteArtifactPhase(phases, None, arts);
    ctx := Context(MaxOf(PlanningRounds(phases, arts)), rejected, before, latest);
  }

  /** `visibility_reason_for_artifact`: the index of the rule that explains an artifact, or none. */
  method VisibilityReason(scope: Scope, arts: seq<Artifact>, a: Artifact) returns (index: Option<nat>)
    ensures index == RuleFor(scope, ContextOf(scope.phases, scope.target, arts), a)
  {
    hide Matches, ContextOf;
    var ctx := VisibilityContext(scope.phases, scope.target, arts);
    for i := 0 to |scope.rules|
      invariant FirstRule(scope, ctx, a, i) == FirstRule(scope, ctx, a, 0)
    {
      if Matches(scope, ctx, scope.rules[i], a) {
        return Some(i);
      }
    }
    index := None;
  }

  /** `latest_matches`: the slots in the order in which they were filled, and who holds each. */
  ghost predicate Held(phases: Phases, ps: seq<(Slot, Artifact)>, slots: seq<Slot>, latest: map<Slot, Artifact>) {
    && slots == Groups(ps)
    && (forall k :: k in latest <==> k in slots)
    && (forall k :: k in latest ==> Best(phases, ps, k) == Some(latest[k]))
    && (forall k :: k !in slots ==> Best(phases, ps, k) == None)
  }

  lemma HeldNext(phases: Phases, ps: seq<(Slot, Artifact)>, slots: seq<Slot>, latest: map<Slot, Artifact>, k: Slot,
                 a: Artifact)
    requires Held(phases, ps, slots, latest)
    ensures Held(phases, ps + [(k, a)], if k in slots then slots else slots + [k],
                 if k !in latest || Less(OrderKey(phases, latest[k]), OrderKey(phases, a))
                  then latest[k := a] else latest)
  {
    hide Less, OrderKey, Best, Groups;
    GroupsNext(ps, k, a);
    forall j: Slot ensures Best(phases, ps + [(k, a)], j) == Improved(phases, ps, k, a, j) {
      BestNext(phases, ps, k, a, j);
    }
  }

  lemma NothingHeld(phases: Phases)
    ensures Held(phases, [], [], map[])
  {
  }

  /** `append_once` with the names seen so far. */
  method AppendOnce(ghost seen: seq<Artifact>, filtered: seq<Artifact>, names: set<string>, a: Artifact)
    returns (filtered': seq<Artifact>, names': set<string>)
    requires filtered == OnceEach(seen) && names == (set b | b in filtered :: Name(b))
    ensures filtered' == OnceEach(seen + [a]) && names' == (set b | b in filtered' :: Name(b))
  {
    hide Name;
    Snoc(seen, a);
    filtered', names' := filtered, names;
    if Name(a) !in names {
      filtered', names' := filtered + [a], names + {Name(a)};
    }
  }

  /** `filter_visible_artifacts`. */
  method FilterVisibleArtifacts(scope: Scope, arts: seq<Artifact>) returns (filtered: seq<Artifact>)
    ensures filtered == Visible(scope, arts)
  {
    hide Less, OrderKey, Matches, ContextOf, Best, Groups, Held, OnceEach, Name, IsLatest;
    var ctx := VisibilityContext(scope.phases, scope.target, arts);
    var names: set<string> := {};
    var slots: seq<Slot>, latest: map<Slot, Artifact> := [], map[];
    filtered := Nothing();
    assert arts[..0] == [];
    NothingHeld(scope.phases);
    for n := 0 to |arts|
      invariant filtered == OnceEach(Immediate(scope, ctx, arts[..n]))
      invariant names == (set b | b in filtered :: Name(b))
      invariant Held(scope.phases, Slotted(scope, ctx, arts[..n]), slots, latest)
    {
      Prefix(arts, n);
      var a := arts[n];
      var i := 0;
      while i < |scope.rules| && !Matches(scope, ctx, scope.rules[i], a)
        invariant 0 <= i <= |scope.rules| && FirstRule(scope, ctx, a, i) == FirstRule(scope, ctx, a, 0)
      {
        i := i + 1;
      }
      if i < |scope.rules| {
        if IsLatest(scope.rules[i]) {
          var slot := (i, a.typ);
          HeldNext(scope.phases, Slotted(scope, ctx, arts[..n]), slots, latest, slot, a);
          var better := Replaces(scope.phases, slots, latest, slot, a, Slotted(scope, ctx, arts[..n]));
          slots := if slot in slots then slots else slots + [slot];
          if better {
            latest := latest[slot := a];
          }
        } else {
          filtered, names := AppendOnce(Immediate(scope, ctx, arts[..n]), filtered, names, a);
        }
      }
    }
    assert arts[..|arts|] == arts;
    filtered := AppendWinners(scope, arts, ctx, filtered, names, slots, latest);
  }

  method Nothing() returns (filtered: seq<Artifact>)
    ensures filtered == [] == OnceEach([])
  {
    filtered := [];
  }

  method Replaces(phases: Phases, slots: seq<Slot>, latest: map<Slot, Artifact>, slot: Slot, a: Artifact,
                  ghost ps: seq<(Slot, Artifact)>) returns (better: bool)
    requires Held(phases, ps, slots, latest)
    ensures better == (slot !in latest || Less(OrderKey(phases, latest[slot]), OrderKey(phases, a)))
  {
    better := slot !in latest || Less(OrderKey(phases, latest[slot]), OrderKey(phases, a));
  }

  /** The last loop: `for artifact in latest_matches.values()`. */
  method AppendWinners(scope: Scope, arts: seq<Artifact>, ctx: Context, immediate: seq<Artifact>, names: set<string>,
                       slots: seq<Slot>, latest: map<Slot, Artifact>) returns (filtered: seq<Artifact>)
    requires ctx == ContextOf(scope.phases, scope.target, arts)
    requires immediate == OnceEach(Immediate(scope, ctx, arts)) && names == (set b | b in immediate :: Name(b))
    requires Held(scope.phases, Slotted(scope, ctx, arts), slots, latest)
    ensures filtered == Visible(scope, arts)
  {
    hide Less, OrderKey, Matches, ContextOf, Best, Groups, OnceEach, Name, Immediate, Slotted;
    ghost var first, slotted := Immediate(scope, ctx, arts), Slotted(scope, ctx, arts);
    filtered := immediate;
    var seen := names;
    assert slots[..0] == [];
    assert first + [] == first;
    for n := 0 to |slots|
      invariant filtered == OnceEach(first + Winners(scope.phases, slotted, slots[..n]))
      invariant seen == (set b | b in filtered :: Name(b))
    {
      Prefix(slots, n);
      ghost var soFar := first + Winners(scope.phases, slotted, slots[..n]);
      filtered, seen := AppendOnce(soFar, filtered, seen, latest[slots[n]]);
      assert soFar + [latest[slots[n]]] == first + Winners(scope.phases, slotted, slots[..n + 1]);
    }
    assert slots[..|slots|] == slots;
  }
}
