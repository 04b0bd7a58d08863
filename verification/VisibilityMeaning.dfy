/** What the visibility filter means: which artifacts it shows, said without loops or tables, and why
    neither the order of the artifacts nor later rounds matter. */
module VisibilityMeaning {
  import opened Text
  import opened Visibility

  // ---------------------------------------------------------------- the order is total

  lemma {:induction false} StrTotal(a: string, b: string)
    ensures StrLess(a, b) ==> !StrLess(b, a)
    ensures a != b ==> StrLess(a, b) || StrLess(b, a)
    decreases |a|
  {
    if a != "" && b != "" && a[0] == b[0] {
      StrTotal(a[1..], b[1..]);
      assert a == [a[0]] + a[1..] && b == [b[0]] + b[1..];
    }
  }

  lemma {:induction false} StrTransitive(a: string, b: string, c: string)
    requires !StrLess(b, a) && !StrLess(c, b)
    ensures !StrLess(c, a)
    decreases |a|
  {
    if a != "" && b != "" && c != "" && a[0] == b[0] == c[0] {
      StrTransitive(a[1..], b[1..], c[1..]);
    }
  }

  lemma KeyTotal(a: Key, b: Key)
    ensures Less(a, b) ==> !Less(b, a)
    ensures a != b ==> Less(a, b) || Less(b, a)
  {
    hide StrLess;
    StrTotal(a.createdAt, b.createdAt);
    StrTotal(a.name, b.name);
  }

  lemma KeyTransitive(a: Key, b: Key, c: Key)
    requires !Less(b, a) && !Less(c, b)
    ensures !Less(c, a)
  {
    hide StrLess;
    StrTotal(a.createdAt, b.createdAt);
    StrTotal(b.createdAt, c.createdAt);
    StrTotal(a.createdAt, c.createdAt);
    if !StrLess(b.createdAt, a.createdAt) && !StrLess(c.createdAt, b.createdAt) {
      StrTransitive(a.createdAt, b.createdAt, c.createdAt);
    }
    if !StrLess(b.name, a.name) && !StrLess(c.name, b.name) {
      StrTransitive(a.name, b.name, c.name);
    }
  }

  // ---------------------------------------------------------------- what "latest" means

  /** The texts first differ at `k`, where `a` ends or has the smaller character. */
  predicate EarlierAt(a: string, b: string, k: nat) {
    k < |b| && k <= |a| && a[..k] == b[..k] && (k == |a| || a[k] < b[k])
  }

  predicate Earlier(a: string, b: string) {
    exists k :: 0 <= k < |b| && EarlierAt(a, b, k)
  }

  lemma {:induction false} StrLessMeans(a: string, b: string)
    ensures StrLess(a, b) <==> Earlier(a, b)
    decreases |a|
  {
    if a != "" && b != "" && a[0] == b[0] {
      StrLessMeans(a[1..], b[1..]);
      if Earlier(a[1..], b[1..]) {
        var k :| 0 <= k < |b[1..]| && EarlierAt(a[1..], b[1..], k);
        assert a[..k + 1] == [a[0]] + a[1..][..k] && b[..k + 1] == [b[0]] + b[1..][..k];
        assert EarlierAt(a, b, k + 1);
      }
      if Earlier(a, b) {
        var k :| 0 <= k < |b| && EarlierAt(a, b, k);
        assert a[1..][..k - 1] == a[..k][1..] && b[1..][..k - 1] == b[..k][1..];
        assert EarlierAt(a[1..], b[1..], k - 1);
      }
    } else {
      assert forall k :: 0 < k < |b| && k <= |a| ==> a[..k][0] == a[0] && b[..k][0] == b[0];
      assert b != "" && (a == "" || a[0] < b[0]) ==> EarlierAt(a, b, 0);
    }
  }

  /** The round of an artifact: that of its phase if it has one, else the one named inside the file. */
  predicate HasRound(phases: Phases, a: Artifact, round: int) {
    var phase := if a.phaseId.Some? then a.phaseId.value else "";
    if phase in phases && phases[phase].round.Some? then phases[phase].round == Some(round)
    else a.declaredRound == Some(round)
  }

  /** The round that counts for the order; no round counts as -1. */
  ghost predicate Counts(phases: Phases, a: Artifact, round: int) {
    HasRound(phases, a, round) || (round == -1 && forall r :: !HasRound(phases, a, r))
  }

  ghost predicate LowerRound(phases: Phases, a: Artifact, b: Artifact) {
    exists r, q :: Counts(phases, a, r) && Counts(phases, b, q) && r < q
  }

  ghost predicate SameRound(phases: Phases, a: Artifact, b: Artifact) {
    exists r :: Counts(phases, a, r) && Counts(phases, b, r)
  }

  /** Artifact `a` is older than `b`: of a lower round, or of the same round and a lower version, or of
      both the same and an earlier time; if all agree, ids, or else paths, break the tie. */
  ghost predicate Older(phases: Phases, a: Artifact, b: Artifact) {
    || LowerRound(phases, a, b)
    || (SameRound(phases, a, b) && a.version < b.version)
    || (SameRound(phases, a, b) && a.version == b.version && Earlier(a.createdAt, b.createdAt))
    || (SameRound(phases, a, b) && a.version == b.version && a.createdAt == b.createdAt
        && Earlier(TieBreak(a), TieBreak(b)))
  }

  function TieBreak(a: Artifact): string {
    if a.id == "" then a.path else a.id
  }

  lemma CountsOne(phases: Phases, a: Artifact)
    ensures forall r :: Counts(phases, a, r) <==> r == OrderKey(phases, a).round
    ensures forall r :: HasRound(phases, a, r) <==> EffectiveRound(phases, a) == Some(r)
  {
    assert forall r :: HasRound(phases, a, r) <==> EffectiveRound(phases, a) == Some(r);
    hide HasRound;
    if EffectiveRound(phases, a).Some? { assert HasRound(phases, a, EffectiveRound(phases, a).value); }
  }

  /** The order of the keys is exactly that. */
  lemma LessMeans(phases: Phases, a: Artifact, b: Artifact)
    ensures Less(OrderKey(phases, a), OrderKey(phases, b)) <==> Older(phases, a, b)
  {
    CountsOne(phases, a);
    CountsOne(phases, b);
    StrLessMeans(a.createdAt, b.createdAt);
    StrLessMeans(OrderName(a), OrderName(b));
    hide Earlier, StrLess, Counts, EffectiveRound, HasRound;
    var r, q := OrderKey(phases, a).round, OrderKey(phases, b).round;
    assert Counts(phases, a, r) && Counts(phases, b, q);
  }

  // ---------------------------------------------------------------- what the folds compute

  lemma MaxOfIs(xs: seq<int>)
    ensures MaxOf(xs).None? <==> xs == []
    ensures MaxOf(xs).Some? ==> MaxOf(xs).value in xs && forall x :: x in xs ==> x <= MaxOf(xs).value
    decreases |xs|
  {
    if xs != [] {
      MaxOfIs(xs[..|xs| - 1]);
      assert xs == xs[..|xs| - 1] + [xs[|xs| - 1]];
    }
  }

  /** The best of a group is a member with the greatest order key. */
  lemma {:induction false} BestIsGreatest<K>(phases: Phases, ps: seq<(K, Artifact)>, k: K)
    ensures Best(phases, ps, k).None? ==> forall b :: (k, b) !in ps
    ensures Best(phases, ps, k).Some? ==> (k, Best(phases, ps, k).value) in ps
    ensures Best(phases, ps, k).Some? ==>
      forall b :: (k, b) in ps ==> !Less(OrderKey(phases, Best(phases, ps, k).value), OrderKey(phases, b))
    decreases |ps|
  {
    hide Less, OrderKey;
    if ps != [] {
      var before, last := ps[..|ps| - 1], ps[|ps| - 1];
      BestIsGreatest(phases, before, k);
      assert ps == before + [last];
      var best := Best(phases, ps, k);
      if last.0 == k {
        forall b | (k, b) in ps ensures !Less(OrderKey(phases, best.value), OrderKey(phases, b)) {
          KeyTotal(OrderKey(phases, best.value), OrderKey(phases, last.1));
          if (k, b) in before {
            BeatsEarlier(phases, Best(phases, before, k).value, last.1, b);
          }
        }
      }
    }
  }

  lemma BeatsEarlier(phases: Phases, loser: Artifact, winner: Artifact, b: Artifact)
    requires !Less(OrderKey(phases, loser), OrderKey(phases, b))
    ensures Less(OrderKey(phases, loser), OrderKey(phases, winner)) ==>
      !Less(OrderKey(phases, winner), OrderKey(phases, b))
  {
    hide Less, OrderKey;
    KeyTotal(OrderKey(phases, loser), OrderKey(phases, winner));
    if Less(OrderKey(phases, loser), OrderKey(phases, winner)) {
      KeyTransitive(OrderKey(phases, b), OrderKey(phases, loser), OrderKey(phases, winner));
    }
  }

  lemma {:induction false} GroupsAre<K>(phases: Phases, ps: seq<(K, Artifact)>, k: K)
    ensures k in Groups(ps) <==> Best(phases, ps, k).Some?
    decreases |ps|
  {
    hide Less, OrderKey;
    if ps != [] {
      GroupsAre(phases, ps[..|ps| - 1], k);
    }
  }

  lemma {:induction false} ImmediateAre(scope: Scope, ctx: Context, arts: seq<Artifact>, a: Artifact)
    ensures a in Immediate(scope, ctx, arts) <==> a in arts && IsImmediate(scope, ctx, a)
    decreases |arts|
  {
    hide IsImmediate;
    if arts != [] {
      ImmediateAre(scope, ctx, arts[..|arts| - 1], a);
      assert arts == arts[..|arts| - 1] + [arts[|arts| - 1]];
    }
  }

  lemma {:induction false} SlottedAre(scope: Scope, ctx: Context, arts: seq<Artifact>, k: Slot, a: Artifact)
    ensures (k, a) in Slotted(scope, ctx, arts) <==> a in arts && SlotOf(scope, ctx, a) == Some(k)
    decreases |arts|
  {
    hide SlotOf;
    if arts != [] {
      SlottedAre(scope, ctx, arts[..|arts| - 1], k, a);
      assert arts == arts[..|arts| - 1] + [arts[|arts| - 1]];
    }
  }

  lemma {:induction false} WinnersAre(phases: Phases, ps: seq<(Slot, Artifact)>, slots: seq<Slot>, a: Artifact)
    ensures a in Winners(phases, ps, slots) <==> exists k :: k in slots && Best(phases, ps, k) == Some(a)
    decreases |slots|
  {
    hide Best;
    if slots != [] {
      var before, last := slots[..|slots| - 1], slots[|slots| - 1];
      WinnersAre(phases, ps, before, a);
      assert slots == before + [last];
      if Best(phases, ps, last) == Some(a) {
        assert last in slots;
      }
    }
  }

  // ---------------------------------------------------------------- duplicates

  /** Two artifacts count as one iff they have the same id, or one's id is what the other, without id, is told by:
      its path or, without path, its row. */
  lemma SameName(a: Artifact, b: Artifact)
    ensures a.id != "" && b.id != "" ==> (Name(a) == Name(b) <==> a.id == b.id)
    ensures a.id != "" && b.id == "" && b.path != "" ==> (Name(a) == Name(b) <==> a.id == b.path)
    ensures a.id != "" && b.id == "" && b.path == "" ==> (Name(a) == Name(b) <==> a.id == b.memory)
    ensures a.id == "" && b.id == "" && a.path != "" && b.path != "" ==> (Name(a) == Name(b) <==> a.path == b.path)
    ensures a.id == "" && b.id == "" && a.path == "" && b.path == "" ==> (Name(a) == Name(b) <==> a.memory == b.memory)
  {
  }

  /** Artifacts with different ids of their own are told apart. */
  lemma OwnIdsAreDistinct(arts: seq<Artifact>)
    requires forall a :: a in arts ==> a.id != ""
    requires forall a, b :: a in arts && b in arts && a != b ==> a.id != b.id
    ensures Distinct(arts)
  {
  }

  /** Different artifacts have different names, also as tie breakers. */
  ghost predicate Distinct(arts: seq<Artifact>) {
    forall a, b :: a in arts && b in arts && a != b ==> Name(a) != Name(b) && OrderName(a) != OrderName(b)
  }

  predicate Named(xs: seq<Artifact>, name: string) {
    exists b :: b in xs && Name(b) == name
  }

  predicate NoNameTwice(xs: seq<Artifact>) {
    forall i, j :: 0 <= i < j < |xs| ==> Name(xs[i]) != Name(xs[j])
  }

  /** Dropping duplicates keeps exactly the names there were, each once, and adds nothing. */
  lemma {:induction false} OnceEachIs(xs: seq<Artifact>)
    ensures forall a :: a in OnceEach(xs) ==> a in xs
    ensures forall a :: a in xs ==> Named(OnceEach(xs), Name(a))
    ensures NoNameTwice(OnceEach(xs))
    decreases |xs|
  {
    hide Name, Named, NoNameTwice;
    if xs == [] {
      NoneTwice();
    } else {
      var before, last := OnceEach(xs[..|xs| - 1]), xs[|xs| - 1];
      OnceEachIs(xs[..|xs| - 1]);
      assert xs == xs[..|xs| - 1] + [last];
      OneMoreName(before, last);
    }
  }

  lemma NoneTwice()
    ensures NoNameTwice([])
  {
  }

  lemma OneMoreName(before: seq<Artifact>, last: Artifact)
    requires NoNameTwice(before)
    ensures Named(before, Name(last)) <==> exists b :: b in before && Name(b) == Name(last)
    ensures !Named(before, Name(last)) ==> NoNameTwice(before + [last])
    ensures Named(before + [last], Name(last))
    ensures forall name :: Named(before, name) ==> Named(before + [last], name)
  {
    hide Name;
    forall name | Named(before, name) ensures Named(before + [last], name) {
      var b :| b in before && Name(b) == name;
      assert b in before + [last];
    }
    assert last in before + [last];
  }

  lemma OnceEachMembers(xs: seq<Artifact>, a: Artifact)
    requires forall x, y :: x in xs && y in xs && x != y ==> Name(x) != Name(y)
    ensures a in OnceEach(xs) <==> a in xs
  {
    hide Name, OnceEach;
    OnceEachIs(xs);
  }

  // ---------------------------------------------------------------- what is shown

  /** An artifact is shown iff its first matching rule does not ask for the latest, or it is not older
      than any artifact of its type with that first matching rule. */
  ghost predicate ShouldShow(scope: Scope, ctx: Context, arts: seq<Artifact>, a: Artifact) {
    a in arts &&
    var r := RuleFor(scope, ctx, a);
    r.Some? &&
    (IsLatest(scope.rules[r.value]) ==>
      forall b :: b in arts && b.typ == a.typ && RuleFor(scope, ctx, b) == r ==>
        !Older(scope.phases, a, b))
  }

  lemma SameKeySameArtifact(phases: Phases, arts: seq<Artifact>, a: Artifact, b: Artifact)
    requires Distinct(arts) && a in arts && b in arts
    requires !Less(OrderKey(phases, a), OrderKey(phases, b)) && !Less(OrderKey(phases, b), OrderKey(phases, a))
    ensures a == b
  {
    hide Less, Name, OrderName;
    KeyTotal(OrderKey(phases, a), OrderKey(phases, b));
  }

  /** The winner of a slot is the artifact to show of that slot. */
  lemma SlotWinner(scope: Scope, ctx: Context, arts: seq<Artifact>, a: Artifact, k: Slot)
    requires Distinct(arts) && SlotOf(scope, ctx, a) == Some(k) && a in arts
    ensures Best(scope.phases, Slotted(scope, ctx, arts), k) == Some(a) <==> ShouldShow(scope, ctx, arts, a)
  {
    hide Less, OrderKey, Best, Slotted, FirstRule, Matches, Distinct, Older;
    forall x, y ensures Less(OrderKey(scope.phases, x), OrderKey(scope.phases, y)) <==> Older(scope.phases, x, y) {
      LessMeans(scope.phases, x, y);
    }
    var ps := Slotted(scope, ctx, arts);
    BestIsGreatest(scope.phases, ps, k);
    forall j, b ensures (j, b) in ps <==> b in arts && SlotOf(scope, ctx, b) == Some(j) {
      SlottedAre(scope, ctx, arts, j, b);
    }
    assert (k, a) in ps;
    var best := Best(scope.phases, ps, k).value;
    if ShouldShow(scope, ctx, arts, a) {
      SameKeySameArtifact(scope.phases, arts, a, best);
    }
  }

  /** The filter shows exactly the artifacts it should. */
  lemma FilterMeaning(scope: Scope, arts: seq<Artifact>, a: Artifact)
    requires Distinct(arts)
    ensures a in Visible(scope, arts) <==>
            ShouldShow(scope, ContextOf(scope.phases, scope.target, arts), arts, a)
  {
    hide Less, OrderKey, Best, Slotted, ContextOf, Groups, Immediate, Winners, OnceEach, ShouldShow, RuleFor, Name,
         OrderName;
    var ctx := ContextOf(scope.phases, scope.target, arts);
    var slotted, first := Slotted(scope, ctx, arts), Immediate(scope, ctx, arts);
    var winners := Winners(scope.phases, slotted, Groups(slotted));
    forall x ensures x in first <==> x in arts && IsImmediate(scope, ctx, x) { ImmediateAre(scope, ctx, arts, x); }
    forall x ensures x in winners <==> IsWinner(scope, ctx, arts, x) { WinnerOrNot(scope, ctx, arts, x); }
    OnceEachMembers(first + winners, a);
    ImmediateShown(scope, ctx, arts, a);
  }

  ghost predicate IsWinner(scope: Scope, ctx: Context, arts: seq<Artifact>, a: Artifact) {
    a in arts && SlotOf(scope, ctx, a).Some? && ShouldShow(scope, ctx, arts, a)
  }

  lemma ImmediateShown(scope: Scope, ctx: Context, arts: seq<Artifact>, a: Artifact)
    ensures ShouldShow(scope, ctx, arts, a) <==>
            (a in arts && IsImmediate(scope, ctx, a)) || IsWinner(scope, ctx, arts, a)
  {
    hide Older, FirstRule, Matches;
  }

  lemma WinnerOrNot(scope: Scope, ctx: Context, arts: seq<Artifact>, a: Artifact)
    requires Distinct(arts)
    ensures var ps := Slotted(scope, ctx, arts);
      a in Winners(scope.phases, ps, Groups(ps)) <==> IsWinner(scope, ctx, arts, a)
  {
    hide Less, OrderKey, Best, Slotted, Groups, ShouldShow, SlotOf, Winners;
    var ps := Slotted(scope, ctx, arts);
    WinnersAre(scope.phases, ps, Groups(ps), a);
    forall k: Slot ensures k in Groups(ps) <==> Best(scope.phases, ps, k).Some? { GroupsAre(scope.phases, ps, k); }
    if a in arts && SlotOf(scope, ctx, a).Some? {
      SlotWinner(scope, ctx, arts, a, SlotOf(scope, ctx, a).value);
    }
    forall k: Slot | Best(scope.phases, ps, k) == Some(a) ensures a in arts && SlotOf(scope, ctx, a) == Some(k) {
      BestIsGreatest(scope.phases, ps, k);
      SlottedAre(scope, ctx, arts, k, a);
    }
  }

  /** Whatever the ids are, what is shown was admitted by the rule that the explanation names, and
      no two shown artifacts share a name. */
  lemma ExplanationAgrees(scope: Scope, arts: seq<Artifact>, a: Artifact)
    requires a in Visible(scope, arts)
    ensures var ctx := ContextOf(scope.phases, scope.target, arts); var r := RuleFor(scope, ctx, a);
      && a in arts && r.Some? && Matches(scope, ctx, scope.rules[r.value], a)
      && (if IsLatest(scope.rules[r.value])
          then Best(scope.phases, Slotted(scope, ctx, arts), (r.value, a.typ)) == Some(a)
          else a in Immediate(scope, ctx, arts))
    ensures forall b :: b in Visible(scope, arts) && Name(b) == Name(a) ==> b == a
  {
    hide Less, OrderKey, Best, Slotted, ContextOf, Groups, Immediate, Winners, OnceEach, FirstRule, Matches, Name;
    var ctx := ContextOf(scope.phases, scope.target, arts);
    var ps := Slotted(scope, ctx, arts);
    OnceEachIs(Immediate(scope, ctx, arts) + Winners(scope.phases, ps, Groups(ps)));
    ImmediateAre(scope, ctx, arts, a);
    WinnersAre(scope.phases, ps, Groups(ps), a);
    forall k: Slot | Best(scope.phases, ps, k) == Some(a) ensures a in arts && SlotOf(scope, ctx, a) == Some(k) {
      BestIsGreatest(scope.phases, ps, k);
      SlottedAre(scope, ctx, arts, k, a);
    }
  }
}
