/**
 * Operations of the skill catalogue that do not depend on its contents:
 * lookup by id, the referential-integrity check, and the topological-order
 * argument that rules out prerequisite cycles.
 */
module SkillCatalogue {
  import opened Options
  import opened SkillTypes

  /** `tree.find(skill => skill.id === id)`: the first skill with that id. */
  function FindSkill(tree: seq<Skill>, id: string): (r: Option<Skill>)
    ensures r.None? <==> forall i :: 0 <= i < |tree| ==> tree[i].id != id
    ensures r.Some? ==> exists i :: 0 <= i < |tree| && tree[i] == r.value && r.value.id == id
  {
    if tree == [] then None
    else if tree[0].id == id then Some(tree[0])
    else
      var r := FindSkill(tree[1..], id);
      assert r.Some? ==> exists i :: 0 <= i < |tree| - 1 && tree[1..][i] == r.value && r.value.id == id;
      r
  }

  /** The ids of a catalogue. */
  function IdsOf(tree: seq<Skill>): (ids: set<string>)
    ensures forall id :: id in ids <==> exists i :: 0 <= i < |tree| && tree[i].id == id
  {
    set s | s in tree :: s.id
  }

  /** One report of `validateSkillTree`: a prerequisite id that names no skill. */
  datatype ValidationError = InvalidPrerequisite(skillId: string, prereqId: string) {
    function Message(): string {
      "Skill \"" + skillId + "\" has invalid prerequisite \"" + prereqId + "\""
    }
  }

  /** The dangling references among the prerequisites `ps` of `skill`, in order. */
  function DanglingIn(skill: Skill, ids: set<string>, ps: seq<string>): (errs: seq<ValidationError>)
    ensures |errs| <= |ps|
  {
    if ps == [] then []
    else
      var last := ps[|ps| - 1];
      DanglingIn(skill, ids, ps[..|ps| - 1]) + (if last in ids then [] else [InvalidPrerequisite(skill.id, last)])
  }

  /** The dangling references of the first `n` skills, in catalogue order. */
  function DanglingRefs(tree: seq<Skill>, ids: set<string>, n: nat): seq<ValidationError>
    requires n <= |tree|
  {
    if n == 0 then []
    else DanglingRefs(tree, ids, n - 1) + DanglingIn(tree[n - 1], ids, tree[n - 1].prerequisites)
  }

  /** Every prerequisite id names a skill of the catalogue. */
  ghost predicate PrerequisitesResolve(tree: seq<Skill>) {
    forall i, k :: 0 <= i < |tree| && 0 <= k < |tree[i].prerequisites| ==> tree[i].prerequisites[k] in IdsOf(tree)
  }

  lemma {:induction false} DanglingInEmpty(skill: Skill, ids: set<string>, ps: seq<string>)
    ensures DanglingIn(skill, ids, ps) == [] <==> forall k :: 0 <= k < |ps| ==> ps[k] in ids
  {
    if ps != [] {
      DanglingInEmpty(skill, ids, ps[..|ps| - 1]);
    }
  }

  lemma {:induction false} DanglingRefsEmpty(tree: seq<Skill>, ids: set<string>, n: nat)
    requires n <= |tree|
    ensures DanglingRefs(tree, ids, n) == [] <==>
      forall i, k :: 0 <= i < n && 0 <= k < |tree[i].prerequisites| ==> tree[i].prerequisites[k] in ids
  {
    if n > 0 {
      DanglingRefsEmpty(tree, ids, n - 1);
      DanglingInEmpty(tree[n - 1], ids, tree[n - 1].prerequisites);
    }
  }

  /** The check reports nothing exactly when every prerequisite resolves. */
  lemma ValidationAcceptsExactlyResolvedTrees(tree: seq<Skill>)
    ensures DanglingRefs(tree, IdsOf(tree), |tree|) == [] <==> PrerequisitesResolve(tree)
  {
    DanglingRefsEmpty(tree, IdsOf(tree), |tree|);
  }

  /** The messages of a list of reports, in order. */
  function Messages(errs: seq<ValidationError>): (ms: seq<string>)
    ensures |ms| == |errs|
  {
    if errs == [] then [] else Messages(errs[..|errs| - 1]) + [errs[|errs| - 1].Message()]
  }

  lemma {:induction false} MessagesAppend(a: seq<ValidationError>, b: seq<ValidationError>)
    ensures Messages(a + b) == Messages(a) + Messages(b)
    decreases |b|
  {
    if b != [] {
      var b' := b[..|b| - 1];
      assert (a + b)[..|a + b| - 1] == a + b';
      MessagesAppend(a, b');
    } else {
      assert a + b == a;
    }
  }

  /** The inner loop of `validateSkillTree`: the messages for one skill. */
  method CheckPrerequisites(skill: Skill, allIds: set<string>) returns (errors: seq<string>)
    ensures errors == Messages(DanglingIn(skill, allIds, skill.prerequisites))
  {
    errors := [];
    var k := 0;
    while k < |skill.prerequisites|
      invariant 0 <= k <= |skill.prerequisites|
      invariant errors == Messages(DanglingIn(skill, allIds, skill.prerequisites[..k]))
    {
      var prereqId := skill.prerequisites[k];
      ghost var done := DanglingIn(skill, allIds, skill.prerequisites[..k]);
      ghost var next := if prereqId in allIds then [] else [InvalidPrerequisite(skill.id, prereqId)];
      assert skill.prerequisites[..k + 1][..k] == skill.prerequisites[..k];
      assert DanglingIn(skill, allIds, skill.prerequisites[..k + 1]) == done + next;
      MessagesAppend(done, next);
      if prereqId !in allIds {
        errors := errors + [InvalidPrerequisite(skill.id, prereqId).Message()];
      } else {
        assert Messages(next) == [];
      }
      k := k + 1;
    }
    assert skill.prerequisites[..k] == skill.prerequisites;
  }

  /**
   * `validateSkillTree` over any catalogue: one message per dangling
   * prerequisite reference, in catalogue order; valid iff there is none.
   */
  method ValidateTree(tree: seq<Skill>) returns (valid: bool, errors: seq<string>)
    ensures errors == Messages(DanglingRefs(tree, IdsOf(tree), |tree|))
    ensures valid <==> PrerequisitesResolve(tree)
  {
    var allIds := IdsOf(tree);
    errors := CheckAllPrerequisites(tree, allIds);
    valid := |errors| == 0;
    ValidIffNoMessages(tree, errors);
  }

  /** The outer loop of `validateSkillTree`, against a given id set. */
  method CheckAllPrerequisites(tree: seq<Skill>, allIds: set<string>) returns (errors: seq<string>)
    ensures errors == Messages(DanglingRefs(tree, allIds, |tree|))
  {
    errors := [];
    var i := 0;
    while i < |tree|
      invariant 0 <= i <= |tree|
      invariant errors == Messages(DanglingRefs(tree, allIds, i))
    {
      var skillErrors := CheckPrerequisites(tree[i], allIds);
      MessagesOfNextSkill(tree, allIds, i);
      errors := errors + skillErrors;
      i := i + 1;
    }
  }

  /** The messages of the first `i + 1` skills extend those of the first `i`. */
  lemma MessagesOfNextSkill(tree: seq<Skill>, ids: set<string>, i: nat)
    requires i < |tree|
    ensures Messages(DanglingRefs(tree, ids, i + 1)) ==
      Messages(DanglingRefs(tree, ids, i)) + Messages(DanglingIn(tree[i], ids, tree[i].prerequisites))
  {
    var here := DanglingIn(tree[i], ids, tree[i].prerequisites);
    assert DanglingRefs(tree, ids, i + 1) == DanglingRefs(tree, ids, i) + here;
    MessagesAppend(DanglingRefs(tree, ids, i), here);
  }

  lemma ValidIffNoMessages(tree: seq<Skill>, errors: seq<string>)
    requires errors == Messages(DanglingRefs(tree, IdsOf(tree), |tree|))
    ensures |errors| == 0 <==> PrerequisitesResolve(tree)
  {
    ValidationAcceptsExactlyResolvedTrees(tree);
  }

  /** No two skills share an id. */
  predicate UniqueIds(tree: seq<Skill>) {
    forall i, j :: 0 <= i < j < |tree| ==> tree[i].id != tree[j].id
  }

  /** Every prerequisite of skill `i` is the id of a skill listed before it. */
  ghost predicate ResolvedBefore(tree: seq<Skill>, i: nat)
    requires i < |tree|
  {
    forall k :: 0 <= k < |tree[i].prerequisites| ==>
      exists j :: 0 <= j < i && tree[j].id == tree[i].prerequisites[k]
  }

  /** The catalogue lists every skill after all of its prerequisites. */
  ghost predicate ListedEarlier(tree: seq<Skill>) {
    forall i :: 0 <= i < |tree| ==> ResolvedBefore(tree, i)
  }

  /** With unique ids, the lookup finds the skill at each position. */
  lemma {:induction false} FindSkillAt(tree: seq<Skill>, i: nat)
    requires UniqueIds(tree) && i < |tree|
    ensures FindSkill(tree, tree[i].id) == Some(tree[i])
  {
    if i > 0 {
      assert tree[0].id != tree[i].id;
      assert UniqueIds(tree[1..]) by {
        forall a, b | 0 <= a < b < |tree| - 1
          ensures tree[1..][a].id != tree[1..][b].id
        {
          assert tree[1..][a] == tree[a + 1] && tree[1..][b] == tree[b + 1];
        }
      }
      FindSkillAt(tree[1..], i - 1);
      assert tree[1..][i - 1] == tree[i];
    }
  }

  /** A catalogue in topological order has no dangling reference. */
  lemma ListedEarlierResolves(tree: seq<Skill>)
    requires ListedEarlier(tree)
    ensures PrerequisitesResolve(tree)
  {
    forall i, k | 0 <= i < |tree| && 0 <= k < |tree[i].prerequisites|
      ensures tree[i].prerequisites[k] in IdsOf(tree)
    {
      assert ResolvedBefore(tree, i);
    }
  }

  /** A chain of catalogue positions, each skill requiring the next one. */
  ghost predicate IsPrerequisiteChain(tree: seq<Skill>, path: seq<nat>) {
    (forall t :: 0 <= t < |path| ==> path[t] < |tree|) &&
    forall t :: 0 <= t < |path| - 1 ==> tree[path[t + 1]].id in tree[path[t]].prerequisites
  }

  /** In a topologically ordered catalogue a prerequisite sits before its dependent. */
  lemma PrerequisiteListedBefore(tree: seq<Skill>, a: nat, b: nat)
    requires UniqueIds(tree) && ListedEarlier(tree)
    requires a < |tree| && b < |tree| && tree[b].id in tree[a].prerequisites
    ensures b < a
  {
    var k :| 0 <= k < |tree[a].prerequisites| && tree[a].prerequisites[k] == tree[b].id;
    assert ResolvedBefore(tree, a);
    var j :| 0 <= j < a && tree[j].id == tree[a].prerequisites[k];
    assert j == b;
  }

  /** Along a prerequisite chain, positions strictly decrease. */
  lemma {:induction false} ChainDescends(tree: seq<Skill>, path: seq<nat>)
    requires UniqueIds(tree) && ListedEarlier(tree)
    requires IsPrerequisiteChain(tree, path) && |path| >= 2
    ensures path[|path| - 1] < path[0]
  {
    var n := |path|;
    PrerequisiteListedBefore(tree, path[n - 2], path[n - 1]);
    if n > 2 {
      ChainDescends(tree, path[..n - 1]);
    }
  }

  /** No skill of a topologically ordered catalogue requires itself, even indirectly. */
  lemma ListedEarlierIsAcyclic(tree: seq<Skill>, path: seq<nat>)
    requires UniqueIds(tree) && ListedEarlier(tree)
    requires IsPrerequisiteChain(tree, path) && |path| >= 2
    ensures path[0] != path[|path| - 1]
  {
    ChainDescends(tree, path);
  }

  /**
   * The integrity check only looks for dangling ids: two skills that require
   * each other pass it.
   */
  lemma ValidationIgnoresCycles()
    ensures var tree := [Skill("a", "A", Foundational, ["b"], ""), Skill("b", "B", Foundational, ["a"], "")];
      PrerequisitesResolve(tree) && IsPrerequisiteChain(tree, [0, 1, 0])
  {
    var tree := [Skill("a", "A", Foundational, ["b"], ""), Skill("b", "B", Foundational, ["a"], "")];
    assert tree[1].id in IdsOf(tree);
    assert tree[0].id in IdsOf(tree);
  }
}
