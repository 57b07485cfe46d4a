/** The compiler is deterministic and ignores admission order; more experience only adds;
    and everything a layer refers to is there. */
module LieTheorems {
  import opened LieRules
  import opened Orders
  import opened Wrappers

  // -- one layer per corpus -----------------------------------------------------------------

  lemma LeastUnique(ids: set<Id>, le: Order, a: Id, b: Id)
    requires TotalOrder(le) && Least(a, ids, le) && Least(b, ids, le)
    ensures a == b
  {
    assert le(a, b) && le(b, a);
  }

  lemma InsteadUnique(c: Corpus, le: Order, facets: Signature, approach: Approach, a: Option<Id>, b: Option<Id>)
    requires TotalOrder(le) && Instead(c, le, facets, approach, a) && Instead(c, le, facets, approach, b)
    ensures a == b
  {
    var patterns, recipes := OtherPatterns(c, facets, approach), RecipesFor(c, facets);
    if patterns != {} {
      LeastUnique(patterns, le, a.value, b.value);
    } else if recipes != {} {
      LeastUnique(recipes, le, a.value, b.value);
    }
  }

  lemma ArtifactUnique(c: Corpus, le: Order, id: Id, a: Artifact, b: Artifact)
    requires TotalOrder(le) && ArtifactOf(c, le, id, a) && ArtifactOf(c, le, id, b)
    ensures a == b
  {
    if id.AntiId? {
      InsteadUnique(c, le, id.facets, id.approach, a.body.insteadOf, b.body.insteadOf);
    }
  }

  function IdsOf(artifacts: seq<Artifact>): (ids: seq<Id>)
    ensures |ids| == |artifacts| && forall i :: 0 <= i < |ids| ==> ids[i] == artifacts[i].id
  {
    seq(|artifacts|, i requires 0 <= i < |artifacts| => artifacts[i].id)
  }

  lemma LayerIds(c: Corpus, le: Order, artifacts: seq<Artifact>, id: Id)
    requires LayerOf(c, le, artifacts)
    ensures id in IdsOf(artifacts) <==> InLayer(c, id)
  {
    if id in IdsOf(artifacts) {
      var i :| 0 <= i < |artifacts| && IdsOf(artifacts)[i] == id;
      assert artifacts[i].id == id;
    }
    if Has(artifacts, id) {
      var i :| 0 <= i < |artifacts| && artifacts[i].id == id;
      assert IdsOf(artifacts)[i] == id;
    }
  }

  /** A corpus has exactly one layer. */
  lemma LayerUnique(c: Corpus, le: Order, a: seq<Artifact>, b: seq<Artifact>)
    requires TotalOrder(le) && LayerOf(c, le, a) && LayerOf(c, le, b)
    ensures a == b
  {
    forall id ensures id in IdsOf(a) <==> id in IdsOf(b) {
      LayerIds(c, le, a, id);
      LayerIds(c, le, b, id);
    }
    assert Elements(IdsOf(a)) == Elements(IdsOf(b));
    ListingUnique(IdsOf(a), IdsOf(b), le);
    forall i | 0 <= i < |a| ensures a[i] == b[i] {
      assert IdsOf(a)[i] == IdsOf(b)[i];
      ArtifactUnique(c, le, a[i].id, a[i], b[i]);
    }
  }

  /** Admission order does not matter: the same records and the same rulings, in any
      order, compile to the identical layer. */
  lemma OrderInsensitive(records: seq<Rec>, shuffled: seq<Rec>, overlay: seq<Ruling>, reruled: seq<Ruling>, rules: Ruleset, le: Order,
                         a: seq<Artifact>, b: seq<Artifact>)
    requires multiset(records) == multiset(shuffled) && multiset(overlay) == multiset(reruled) && TotalOrder(le)
    requires LayerOf(CorpusOf(Elements(records), Elements(overlay), rules), le, a)
    requires LayerOf(CorpusOf(Elements(shuffled), Elements(reruled), rules), le, b)
    ensures a == b
  {
    SameElements(records, shuffled);
    SameElements(overlay, reruled);
    LayerUnique(CorpusOf(Elements(records), Elements(overlay), rules), le, a, b);
  }

  lemma SameElements<T>(a: seq<T>, b: seq<T>)
    requires multiset(a) == multiset(b)
    ensures Elements(a) == Elements(b)
  {
    assert forall x :: x in a <==> x in multiset(a);
    assert forall x :: x in b <==> x in multiset(b);
  }

  // -- more experience only adds ----------------------------------------------------------------

  /** The same rulings and rules, and at least the same experience. */
  ghost predicate Grown(before: Corpus, after: Corpus) {
    && before.episodes <= after.episodes && before.decisions <= after.decisions
    && after.ruled == before.ruled && after.rules == before.rules && RulesetOk(before.rules)
  }

  /** Appending records grows the corpus. */
  lemma AppendGrows(records: seq<Rec>, more: seq<Rec>, overlay: set<Ruling>, rules: Ruleset)
    requires RulesetOk(rules)
    ensures Grown(CorpusOf(Elements(records), overlay, rules), CorpusOf(Elements(records + more), overlay, rules))
  {
    var before, after := CorpusOf(Elements(records), overlay, rules), CorpusOf(Elements(records + more), overlay, rules);
    assert Elements(records) <= Elements(records + more);
    forall e | e in before.episodes ensures e in after.episodes {
      assert EpisodeRec(e) in Elements(records);
    }
    forall d | d in before.decisions ensures d in after.decisions {
      assert DecisionRec(d) in Elements(records);
    }
  }

  lemma DerivedGrows(before: Corpus, after: Corpus, id: Id)
    requires Grown(before, after) && Derived(before, id)
    ensures Derived(after, id)
  {
    SubsetSize(Evidence(before.episodes, id), Evidence(after.episodes, id));
  }

  lemma CoreInScopeGrows(before: Corpus, after: Corpus, scope: Signature)
    requires Grown(before, after)
    ensures CoreInScope(before, scope) <= CoreInScope(after, scope)
  {
    forall id | id in CoreInScope(before, scope) ensures id in CoreInScope(after, scope) {
      DerivedIdsExact(before, id);
      DerivedGrows(before, after, id);
      DerivedIdsExact(after, id);
    }
  }

  lemma PackGrows(before: Corpus, after: Corpus, scope: Signature)
    requires Grown(before, after)
    ensures PackMembers(before, scope) <= PackMembers(after, scope)
    ensures PackEvidence(before, scope) <= PackEvidence(after, scope)
  {
    CoreInScopeGrows(before, after, scope);
    assert Measured(before, scope) <= Measured(after, scope);
    forall e | e in PackEvidence(before, scope) ensures e in PackEvidence(after, scope) {
      if e !in Measured(before, scope) {
        var id :| id in CoreInScope(before, scope) && e in Evidence(before.episodes, id);
        assert e in Evidence(after.episodes, id);
      }
    }
  }

  lemma GroupGrows(before: Corpus, after: Corpus, id: Id)
    requires Grown(before, after)
    ensures GroupOf(before, id) <= GroupOf(after, id)
  {
    if id.PackId? && id.name in before.rules.packScopes {
      PackGrows(before, after, before.rules.packScopes[id.name]);
    }
  }

  lemma GradeGrows(small: set<Episode>, big: set<Episode>, rules: Ruleset)
    requires small <= big
    ensures MaturityRank(Grade(small, rules)) <= MaturityRank(Grade(big, rules))
  {
    SubsetSize(small, big);
    assert Projects(small) <= Projects(big);
    SubsetSize(Projects(small), Projects(big));
  }

  /** With rulings and rules fixed, more experience never removes an artifact, never takes
      evidence away from one, and never lowers its maturity; dossiers and packs included. */
  lemma CompilerIsMonotone(before: Corpus, after: Corpus, le: Order, layer: seq<Artifact>, next: seq<Artifact>, i: nat)
    requires Grown(before, after) && LayerOf(before, le, layer) && LayerOf(after, le, next) && i < |layer|
    ensures exists j :: 0 <= j < |next| && Strengthened(layer[i], next[j])
  {
    var id := layer[i].id;
    assert Has(layer, id);
    assert InLayer(before, id);
    assert InLayer(after, id) by {
      if id.PackId? {
        PackGrows(before, after, before.rules.packScopes[id.name]);
      } else {
        DerivedGrows(before, after, id);
      }
    }
    assert Has(next, id);
    var j :| 0 <= j < |next| && next[j].id == id;
    assert ArtifactOf(before, le, id, layer[i]) && ArtifactOf(after, le, id, next[j]);
    GroupGrows(before, after, id);
    GradeGrows(GroupOf(before, id), GroupOf(after, id), before.rules);
    assert Strengthened(layer[i], next[j]);
  }

  /** The same artifact with at least the evidence and at least the maturity. */
  predicate Strengthened(a: Artifact, b: Artifact) {
    && b.id == a.id && a.evidence <= b.evidence && a.projects <= b.projects
    && MaturityRank(a.maturity) <= MaturityRank(b.maturity)
  }

  // -- every reference is closed -------------------------------------------------------------------

  /** Every artifact of a layer has evidence, and all of it is in the ledger. */
  lemma EvidenceIsCited(records: seq<Rec>, overlay: set<Ruling>, rules: Ruleset, le: Order, layer: seq<Artifact>, i: nat)
    requires RulesetOk(rules) && LayerOf(CorpusOf(Elements(records), overlay, rules), le, layer) && i < |layer|
    ensures layer[i].evidence != {}
    ensures forall e :: e in layer[i].evidence ==> exists k :: 0 <= k < |records| && RecId(records[k]) == e
  {
    var c, id := CorpusOf(Elements(records), overlay, rules), layer[i].id;
    assert Has(layer, id) && InLayer(c, id) && ArtifactOf(c, le, id, layer[i]);
    var group := GroupOf(c, id);
    GroupNotEmpty(c, id);
    var some :| some in group;
    assert some.id in layer[i].evidence;
    GroupWithin(c, id);
    forall e | e in layer[i].evidence ensures exists k :: 0 <= k < |records| && RecId(records[k]) == e {
      var ep :| ep in group && ep.id == e;
      assert EpisodeRec(ep) in records;
      var k :| 0 <= k < |records| && records[k] == EpisodeRec(ep);
      assert RecId(records[k]) == e;
    }
  }

  lemma GroupWithin(c: Corpus, id: Id)
    ensures GroupOf(c, id) <= c.episodes
  {
  }

  lemma DerivedNotEmpty(c: Corpus, id: Id)
    requires RulesetOk(c.rules) && Derived(c, id)
    ensures Evidence(c.episodes, id) != {}
  {
    assert |Evidence(c.episodes, id)| >= 1;
  }

  lemma PackNotEmpty(c: Corpus, scope: Signature)
    requires RulesetOk(c.rules) && PackMembers(c, scope) != {}
    ensures PackEvidence(c, scope) != {}
  {
    var m :| m in PackMembers(c, scope);
    if m in CoreInScope(c, scope) {
      DerivedIdsExact(c, m);
      DerivedNotEmpty(c, m);
      var e :| e in Evidence(c.episodes, m);
      assert e in PackEvidence(c, scope);
    } else {
      var e :| e in Measured(c, scope) && m == RecordId(e.id);
      assert e in PackEvidence(c, scope);
    }
  }

  lemma GroupNotEmpty(c: Corpus, id: Id)
    requires RulesetOk(c.rules) && InLayer(c, id)
    ensures GroupOf(c, id) != {}
  {
    if id.PackId? {
      PackNotEmpty(c, c.rules.packScopes[id.name]);
    } else {
      DerivedNotEmpty(c, id);
    }
  }

  /** A pattern is contested exactly when the anti-pattern of its signature and approach is
      in the layer, and an anti-pattern exactly when the pattern is. */
  lemma ContestedExactly(c: Corpus, le: Order, layer: seq<Artifact>, i: nat)
    requires LayerOf(c, le, layer) && i < |layer|
    ensures layer[i].body.Pattern? ==>
              layer[i].id.PatternId?
              && (layer[i].body.contested <==> Has(layer, AntiId(layer[i].id.facets, layer[i].id.approach)))
    ensures layer[i].body.AntiPattern? ==>
              layer[i].id.AntiId?
              && (layer[i].body.contested <==> Has(layer, PatternId(layer[i].id.facets, layer[i].id.approach)))
  {
    var id := layer[i].id;
    assert ArtifactOf(c, le, id, layer[i]);
    assert Has(layer, id) && InLayer(c, id);
    if id.PatternId? {
      assert InLayer(c, AntiId(id.facets, id.approach)) <==> Derived(c, AntiId(id.facets, id.approach));
    } else if id.AntiId? {
      assert InLayer(c, PatternId(id.facets, id.approach)) <==> Derived(c, PatternId(id.facets, id.approach));
    }
  }

  /** Every instead-of link leads to an artifact of the layer with the same facets: a
      pattern with another approach, a recipe, or the positive lesson. */
  lemma InsteadIsInTheLayer(c: Corpus, le: Order, layer: seq<Artifact>, i: nat)
    requires RulesetOk(c.rules) && LayerOf(c, le, layer) && i < |layer|
    requires layer[i].body.AntiPattern? && layer[i].body.insteadOf.Some?
    ensures var target := layer[i].body.insteadOf.value;
            && layer[i].id.AntiId? && Has(layer, target) && FacetsFor(c, target) == layer[i].facets
            && (target.RecipeId? || target == LessonId(layer[i].facets, Positive)
                || (target.PatternId? && target.approach != layer[i].id.approach))
  {
    var id, target := layer[i].id, layer[i].body.insteadOf.value;
    assert ArtifactOf(c, le, id, layer[i]);
    DerivedIdsExact(c, target);
    assert InLayer(c, target);
  }

  /** When the link does not lead away from the failed approach: no other pattern is
      derived, and the least recipe here has the failed approach's own steps. That is
      exactly when the link names a recipe with those steps. */
  lemma InsteadRepeatsTheFailure(c: Corpus, le: Order, layer: seq<Artifact>, i: nat)
    requires TotalOrder(le) && LayerOf(c, le, layer) && i < |layer| && layer[i].body.AntiPattern? && layer[i].id.AntiId?
    ensures var id := layer[i].id;
            (layer[i].body.insteadOf.Some? && layer[i].body.insteadOf.value.RecipeId?
             && Some(layer[i].body.insteadOf.value.steps) == id.approach.steps)
            <==> (OtherPatterns(c, id.facets, id.approach) == {} && id.approach.steps.Some?
                  && Least(RecipeId(id.facets, id.approach.steps.value), RecipesFor(c, id.facets), le))
  {
    var id := layer[i].id;
    assert ArtifactOf(c, le, id, layer[i]);
    var patterns, recipes := OtherPatterns(c, id.facets, id.approach), RecipesFor(c, id.facets);
    var link := layer[i].body.insteadOf;
    assert Instead(c, le, id.facets, id.approach, link);
    if patterns != {} {
      assert link.value in patterns;
    } else if recipes != {} {
      assert link.value in recipes;
      if id.approach.steps.Some? && Least(RecipeId(id.facets, id.approach.steps.value), recipes, le) {
        LeastUnique(recipes, le, link.value, RecipeId(id.facets, id.approach.steps.value));
      }
    }
  }

  // -- a link that repeats the failure ----------------------------------------------------------------

  /** One failure and one success of the very same approach in the very same situation. */
  predicate FailedThenPassed(f: Episode, s: Episode) {
    && f.verdict == NotPassed && s.verdict == Passed && SignatureOf(f) == SignatureOf(s)
    && f.approach == s.approach && f.approach.steps.Some?
  }

  /** At recurrence one such a pair compiles to an anti-pattern, and what it names to do
      instead is the recipe made of the failed approach's own steps. */
  lemma RepeatedFailureOccurs(f: Episode, s: Episode, c: Corpus, le: Order, layer: seq<Artifact>) returns (i: nat)
    requires FailedThenPassed(f, s) && TotalOrder(le) && LayerOf(c, le, layer)
    requires c.episodes == {f, s} && c.ruled == {} && RulesetOk(c.rules) && c.rules.patternMin == 1 && c.rules.recipeMin == 1
    ensures i < |layer| && layer[i].id == AntiId(SignatureOf(f), f.approach)
    ensures layer[i].body.AntiPattern? && layer[i].body.insteadOf == Some(RecipeId(SignatureOf(f), f.approach.steps.value))
  {
    var facets := SignatureOf(f);
    AntiPatternDerived(f, s, c);
    assert InLayer(c, AntiId(facets, f.approach));
    i :| 0 <= i < |layer| && layer[i].id == AntiId(facets, f.approach);
    assert ArtifactOf(c, le, layer[i].id, layer[i]);
    NoOtherPattern(f, s, c);
    OneRecipe(f, s, c);
    assert Instead(c, le, facets, f.approach, layer[i].body.insteadOf);
  }

  lemma AntiPatternDerived(f: Episode, s: Episode, c: Corpus)
    requires FailedThenPassed(f, s) && c.episodes == {f, s} && c.ruled == {} && c.rules.patternMin == 1
    ensures Derived(c, AntiId(SignatureOf(f), f.approach))
  {
    var id := AntiId(SignatureOf(f), f.approach);
    assert f in Evidence(c.episodes, id);
    assert |Evidence(c.episodes, id)| >= 1;
  }

  lemma NoOtherPattern(f: Episode, s: Episode, c: Corpus)
    requires FailedThenPassed(f, s) && c.episodes == {f, s} && RulesetOk(c.rules)
    ensures OtherPatterns(c, SignatureOf(f), f.approach) == {}
  {
    forall id ensures id !in OtherPatterns(c, SignatureOf(f), f.approach) {
      PairKeys(f, s, c, id);
    }
  }

  lemma OneRecipe(f: Episode, s: Episode, c: Corpus)
    requires FailedThenPassed(f, s) && c.episodes == {f, s} && c.ruled == {} && RulesetOk(c.rules) && c.rules.recipeMin == 1
    ensures RecipesFor(c, SignatureOf(f)) == {RecipeId(SignatureOf(f), f.approach.steps.value)}
  {
    var facets, recipe := SignatureOf(f), RecipeId(SignatureOf(f), f.approach.steps.value);
    assert s in Evidence(c.episodes, recipe);
    assert |Evidence(c.episodes, recipe)| >= 1;
    DerivedIdsExact(c, recipe);
    forall id | id in RecipesFor(c, facets) ensures id == recipe {
      PairKeys(f, s, c, id);
    }
    assert recipe in RecipesFor(c, facets);
  }

  lemma PairKeys(f: Episode, s: Episode, c: Corpus, id: Id)
    requires FailedThenPassed(f, s) && c.episodes == {f, s} && RulesetOk(c.rules)
    ensures id in DerivedIds(c) && id.PatternId? ==> id.approach == f.approach
    ensures id in DerivedIds(c) && id.RecipeId? ==> id.steps == f.approach.steps.value && id.facets == SignatureOf(f)
  {
    if id in DerivedIds(c) {
      var e :| e in c.episodes && id in KeysOf(e);
      assert e == f || e == s;
    }
  }
}
