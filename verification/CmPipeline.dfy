/** The pipeline against its validator: what dedup, prioritize, fit and grouping leave
    is accepted exactly when every kept item is documented and no two kept variants of
    one contradicted id were fitted to the same text. */
module CmPipeline {
  import opened CmAssembler
  import opened CmBudgeter
  import opened CmDedup
  import opened CmFit
  import opened CmTypes
  import opened Orders
  import opened Wrappers

  // -- grouping keeps every item and its order ----------------------------------------

  function IdList(items: seq<Item>): (ids: seq<ItemId>)
    ensures |ids| == |items| && forall i :: 0 <= i < |ids| ==> ids[i] == items[i].id
  {
    seq(|items|, i requires 0 <= i < |items| => items[i].id)
  }

  lemma IdsAppend(a: seq<Item>, b: seq<Item>)
    ensures IdList(a + b) == IdList(a) + IdList(b)
  {
  }

  /** Whether ids are unique shows in the bag of them. */
  lemma UniqueBag(a: seq<Item>, b: seq<Item>)
    requires multiset(IdList(a)) == multiset(IdList(b)) && UniqueIds(a)
    ensures UniqueIds(b)
  {
    var ids := IdList(b);
    assert Distinct(IdList(a));
    DistinctMultiset(IdList(a));
    assert forall id :: id in ids <==> id in multiset(ids);
    assert forall id :: id in IdList(a) <==> id in multiset(IdList(a));
    assert Elements(ids) == Elements(IdList(a));
    MultisetDistinct(ids);
    forall i, j | 0 <= i < j < |b| ensures b[i].id != b[j].id {
      assert ids[i] != ids[j];
    }
  }

  /** The bag of ids of one section. */
  function SectionBag(items: seq<Item>, s: Section): multiset<ItemId> {
    multiset(IdList(InSection(items, s)))
  }

  lemma SectionBagLast(items: seq<Item>, s: Section)
    requires items != []
    ensures var last := items[|items| - 1];
            SectionBag(items, s) == SectionBag(items[..|items| - 1], s) + if last.section == s then multiset{last.id} else multiset{}
  {
    var init, last := items[..|items| - 1], items[|items| - 1];
    IdsAppend(InSection(init, s), [last]);
    assert IdList([last]) == [last.id];
    if last.section != s {
      assert InSection(items, s) == InSection(init, s);
    }
  }

  lemma {:induction false} GroupedBag(items: seq<Item>)
    requires KnownSections(items)
    ensures SectionBag(items, Symbols) + SectionBag(items, Files) + SectionBag(items, DependencyGraph)
            + SectionBag(items, Knowledge) + SectionBag(items, Experience) == multiset(IdList(items))
  {
    if items != [] {
      var init, last := items[..|items| - 1], items[|items| - 1];
      GroupedBag(init);
      assert IdList(items) == IdList(init) + [last.id];
      SectionBagLast(items, Symbols);
      SectionBagLast(items, Files);
      SectionBagLast(items, DependencyGraph);
      SectionBagLast(items, Knowledge);
      SectionBagLast(items, Experience);
      assert Known(last.section);
    }
  }

  lemma FlatBag(m: Sections, items: seq<Item>)
    requires GroupedFrom(m, items) && KnownSections(items)
    ensures multiset(IdList(Flat(m))) == multiset(IdList(items))
  {
    GroupedBag(items);
    IdsAppend(m[Symbols] + m[Files] + m[DependencyGraph] + m[Knowledge], m[Experience]);
    IdsAppend(m[Symbols] + m[Files] + m[DependencyGraph], m[Knowledge]);
    IdsAppend(m[Symbols] + m[Files], m[DependencyGraph]);
    IdsAppend(m[Symbols], m[Files]);
  }

  lemma {:induction false} InSectionMembers(items: seq<Item>, s: Section, x: Item)
    ensures x in InSection(items, s) <==> x in items && x.section == s
  {
    if items != [] {
      InSectionMembers(items[..|items| - 1], s, x);
      assert items == items[..|items| - 1] + [items[|items| - 1]];
    }
  }

  lemma FlatMembers(m: Sections, items: seq<Item>, x: Item)
    requires GroupedFrom(m, items) && KnownSections(items)
    ensures x in Flat(m) <==> x in items
  {
    InSectionMembers(items, Symbols, x);
    InSectionMembers(items, Files, x);
    InSectionMembers(items, DependencyGraph, x);
    InSectionMembers(items, Knowledge, x);
    InSectionMembers(items, Experience, x);
    if x in items {
      var i :| 0 <= i < |items| && items[i] == x;
      assert Known(items[i].section);
    }
  }

  lemma GroupedDocumented(m: Sections, items: seq<Item>)
    requires GroupedFrom(m, items) && KnownSections(items)
    ensures Documented(Flat(m)) <==> Documented(items)
  {
    forall x: Item ensures x in Flat(m) <==> x in items {
      FlatMembers(m, items, x);
    }
    if Documented(items) {
      forall i | 0 <= i < |Flat(m)| ensures Flat(m)[i].provenance != map[] && Flat(m)[i].hasStale {
        assert Flat(m)[i] in items;
      }
    }
    if Documented(Flat(m)) {
      forall i | 0 <= i < |items| ensures items[i].provenance != map[] && items[i].hasStale {
        assert items[i] in Flat(m);
      }
    }
  }

  /** Scores do not increase among items of one section. */
  ghost predicate OrderedPerSection(items: seq<Item>) {
    forall i, j :: 0 <= i < j < |items| && items[i].section == items[j].section ==> ScoreLe(items[j].score, items[i].score)
  }

  lemma {:induction false} GroupedOrdered(items: seq<Item>, s: Section)
    requires OrderedPerSection(items)
    ensures NonIncreasing(InSection(items, s))
  {
    if items != [] {
      var init, last := items[..|items| - 1], items[|items| - 1];
      assert forall i :: 0 <= i < |init| ==> items[i] == init[i];
      GroupedOrdered(init, s);
      if last.section == s {
        var part := InSection(init, s);
        forall i | 0 <= i < |part| ensures ScoreLe(last.score, part[i].score) {
          InSectionMembers(init, s, part[i]);
          var j :| 0 <= j < |init| && init[j] == part[i];
          assert items[j] == part[i] && items[|items| - 1] == last;
        }
      }
    }
  }

  // -- from candidates to items ---------------------------------------------------------

  lemma KeptOrdered(cs: seq<Candidate>, kept: seq<nat>, items: seq<Item>, dropped: nat)
    requires Bookkept(cs, |cs|, kept, items, dropped) && AllPlain(items)
    requires forall i, j :: 0 <= i < j < |cs| && cs[i].section == cs[j].section ==> ScoreLe(cs[j].score, cs[i].score)
    ensures OrderedPerSection(DisambiguatedAll(items))
  {
    var out := DisambiguatedAll(items);
    forall i, j | 0 <= i < j < |out| && out[i].section == out[j].section ensures ScoreLe(out[j].score, out[i].score) {
      assert ItemFrom(items[i], cs[kept[i]]) && ItemFrom(items[j], cs[kept[j]]);
      assert kept[i] < kept[j];
    }
  }

  /** Two kept variants of one contradicted id, fitted to the same text. */
  ghost predicate VariantsCollide(items: seq<Item>) {
    exists i, j :: 0 <= i < j < |items| && Variants(items[i], items[j]) && items[i].content == items[j].content
  }

  predicate Variants(a: Item, b: Item) {
    a.id == b.id && a.contradiction && b.contradiction
  }

  /** No id is shared except by flagged variants: what dedup leaves. */
  ghost predicate SharedOnlyByVariants(cs: seq<Candidate>) {
    forall i, j :: 0 <= i < j < |cs| && cs[i].id == cs[j].id ==> cs[i].contradiction && cs[j].contradiction
  }

  lemma SharedInAnyOrder(a: seq<Candidate>, b: seq<Candidate>)
    requires multiset(a) == multiset(b) && NoRepeats(a) && SharedOnlyByVariants(a)
    ensures SharedOnlyByVariants(b)
  {
    forall i, j | 0 <= i < j < |b| && b[i].id == b[j].id ensures b[i].contradiction && b[j].contradiction {
      assert b[i] in multiset(a) && b[j] in multiset(a);
      var k :| 0 <= k < |a| && a[k] == b[i];
      var l :| 0 <= l < |a| && a[l] == b[j];
      if k == l {
        TwiceInBag(b, i, j);
        assert multiset(a)[a[k]] >= 2;
        OnceInBag(a, k);
        assert false;
      }
    }
  }

  lemma TwiceInBag<T>(s: seq<T>, i: nat, j: nat)
    requires i < j < |s| && s[i] == s[j]
    ensures multiset(s)[s[i]] >= 2
  {
    assert s == s[..i] + [s[i]] + s[i + 1..j] + [s[j]] + s[j + 1..];
  }

  lemma OnceInBag(a: seq<Candidate>, k: nat)
    requires k < |a| && NoRepeats(a)
    ensures multiset(a)[a[k]] == 1
  {
    assert a == a[..k] + [a[k]] + a[k + 1..];
    assert a[k] !in a[..k];
    assert a[k] !in a[k + 1..];
  }

  lemma ItemsClashOnlyAsVariants(cs: seq<Candidate>, kept: seq<nat>, items: seq<Item>, dropped: nat)
    requires Bookkept(cs, |cs|, kept, items, dropped) && AllPlain(items) && SharedOnlyByVariants(cs)
    ensures UniqueIds(DisambiguatedAll(items)) <==> !VariantsCollide(items)
  {
    var out := DisambiguatedAll(items);
    forall i, j | 0 <= i < j < |items|
      ensures out[i].id == out[j].id <==> Variants(items[i], items[j]) && items[i].content == items[j].content
    {
      assert ItemFrom(items[i], cs[kept[i]]) && ItemFrom(items[j], cs[kept[j]]);
      assert kept[i] < kept[j];
      assert items[i].id == items[j].id ==> cs[kept[i]].id == cs[kept[j]].id;
    }
    if VariantsCollide(items) {
      var i, j :| 0 <= i < j < |items| && Variants(items[i], items[j]) && items[i].content == items[j].content;
      assert out[i].id == out[j].id;
    }
  }

  /** What the pipeline hands to the assembler. */
  ghost function Prepared(cs: seq<Candidate>, weights: Weights): seq<Candidate> {
    Prioritize(Dedup(cs), weights)
  }

  lemma PreparedShape(cs: seq<Candidate>, weights: Weights)
    ensures var ready := Prepared(cs, weights);
            && multiset(ready) == multiset(Dedup(cs)) && SharedOnlyByVariants(ready)
            && forall i, j :: 0 <= i < j < |ready| && ready[i].section == ready[j].section ==> ScoreLe(ready[j].score, ready[i].score)
  {
    PrioritizeOrders(Dedup(cs), weights);
    DedupDistils(cs);
    forall i, j | 0 <= i < j < |Dedup(cs)| && Dedup(cs)[i].id == Dedup(cs)[j].id
      ensures Dedup(cs)[i].contradiction && Dedup(cs)[j].contradiction
    {
      SharedIdsAreFlagged(cs, i, j);
    }
    SharedInAnyOrder(Dedup(cs), Prepared(cs, weights));
  }

  lemma DisambiguationKeepsDocuments(items: seq<Item>)
    requires AllPlain(items)
    ensures Documented(DisambiguatedAll(items)) <==> Documented(items)
  {
    var out := DisambiguatedAll(items);
    forall i | 0 <= i < |items|
      ensures out[i].provenance == items[i].provenance && out[i].hasStale == items[i].hasStale {
    }
    if Documented(out) {
      forall i | 0 <= i < |items| ensures items[i].provenance != map[] && items[i].hasStale {
        assert out[i].provenance != map[] && out[i].hasStale;
      }
    }
  }

  /** Under any budget and any weights, the artifact assembled from dedup'd, prioritized
      candidates is valid if and only if its items are documented and no two kept variants
      collide; ordering and ceiling never fail. */
  lemma PipelineMeetsValidator(cs: seq<Candidate>, weights: Weights, budget: nat, e: Accounts, tokens: Tokens, rm: RequestMemory)
    requires WeightsValid(weights) && EnvelopesOf(e, weights, budget)
    requires Fit(Prepared(cs, weights), e, tokens).Ok?
    requires MemoryOf(rm, rm.requestId, Prepared(cs, weights), budget, Fit(Prepared(cs, weights), e, tokens).value)
    ensures var items := Fit(Prepared(cs, weights), e, tokens).value.items;
            ValidMemory(rm) <==> Documented(items) && !VariantsCollide(items)
  {
    var ready := Prepared(cs, weights);
    var f := Fit(ready, e, tokens).value;
    PreparedShape(cs, weights);
    EnvelopeAccountsAddUp(e, weights, budget);
    forall s | Known(s) ensures e[s] >= 0 {
      EnvelopeNonNegative(weights, budget, s);
    }
    StartsBalanced(ready, e, tokens);
    FitFromBalanced(ready, 0, e, NOTHING_FITTED, tokens);
    FittedItems(ready, |ready|, e, f, tokens);
    RoomInOne(e, f.used, Symbols);
    var out := DisambiguatedAll(f.items);
    GroupedValid(rm, ready, f, out);
    ItemsClashOnlyAsVariants(ready, f.kept, f.items, f.dropped);
    DisambiguationKeepsDocuments(f.items);
  }

  lemma GroupedValid(rm: RequestMemory, ready: seq<Candidate>, f: Fitting, out: seq<Item>)
    requires AllPlain(f.items) && out == DisambiguatedAll(f.items) && KnownSections(out)
    requires Bookkept(ready, |ready|, f.kept, f.items, f.dropped)
    requires forall i, j :: 0 <= i < j < |ready| && ready[i].section == ready[j].section ==> ScoreLe(ready[j].score, ready[i].score)
    requires GroupedFrom(rm.sections, out) && rm.tokensUsed <= rm.budgetTokens
    ensures ValidMemory(rm) <==> Documented(out) && UniqueIds(out)
  {
    KeptOrdered(ready, f.kept, f.items, f.dropped);
    forall s | Known(s) ensures NonIncreasing(rm.sections[s]) {
      GroupedOrdered(out, s);
    }
    GroupedDocumented(rm.sections, out);
    FlatBag(rm.sections, out);
    if UniqueIds(out) {
      UniqueBag(out, Flat(rm.sections));
    }
    if UniqueIds(Flat(rm.sections)) {
      UniqueBag(Flat(rm.sections), out);
    }
  }

  /** Candidates the sources agree about, each with provenance and a stale flag: never refused. */
  lemma ContradictionFreeIsValid(cs: seq<Candidate>, weights: Weights, budget: nat, e: Accounts, tokens: Tokens, rm: RequestMemory)
    requires WeightsValid(weights) && EnvelopesOf(e, weights, budget)
    requires forall id :: !Contradicted(Keys(cs), id)
    requires forall c :: c in cs ==> c.provenance != map[] && c.hasStale
    requires Fit(Prepared(cs, weights), e, tokens).Ok?
    requires MemoryOf(rm, rm.requestId, Prepared(cs, weights), budget, Fit(Prepared(cs, weights), e, tokens).value)
    ensures ValidMemory(rm)
  {
    var ready := Prepared(cs, weights);
    var f := Fit(ready, e, tokens).value;
    PipelineMeetsValidator(cs, weights, budget, e, tokens, rm);
    PreparedShape(cs, weights);
    DedupDistils(cs);
    forall s | Known(s) ensures e[s] >= 0 {
      EnvelopeNonNegative(weights, budget, s);
    }
    StartsBalanced(ready, e, tokens);
    FitFromBalanced(ready, 0, e, NOTHING_FITTED, tokens);
    forall i | 0 <= i < |f.items| ensures f.items[i].provenance != map[] && f.items[i].hasStale {
      KeptIsDocumented(cs, ready, f, i);
    }
    forall i, j | 0 <= i < j < |f.items| ensures f.items[i].id != f.items[j].id {
      KeptAreDistinct(cs, ready, f, i, j);
    }
  }

  lemma KeptIsDocumented(cs: seq<Candidate>, ready: seq<Candidate>, f: Fitting, i: nat)
    requires Bookkept(ready, |ready|, f.kept, f.items, f.dropped) && multiset(ready) == multiset(Dedup(cs)) && i < |f.items|
    requires forall c :: c in cs ==> c.provenance != map[] && c.hasStale
    ensures f.items[i].provenance != map[] && f.items[i].hasStale
  {
    assert ItemFrom(f.items[i], ready[f.kept[i]]);
    FromTheInput(cs, ready, f.kept[i]);
  }

  lemma KeptAreDistinct(cs: seq<Candidate>, ready: seq<Candidate>, f: Fitting, i: nat, j: nat)
    requires Bookkept(ready, |ready|, f.kept, f.items, f.dropped) && multiset(ready) == multiset(Dedup(cs)) && i < j < |f.items|
    requires forall id :: !Contradicted(Keys(cs), id)
    ensures f.items[i].id != f.items[j].id
  {
    assert ItemFrom(f.items[i], ready[f.kept[i]]) && ItemFrom(f.items[j], ready[f.kept[j]]);
    assert f.kept[i] < f.kept[j];
    AgreedIdsAreUnique(cs, ready, f.kept[i], f.kept[j]);
  }

  lemma FromTheInput(cs: seq<Candidate>, ready: seq<Candidate>, k: nat)
    requires multiset(ready) == multiset(Dedup(cs)) && k < |ready|
    ensures KeyOf(ready[k]) in Keys(cs)
    ensures exists c :: c in cs && c.provenance == ready[k].provenance && c.hasStale == ready[k].hasStale
  {
    DedupDistils(cs);
    var out := Dedup(cs);
    assert ready[k] in multiset(out);
    var j :| 0 <= j < |out| && out[j] == ready[k];
    assert Kept(cs, |cs|, Keys(cs), out[j]);
    var i :| 0 <= i < |cs| && out[j] == Flagged(Keys(cs), cs[i]);
    assert cs[i] in cs;
  }

  lemma AgreedIdsAreUnique(cs: seq<Candidate>, ready: seq<Candidate>, i: nat, j: nat)
    requires multiset(ready) == multiset(Dedup(cs)) && i < j < |ready|
    requires forall id :: !Contradicted(Keys(cs), id)
    ensures ready[i].id != ready[j].id
  {
    DedupDistils(cs);
    FromTheInput(cs, ready, i);
    FromTheInput(cs, ready, j);
    if ready[i].id == ready[j].id {
      assert !Contradicted(Keys(cs), ready[i].id);
      assert KeyOf(ready[i]) == KeyOf(ready[j]);
      var out := Dedup(cs);
      assert ready[i] in multiset(out) && ready[j] in multiset(out);
      var k :| 0 <= k < |out| && out[k] == ready[i];
      var l :| 0 <= l < |out| && out[l] == ready[j];
      assert KeyOf(out[k]) == KeyOf(out[l]);
      assert k == l;
      TwiceInBag(ready, i, j);
      OnceInBag(out, k);
      assert false;
    }
  }

  // -- colliding variants do occur --------------------------------------------------------

  function Variant(section: string): Candidate {
    Candidate("x", Symbols, Tiers(Some(Some("f")), Some(Some(section)), Some(Some("r"))), None, true, map["source" := "s"], false)
  }

  /** Two sources agree on the full text of "x" but not on its shorter form: both are
      kept at full fidelity, both ids get the digest of the same text, and the artifact
      is refused although every candidate is well formed. */
  lemma CollidingVariantsAreRefused(cs: seq<Candidate>, weights: Weights, e: Accounts, tokens: Tokens, rm: RequestMemory)
    requires cs == [Variant("a"), Variant("b")] && weights == map[Symbols := 1.0] && tokens("f") == 1
    requires EnvelopesOf(e, weights, 2)
    ensures Fit(Prepared(cs, weights), e, tokens).Ok?
    ensures MemoryOf(rm, rm.requestId, Prepared(cs, weights), 2, Fit(Prepared(cs, weights), e, tokens).value) ==> !ValidMemory(rm)
  {
    var ready := Prepared(cs, weights);
    SymbolsGetAll(e, weights, 2);
    PreparedVariants(cs, weights);
    BothFit(ready, e, tokens);
    if MemoryOf(rm, rm.requestId, ready, 2, Fit(ready, e, tokens).value) {
      PipelineMeetsValidator(cs, weights, 2, e, tokens, rm);
      var items := Fit(ready, e, tokens).value.items;
      assert Variants(items[0], items[1]) && items[0].content == items[1].content;
    }
  }

  lemma PreparedVariants(cs: seq<Candidate>, weights: Weights)
    requires cs == [Variant("a"), Variant("b")]
    ensures var ready := Prepared(cs, weights);
            && |ready| == 2 && forall i :: 0 <= i < 2 ==>
                 && ready[i].id == "x" && ready[i].contradiction && ready[i].section == Symbols
                 && ready[i].content.Tiers? && ready[i].content.full == Some(Some("f"))
  {
    BothFlagged();
    PreparedPair(cs, weights, Variant("a").(contradiction := true), Variant("b").(contradiction := true));
  }

  lemma PreparedPair(cs: seq<Candidate>, weights: Weights, a: Candidate, b: Candidate)
    requires Dedup(cs) == [a, b]
    ensures Prepared(cs, weights) == [a, b] || Prepared(cs, weights) == [b, a]
  {
    PrioritizeOrders(Dedup(cs), weights);
    TwoInSomeOrder(Prepared(cs, weights), a, b);
  }

  lemma BothFlagged()
    ensures Dedup([Variant("a"), Variant("b")]) == [Variant("a").(contradiction := true), Variant("b").(contradiction := true)]
  {
    var cs := [Variant("a"), Variant("b")];
    var keys := Keys(cs);
    assert cs[0] in cs && cs[1] in cs;
    assert KeyOf(cs[0]) in keys && KeyOf(cs[1]) in keys;
    assert "a"[0] != "b"[0];
    assert Contradicted(keys, "x");
    assert cs[..0] == [] && cs[..1] == [cs[0]];
    assert DedupUpTo(cs, 1, keys) == [Flagged(keys, cs[0])];
  }

  lemma TwoInSomeOrder<T>(s: seq<T>, a: T, b: T)
    requires multiset(s) == multiset([a, b])
    ensures s == [a, b] || s == [b, a]
  {
    assert |s| == |multiset(s)| == 2;
    assert s == [s[0], s[1]];
    assert s[0] in multiset(s) && s[1] in multiset(s);
    assert multiset(s) == multiset{s[0], s[1]} && multiset([a, b]) == multiset{a, b};
    assert multiset{s[0], s[1]} - multiset{s[0]} == multiset{s[1]};
  }

  lemma SymbolsGetAll(e: Accounts, weights: Weights, budget: nat)
    requires weights == map[Symbols := 1.0] && EnvelopesOf(e, weights, budget) && budget > 0
    ensures e[Symbols] == budget
  {
    WeighSymbols(weights);
    EnvelopeAccountsAddUp(e, weights, budget);
    EnvelopeNearQuota(weights, budget, Files);
    EnvelopeNearQuota(weights, budget, DependencyGraph);
    EnvelopeNearQuota(weights, budget, Knowledge);
    EnvelopeNearQuota(weights, budget, Experience);
  }

  lemma WeighSymbols(weights: Weights)
    requires weights == map[Symbols := 1.0]
    ensures TotalWeight(weights, SECTIONS) == 1.0
  {
    WeighOne(weights, Experience, []);
    WeighOne(weights, Knowledge, [Experience]);
    WeighOne(weights, DependencyGraph, [Knowledge, Experience]);
    WeighOne(weights, Files, [DependencyGraph, Knowledge, Experience]);
    WeighOne(weights, Symbols, [Files, DependencyGraph, Knowledge, Experience]);
  }

  lemma WeighOne(weights: Weights, s: Section, rest: seq<Section>)
    ensures TotalWeight(weights, [s] + rest) == WeightOf(weights, s) + TotalWeight(weights, rest)
  {
    assert ([s] + rest)[1..] == rest;
  }

  lemma BothFit(ready: seq<Candidate>, e: Accounts, tokens: Tokens)
    requires |ready| == 2 && Complete(e) && e[Symbols] == 2 && tokens("f") == 1
    requires forall i :: 0 <= i < 2 ==> ready[i].section == Symbols && ready[i].content.Tiers? && ready[i].content.full == Some(Some("f"))
    ensures var r := Fit(ready, e, tokens);
            r.Ok? && r.value.items == [ItemOf(ready[0], Full, Some("f")), ItemOf(ready[1], Full, Some("f"))]
  {
    var first := FitOne(ready, 0, e, NOTHING_FITTED, tokens);
    assert first.Ok? && first.value.items == [ItemOf(ready[0], Full, Some("f"))] && first.value.used[Symbols] == 1;
    var second := FitOne(ready, 1, e, first.value, tokens);
    assert second.Ok? && second.value.items == first.value.items + [ItemOf(ready[1], Full, Some("f"))];
    assert FitFrom(ready, 2, e, second.value, tokens) == second;
    assert FitFrom(ready, 1, e, first.value, tokens) == second;
  }
}
