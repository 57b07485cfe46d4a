/** Which inputs the pipeline never refuses, whatever the budget, the weights and the
    cost of texts: told from the candidates alone. */
module CmVariants {
  import opened CmAssembler
  import opened CmBudgeter
  import opened CmDedup
  import opened CmFit
  import opened CmGreedy
  import opened CmPipeline
  import opened CmTypes
  import opened Orders
  import opened Wrappers

  /** Every fidelity is there, in a known section. */
  predicate WellFormed(c: Candidate) {
    Known(c.section) && (c.content.Tiers? ==> c.content.full.Some? && c.content.section.Some? && c.content.reference.Some?)
  }

  /** Tier i is this text and may be chosen: what is not text costs nothing, so nothing
      after it ever is. */
  predicate OfferedAt(content: Content, i: nat, text: Text) {
    var options := TierOptions(content);
    && i < |options| && options[i].1 == Some(text)
    && forall j :: 0 <= j < i ==> options[j].1.Some? && options[j].1.value.Some?
  }

  ghost predicate Offered(content: Content, text: Text) {
    exists i: nat :: OfferedAt(content, i, text)
  }

  /** Both can be fitted to one text. */
  ghost predicate ShareText(x: Content, y: Content) {
    exists text :: Offered(x, text) && Offered(y, text)
  }

  predicate DocumentedCandidate(c: Candidate) {
    c.provenance != map[] && c.hasStale
  }

  /** What is left of the input after dedup is documented, and no two contents of one id
      can be fitted to the same text. */
  ghost predicate Presentable(cs: seq<Candidate>) {
    && (forall c :: c in Dedup(cs) ==> DocumentedCandidate(c))
    && forall id, x, y :: (id, x) in Keys(cs) && (id, y) in Keys(cs) && x != y ==> !ShareText(x, y)
  }

  // -- presentable inputs are never refused -----------------------------------------------

  lemma KeptIsOffered(c: Candidate, item: Item, envelopes: Accounts, earlier: seq<Item>, tokens: Tokens)
    requires KeptAtBest(c, item, envelopes, earlier, tokens)
    ensures Offered(c.content, item.content)
  {
    var options, room := TierOptions(c.content), Room(c, envelopes, earlier, tokens);
    var i: nat :| FirstFit(options, i, item.fidelity, item.content, room, tokens);
    forall j | 0 <= j < i ensures options[j].1.Some? && options[j].1.value.Some? {
      assert Cost(options[j].1.value, tokens) > room >= 0;
    }
    assert OfferedAt(c.content, i, item.content);
  }

  lemma DifferentPositionsDiffer(cs: seq<Candidate>, ready: seq<Candidate>, i: nat, j: nat)
    requires multiset(ready) == multiset(Dedup(cs)) && i < j < |ready|
    ensures KeyOf(ready[i]) in Keys(cs) && KeyOf(ready[j]) in Keys(cs) && KeyOf(ready[i]) != KeyOf(ready[j])
    ensures ready[i] in Dedup(cs)
  {
    DedupDistils(cs);
    FromTheInput(cs, ready, i);
    FromTheInput(cs, ready, j);
    var out := Dedup(cs);
    assert ready[i] in multiset(out) && ready[j] in multiset(out);
    var k :| 0 <= k < |out| && out[k] == ready[i];
    var l :| 0 <= l < |out| && out[l] == ready[j];
    if KeyOf(ready[i]) == KeyOf(ready[j]) {
      assert k == l;
      TwiceInBag(ready, i, j);
      OnceInBag(out, k);
      assert false;
    }
  }

  /** The fitted items of some run of the pipeline. */
  ghost predicate Fitted(cs: seq<Candidate>, weights: Weights, budget: nat, e: Accounts, tokens: Tokens, f: Fitting) {
    && WeightsValid(weights) && EnvelopesOf(e, weights, budget)
    && Fit(Prepared(cs, weights), e, tokens) == Ok(f)
  }

  lemma FittedShape(cs: seq<Candidate>, weights: Weights, budget: nat, e: Accounts, tokens: Tokens, f: Fitting)
    requires Fitted(cs, weights, budget, e, tokens, f)
    ensures var ready := Prepared(cs, weights);
            && multiset(ready) == multiset(Dedup(cs))
            && Balanced(ready, |ready|, e, f, tokens) && Outcome(ready, |ready|, e, f, tokens)
  {
    var ready := Prepared(cs, weights);
    PreparedShape(cs, weights);
    forall s | Known(s) ensures e[s] >= 0 {
      EnvelopeNonNegative(weights, budget, s);
    }
    StartsBalanced(ready, e, tokens);
    FitFromBalanced(ready, 0, e, NOTHING_FITTED, tokens);
    FitIsGreedy(ready, e, tokens);
  }

  lemma PresentableFits(cs: seq<Candidate>, weights: Weights, budget: nat, e: Accounts, tokens: Tokens, f: Fitting)
    requires Fitted(cs, weights, budget, e, tokens, f) && Presentable(cs)
    ensures Documented(f.items) && !VariantsCollide(f.items)
  {
    var ready := Prepared(cs, weights);
    FittedShape(cs, weights, budget, e, tokens, f);
    forall i | 0 <= i < |f.items| ensures f.items[i].provenance != map[] && f.items[i].hasStale {
      assert ItemFrom(f.items[i], ready[f.kept[i]]);
      assert ready[f.kept[i]] in multiset(Dedup(cs));
      assert DocumentedCandidate(ready[f.kept[i]]);
    }
    forall i, j | 0 <= i < j < |f.items| && Variants(f.items[i], f.items[j])
      ensures f.items[i].content != f.items[j].content
    {
      TwoTexts(cs, ready, e, f, tokens, i, j);
    }
  }

  lemma TwoTexts(cs: seq<Candidate>, ready: seq<Candidate>, e: Accounts, f: Fitting, tokens: Tokens, i: nat, j: nat)
    requires Presentable(cs) && multiset(ready) == multiset(Dedup(cs)) && Outcome(ready, |ready|, e, f, tokens)
    requires i < j < |f.items| && f.items[i].id == f.items[j].id
    ensures f.items[i].content != f.items[j].content
  {
    var a, b := ready[f.kept[i]], ready[f.kept[j]];
    assert KeptAtBest(a, f.items[i], e, f.items[..i], tokens) && KeptAtBest(b, f.items[j], e, f.items[..j], tokens);
    KeptIsOffered(a, f.items[i], e, f.items[..i], tokens);
    KeptIsOffered(b, f.items[j], e, f.items[..j], tokens);
    assert f.kept[i] < f.kept[j];
    DifferentPositionsDiffer(cs, ready, f.kept[i], f.kept[j]);
    assert (a.id, a.content) in Keys(cs) && (b.id, b.content) in Keys(cs) && a.id == b.id;
  }

  // -- other inputs are, under some budget ----------------------------------------------------

  lemma {:induction false} WellFormedFits(candidates: seq<Candidate>, i: nat, e: Accounts, f: Fitting, tokens: Tokens)
    requires i <= |candidates| && Complete(e) && Complete(f.used) && forall c :: c in candidates ==> WellFormed(c)
    ensures FitFrom(candidates, i, e, f, tokens).Ok?
    decreases |candidates| - i
  {
    if i < |candidates| {
      assert candidates[i] in candidates;
      WellFormedChooses(candidates[i], e[candidates[i].section] - f.used[candidates[i].section], tokens);
      WellFormedFits(candidates, i + 1, e, FitOne(candidates, i, e, f, tokens).value, tokens);
    }
  }

  lemma WellFormedChooses(c: Candidate, room: int, tokens: Tokens)
    requires WellFormed(c)
    ensures Choose(TierOptions(c.content), room, tokens).Ok?
  {
    var at := ChooseMeans(TierOptions(c.content), room, tokens);
  }

  /** With no weight at all there is nothing to spend. */
  lemma NothingToSpend()
    ensures WeightsValid(map[]) && EnvelopesOf(ZERO_ACCOUNTS, map[], 0)
  {
  }

  lemma {:induction false} CostGrows(items: seq<Item>, k: nat, s: Section, tokens: Tokens)
    requires k <= |items|
    ensures SectionCost(items[..k], s, tokens) <= SectionCost(items, s, tokens)
    decreases |items| - k
  {
    var n := |items| - 1;
    if k == |items| {
      assert items[..k] == items;
    } else {
      CostGrows(items[..n], k, s, tokens);
      assert items[..n][..k] == items[..k];
    }
  }

  lemma NoRoomAtAll(ready: seq<Candidate>, f: Fitting, tokens: Tokens, c: Candidate, k: nat)
    requires Balanced(ready, |ready|, ZERO_ACCOUNTS, f, tokens) && AllCharged(f.used, f.items, tokens)
    requires k <= |f.items| && Known(c.section)
    ensures Room(c, ZERO_ACCOUNTS, f.items[..k], tokens) == 0
  {
    CostGrows(f.items, k, c.section, tokens);
    assert Charged(f.used, f.items, c.section, tokens);
  }

  lemma {:induction false} PassingPoint(kept: seq<nat>, n: nat, p: nat) returns (k: nat)
    requires Increasing(kept, n) && p !in kept
    ensures PassedOver(kept, p, k)
  {
    k := 0;
    while k < |kept| && kept[k] < p
      invariant k <= |kept| && (k > 0 ==> kept[k - 1] < p)
    {
      k := k + 1;
    }
  }

  lemma FreeIsNotPassed(c: Candidate, earlier: seq<Item>, j: nat, text: Text, tokens: Tokens)
    requires OfferedAt(c.content, j, text) && Cost(text, tokens) == 0 && Room(c, ZERO_ACCOUNTS, earlier, tokens) == 0
    ensures !NothingFits(c, ZERO_ACCOUNTS, earlier, tokens)
  {
    var options := TierOptions(c.content);
    assert Cost(options[j].1.value, tokens) == 0;
  }

  /** A text that costs nothing gets its candidate kept, at that text if nothing else is free. */
  lemma FreeIsKept(ready: seq<Candidate>, f: Fitting, tokens: Tokens, p: nat, text: Text) returns (k: nat)
    requires Balanced(ready, |ready|, ZERO_ACCOUNTS, f, tokens) && Outcome(ready, |ready|, ZERO_ACCOUNTS, f, tokens)
    requires p < |ready| && Known(ready[p].section) && Offered(ready[p].content, text) && Cost(text, tokens) == 0
    ensures k < |f.kept| && f.kept[k] == p && ItemFrom(f.items[k], ready[p])
    ensures (forall y: string :: text != Some(y) ==> tokens(y) > 0) ==> f.items[k].content == text
  {
    var c := ready[p];
    var j: nat :| OfferedAt(c.content, j, text);
    if p !in f.kept {
      var q := PassingPoint(f.kept, |ready|, p);
      NoRoomAtAll(ready, f, tokens, c, q);
      FreeIsNotPassed(c, f.items[..q], j, text, tokens);
      assert false;
    }
    k :| 0 <= k < |f.kept| && f.kept[k] == p;
    var item := f.items[k];
    assert KeptAtBest(ready[f.kept[k]], item, ZERO_ACCOUNTS, f.items[..k], tokens);
    NoRoomAtAll(ready, f, tokens, c, k);
    if forall y: string :: text != Some(y) ==> tokens(y) > 0 {
      TheFreeText(c, item, j, text, tokens);
    }
  }

  lemma TheFreeText(c: Candidate, item: Item, j: nat, text: Text, tokens: Tokens)
    requires OfferedAt(c.content, j, text) && Cost(text, tokens) == 0
    requires forall y: string :: text != Some(y) ==> tokens(y) > 0
    requires exists i: nat :: FirstFit(TierOptions(c.content), i, item.fidelity, item.content, 0, tokens)
    ensures item.content == text
  {
    var options := TierOptions(c.content);
    var i: nat :| FirstFit(options, i, item.fidelity, item.content, 0, tokens);
    assert Cost(item.content, tokens) == 0 && Cost(options[j].1.value, tokens) == 0;
    assert i <= j;
    if i < j {
      assert options[i].1.value.Some?;
    }
  }

  /** Only this text is free. */
  function OnlyFree(text: Text): Tokens {
    y => if text == Some(y) then 0 else 1
  }

  lemma Position(cs: seq<Candidate>, ready: seq<Candidate>, c: Candidate) returns (p: nat)
    requires multiset(ready) == multiset(Dedup(cs)) && c in Dedup(cs)
    ensures p < |ready| && ready[p] == c
  {
    assert c in multiset(Dedup(cs));
    assert c in multiset(ready);
    p :| 0 <= p < |ready| && ready[p] == c;
  }

  lemma KeyPosition(cs: seq<Candidate>, key: Key) returns (c: Candidate)
    requires key in Keys(cs)
    ensures c in Dedup(cs) && KeyOf(c) == key
  {
    DedupDistils(cs);
    assert key in Keys(Dedup(cs));
    c :| c in Dedup(cs) && KeyOf(c) == key;
  }

  lemma SharedTextCollides(cs: seq<Candidate>, id: string, x: Content, y: Content, text: Text) returns (f: Fitting)
    requires forall c :: c in Dedup(cs) ==> WellFormed(c)
    requires (id, x) in Keys(cs) && (id, y) in Keys(cs) && x != y && Offered(x, text) && Offered(y, text)
    ensures Fitted(cs, map[], 0, ZERO_ACCOUNTS, OnlyFree(text), f) && VariantsCollide(f.items)
  {
    var a := KeyPosition(cs, (id, x));
    var b := KeyPosition(cs, (id, y));
    var tokens, ready := OnlyFree(text), Prepared(cs, map[]);
    f := SomeFitting(cs, tokens);
    FittedShape(cs, map[], 0, ZERO_ACCOUNTS, tokens, f);
    var p := Position(cs, ready, a);
    var q := Position(cs, ready, b);
    var k := FreeIsKept(ready, f, tokens, p, text);
    var l := FreeIsKept(ready, f, tokens, q, text);
    PreparedShape(cs, map[]);
    assert p != q && k != l && ready[p].id == ready[q].id;
    assert Variants(f.items[k], f.items[l]) && f.items[k].content == f.items[l].content;
    if k < l {
      assert VariantsCollide(f.items);
    } else {
      assert Variants(f.items[l], f.items[k]);
    }
  }

  lemma SomeFitting(cs: seq<Candidate>, tokens: Tokens) returns (f: Fitting)
    requires forall c :: c in Dedup(cs) ==> WellFormed(c)
    ensures Fitted(cs, map[], 0, ZERO_ACCOUNTS, tokens, f)
  {
    var ready := Prepared(cs, map[]);
    NothingToSpend();
    PreparedShape(cs, map[]);
    forall c | c in ready ensures WellFormed(c) {
      assert c in multiset(ready);
      assert c in multiset(Dedup(cs));
    }
    WellFormedFits(ready, 0, ZERO_ACCOUNTS, NOTHING_FITTED, tokens);
    f := Fit(ready, ZERO_ACCOUNTS, tokens).value;
  }

  lemma UndocumentedIsKept(cs: seq<Candidate>, c: Candidate) returns (f: Fitting)
    requires forall c :: c in Dedup(cs) ==> WellFormed(c)
    requires c in Dedup(cs) && !DocumentedCandidate(c)
    ensures Fitted(cs, map[], 0, ZERO_ACCOUNTS, y => 0, f) && !Documented(f.items)
  {
    var tokens: Tokens := y => 0;
    var ready := Prepared(cs, map[]);
    f := SomeFitting(cs, tokens);
    FittedShape(cs, map[], 0, ZERO_ACCOUNTS, tokens, f);
    var p := Position(cs, ready, c);
    var text := TierOptions(c.content)[0].1.value;
    assert OfferedAt(c.content, 0, text);
    var k := FreeIsKept(ready, f, tokens, p, text);
    assert f.items[k].provenance == c.provenance && f.items[k].hasStale == c.hasStale;
  }

  // -- exactly the presentable inputs ---------------------------------------------------------

  /** An artifact the pipeline assembles from these candidates. */
  ghost predicate Assembled(cs: seq<Candidate>, weights: Weights, budget: nat, e: Accounts, tokens: Tokens, f: Fitting, rm: RequestMemory) {
    Fitted(cs, weights, budget, e, tokens, f) && MemoryOf(rm, rm.requestId, Prepared(cs, weights), budget, f)
  }

  lemma SomeSections(items: seq<Item>) returns (sections: Sections)
    ensures GroupedFrom(sections, items)
  {
    sections := map[Symbols := InSection(items, Symbols), Files := InSection(items, Files),
                    DependencyGraph := InSection(items, DependencyGraph), Knowledge := InSection(items, Knowledge),
                    Experience := InSection(items, Experience)];
  }

  lemma SomeMemory(cs: seq<Candidate>, weights: Weights, budget: nat, e: Accounts, tokens: Tokens, f: Fitting) returns (rm: RequestMemory)
    requires Fitted(cs, weights, budget, e, tokens, f)
    ensures Assembled(cs, weights, budget, e, tokens, f, rm)
  {
    var ready := Prepared(cs, weights);
    FittedShape(cs, weights, budget, e, tokens, f);
    FittedItems(ready, |ready|, e, f, tokens);
    var sections := SomeSections(DisambiguatedAll(f.items));
    rm := RequestMemory("q", sections, |ready|, |f.items|, f.dropped, f.degraded, budget, Total(f.used),
                        f.dropped > 0 || f.degraded != []);
  }

  /** Well-formed candidates are never refused by the validator -- under no budget, no
      weights, no cost of texts -- if and only if they are presentable. */
  lemma NeverRefusedExactly(cs: seq<Candidate>)
    requires forall c :: c in cs ==> WellFormed(c)
    ensures Presentable(cs) <==>
            forall weights, budget, e, tokens, f, rm :: Assembled(cs, weights, budget, e, tokens, f, rm) ==> ValidMemory(rm)
  {
    DedupWellFormed(cs);
    if Presentable(cs) {
      forall weights, budget, e, tokens, f, rm | Assembled(cs, weights, budget, e, tokens, f, rm) ensures ValidMemory(rm) {
        PresentableFits(cs, weights, budget, e, tokens, f);
        PipelineMeetsValidator(cs, weights, budget, e, tokens, rm);
      }
    } else {
      var tokens, f, rm := SomeRefusal(cs);
      assert Assembled(cs, map[], 0, ZERO_ACCOUNTS, tokens, f, rm);
    }
  }

  lemma DedupWellFormed(cs: seq<Candidate>)
    requires forall c :: c in cs ==> WellFormed(c)
    ensures forall c :: c in Dedup(cs) ==> WellFormed(c)
  {
    DedupDistils(cs);
    forall j | 0 <= j < |Dedup(cs)| ensures WellFormed(Dedup(cs)[j]) {
      assert Kept(cs, |cs|, Keys(cs), Dedup(cs)[j]);
      var i :| 0 <= i < |cs| && Dedup(cs)[j] == Flagged(Keys(cs), cs[i]);
      assert cs[i] in cs;
    }
  }

  lemma SomeRefusal(cs: seq<Candidate>) returns (tokens: Tokens, f: Fitting, rm: RequestMemory)
    requires (forall c :: c in Dedup(cs) ==> WellFormed(c)) && !Presentable(cs)
    ensures Assembled(cs, map[], 0, ZERO_ACCOUNTS, tokens, f, rm) && !ValidMemory(rm)
  {
    if c :| c in Dedup(cs) && !DocumentedCandidate(c) {
      tokens := y => 0;
      f := UndocumentedIsKept(cs, c);
    } else {
      var id, x, y :| (id, x) in Keys(cs) && (id, y) in Keys(cs) && x != y && ShareText(x, y);
      var text :| Offered(x, text) && Offered(y, text);
      tokens := OnlyFree(text);
      f := SharedTextCollides(cs, id, x, y, text);
    }
    rm := SomeMemory(cs, map[], 0, ZERO_ACCOUNTS, tokens, f);
    PipelineMeetsValidator(cs, map[], 0, ZERO_ACCOUNTS, tokens, rm);
  }
}
