/** What the context pipeline decides, told by weights, scores, texts and costs alone: the
    order of candidates, which copy survives, at which fidelity one is kept, who gets the
    leftover tokens, and what is announced. */
module CmMeaning {
  import opened Apportionment
  import opened CmAssembler
  import opened CmBudgeter
  import opened CmDedup
  import opened CmFit
  import opened CmGreedy
  import opened CmTypes
  import opened Orders
  import opened Wrappers

  // -- which copy survives ---------------------------------------------------------------

  /** The first candidate of its id and content. */
  predicate FirstCopy(cs: seq<Candidate>, i: nat)
    requires i < |cs|
  {
    forall j :: 0 <= j < i ==> !(cs[j].id == cs[i].id && cs[j].content == cs[i].content)
  }

  /** Some other candidate gives this id another content. */
  predicate Disputed(cs: seq<Candidate>, id: string) {
    exists i, j :: 0 <= i < |cs| && 0 <= j < |cs| && cs[i].id == id && cs[j].id == id && cs[i].content != cs[j].content
  }

  lemma DisputedMeans(cs: seq<Candidate>, id: string)
    ensures Disputed(cs, id) <==> Contradicted(Keys(cs), id)
  {
    if x, y :| (id, x) in Keys(cs) && (id, y) in Keys(cs) && x != y {
      var a :| a in cs && KeyOf(a) == (id, x);
      var b :| b in cs && KeyOf(b) == (id, y);
      var i :| 0 <= i < |cs| && cs[i] == a;
      var j :| 0 <= j < |cs| && cs[j] == b;
      assert cs[i].id == id && cs[j].id == id;
    }
    if i, j :| 0 <= i < |cs| && 0 <= j < |cs| && cs[i].id == id && cs[j].id == id && cs[i].content != cs[j].content {
      assert KeyOf(cs[i]) in Keys(cs) && KeyOf(cs[j]) in Keys(cs);
    }
  }

  lemma FirstCopyMeans(cs: seq<Candidate>, n: nat)
    requires n < |cs|
    ensures FirstCopy(cs, n) <==> KeyOf(cs[n]) !in Keys(cs[..n])
  {
    if KeyOf(cs[n]) in Keys(cs[..n]) {
      var c :| c in cs[..n] && KeyOf(c) == KeyOf(cs[n]);
      var j :| 0 <= j < n && cs[..n][j] == c;
      assert cs[j].id == cs[n].id;
    }
    forall j | 0 <= j < n && cs[j].id == cs[n].id && cs[j].content == cs[n].content ensures KeyOf(cs[n]) in Keys(cs[..n]) {
      assert cs[..n][j] == cs[j] && cs[j] in cs[..n];
      assert KeyOf(cs[j]) == KeyOf(cs[n]);
    }
  }

  /** From the first n candidates: the first copies, in order, each as it came but flagged
      if its id is disputed. */
  ghost predicate Survive(cs: seq<Candidate>, n: nat, at: seq<nat>, out: seq<Candidate>) {
    && n <= |cs| && |at| == |out|
    && (forall k, l :: 0 <= k < l < |at| ==> at[k] < at[l])
    && (forall i: nat :: i in at <==> i < n && FirstCopy(cs, i))
    && forall k :: 0 <= k < |at| ==> SurvivesAs(cs, at[k], out[k])
  }

  ghost predicate SurvivesAs(cs: seq<Candidate>, i: nat, c: Candidate) {
    i < |cs| && c == cs[i].(contradiction := cs[i].contradiction || Disputed(cs, cs[i].id))
  }

  lemma {:induction false} FirstCopiesUpTo(cs: seq<Candidate>, n: nat) returns (at: seq<nat>)
    requires n <= |cs|
    ensures Survive(cs, n, at, DedupUpTo(cs, n, Keys(cs)))
    decreases n
  {
    at := [];
    if n > 0 {
      at := FirstCopiesUpTo(cs, n - 1);
      FirstCopyMeans(cs, n - 1);
      DisputedMeans(cs, cs[n - 1].id);
      OneMoreKept(cs, n, Keys(cs));
      if FirstCopy(cs, n - 1) {
        OneMoreSurvives(cs, n, at, DedupUpTo(cs, n - 1, Keys(cs)), Flagged(Keys(cs), cs[n - 1]));
        at := at + [n - 1];
      }
    }
  }

  lemma OneMoreSurvives(cs: seq<Candidate>, n: nat, at: seq<nat>, out: seq<Candidate>, c: Candidate)
    requires 0 < n <= |cs| && Survive(cs, n - 1, at, out) && FirstCopy(cs, n - 1) && SurvivesAs(cs, n - 1, c)
    ensures Survive(cs, n, at + [n - 1], out + [c])
  {
    var more := at + [n - 1];
    forall i: nat ensures i in more <==> i < n && FirstCopy(cs, i) {
      assert i in more <==> i in at || i == n - 1;
    }
    forall k | 0 <= k < |at| ensures at[k] < n - 1 {
      assert at[k] in at;
    }
  }

  /** dedup keeps exactly the first copy of each id and content, in order, as it came; it
      flags it if some candidate disputes the content, and takes no flag away. */
  lemma FirstCopiesSurvive(cs: seq<Candidate>) returns (at: seq<nat>)
    ensures Survive(cs, |cs|, at, Dedup(cs))
  {
    at := FirstCopiesUpTo(cs, |cs|);
  }

  // -- the order ---------------------------------------------------------------------------

  function Weight(weights: Weights, s: Section): real {
    if s in weights then weights[s] else 0.0
  }

  /** A number beats a smaller one, and any number beats none. */
  predicate Outscores(a: Option<real>, b: Option<real>) {
    a.Some? && (b.None? || a.value > b.value)
  }

  /** Nothing comes before what is weightier, scores higher in an equally weighty section,
      or has a smaller id at an equal score. */
  lemma OrderedExactly(cs: seq<Candidate>, weights: Weights, i: nat, j: nat)
    requires i < j < |Prioritize(cs, weights)|
    ensures var a, b := Prioritize(cs, weights)[i], Prioritize(cs, weights)[j];
            var wa, wb := Weight(weights, a.section), Weight(weights, b.section);
            wa >= wb && (wa == wb ==> !Outscores(b.score, a.score) && (a.score == b.score ==> StrLe(a.id, b.id)))
  {
    BeforePreorder(weights);
    var le := (x, y) => CmDedup.Before(weights, x, y);
    SortCorrect(cs, le);
    assert le(Prioritize(cs, weights)[i], Prioritize(cs, weights)[j]);
  }

  // -- fidelity ------------------------------------------------------------------------------

  /** A text, or what is not text and costs nothing, fits the room. */
  predicate Affords(room: int, text: Text, tokens: Tokens) {
    if text.Some? then tokens(text.value) <= room else 0 <= room
  }

  /** At full fidelity if that fits; else the section tier if that does; else the reference;
      and content already fitted only as it is. */
  predicate AtFidelity(content: Content, tier: Tier, text: Text, room: int, tokens: Tokens) {
    match content
    case Single(only) => tier == Full && text == only && Affords(room, only, tokens)
    case Tiers(full, section, reference) =>
      && full.Some?
      && match tier
         case Full => text == full.value && Affords(room, text, tokens)
         case SectionTier => section == Some(text) && Affords(room, text, tokens) && !Affords(room, full.value, tokens)
         case Reference =>
           section.Some? && reference == Some(text) && Affords(room, text, tokens)
           && !Affords(room, full.value, tokens) && !Affords(room, section.value, tokens)
  }

  predicate AtNoFidelity(content: Content, room: int, tokens: Tokens) {
    match content
    case Single(only) => !Affords(room, only, tokens)
    case Tiers(full, section, reference) =>
      full.Some? && section.Some? && reference.Some?
      && !Affords(room, full.value, tokens) && !Affords(room, section.value, tokens) && !Affords(room, reference.value, tokens)
  }

  lemma FirstFitMeans(content: Content, i: nat, tier: Tier, text: Text, room: int, tokens: Tokens)
    requires FirstFit(TierOptions(content), i, tier, text, room, tokens)
    ensures AtFidelity(content, tier, text, room, tokens)
  {
    var options := TierOptions(content);
    if i > 0 {
      assert options[0].1.Some? && Cost(options[0].1.value, tokens) > room;
    }
    if i > 1 {
      assert options[1].1.Some? && Cost(options[1].1.value, tokens) > room;
    }
  }

  lemma NothingFitsMeans(content: Content, room: int, tokens: Tokens)
    requires TooCostly(TierOptions(content), |TierOptions(content)|, room, tokens)
    ensures AtNoFidelity(content, room, tokens)
  {
    var options := TierOptions(content);
    assert options[0].1.Some? && Cost(options[0].1.value, tokens) > room;
    if content.Tiers? {
      assert options[1].1.Some? && Cost(options[1].1.value, tokens) > room;
      assert options[2].1.Some? && Cost(options[2].1.value, tokens) > room;
    }
  }

  /** What the items of a section cost together. */
  function Spent(items: seq<Item>, s: Section, tokens: Tokens): int {
    if items == [] then 0
    else
      var last := items[|items| - 1];
      Spent(items[..|items| - 1], s, tokens) + if last.section == s && last.content.Some? then tokens(last.content.value) else 0
  }

  lemma {:induction false} SpentMeans(items: seq<Item>, s: Section, tokens: Tokens)
    ensures Spent(items, s, tokens) == SectionCost(items, s, tokens)
  {
    if items != [] {
      SpentMeans(items[..|items| - 1], s, tokens);
    }
  }

  /** Item k is its candidate, unchanged but for the fidelity, which is the best that fits
      what the items before it left of the section's envelope. */
  lemma KeptAtBestFidelity(candidates: seq<Candidate>, envelopes: Accounts, tokens: Tokens, k: nat)
    requires Complete(envelopes) && Fit(candidates, envelopes, tokens).Ok? && k < |Fit(candidates, envelopes, tokens).value.items|
    ensures var f := Fit(candidates, envelopes, tokens).value;
            && k < |f.kept| && f.kept[k] < |candidates|
            && var c, item := candidates[f.kept[k]], f.items[k];
               && item == Item(Plain(c.id), c.section, item.fidelity, item.content, c.score, c.hasStale, c.provenance, c.contradiction, None)
               && c.section in envelopes
               && AtFidelity(c.content, item.fidelity, item.content, envelopes[c.section] - Spent(f.items[..k], c.section, tokens), tokens)
  {
    var f := Fit(candidates, envelopes, tokens).value;
    FitIsGreedy(candidates, envelopes, tokens);
    var c, item := candidates[f.kept[k]], f.items[k];
    assert KeptAtBest(c, item, envelopes, f.items[..k], tokens);
    SpentMeans(f.items[..k], c.section, tokens);
    var room := Room(c, envelopes, f.items[..k], tokens);
    var i: nat :| FirstFit(TierOptions(c.content), i, item.fidelity, item.content, room, tokens);
    FirstFitMeans(c.content, i, item.fidelity, item.content, room, tokens);
  }

  /** A candidate passed over after k items fits at no fidelity what they left. */
  lemma DroppedAtNone(candidates: seq<Candidate>, envelopes: Accounts, tokens: Tokens, p: nat, k: nat)
    requires Complete(envelopes) && Fit(candidates, envelopes, tokens).Ok? && p < |candidates|
    requires PassedOver(Fit(candidates, envelopes, tokens).value.kept, p, k)
    ensures var f := Fit(candidates, envelopes, tokens).value;
            var c := candidates[p];
            k <= |f.items|
            && AtNoFidelity(c.content, (if c.section in envelopes then envelopes[c.section] else 0) - Spent(f.items[..k], c.section, tokens), tokens)
  {
    var f := Fit(candidates, envelopes, tokens).value;
    FitIsGreedy(candidates, envelopes, tokens);
    var c := candidates[p];
    assert NothingFits(c, envelopes, f.items[..k], tokens);
    SpentMeans(f.items[..k], c.section, tokens);
    NothingFitsMeans(c.content, Room(c, envelopes, f.items[..k], tokens), tokens);
  }

  /** Fitting is refused only over a candidate of an unknown section, or one that lacks a
      fidelity it came to need. */
  lemma {:induction false} FitRefusedFor(candidates: seq<Candidate>, n: nat, envelopes: Accounts, f: Fitting, tokens: Tokens)
    requires n <= |candidates| && Complete(envelopes) && Complete(f.used)
    ensures FitFrom(candidates, n, envelopes, f, tokens) == Err(UnknownSectionError) ==>
      exists i :: n <= i < |candidates| && candidates[i].section.UnknownSection?
    ensures FitFrom(candidates, n, envelopes, f, tokens) == Err(MissingTierError) ==>
      exists i :: n <= i < |candidates| && LacksTier(candidates[i].content)
    decreases |candidates| - n
  {
    if n < |candidates| {
      var next := FitOne(candidates, n, envelopes, f, tokens);
      if next.Ok? {
        FitRefusedFor(candidates, n + 1, envelopes, next.value, tokens);
      } else if Known(candidates[n].section) {
        var room := envelopes[candidates[n].section] - f.used[candidates[n].section];
        var at := ChooseMeans(TierOptions(candidates[n].content), room, tokens);
        OnlyMissingTiers(TierOptions(candidates[n].content), room, tokens);
      }
    }
  }

  lemma {:induction false} OnlyMissingTiers(options: seq<(Tier, Option<Text>)>, room: int, tokens: Tokens)
    ensures Choose(options, room, tokens).Err? ==> Choose(options, room, tokens).error == MissingTierError
    decreases |options|
  {
    if options != [] {
      OnlyMissingTiers(options[1..], room, tokens);
    }
  }

  predicate LacksTier(content: Content) {
    content.Tiers? && (content.full.None? || content.section.None? || content.reference.None?)
  }

  // -- envelopes -------------------------------------------------------------------------------

  function AllWeight(weights: Weights): real {
    Weight(weights, Symbols) + Weight(weights, Files) + Weight(weights, DependencyGraph) + Weight(weights, Knowledge)
    + Weight(weights, Experience)
  }

  /** The exact share of a section. */
  function Exactly(weights: Weights, budget: nat, s: Section): real
    requires AllWeight(weights) > 0.0
  {
    Weight(weights, s) / AllWeight(weights) * budget as real
  }

  lemma OneWeight(weights: Weights, s: Section, rest: seq<Section>)
    ensures TotalWeight(weights, [s] + rest) == Weight(weights, s) + TotalWeight(weights, rest)
  {
    assert ([s] + rest)[1..] == rest;
  }

  lemma AllWeightMeans(weights: Weights)
    ensures TotalWeight(weights, SECTIONS) == AllWeight(weights)
  {
    OneWeight(weights, Experience, []);
    OneWeight(weights, Knowledge, [Experience]);
    OneWeight(weights, DependencyGraph, [Knowledge, Experience]);
    OneWeight(weights, Files, [DependencyGraph, Knowledge, Experience]);
    OneWeight(weights, Symbols, [Files, DependencyGraph, Knowledge, Experience]);
  }

  lemma ShareMeans(weights: Weights, budget: nat, s: Section)
    requires AllWeight(weights) > 0.0
    ensures TotalWeight(weights, SECTIONS) > 0.0
    ensures ShareOf(weights, TotalWeight(weights, SECTIONS), budget, s) == Share(SectionName(s), Exactly(weights, budget, s))
  {
    AllWeightMeans(weights);
  }

  lemma WinnerFirst(shares: seq<Share>, budget: nat, a: Share, b: Share)
    requires Exact(shares, budget) && a in Winners(shares, budget) && b in shares && b !in Winners(shares, budget)
    ensures a.Fraction() > b.Fraction() || (a.Fraction() == b.Fraction() && StrLe(a.name, b.name))
  {
    StrOrder();
    if !Earlier(a, b) {
      WinnersPrecede(shares, budget, a, b);
    }
  }

  /** Each section gets the floor of its exact share or one more; a section that gets one
      more has, against any that does not, the larger remainder, or an equal one and the
      smaller name. */
  lemma LargestRemaindersWin(weights: Weights, budget: nat, s: Section, t: Section)
    requires WeightsValid(weights) && AllWeight(weights) > 0.0 && budget > 0 && s in SECTIONS && t in SECTIONS
    ensures SectionEnvelope(weights, budget, s) in {Exactly(weights, budget, s).Floor, Exactly(weights, budget, s).Floor + 1}
    ensures SectionEnvelope(weights, budget, s) > Exactly(weights, budget, s).Floor
            && SectionEnvelope(weights, budget, t) == Exactly(weights, budget, t).Floor ==>
            var rs := Exactly(weights, budget, s) - Exactly(weights, budget, s).Floor as real;
            var rt := Exactly(weights, budget, t) - Exactly(weights, budget, t).Floor as real;
            rs > rt || (rs == rt && StrLe(SectionName(s), SectionName(t)))
  {
    ShareMeans(weights, budget, s);
    ShareMeans(weights, budget, t);
    var total := TotalWeight(weights, SECTIONS);
    var shares := Shares(weights, total, budget, SECTIONS);
    var a, b := ShareOf(weights, total, budget, s), ShareOf(weights, total, budget, t);
    SharesExact(weights, budget);
    ShareListed(weights, total, budget, s);
    ShareListed(weights, total, budget, t);
    if a in Winners(shares, budget) && b !in Winners(shares, budget) {
      WinnerFirst(shares, budget, a, b);
    }
  }

  // -- the artifact ------------------------------------------------------------------------------

  /** A flagged item's id is told apart by its content and remembered; an unflagged one is
      left alone; nothing else about an item changes. */
  lemma IdsTold(items: seq<Item>, i: nat)
    requires AllPlain(items) && i < |items|
    ensures var before, after := items[i], DisambiguatedAll(items)[i];
            && after == before.(id := after.id, originalId := after.originalId)
            && (before.contradiction ==> after.id == Suffixed(before.id.id, before.content) && after.originalId == Some(before.id.id))
            && (!before.contradiction ==> after == before)
  {
  }

  /** The bus is told of every artifact logged: its tokens, and which part of the candidates
      it covers -- all of it if there were none; and, if anything was dropped or degraded,
      what, against which budget. */
  lemma AnnouncedExactly(rm: RequestMemory)
    ensures var events := EventsOf(rm);
            && |events| == (if rm.truncated then 2 else 1)
            && events[0].Assembled? && events[0].requestId == rm.requestId && events[0].tokensUsed == rm.tokensUsed
            && (rm.candidateCount == 0 ==> events[0].coverage == 1.0)
            && (rm.candidateCount > 0 ==> events[0].coverage * rm.candidateCount as real == rm.selectedCount as real)
            && (rm.truncated ==> events[1] == Overflow(rm.requestId, rm.dropped, rm.degraded, rm.tokensUsed, rm.budgetTokens))
  {
  }
}
