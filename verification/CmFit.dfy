/** The greedy pass of the budget fitter. The program tests every tier against the
    section's remaining envelope and against the remaining budget; the specification
    tests the envelope only, and the method is proved to agree with it: the second
    test never changes a decision. */
module CmFit {
  import opened CmBudgeter
  import opened CmTypes
  import opened Wrappers

  /** The one place that counts tokens. */
  type Tokens = string -> nat

  function Cost(t: Text, tokens: Tokens): nat {
    if t.Some? then tokens(t.value) else 0
  }

  /** What is tried for a candidate, best fidelity first; None is a missing tier. */
  function TierOptions(content: Content): seq<(Tier, Option<Text>)> {
    match content
    case Tiers(full, section, reference) => [(Full, full), (SectionTier, section), (Reference, reference)]
    case Single(text) => [(Full, Some(text))]
  }

  datatype FitError = UnknownSectionError | MissingTierError

  /** The first tier that costs no more than the room there is. */
  function Choose(options: seq<(Tier, Option<Text>)>, room: int, tokens: Tokens): Result<Option<(Tier, Text)>, FitError> {
    if options == [] then Ok(None)
    else if options[0].1.None? then Err(MissingTierError)
    else if Cost(options[0].1.value, tokens) <= room then Ok(Some((options[0].0, options[0].1.value)))
    else Choose(options[1..], room, tokens)
  }

  lemma {:induction false} ChooseFits(options: seq<(Tier, Option<Text>)>, room: int, tokens: Tokens)
    ensures var c := Choose(options, room, tokens);
            c.Ok? && c.value.Some? ==> Cost(c.value.value.1, tokens) <= room
    decreases |options|
  {
    if options != [] {
      ChooseFits(options[1..], room, tokens);
    }
  }

  function ItemOf(c: Candidate, tier: Tier, text: Text): Item {
    Item(Plain(c.id), c.section, tier, text, c.score, c.hasStale, c.provenance, c.contradiction, None)
  }

  /** The pass so far: the positions kept, their items, and the accounts. */
  datatype Fitting = Fitting(kept: seq<nat>, items: seq<Item>, used: Accounts, dropped: nat, degraded: seq<string>)

  /** The pass after keeping candidate i at a fidelity. */
  function Placed(c: Candidate, i: nat, f: Fitting, cost: nat, tier: Tier, text: Text): Fitting
    requires Complete(f.used) && Known(c.section)
  {
    Fitting(f.kept + [i], f.items + [ItemOf(c, tier, text)], f.used[c.section := f.used[c.section] + cost],
            f.dropped, if tier == Full then f.degraded else f.degraded + [c.id])
  }

  /** One candidate. */
  function FitOne(candidates: seq<Candidate>, i: nat, envelopes: Accounts, f: Fitting, tokens: Tokens): (r: Result<Fitting, FitError>)
    requires i < |candidates| && Complete(envelopes) && Complete(f.used)
    ensures r.Ok? ==> Complete(r.value.used)
  {
    var c := candidates[i];
    if !Known(c.section) then Err(UnknownSectionError)
    else
      var choice :- Choose(TierOptions(c.content), envelopes[c.section] - f.used[c.section], tokens);
      match choice
      case None => Ok(f.(dropped := f.dropped + 1))
      case Some((tier, text)) =>
        Ok(Placed(c, i, f, Cost(text, tokens), tier, text))
  }

  function FitFrom(candidates: seq<Candidate>, i: nat, envelopes: Accounts, f: Fitting, tokens: Tokens): Result<Fitting, FitError>
    requires i <= |candidates| && Complete(envelopes) && Complete(f.used)
    decreases |candidates| - i
  {
    if i == |candidates| then Ok(f)
    else
      var next :- FitOne(candidates, i, envelopes, f, tokens);
      FitFrom(candidates, i + 1, envelopes, next, tokens)
  }

  const ZERO_ACCOUNTS: Accounts := map[Symbols := 0, Files := 0, DependencyGraph := 0, Knowledge := 0, Experience := 0]
  const NOTHING_FITTED := Fitting([], [], ZERO_ACCOUNTS, 0, [])

  function Fit(candidates: seq<Candidate>, envelopes: Accounts, tokens: Tokens): Result<Fitting, FitError>
    requires Complete(envelopes)
  {
    FitFrom(candidates, 0, envelopes, NOTHING_FITTED, tokens)
  }

  // -- accounts --------------------------------------------------------------------

  /** No envelope is overdrawn. */
  ghost predicate WithinEnvelopes(envelopes: Accounts, used: Accounts) {
    && Complete(envelopes) && Complete(used)
    && used[Symbols] <= envelopes[Symbols] && used[Files] <= envelopes[Files] && used[DependencyGraph] <= envelopes[DependencyGraph]
    && used[Knowledge] <= envelopes[Knowledge] && used[Experience] <= envelopes[Experience]
  }

  /** Kept and dropped account for the first i candidates; items match the positions kept. */
  ghost predicate Bookkept(candidates: seq<Candidate>, i: nat, kept: seq<nat>, items: seq<Item>, dropped: nat) {
    && |kept| == |items| && |kept| + dropped == i <= |candidates|
    && (forall k :: 0 <= k < |kept| ==> kept[k] < i && ItemFrom(items[k], candidates[kept[k]]))
    && (forall k, l :: 0 <= k < l < |kept| ==> kept[k] < kept[l])
  }

  /** An item is its candidate at one fidelity. */
  predicate ItemFrom(item: Item, c: Candidate) {
    item == ItemOf(c, item.fidelity, item.content) && Known(c.section)
  }

  ghost predicate Balanced(candidates: seq<Candidate>, i: nat, envelopes: Accounts, f: Fitting, tokens: Tokens) {
    && WithinEnvelopes(envelopes, f.used)
    && Bookkept(candidates, i, f.kept, f.items, f.dropped)
    && Total(f.used) == ItemCost(f.items, tokens)
  }

  function ItemCost(items: seq<Item>, tokens: Tokens): nat {
    if items == [] then 0 else ItemCost(items[..|items| - 1], tokens) + Cost(items[|items| - 1].content, tokens)
  }

  lemma SpendWithin(envelopes: Accounts, used: Accounts, s: Section, cost: nat)
    requires WithinEnvelopes(envelopes, used) && Known(s) && cost <= envelopes[s] - used[s]
    ensures WithinEnvelopes(envelopes, used[s := used[s] + cost])
    ensures Total(used[s := used[s] + cost]) == Total(used) + cost
  {
  }

  /** If no envelope is overdrawn, one section's room is no more than the room there is. */
  lemma RoomInOne(envelopes: Accounts, used: Accounts, s: Section)
    requires WithinEnvelopes(envelopes, used) && Known(s)
    ensures envelopes[s] - used[s] <= Total(envelopes) - Total(used)
  {
  }

  lemma KeepOne(candidates: seq<Candidate>, i: nat, kept: seq<nat>, items: seq<Item>, dropped: nat, item: Item, tokens: Tokens)
    requires i < |candidates| && Bookkept(candidates, i, kept, items, dropped) && ItemFrom(item, candidates[i])
    ensures Bookkept(candidates, i + 1, kept + [i], items + [item], dropped)
    ensures ItemCost(items + [item], tokens) == ItemCost(items, tokens) + Cost(item.content, tokens)
  {
    assert (items + [item])[..|items|] == items;
  }

  lemma DroppedBalanced(candidates: seq<Candidate>, i: nat, envelopes: Accounts, f: Fitting, tokens: Tokens)
    requires i < |candidates| && Balanced(candidates, i, envelopes, f, tokens)
    ensures Balanced(candidates, i + 1, envelopes, f.(dropped := f.dropped + 1), tokens)
  {
  }

  lemma FitOneBalanced(candidates: seq<Candidate>, i: nat, envelopes: Accounts, f: Fitting, tokens: Tokens)
    requires i < |candidates| && Balanced(candidates, i, envelopes, f, tokens)
    ensures var r := FitOne(candidates, i, envelopes, f, tokens);
            r.Ok? ==> Balanced(candidates, i + 1, envelopes, r.value, tokens)
  {
    var c := candidates[i];
    if Known(c.section) {
      var room := envelopes[c.section] - f.used[c.section];
      var choice := Choose(TierOptions(c.content), room, tokens);
      ChooseFits(TierOptions(c.content), room, tokens);
      if choice.Ok? {
        if choice.value.None? {
          DroppedBalanced(candidates, i, envelopes, f, tokens);
        } else {
          PlacedBalanced(candidates, i, envelopes, f, tokens, choice.value.value.0, choice.value.value.1);
        }
      }
    }
  }

  lemma PlacedBalanced(candidates: seq<Candidate>, i: nat, envelopes: Accounts, f: Fitting, tokens: Tokens, tier: Tier, text: Text)
    requires i < |candidates| && Balanced(candidates, i, envelopes, f, tokens) && Known(candidates[i].section)
    requires Cost(text, tokens) <= envelopes[candidates[i].section] - f.used[candidates[i].section]
    ensures Balanced(candidates, i + 1, envelopes, Placed(candidates[i], i, f, Cost(text, tokens), tier, text), tokens)
  {
    var c := candidates[i];
    SpendWithin(envelopes, f.used, c.section, Cost(text, tokens));
    KeepOne(candidates, i, f.kept, f.items, f.dropped, ItemOf(c, tier, text), tokens);
  }

  lemma {:induction false} FitFromBalanced(candidates: seq<Candidate>, i: nat, envelopes: Accounts, f: Fitting, tokens: Tokens)
    requires i <= |candidates| && Balanced(candidates, i, envelopes, f, tokens)
    ensures var r := FitFrom(candidates, i, envelopes, f, tokens);
            r.Ok? ==> Balanced(candidates, |candidates|, envelopes, r.value, tokens)
    decreases |candidates| - i
  {
    if i < |candidates| {
      FitOneBalanced(candidates, i, envelopes, f, tokens);
      var next := FitOne(candidates, i, envelopes, f, tokens);
      if next.Ok? {
        FitFromBalanced(candidates, i + 1, envelopes, next.value, tokens);
      }
    }
  }

  lemma StartsBalanced(candidates: seq<Candidate>, envelopes: Accounts, tokens: Tokens)
    requires Complete(envelopes) && forall s :: Known(s) ==> envelopes[s] >= 0
    ensures Balanced(candidates, 0, envelopes, NOTHING_FITTED, tokens)
  {
  }

  // -- fit as it runs -----------------------------------------------------------------

  datatype FitResult = FitResult(
    items: seq<Item>, tokensUsed: int, sectionUsed: Accounts, sectionBudgets: Accounts,
    dropped: nat, degraded: seq<string>, truncated: bool)

  /** The variables of the loop. */
  datatype Books = Books(items: seq<Item>, used: Accounts, globalUsed: int, dropped: nat, degraded: seq<string>)

  /** The loop's variables agree with the specification's pass. */
  ghost predicate InStep(b: Books, f: Fitting) {
    && b.items == f.items && b.used == f.used && b.dropped == f.dropped && b.degraded == f.degraded
    && Complete(f.used) && b.globalUsed == Total(f.used)
  }

  /** The body of the loop over candidates. */
  method PlaceCandidate(candidates: seq<Candidate>, i: nat, envelopes: Accounts, budget: nat, b: Books, tokens: Tokens, ghost f: Fitting)
    returns (r: Result<Books, FitError>)
    requires i < |candidates| && InStep(b, f) && WithinEnvelopes(envelopes, f.used) && Total(envelopes) <= budget
    ensures r.Err? ==> FitOne(candidates, i, envelopes, f, tokens) == Err(r.error)
    ensures r.Ok? ==> FitOne(candidates, i, envelopes, f, tokens).Ok? && InStep(r.value, FitOne(candidates, i, envelopes, f, tokens).value)
  {
    var c := candidates[i];
    if !Known(c.section) {
      return Err(UnknownSectionError);
    }
    RoomInOne(envelopes, b.used, c.section);
    var room := envelopes[c.section] - b.used[c.section];
    var choice := PlaceTier(TierOptions(c.content), room, budget - b.globalUsed, tokens);
    if choice.Err? {
      return Err(choice.error);
    }
    if choice.value.None? {
      return Ok(b.(dropped := b.dropped + 1));
    }
    var (tier, text) := choice.value.value;
    ChooseFits(TierOptions(c.content), room, tokens);
    SpendWithin(envelopes, b.used, c.section, Cost(text, tokens));
    var used := b.used[c.section := b.used[c.section] + Cost(text, tokens)];
    return Ok(Books(b.items + [ItemOf(c, tier, text)], used, b.globalUsed + Cost(text, tokens), b.dropped,
                    if tier == Full then b.degraded else b.degraded + [c.id]));
  }

  /** The loops over candidates and tiers, each tier tested against the section's
      remaining envelope and against the remaining budget. They keep, degrade and drop
      exactly what the envelope-only pass does, use no section beyond its envelope and
      no more than the budget in all, and report what they spent. */
  method FitWithin(candidates: seq<Candidate>, envelopes: Accounts, budget: nat, tokens: Tokens) returns (r: Result<FitResult, FitError>)
    requires Complete(envelopes) && Total(envelopes) <= budget
    requires forall s :: Known(s) ==> envelopes[s] >= 0
    ensures r.Err? ==> Fit(candidates, envelopes, tokens) == Err(r.error)
    ensures r.Ok? ==> var spec := Fit(candidates, envelopes, tokens);
                      && spec.Ok? && AgreesWith(r.value, spec.value, envelopes)
                      && Balanced(candidates, |candidates|, envelopes, spec.value, tokens)
                      && r.value.tokensUsed == ItemCost(r.value.items, tokens) <= budget
  {
    StartsBalanced(candidates, envelopes, tokens);
    var b := Books([], ZERO_ACCOUNTS, 0, 0, []);
    ghost var f := NOTHING_FITTED;
    for i := 0 to |candidates|
      invariant InStep(b, f) && Balanced(candidates, i, envelopes, f, tokens)
      invariant FitFrom(candidates, i, envelopes, f, tokens) == Fit(candidates, envelopes, tokens)
    {
      FitOneBalanced(candidates, i, envelopes, f, tokens);
      var next := PlaceCandidate(candidates, i, envelopes, budget, b, tokens, f);
      if next.Err? {
        return Err(next.error);
      }
      f := FitOne(candidates, i, envelopes, f, tokens).value;
      b := next.value;
    }
    RoomInOne(envelopes, b.used, Symbols);
    return Ok(FitResult(b.items, b.globalUsed, b.used, envelopes, b.dropped, b.degraded, b.dropped > 0 || |b.degraded| > 0));
  }

  /** fit, from the weights of the configuration. */
  method FitCandidates(candidates: seq<Candidate>, budget: nat, weights: Weights, tokens: Tokens)
    returns (envelopes: Accounts, r: Result<FitResult, FitError>)
    requires WeightsValid(weights)
    ensures EnvelopesOf(envelopes, weights, budget)
    ensures r.Err? ==> Fit(candidates, envelopes, tokens) == Err(r.error)
    ensures r.Ok? ==> var spec := Fit(candidates, envelopes, tokens);
                      && spec.Ok? && AgreesWith(r.value, spec.value, envelopes)
                      && Balanced(candidates, |candidates|, envelopes, spec.value, tokens)
                      && r.value.tokensUsed == ItemCost(r.value.items, tokens) <= budget
  {
    var e := SectionEnvelopes(weights, budget);
    envelopes := e.value;
    EnvelopeAccountsAddUp(envelopes, weights, budget);
    forall s | Known(s) ensures envelopes[s] >= 0 {
      EnvelopeNonNegative(weights, budget, s);
    }
    r := FitWithin(candidates, envelopes, budget, tokens);
  }

  /** The loop over the tiers of one candidate, with both tests. */
  method PlaceTier(options: seq<(Tier, Option<Text>)>, sectionRoom: int, globalRoom: int, tokens: Tokens)
    returns (r: Result<Option<(Tier, Text)>, FitError>)
    requires sectionRoom <= globalRoom
    ensures r == Choose(options, sectionRoom, tokens)
  {
    assert options[0..] == options;
    for i := 0 to |options|
      invariant Choose(options[i..], sectionRoom, tokens) == Choose(options, sectionRoom, tokens)
    {
      assert options[i..][1..] == options[i + 1..];
      if options[i].1.None? {
        return Err(MissingTierError);
      }
      var cost := Cost(options[i].1.value, tokens);
      if cost <= sectionRoom && cost <= globalRoom {
        return Ok(Some((options[i].0, options[i].1.value)));
      }
    }
    return Ok(None);
  }

  ghost predicate AgreesWith(r: FitResult, f: Fitting, envelopes: Accounts) {
    && r.items == f.items && r.sectionUsed == f.used && r.dropped == f.dropped && r.degraded == f.degraded
    && Complete(f.used) && r.tokensUsed == Total(f.used) && r.sectionBudgets == envelopes
    && (r.truncated <==> f.dropped > 0 || f.degraded != [])
  }
}
