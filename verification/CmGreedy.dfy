/** What the greedy pass means, without the pass: a candidate is kept at the first
    fidelity that fits what earlier items left of its section, dropped only if none
    does, and there is just one such outcome. */
module CmGreedy {
  import opened CmBudgeter
  import opened CmFit
  import opened CmTypes
  import opened Wrappers

  /** What the items of one section cost. */
  function SectionCost(items: seq<Item>, s: Section, tokens: Tokens): nat {
    if items == [] then 0
    else
      var last := items[|items| - 1];
      SectionCost(items[..|items| - 1], s, tokens) + if last.section == s then Cost(last.content, tokens) else 0
  }

  /** The ids of the items below full fidelity. */
  function BelowFull(items: seq<Item>): seq<string> {
    if items == [] then []
    else
      var last := items[|items| - 1];
      BelowFull(items[..|items| - 1]) + if last.fidelity != Full && last.id.Plain? then [last.id.id] else []
  }

  /** What earlier items left of a candidate's section. */
  function Room(c: Candidate, envelopes: Accounts, earlier: seq<Item>, tokens: Tokens): int {
    (if c.section in envelopes then envelopes[c.section] else 0) - SectionCost(earlier, c.section, tokens)
  }

  /** Options up to n are texts that cost more than the room. */
  predicate TooCostly(options: seq<(Tier, Option<Text>)>, n: nat, room: int, tokens: Tokens)
    requires n <= |options|
  {
    forall i :: 0 <= i < n ==> options[i].1.Some? && Cost(options[i].1.value, tokens) > room
  }

  /** Option i is the first that fits. */
  predicate FirstFit(options: seq<(Tier, Option<Text>)>, i: nat, tier: Tier, text: Text, room: int, tokens: Tokens) {
    && i < |options| && options[i] == (tier, Some(text)) && Cost(text, tokens) <= room
    && TooCostly(options, i, room, tokens)
  }

  ghost predicate KeptAtBest(c: Candidate, item: Item, envelopes: Accounts, earlier: seq<Item>, tokens: Tokens) {
    && ItemFrom(item, c)
    && exists i: nat :: FirstFit(TierOptions(c.content), i, item.fidelity, item.content, Room(c, envelopes, earlier, tokens), tokens)
  }

  predicate NothingFits(c: Candidate, envelopes: Accounts, earlier: seq<Item>, tokens: Tokens) {
    var options := TierOptions(c.content);
    TooCostly(options, |options|, Room(c, envelopes, earlier, tokens), tokens)
  }

  /** Position p was passed over when k items had been kept. */
  predicate PassedOver(kept: seq<nat>, p: nat, k: nat) {
    && k <= |kept| && (k == 0 || kept[k - 1] < p) && (k == |kept| || p < kept[k])
  }

  predicate Increasing(kept: seq<nat>, n: nat) {
    (forall k, l :: 0 <= k < l < |kept| ==> kept[k] < kept[l]) && forall k :: 0 <= k < |kept| ==> kept[k] < n
  }

  ghost predicate AllAtBest(candidates: seq<Candidate>, envelopes: Accounts, kept: seq<nat>, items: seq<Item>, tokens: Tokens) {
    && |kept| == |items|
    && forall k {:trigger kept[k]} :: 0 <= k < |kept| ==>
         kept[k] < |candidates| && KeptAtBest(candidates[kept[k]], items[k], envelopes, items[..k], tokens)
  }

  ghost predicate NoneSpared(candidates: seq<Candidate>, n: nat, envelopes: Accounts, kept: seq<nat>, items: seq<Item>, tokens: Tokens) {
    && n <= |candidates| && |kept| == |items|
    && forall p: nat, k: nat {:trigger PassedOver(kept, p, k)} :: p < n && PassedOver(kept, p, k) ==> NothingFits(candidates[p], envelopes, items[..k], tokens)
  }

  /** The outcome of a greedy pass over the first n candidates. */
  ghost predicate Greedy(candidates: seq<Candidate>, n: nat, envelopes: Accounts, kept: seq<nat>, items: seq<Item>, tokens: Tokens) {
    && Increasing(kept, n)
    && AllAtBest(candidates, envelopes, kept, items, tokens)
    && NoneSpared(candidates, n, envelopes, kept, items, tokens)
  }

  /** A section's account is what its items cost. */
  predicate Charged(used: Accounts, items: seq<Item>, s: Section, tokens: Tokens) {
    s in used && used[s] == SectionCost(items, s, tokens)
  }

  predicate AllCharged(used: Accounts, items: seq<Item>, tokens: Tokens) {
    && Charged(used, items, Symbols, tokens) && Charged(used, items, Files, tokens) && Charged(used, items, DependencyGraph, tokens)
    && Charged(used, items, Knowledge, tokens) && Charged(used, items, Experience, tokens)
  }

  /** Everything said of the pass so far. */
  ghost predicate Outcome(candidates: seq<Candidate>, n: nat, envelopes: Accounts, f: Fitting, tokens: Tokens) {
    && AllCharged(f.used, f.items, tokens)
    && f.degraded == BelowFull(f.items)
    && Greedy(candidates, n, envelopes, f.kept, f.items, tokens)
  }

  // -- one candidate -------------------------------------------------------------------

  lemma {:induction false} ChooseMeans(options: seq<(Tier, Option<Text>)>, room: int, tokens: Tokens) returns (i: nat)
    ensures i <= |options| && TooCostly(options, i, room, tokens)
    ensures match Choose(options, room, tokens)
            case Ok(Some((tier, text))) => FirstFit(options, i, tier, text, room, tokens)
            case Ok(None) => i == |options|
            case Err(_) => i < |options| && options[i].1.None?
    decreases |options|
  {
    if options == [] || options[0].1.None? || Cost(options[0].1.value, tokens) <= room {
      i := 0;
    } else {
      var j := ChooseMeans(options[1..], room, tokens);
      i := j + 1;
    }
  }

  lemma OneMoreItem(items: seq<Item>, item: Item, s: Section, tokens: Tokens)
    ensures SectionCost(items + [item], s, tokens)
            == SectionCost(items, s, tokens) + if item.section == s then Cost(item.content, tokens) else 0
    ensures BelowFull(items + [item]) == BelowFull(items) + if item.fidelity != Full && item.id.Plain? then [item.id.id] else []
  {
    assert (items + [item])[..|items|] == items;
  }

  lemma ChargeOne(used: Accounts, items: seq<Item>, item: Item, s: Section, tokens: Tokens)
    requires item.section in used && Charged(used, items, s, tokens)
    ensures Charged(used[item.section := used[item.section] + Cost(item.content, tokens)], items + [item], s, tokens)
  {
    OneMoreItem(items, item, s, tokens);
  }

  lemma ChargeAll(used: Accounts, items: seq<Item>, item: Item, tokens: Tokens)
    requires Known(item.section) && AllCharged(used, items, tokens)
    ensures AllCharged(used[item.section := used[item.section] + Cost(item.content, tokens)], items + [item], tokens)
  {
    ChargeOne(used, items, item, Symbols, tokens);
    ChargeOne(used, items, item, Files, tokens);
    ChargeOne(used, items, item, DependencyGraph, tokens);
    ChargeOne(used, items, item, Knowledge, tokens);
    ChargeOne(used, items, item, Experience, tokens);
  }

  lemma KeepAtBest(candidates: seq<Candidate>, i: nat, envelopes: Accounts, kept: seq<nat>, items: seq<Item>, item: Item, tokens: Tokens)
    requires i < |candidates| && AllAtBest(candidates, envelopes, kept, items, tokens)
    requires KeptAtBest(candidates[i], item, envelopes, items, tokens)
    ensures AllAtBest(candidates, envelopes, kept + [i], items + [item], tokens)
  {
    var kept', items' := kept + [i], items + [item];
    forall k | 0 <= k < |kept'|
      ensures kept'[k] < |candidates| && KeptAtBest(candidates[kept'[k]], items'[k], envelopes, items'[..k], tokens)
    {
      assert items'[..k] == items[..k];
      assert k == |kept| ==> items[..k] == items;
    }
  }

  lemma KeepSpares(candidates: seq<Candidate>, i: nat, envelopes: Accounts, kept: seq<nat>, items: seq<Item>, item: Item, tokens: Tokens)
    requires i < |candidates| && Increasing(kept, i) && NoneSpared(candidates, i, envelopes, kept, items, tokens)
    ensures Increasing(kept + [i], i + 1)
    ensures NoneSpared(candidates, i + 1, envelopes, kept + [i], items + [item], tokens)
  {
    var kept', items' := kept + [i], items + [item];
    forall p: nat, k: nat | p < i + 1 && PassedOver(kept', p, k)
      ensures NothingFits(candidates[p], envelopes, items'[..k], tokens)
    {
      assert k <= |kept| && PassedOver(kept, p, k);
      assert items'[..k] == items[..k];
    }
  }

  lemma DropSpares(candidates: seq<Candidate>, i: nat, envelopes: Accounts, kept: seq<nat>, items: seq<Item>, tokens: Tokens)
    requires i < |candidates| && Increasing(kept, i) && NoneSpared(candidates, i, envelopes, kept, items, tokens)
    requires NothingFits(candidates[i], envelopes, items, tokens)
    ensures Increasing(kept, i + 1) && NoneSpared(candidates, i + 1, envelopes, kept, items, tokens)
  {
    forall p: nat, k: nat | p < i + 1 && PassedOver(kept, p, k)
      ensures NothingFits(candidates[p], envelopes, items[..k], tokens)
    {
      if p == i {
        assert k == |kept| && items[..k] == items;
      }
    }
  }

  lemma KeptOutcome(candidates: seq<Candidate>, i: nat, envelopes: Accounts, f: Fitting, tier: Tier, text: Text, tokens: Tokens)
    requires i < |candidates| && Known(candidates[i].section) && Outcome(candidates, i, envelopes, f, tokens)
    requires KeptAtBest(candidates[i], ItemOf(candidates[i], tier, text), envelopes, f.items, tokens)
    ensures Outcome(candidates, i + 1, envelopes, Placed(candidates[i], i, f, Cost(text, tokens), tier, text), tokens)
  {
    var item := ItemOf(candidates[i], tier, text);
    ChargeAll(f.used, f.items, item, tokens);
    OneMoreItem(f.items, item, item.section, tokens);
    KeepAtBest(candidates, i, envelopes, f.kept, f.items, item, tokens);
    KeepSpares(candidates, i, envelopes, f.kept, f.items, item, tokens);
  }

  lemma DroppedOutcome(candidates: seq<Candidate>, i: nat, envelopes: Accounts, f: Fitting, tokens: Tokens)
    requires i < |candidates| && Outcome(candidates, i, envelopes, f, tokens)
    requires NothingFits(candidates[i], envelopes, f.items, tokens)
    ensures Outcome(candidates, i + 1, envelopes, f.(dropped := f.dropped + 1), tokens)
  {
    DropSpares(candidates, i, envelopes, f.kept, f.items, tokens);
  }

  /** FitOne, with the choice already made. */
  function Decided(c: Candidate, i: nat, f: Fitting, choice: Option<(Tier, Text)>, tokens: Tokens): Fitting
    requires Complete(f.used) && Known(c.section)
  {
    match choice
    case None => f.(dropped := f.dropped + 1)
    case Some((tier, text)) => Placed(c, i, f, Cost(text, tokens), tier, text)
  }

  lemma FitOneDecides(candidates: seq<Candidate>, i: nat, envelopes: Accounts, f: Fitting, tokens: Tokens)
    requires i < |candidates| && Complete(envelopes) && Complete(f.used) && AllCharged(f.used, f.items, tokens)
    requires FitOne(candidates, i, envelopes, f, tokens).Ok?
    ensures var c := candidates[i];
            var choice := Choose(TierOptions(c.content), Room(c, envelopes, f.items, tokens), tokens);
            && Known(c.section) && choice.Ok?
            && FitOne(candidates, i, envelopes, f, tokens).value == Decided(c, i, f, choice.value, tokens)
  {
    var c := candidates[i];
    assert Room(c, envelopes, f.items, tokens) == envelopes[c.section] - f.used[c.section];
  }

  lemma DecidedOutcome(candidates: seq<Candidate>, i: nat, envelopes: Accounts, f: Fitting, choice: Option<(Tier, Text)>, tokens: Tokens)
    requires i < |candidates| && Complete(f.used) && Known(candidates[i].section) && Outcome(candidates, i, envelopes, f, tokens)
    requires var c := candidates[i];
             Choose(TierOptions(c.content), Room(c, envelopes, f.items, tokens), tokens) == Ok(choice)
    ensures Outcome(candidates, i + 1, envelopes, Decided(candidates[i], i, f, choice, tokens), tokens)
  {
    var chosen := ChoiceMeans(candidates[i], envelopes, f.items, tokens);
    if choice.None? {
      DroppedOutcome(candidates, i, envelopes, f, tokens);
    } else {
      KeptOutcome(candidates, i, envelopes, f, choice.value.0, choice.value.1, tokens);
    }
  }

  lemma FitOneGreedy(candidates: seq<Candidate>, i: nat, envelopes: Accounts, f: Fitting, tokens: Tokens)
    requires i < |candidates| && Complete(envelopes) && Complete(f.used) && Outcome(candidates, i, envelopes, f, tokens)
    ensures var r := FitOne(candidates, i, envelopes, f, tokens);
            r.Ok? ==> Outcome(candidates, i + 1, envelopes, r.value, tokens)
  {
    var c := candidates[i];
    if FitOne(candidates, i, envelopes, f, tokens).Ok? {
      FitOneDecides(candidates, i, envelopes, f, tokens);
      var choice := Choose(TierOptions(c.content), Room(c, envelopes, f.items, tokens), tokens);
      DecidedOutcome(candidates, i, envelopes, f, choice.value, tokens);
    }
  }

  lemma ChoiceMeans(c: Candidate, envelopes: Accounts, items: seq<Item>, tokens: Tokens)
    returns (choice: Result<Option<(Tier, Text)>, FitError>)
    requires Known(c.section)
    ensures choice == Choose(TierOptions(c.content), Room(c, envelopes, items, tokens), tokens)
    ensures choice.Ok? && choice.value.None? ==> NothingFits(c, envelopes, items, tokens)
    ensures choice.Ok? && choice.value.Some? ==>
      KeptAtBest(c, ItemOf(c, choice.value.value.0, choice.value.value.1), envelopes, items, tokens)
  {
    var room := Room(c, envelopes, items, tokens);
    choice := Choose(TierOptions(c.content), room, tokens);
    var at := ChooseMeans(TierOptions(c.content), room, tokens);
  }

  // -- the whole pass ------------------------------------------------------------------

  lemma {:induction false} FitFromGreedy(candidates: seq<Candidate>, i: nat, envelopes: Accounts, f: Fitting, tokens: Tokens)
    requires i <= |candidates| && Complete(envelopes) && Complete(f.used) && Outcome(candidates, i, envelopes, f, tokens)
    ensures var r := FitFrom(candidates, i, envelopes, f, tokens);
            r.Ok? ==> Outcome(candidates, |candidates|, envelopes, r.value, tokens)
    decreases |candidates| - i
  {
    if i < |candidates| {
      FitOneGreedy(candidates, i, envelopes, f, tokens);
      var next := FitOne(candidates, i, envelopes, f, tokens);
      if next.Ok? {
        FitFromGreedy(candidates, i + 1, envelopes, next.value, tokens);
      }
    }
  }

  /** Every section is charged the cost of its own items, the degraded list names exactly
      the items below full fidelity, each candidate kept is kept at the best fidelity that
      fits what earlier candidates left of its section, and nothing that would have fitted
      is dropped. */
  lemma FitIsGreedy(candidates: seq<Candidate>, envelopes: Accounts, tokens: Tokens)
    requires Complete(envelopes)
    ensures var r := Fit(candidates, envelopes, tokens);
            r.Ok? ==> Outcome(candidates, |candidates|, envelopes, r.value, tokens)
  {
    FitFromGreedy(candidates, 0, envelopes, NOTHING_FITTED, tokens);
  }

  // -- there is only one such outcome --------------------------------------------------

  lemma BestIsUnique(c: Candidate, a: Item, b: Item, envelopes: Accounts, earlier: seq<Item>, tokens: Tokens)
    requires KeptAtBest(c, a, envelopes, earlier, tokens) && KeptAtBest(c, b, envelopes, earlier, tokens)
    ensures a == b
  {
    var options, room := TierOptions(c.content), Room(c, envelopes, earlier, tokens);
    var i: nat :| FirstFit(options, i, a.fidelity, a.content, room, tokens);
    var j: nat :| FirstFit(options, j, b.fidelity, b.content, room, tokens);
    assert i == j;
  }

  lemma BestFits(c: Candidate, item: Item, envelopes: Accounts, earlier: seq<Item>, tokens: Tokens)
    requires KeptAtBest(c, item, envelopes, earlier, tokens)
    ensures !NothingFits(c, envelopes, earlier, tokens)
  {
    var options, room := TierOptions(c.content), Room(c, envelopes, earlier, tokens);
    var i: nat :| FirstFit(options, i, item.fidelity, item.content, room, tokens);
    assert Cost(options[i].1.value, tokens) <= room;
  }

  /** Neither outcome can keep a candidate the other passes over. */
  lemma NotEarlier(candidates: seq<Candidate>, envelopes: Accounts, kept: seq<nat>, items: seq<Item>,
                   kept': seq<nat>, items': seq<Item>, k: nat, tokens: Tokens)
    requires Greedy(candidates, |candidates|, envelopes, kept, items, tokens)
    requires Greedy(candidates, |candidates|, envelopes, kept', items', tokens)
    requires k < |kept| && k <= |kept'| && kept[..k] == kept'[..k] && items[..k] == items'[..k]
    ensures k < |kept'| && kept'[k] <= kept[k]
  {
    var p := kept[k];
    BestFits(candidates[p], items[k], envelopes, items[..k], tokens);
    assert k > 0 ==> kept'[k - 1] == kept'[..k][k - 1] == kept[..k][k - 1] == kept[k - 1] < p;
    assert !PassedOver(kept', p, k);
  }

  lemma SameNext(candidates: seq<Candidate>, envelopes: Accounts, kept: seq<nat>, items: seq<Item>,
                 kept': seq<nat>, items': seq<Item>, j: nat, tokens: Tokens)
    requires Greedy(candidates, |candidates|, envelopes, kept, items, tokens)
    requires Greedy(candidates, |candidates|, envelopes, kept', items', tokens)
    requires j < |kept| && j <= |kept'| && kept[..j] == kept'[..j] && items[..j] == items'[..j]
    ensures j < |kept'| && kept[j] == kept'[j] && items[j] == items'[j]
  {
    NotEarlier(candidates, envelopes, kept, items, kept', items', j, tokens);
    NotEarlier(candidates, envelopes, kept', items', kept, items, j, tokens);
    BestIsUnique(candidates[kept[j]], items[j], items'[j], envelopes, items[..j], tokens);
  }

  lemma OneLonger<T>(a: seq<T>, b: seq<T>, j: nat)
    requires j < |a| && j < |b| && a[..j] == b[..j] && a[j] == b[j]
    ensures a[..j + 1] == b[..j + 1]
  {
    assert a[..j + 1] == a[..j] + [a[j]] && b[..j + 1] == b[..j] + [b[j]];
  }

  lemma {:induction false} SamePrefix(candidates: seq<Candidate>, envelopes: Accounts, kept: seq<nat>, items: seq<Item>,
                                      kept': seq<nat>, items': seq<Item>, k: nat, tokens: Tokens)
    requires Greedy(candidates, |candidates|, envelopes, kept, items, tokens)
    requires Greedy(candidates, |candidates|, envelopes, kept', items', tokens)
    requires k <= |kept|
    ensures k <= |kept'| && kept[..k] == kept'[..k] && items[..k] == items'[..k]
  {
    if k > 0 {
      var j := k - 1;
      SamePrefix(candidates, envelopes, kept, items, kept', items', j, tokens);
      SameNext(candidates, envelopes, kept, items, kept', items', j, tokens);
      OneLonger(kept, kept', j);
      OneLonger(items, items', j);
    }
  }

  /** Being greedy determines what is kept, and how. */
  lemma GreedyIsUnique(candidates: seq<Candidate>, envelopes: Accounts, kept: seq<nat>, items: seq<Item>,
                       kept': seq<nat>, items': seq<Item>, tokens: Tokens)
    requires Greedy(candidates, |candidates|, envelopes, kept, items, tokens)
    requires Greedy(candidates, |candidates|, envelopes, kept', items', tokens)
    ensures kept == kept' && items == items'
  {
    SamePrefix(candidates, envelopes, kept, items, kept', items', |kept|, tokens);
    SamePrefix(candidates, envelopes, kept', items', kept, items, |kept'|, tokens);
    assert kept[..|kept|] == kept && kept'[..|kept|] == kept' && items[..|kept|] == items && items'[..|kept|] == items';
  }
}
