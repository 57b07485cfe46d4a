/** Grouping fitted items into sections, validating the result, and the assembler. */
module CmAssembler {
  import opened CmBudgeter
  import opened CmFit
  import opened CmTypes
  import opened Orders
  import opened Wrappers

  // -- making ids unique -------------------------------------------------------------

  /** Items still carry the id of their candidate. */
  predicate AllPlain(items: seq<Item>) {
    forall i :: 0 <= i < |items| ==> items[i].id.Plain?
  }

  /** A flagged item's id gets a digest of its chosen content; the digest is taken to be
      injective, so the content itself stands for it. */
  function Disambiguated(item: Item): Item
    requires item.id.Plain?
  {
    if item.contradiction then item.(id := Suffixed(item.id.id, item.content), originalId := Some(item.id.id)) else item
  }

  function DisambiguatedAll(items: seq<Item>): (out: seq<Item>)
    requires AllPlain(items)
    ensures |out| == |items| && forall i :: 0 <= i < |items| ==> out[i] == Disambiguated(items[i])
  {
    seq(|items|, i requires 0 <= i < |items| => Disambiguated(items[i]))
  }

  method DisambiguateContradictions(items: seq<Item>) returns (out: seq<Item>)
    requires AllPlain(items)
    ensures out == DisambiguatedAll(items)
  {
    out := [];
    for i := 0 to |items|
      invariant out == DisambiguatedAll(items)[..i]
    {
      out := out + [if items[i].contradiction
                    then items[i].(id := Suffixed(items[i].id.id, items[i].content), originalId := Some(items[i].id.id))
                    else items[i]];
    }
  }

  // -- grouping ------------------------------------------------------------------------

  type Sections = map<Section, seq<Item>>

  predicate AllSections(m: Sections) {
    Symbols in m && Files in m && DependencyGraph in m && Knowledge in m && Experience in m
  }

  /** The items of one section, in the order they come. */
  function InSection(items: seq<Item>, s: Section): seq<Item> {
    if items == [] then []
    else InSection(items[..|items| - 1], s) + if items[|items| - 1].section == s then [items[|items| - 1]] else []
  }

  ghost predicate GroupedFrom(m: Sections, items: seq<Item>) {
    AllSections(m) && (forall s :: s in m ==> Known(s)) && forall s :: s in m ==> m[s] == InSection(items, s)
  }

  predicate KnownSections(items: seq<Item>) {
    forall i :: 0 <= i < |items| ==> Known(items[i].section)
  }

  method GroupIntoSections(items: seq<Item>) returns (m: Sections)
    requires KnownSections(items)
    ensures GroupedFrom(m, items)
  {
    m := map[Symbols := [], Files := [], DependencyGraph := [], Knowledge := [], Experience := []];
    for i := 0 to |items|
      invariant GroupedFrom(m, items[..i])
    {
      assert items[..i + 1][..i] == items[..i];
      m := m[items[i].section := m[items[i].section] + [items[i]]];
    }
    assert items[..|items|] == items;
  }

  // -- the artifact and its validator ---------------------------------------------------

  datatype RequestMemory = RequestMemory(
    requestId: string, sections: Sections, candidateCount: nat, selectedCount: nat, dropped: nat, degraded: seq<string>,
    budgetTokens: nat, tokensUsed: int, truncated: bool)

  /** All items, section after section. */
  function Flat(m: Sections): seq<Item>
    requires AllSections(m)
  {
    m[Symbols] + m[Files] + m[DependencyGraph] + m[Knowledge] + m[Experience]
  }

  predicate UniqueIds(items: seq<Item>) {
    forall i, j :: 0 <= i < j < |items| ==> items[i].id != items[j].id
  }

  predicate Documented(items: seq<Item>) {
    forall i :: 0 <= i < |items| ==> items[i].provenance != map[] && items[i].hasStale
  }

  predicate NonIncreasing(items: seq<Item>) {
    forall i, j :: 0 <= i < j < |items| ==> ScoreLe(items[j].score, items[i].score)
  }

  /** What the validator promises about an artifact it accepts. */
  ghost predicate ValidMemory(rm: RequestMemory) {
    && (forall s :: s in rm.sections <==> Known(s))
    && rm.tokensUsed <= rm.budgetTokens
    && UniqueIds(Flat(rm.sections))
    && Documented(Flat(rm.sections))
    && forall s :: Known(s) ==> NonIncreasing(rm.sections[s])
  }

  datatype Refusal =
    | MissingSection | CeilingExceeded | DuplicateId(id: ItemId) | MissingProvenance(id: ItemId)
    | MissingStaleFlag(id: ItemId) | OrderViolation(id: ItemId)

  function Ids(items: seq<Item>): set<ItemId> {
    set item | item in items :: item.id
  }

  /** The gates of one section, after the items in before. */
  ghost predicate SectionOk(before: seq<Item>, items: seq<Item>) {
    UniqueIds(before + items) && Documented(items) && NonIncreasing(items)
  }

  lemma OneMoreItem(before: seq<Item>, items: seq<Item>, n: nat)
    requires n < |items| && SectionOk(before, items[..n])
    ensures SectionOk(before, items[..n + 1])
            <==> items[n].id !in Ids(before + items[..n]) && items[n].provenance != map[] && items[n].hasStale
                 && (n > 0 ==> ScoreLe(items[n].score, items[n - 1].score))
    ensures Ids(before + items[..n + 1]) == Ids(before + items[..n]) + {items[n].id}
  {
    var small, big := items[..n], items[..n + 1];
    assert before + big == (before + small) + [items[n]];
    var all := before + big;
    assert all[|before| + n] == items[n];
    if items[n].id in Ids(before + small) {
      var i :| 0 <= i < |before + small| && (before + small)[i].id == items[n].id;
      assert all[i].id == all[|before| + n].id;
    }
    assert big[n] == items[n];
    if n > 0 {
      assert big[n - 1] == items[n - 1];
      if ScoreLe(items[n].score, items[n - 1].score) {
        forall i | 0 <= i < n ensures ScoreLe(big[n].score, big[i].score) {
          if i < n - 1 {
            assert ScoreLe(small[n - 1].score, small[i].score);
          }
        }
      }
    }
  }

  lemma PrefixOk(before: seq<Item>, items: seq<Item>, n: nat)
    requires n <= |items| && SectionOk(before, items)
    ensures SectionOk(before, items[..n])
  {
    assert forall i :: 0 <= i < n ==> items[..n][i] == items[i];
    assert forall i :: 0 <= i < |before| + n ==> (before + items[..n])[i] == (before + items)[i];
  }

  /** Item i is the first that is wrong, and why: its id was seen before, it has no provenance
      or no stale flag, or it scores higher than the item before it. */
  ghost predicate WrongAt(before: seq<Item>, items: seq<Item>, i: nat, why: Refusal) {
    && i < |items| && SectionOk(before, items[..i])
    && match why
       case DuplicateId(id) => items[i].id == id && exists other :: other in before + items[..i] && other.id == id
       case MissingProvenance(id) => items[i].id == id && items[i].provenance == map[]
       case MissingStaleFlag(id) => items[i].id == id && !items[i].hasStale
       case OrderViolation(id) => items[i].id == id && i > 0 && !ScoreLe(items[i].score, items[i - 1].score)
       case _ => false
  }

  /** The inner loop of the validator. */
  method ValidateSection(items: seq<Item>, seen: set<ItemId>, ghost before: seq<Item>) returns (r: Result<set<ItemId>, Refusal>)
    requires seen == Ids(before) && UniqueIds(before)
    ensures r.Ok? <==> SectionOk(before, items)
    ensures r.Ok? ==> r.value == Ids(before + items)
    ensures r.Err? ==> exists i: nat :: WrongAt(before, items, i, r.error)
  {
    var seenIds := seen;
    assert before + items[..0] == before;
    for i := 0 to |items|
      invariant SectionOk(before, items[..i]) && seenIds == Ids(before + items[..i])
    {
      var item := items[i];
      OneMoreItem(before, items, i);
      if SectionOk(before, items) {
        PrefixOk(before, items, i + 1);
      }
      if item.id in seenIds {
        assert WrongAt(before, items, i, DuplicateId(item.id));
        return Err(DuplicateId(item.id));
      }
      seenIds := seenIds + {item.id};
      if item.provenance == map[] {
        assert WrongAt(before, items, i, MissingProvenance(item.id));
        return Err(MissingProvenance(item.id));
      }
      if !item.hasStale {
        assert WrongAt(before, items, i, MissingStaleFlag(item.id));
        return Err(MissingStaleFlag(item.id));
      }
      if i > 0 && !ScoreLe(item.score, items[i - 1].score) {
        assert WrongAt(before, items, i, OrderViolation(item.id));
        return Err(OrderViolation(item.id));
      }
    }
    assert items[..|items|] == items;
    return Ok(seenIds);
  }

  /** The items of the first n sections. */
  function FlatUpTo(m: Sections, n: nat): seq<Item>
    requires n <= |SECTIONS| && AllSections(m)
  {
    if n == 0 then [] else FlatUpTo(m, n - 1) + m[SECTIONS[n - 1]]
  }

  lemma FlatIsAll(m: Sections)
    requires AllSections(m)
    ensures FlatUpTo(m, 5) == Flat(m)
  {
    assert FlatUpTo(m, 1) == m[Symbols];
    assert FlatUpTo(m, 2) == m[Symbols] + m[Files];
    assert FlatUpTo(m, 3) == m[Symbols] + m[Files] + m[DependencyGraph];
    assert FlatUpTo(m, 4) == m[Symbols] + m[Files] + m[DependencyGraph] + m[Knowledge];
  }

  ghost predicate SectionsOk(m: Sections, n: nat)
    requires n <= |SECTIONS| && AllSections(m)
  {
    UniqueIds(FlatUpTo(m, n)) && Documented(FlatUpTo(m, n)) && forall k :: 0 <= k < n ==> NonIncreasing(m[SECTIONS[k]])
  }

  lemma NextSection(m: Sections, n: nat)
    requires n < |SECTIONS| && AllSections(m)
    ensures SectionsOk(m, n + 1) <==> SectionsOk(m, n) && SectionOk(FlatUpTo(m, n), m[SECTIONS[n]])
  {
    var before, items := FlatUpTo(m, n), m[SECTIONS[n]];
    var all := before + items;
    assert forall i :: 0 <= i < |before| ==> all[i] == before[i];
    assert forall i :: 0 <= i < |items| ==> all[|before| + i] == items[i];
  }

  lemma {:induction false} EarlierSections(m: Sections, n: nat, k: nat)
    requires n <= k <= |SECTIONS| && AllSections(m) && SectionsOk(m, k)
    ensures SectionsOk(m, n)
    decreases k
  {
    if n < k {
      NextSection(m, k - 1);
      EarlierSections(m, n, k - 1);
    }
  }

  lemma ValidIsAllSections(rm: RequestMemory)
    requires (forall s :: s in rm.sections <==> Known(s)) && rm.tokensUsed <= rm.budgetTokens
    ensures AllSections(rm.sections) && (ValidMemory(rm) <==> SectionsOk(rm.sections, 5))
  {
    FlatIsAll(rm.sections);
    forall s: Section ensures s in SECTIONS <==> Known(s) {
      KnownListed(s);
    }
    forall s | Known(s) && SectionsOk(rm.sections, 5) ensures NonIncreasing(rm.sections[s]) {
      var k :| 0 <= k < |SECTIONS| && SECTIONS[k] == s;
    }
  }

  /** Section n has the first wrong item, after the items of the sections before it. */
  ghost predicate WrongIn(m: Sections, n: nat, why: Refusal) {
    && AllSections(m) && n < |SECTIONS| && SectionsOk(m, n)
    && exists i: nat :: WrongAt(FlatUpTo(m, n), m[SECTIONS[n]], i, why)
  }

  /** validate accepts exactly the valid artifacts, and otherwise names what is wrong first:
      the sections, the ceiling, or an item. */
  method Validate(rm: RequestMemory) returns (r: Option<Refusal>)
    ensures r.None? <==> ValidMemory(rm)
    ensures r == Some(MissingSection) <==> !(forall s :: s in rm.sections <==> Known(s))
    ensures r == Some(CeilingExceeded) <==> (forall s :: s in rm.sections <==> Known(s)) && rm.tokensUsed > rm.budgetTokens
    ensures r.Some? && !r.value.MissingSection? && !r.value.CeilingExceeded? ==> exists n: nat :: WrongIn(rm.sections, n, r.value)
  {
    forall s: Section ensures s in SECTIONS <==> Known(s) {
      KnownListed(s);
    }
    if rm.sections.Keys != (set s | s in SECTIONS) {
      assert !(forall s :: s in rm.sections <==> Known(s));
      return Some(MissingSection);
    }
    assert forall s :: s in rm.sections <==> s in rm.sections.Keys;
    if rm.tokensUsed > rm.budgetTokens {
      return Some(CeilingExceeded);
    }
    ValidIsAllSections(rm);
    var seen: set<ItemId> := {};
    for n := 0 to |SECTIONS|
      invariant SectionsOk(rm.sections, n) && seen == Ids(FlatUpTo(rm.sections, n))
    {
      NextSection(rm.sections, n);
      var part := ValidateSection(rm.sections[SECTIONS[n]], seen, FlatUpTo(rm.sections, n));
      if part.Err? {
        assert WrongIn(rm.sections, n, part.error);
        if SectionsOk(rm.sections, 5) {
          EarlierSections(rm.sections, n + 1, 5);
        }
        return Some(part.error);
      }
      seen := part.value;
    }
    return None;
  }

  // -- the assembler -------------------------------------------------------------------

  datatype LogRecord = LogRecord(requestId: string, memory: RequestMemory)

  datatype ContextEvent =
    | Assembled(requestId: string, tokensUsed: int, coverage: real)
    | Overflow(requestId: string, dropped: nat, degraded: seq<string>, tokensUsed: int, budgetTokens: nat)

  datatype AssembleError = FitFailed(fit: FitError) | ValidationFailed | BusDown

  /** The artifact made of a finished fitting. */
  ghost predicate MemoryOf(rm: RequestMemory, requestId: string, candidates: seq<Candidate>, budget: nat, f: Fitting) {
    && Complete(f.used) && AllPlain(f.items)
    && GroupedFrom(rm.sections, DisambiguatedAll(f.items))
    && rm.requestId == requestId && rm.candidateCount == |candidates| && rm.selectedCount == |f.items|
    && rm.dropped == f.dropped && rm.degraded == f.degraded
    && rm.budgetTokens == budget && rm.tokensUsed == Total(f.used) && (rm.truncated <==> f.dropped > 0 || f.degraded != [])
  }

  lemma FittedItems(candidates: seq<Candidate>, i: nat, envelopes: Accounts, f: Fitting, tokens: Tokens)
    requires Balanced(candidates, i, envelopes, f, tokens)
    ensures AllPlain(f.items) && KnownSections(f.items) && KnownSections(DisambiguatedAll(f.items))
  {
    forall k | 0 <= k < |f.items| ensures f.items[k].id.Plain? && Known(f.items[k].section) {
      assert ItemFrom(f.items[k], candidates[f.kept[k]]);
    }
  }

  /** Fit, disambiguate, group and build. */
  method BuildMemory(requestId: string, budget: nat, candidates: seq<Candidate>, weights: Weights, tokens: Tokens)
    returns (envelopes: Accounts, r: Result<RequestMemory, FitError>)
    requires WeightsValid(weights)
    ensures EnvelopesOf(envelopes, weights, budget)
    ensures var fit := Fit(candidates, envelopes, tokens);
            if fit.Err? then r == Err(fit.error) else r.Ok? && MemoryOf(r.value, requestId, candidates, budget, fit.value)
  {
    var fitted;
    envelopes, fitted := FitCandidates(candidates, budget, weights, tokens);
    if fitted.Err? {
      return envelopes, Err(fitted.error);
    }
    var result := fitted.value;
    FittedItems(candidates, |candidates|, envelopes, Fit(candidates, envelopes, tokens).value, tokens);
    var items := DisambiguateContradictions(result.items);
    var sections := GroupIntoSections(items);
    return envelopes, Ok(RequestMemory(requestId, sections, |candidates|, |result.items|, result.dropped, result.degraded,
                                       budget, result.tokensUsed, result.truncated));
  }

  class Assembler {
    var log: seq<LogRecord>

    constructor ()
      ensures log == []
    {
      log := [];
    }

    /** An artifact is built and validated; then logged, and only then published. It is
        logged exactly when it is valid, whatever the bus does after that, and returned
        only if every event got out. */
    method Assemble(requestId: string, budget: nat, candidates: seq<Candidate>, weights: Weights, tokens: Tokens,
                    busUp: ContextEvent -> bool)
      returns (envelopes: Accounts, published: seq<ContextEvent>, r: Result<RequestMemory, AssembleError>)
      requires WeightsValid(weights)
      modifies this
      ensures EnvelopesOf(envelopes, weights, budget)
      ensures var fit := Fit(candidates, envelopes, tokens);
              if fit.Err? then r == Err(FitFailed(fit.error)) && log == old(log) && published == []
              else ConcludedSomehow(requestId, candidates, budget, fit.value, old(log), log, published, r, busUp)
    {
      var built;
      envelopes, built := BuildMemory(requestId, budget, candidates, weights, tokens);
      if built.Err? {
        return envelopes, [], Err(FitFailed(built.error));
      }
      published, r := Emit(built.value, busUp);
    }

    /** Validate, log, publish. */
    method Emit(rm: RequestMemory, busUp: ContextEvent -> bool)
      returns (published: seq<ContextEvent>, r: Result<RequestMemory, AssembleError>)
      modifies this
      ensures Concluded(rm, old(log), log, published, r, busUp)
    {
      var refusal := Validate(rm);
      if refusal.Some? {
        return [], Err(ValidationFailed);
      }
      log := log + [LogRecord(rm.requestId, rm)];
      if !busUp(AssembledEvent(rm)) {
        return [], Err(BusDown);
      }
      published := [AssembledEvent(rm)];
      if rm.truncated {
        if !busUp(OverflowEvent(rm)) {
          return published, Err(BusDown);
        }
        published := published + [OverflowEvent(rm)];
      }
      return published, Ok(rm);
    }
  }

  ghost predicate ConcludedSomehow(requestId: string, candidates: seq<Candidate>, budget: nat, f: Fitting, before: seq<LogRecord>,
      after: seq<LogRecord>, published: seq<ContextEvent>, r: Result<RequestMemory, AssembleError>, busUp: ContextEvent -> bool) {
    exists rm :: MemoryOf(rm, requestId, candidates, budget, f) && Concluded(rm, before, after, published, r, busUp)
  }

  function AssembledEvent(rm: RequestMemory): ContextEvent {
    Assembled(rm.requestId, rm.tokensUsed,
              if rm.candidateCount == 0 then 1.0 else rm.selectedCount as real / rm.candidateCount as real)
  }

  function OverflowEvent(rm: RequestMemory): ContextEvent {
    Overflow(rm.requestId, rm.dropped, rm.degraded, rm.tokensUsed, rm.budgetTokens)
  }

  /** Everything that should be published for an artifact. */
  function EventsOf(rm: RequestMemory): seq<ContextEvent> {
    [AssembledEvent(rm)] + if rm.truncated then [OverflowEvent(rm)] else []
  }

  /** Logged exactly when valid; published in order up to the first event the bus
      refuses; returned exactly when valid and all published. */
  ghost predicate Concluded(rm: RequestMemory, before: seq<LogRecord>, after: seq<LogRecord>, published: seq<ContextEvent>,
                            r: Result<RequestMemory, AssembleError>, busUp: ContextEvent -> bool) {
    && after == (if ValidMemory(rm) then before + [LogRecord(rm.requestId, rm)] else before)
    && published <= (if ValidMemory(rm) then EventsOf(rm) else [])
    && (forall k :: 0 <= k < |published| ==> busUp(published[k]))
    && (ValidMemory(rm) && |published| < |EventsOf(rm)| ==> !busUp(EventsOf(rm)[|published|]))
    && r == (if !ValidMemory(rm) then Err(ValidationFailed)
             else if published == EventsOf(rm) then Ok(rm) else Err(BusDown))
  }
}
