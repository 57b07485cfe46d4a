/** The append-only experience ledger, and walking an artifact's citations through it. */
module LieLedger {
  import opened LieRules
  import opened LieTheorems
  import opened Orders
  import opened Wrappers

  datatype LedgerEntry = LedgerEntry(position: nat, record: Rec)

  datatype StorageOutcome = Committed | RejectedWrite | OtherOutcome

  datatype LedgerRefusal = DuplicateIdentity | AppendRejected | UnknownOutcome

  class ExperienceLedger {
    var entries: seq<LedgerEntry>
    var byIdentity: map<string, LedgerEntry>

    constructor ()
      ensures Valid() && entries == []
    {
      entries, byIdentity := [], map[];
    }

    /** The records, in admission order. */
    ghost function Records(): (rs: seq<Rec>)
      reads this
      ensures |rs| == |entries| && forall i :: 0 <= i < |rs| ==> rs[i] == entries[i].record
    {
      seq(|entries|, i requires 0 <= i < |entries| reads this => entries[i].record)
    }

    /** Positions count from one without a gap, identities are never reused, and the index
        knows every entry and nothing else. */
    ghost predicate Valid()
      reads this
    {
      && (forall i :: 0 <= i < |entries| ==> entries[i].position == i + 1)
      && (forall i, j :: 0 <= i < j < |entries| ==> RecId(entries[i].record) != RecId(entries[j].record))
      && (forall i :: 0 <= i < |entries| ==> RecId(entries[i].record) in byIdentity && byIdentity[RecId(entries[i].record)] == entries[i])
      && (forall id :: id in byIdentity ==> byIdentity[id] in entries && RecId(byIdentity[id].record) == id)
    }

    /** A record gets a position only once it is durable; a refusal leaves no trace. */
    method Append(record: Rec, outcome: StorageOutcome) returns (r: Result<LedgerEntry, LedgerRefusal>)
      requires Valid()
      modifies this
      ensures Valid()
      ensures r == if RecId(record) in old(byIdentity) then Err(DuplicateIdentity)
                   else match outcome
                        case Committed => Ok(LedgerEntry(|old(entries)| + 1, record))
                        case RejectedWrite => Err(AppendRejected)
                        case OtherOutcome => Err(UnknownOutcome)
      ensures entries == old(entries) + if r.Ok? then [r.value] else []
      ensures Records() == old(Records()) + if r.Ok? then [record] else []
    {
      var id := RecId(record);
      if id in byIdentity {
        return Err(DuplicateIdentity);
      }
      if outcome == RejectedWrite {
        return Err(AppendRejected);
      }
      if outcome != Committed {
        return Err(UnknownOutcome);
      }
      var entry := LedgerEntry(|entries| + 1, record);
      entries := entries + [entry];
      byIdentity := byIdentity[id := entry];
      return Ok(entry);
    }

    method ByPosition(position: int) returns (entry: Option<LedgerEntry>)
      requires Valid()
      ensures entry.Some? <==> 1 <= position <= |entries|
      ensures entry.Some? ==> entry.value.position == position && entry.value == entries[position - 1]
    {
      if position < 1 || position > |entries| {
        return None;
      }
      return Some(entries[position - 1]);
    }

    method ByIdentity(id: string) returns (entry: Option<LedgerEntry>)
      requires Valid()
      ensures entry.Some? <==> exists i :: 0 <= i < |Records()| && RecId(Records()[i]) == id
      ensures entry.Some? ==> RecId(entry.value.record) == id && entry.value in entries
    {
      if id in byIdentity {
        ghost var i :| 0 <= i < |entries| && entries[i] == byIdentity[id];
        assert RecId(Records()[i]) == id;
        return Some(byIdentity[id]);
      }
      assert forall i :: 0 <= i < |entries| ==> RecId(entries[i].record) != id;
      return None;
    }
  }

  function AttestationOf(r: Rec): string {
    match r
    case EpisodeRec(e) => e.attestation
    case DecisionRec(d) => d.attestation
  }

  datatype Link = Link(artifact: Id, evidence: string, attestation: string)

  ghost predicate OnRecord(records: seq<Rec>, id: string) {
    exists k :: 0 <= k < |records| && RecId(records[k]) == id
  }

  /** The chain can be walked: there is evidence, and the ledger has all of it. */
  ghost predicate Walkable(records: seq<Rec>, a: Artifact) {
    a.evidence != {} && forall e :: e in a.evidence ==> OnRecord(records, e)
  }

  /** A link from the artifact to a record that is there, with its attestation. */
  ghost predicate Proper(records: seq<Rec>, a: Artifact, link: Link, evidence: string) {
    && link.artifact == a.id && link.evidence == evidence
    && exists k :: 0 <= k < |records| && RecId(records[k]) == evidence && AttestationOf(records[k]) == link.attestation
  }

  method Follow(a: Artifact, evidence: string, ledger: ExperienceLedger) returns (link: Option<Link>)
    requires ledger.Valid()
    ensures link.Some? <==> OnRecord(ledger.Records(), evidence)
    ensures link.Some? ==> Proper(ledger.Records(), a, link.value, evidence)
  {
    var entry := ledger.ByIdentity(evidence);
    if entry.None? {
      return None;
    }
    ghost var k :| 0 <= k < |ledger.entries| && ledger.entries[k] == entry.value;
    assert ledger.Records()[k] == entry.value.record;
    return Some(Link(a.id, evidence, AttestationOf(entry.value.record)));
  }

  method FollowAll(a: Artifact, cited: seq<string>, ledger: ExperienceLedger) returns (links: Option<seq<Link>>)
    requires ledger.Valid()
    ensures links.Some? <==> forall i :: 0 <= i < |cited| ==> OnRecord(ledger.Records(), cited[i])
    ensures links.Some? ==> |links.value| == |cited|
    ensures links.Some? ==> forall i :: 0 <= i < |cited| ==> Proper(ledger.Records(), a, links.value[i], cited[i])
  {
    var out: seq<Link> := [];
    for i := 0 to |cited|
      invariant |out| == i
      invariant forall j :: 0 <= j < i ==> Proper(ledger.Records(), a, out[j], cited[j]) && OnRecord(ledger.Records(), cited[j])
    {
      var link := Follow(a, cited[i], ledger);
      if link.None? {
        return None;
      }
      out := out + [link.value];
    }
    return Some(out);
  }

  /** citation_chain: one link per evidence member, in order; None where the program raises. */
  method CitationChain(a: Artifact, ledger: ExperienceLedger) returns (links: Option<seq<Link>>)
    requires ledger.Valid()
    ensures links.Some? <==> Walkable(ledger.Records(), a)
    ensures links.Some? ==> |links.value| == |Listing(a.evidence)|
    ensures links.Some? ==>
              forall i :: 0 <= i < |links.value| ==> Proper(ledger.Records(), a, links.value[i], Listing(a.evidence)[i])
  {
    var cited := SortedOf(a.evidence);
    CitedAll(ledger.Records(), a, cited);
    links := FollowAll(a, cited, ledger);
    if links.Some? && links.value == [] {
      links := None;
    }
  }

  lemma CitedAll(records: seq<Rec>, a: Artifact, cited: seq<string>)
    requires Elements(cited) == a.evidence
    ensures Walkable(records, a) <==> cited != [] && forall i :: 0 <= i < |cited| ==> OnRecord(records, cited[i])
  {
    assert forall e :: e in cited <==> e in a.evidence;
    if cited != [] {
      assert cited[0] in a.evidence;
    }
  }

  /** Every artifact of a compiled layer has a walkable chain, and still has it after any
      further appends. */
  lemma LayerIsWalkable(records: seq<Rec>, more: seq<Rec>, overlay: set<Ruling>, rules: Ruleset, le: Order, layer: seq<Artifact>, i: nat)
    requires RulesetOk(rules) && LayerOf(CorpusOf(Elements(records), overlay, rules), le, layer) && i < |layer|
    ensures Walkable(records + more, layer[i])
  {
    EvidenceIsCited(records, overlay, rules, le, layer, i);
    forall e | e in layer[i].evidence ensures OnRecord(records + more, e) {
      var k :| 0 <= k < |records| && RecId(records[k]) == e;
      assert (records + more)[k] == records[k];
    }
  }
}
