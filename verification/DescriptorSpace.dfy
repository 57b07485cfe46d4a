/** The live descriptor space: validate on a clone, then commit and snapshot. */
module DescriptorSpaceClass {
  import opened CycleDetection
  import opened Orders
  import opened RoSpaceRules
  import opened Wrappers

  datatype Snapshot = Snapshot(version: nat, content: Content)

  /** Every published version is in order and only moves forward from every earlier one. */
  ghost predicate HistoryOk(history: seq<Snapshot>) {
    && |history| > 0 && history[0].content == EMPTY
    && (forall i :: 0 <= i < |history| ==> history[i].version == i && SpaceOk(history[i].content))
    && (forall i, j :: 0 <= i <= j < |history| ==> Evolves(history[i].content, history[j].content))
  }

  lemma HistoryExtends(history: seq<Snapshot>, next: Content)
    requires HistoryOk(history)
    requires SpaceOk(next) && Evolves(history[|history| - 1].content, next)
    ensures HistoryOk(history + [Snapshot(|history|, next)])
  {
    var h := history + [Snapshot(|history|, next)];
    assert forall i :: 0 <= i < |history| ==> h[i] == history[i];
    forall i, j | 0 <= i <= j < |h| ensures Evolves(h[i].content, h[j].content) {
      if i < j == |history| {
        EvolvesTransitive(h[i].content, h[j - 1].content, next);
      }
    }
  }

  lemma {:induction false} RemovedAt<T>(s: seq<T>, x: T, i: nat)
    requires i < |s| && s[i] == x && x !in s[..i]
    ensures RemoveFirst(s, x) == s[..i] + s[i + 1..]
  {
    if i > 0 {
      assert s[0] in s[..i];
      assert s[1..][..i - 1] == s[..i][1..];
      RemovedAt(s[1..], x, i - 1);
      assert s[1..][..i - 1] + s[1..][i..] == s[1..i] + s[i + 1..];
      assert s[..i] == [s[0]] + s[1..i];
    }
  }

  /** The candidate next state the handlers work on. */
  class Working {
    var capabilities: map<string, Capability>
    var relationships: seq<Relationship>
    var rows: map<string, Row>

    constructor (c: Content)
      ensures Contents() == c
    {
      capabilities, relationships, rows := c.capabilities, c.relationships, c.rows;
    }

    ghost function Contents(): Content
      reads this
    {
      Content(capabilities, relationships, rows)
    }

    /** The handler concluded as the rules say. */
    ghost predicate Follows(spec: Result<Content, Refusal>, refused: Option<Refusal>)
      reads this
    {
      if refused.Some? then spec == Err(refused.value) else spec == Ok(Contents())
    }

    method HandleAddCapability(record: Capability) returns (refused: Option<Refusal>)
      modifies this
      ensures Follows(AddedCapability(old(Contents()), record), refused)
    {
      if record.id in capabilities {
        if capabilities[record.id].lifecycle == Retired {
          return Some(TombstoneReuse);
        }
        return Some(DuplicateId);
      }
      capabilities := capabilities[record.id := record];
      return None;
    }

    method HandleUpdateCapability(record: Capability) returns (refused: Option<Refusal>)
      modifies this
      ensures Follows(UpdatedCapability(old(Contents()), record), refused)
    {
      if record.id !in capabilities {
        return Some(NotFound);
      }
      var existing := capabilities[record.id];
      if existing.lifecycle == Retired {
        return Some(TombstoneReuse);
      }
      if record.category != existing.category {
        return Some(CategoryFrozen);
      }
      if record.lifecycle != existing.lifecycle {
        return Some(LifecycleTransition);
      }
      capabilities := capabilities[record.id := record];
      return None;
    }

    method HandleTransition(id: string, to: Option<Lifecycle>) returns (refused: Option<Refusal>)
      modifies this
      ensures Follows(Transitioned(old(Contents()), id, to), refused)
    {
      if id !in capabilities {
        return Some(NotFound);
      }
      if to.None? || Rank(to.value) <= Rank(capabilities[id].lifecycle) {
        return Some(LifecycleTransition);
      }
      if to.value == Retired {
        var claimants := set p | p in rows && id in rows[p].claims;
        if claimants != {} {
          var p :| p in claimants;
          return Some(ClaimedRetirement);
        }
        assert forall p :: p in rows ==> p !in claimants;
      }
      capabilities := capabilities[id := capabilities[id].(lifecycle := to.value)];
      return None;
    }

    method CollectDependencies() returns (edges: seq<(string, string)>)
      ensures edges == DependencyEdges(relationships)
    {
      edges := [];
      for i := 0 to |relationships|
        invariant edges == DependencyEdges(relationships[..i])
      {
        OneMoreEdge(relationships[..i], relationships[i]);
        assert relationships[..i + 1] == relationships[..i] + [relationships[i]];
        if relationships[i].kind == Dependency {
          edges := edges + [(relationships[i].src, relationships[i].dst)];
        }
      }
      assert relationships[..|relationships|] == relationships;
    }

    method HandleAddRelationship(r: Relationship) returns (refused: Option<Refusal>)
      modifies this
      ensures Follows(AddedRelationship(old(Contents()), r), refused)
    {
      if r.src !in capabilities || r.dst !in capabilities {
        return Some(RelationshipEndpoint);
      }
      if r in relationships {
        return Some(DuplicateId);
      }
      if r.kind == Dependency {
        var edges := CollectDependencies();
        assert Elements(edges + [(r.src, r.dst)]) == Dependencies(Contents()) + {(r.src, r.dst)};
        var cyclic := HasCycle(edges + [(r.src, r.dst)]);
        if cyclic {
          return Some(DependencyCycle);
        }
      }
      relationships := relationships + [r];
      return None;
    }

    method HandleRemoveRelationship(r: Relationship) returns (refused: Option<Refusal>)
      modifies this
      ensures Follows(RemovedRelationship(old(Contents()), r), refused)
    {
      for i := 0 to |relationships|
        invariant Contents() == old(Contents()) && r !in relationships[..i]
      {
        if relationships[i] == r {
          RemovedAt(relationships, r, i);
          relationships := relationships[..i] + relationships[i + 1..];
          return None;
        }
      }
      assert relationships[..|relationships|] == relationships;
      return Some(NotFound);
    }

    method ValidateClaims(row: Row) returns (refused: Option<Refusal>)
      ensures refused == if ClaimsHold(capabilities, row) then None else Some(DescriptorClaim)
    {
      var todo := row.claims.Keys;
      while todo != {}
        invariant todo <= row.claims.Keys
        invariant forall id :: id in row.claims && id !in todo ==> Matchable(capabilities, id)
        decreases todo
      {
        var id :| id in todo;
        if id !in capabilities {
          return Some(DescriptorClaim);
        }
        if capabilities[id].lifecycle != Active && capabilities[id].lifecycle != Deprecated {
          return Some(DescriptorClaim);
        }
        todo := todo - {id};
      }
      return None;
    }

    method HandleAddRow(row: Row) returns (refused: Option<Refusal>)
      modifies this
      ensures Follows(AddedRow(old(Contents()), row), refused)
    {
      if row.providerId in rows {
        return Some(DuplicateId);
      }
      refused := ValidateClaims(row);
      if refused.None? {
        rows := rows[row.providerId := row];
      }
    }

    method HandleUpdateRow(row: Row) returns (refused: Option<Refusal>)
      modifies this
      ensures Follows(UpdatedRow(old(Contents()), row), refused)
    {
      if row.providerId !in rows {
        return Some(NotFound);
      }
      refused := ValidateClaims(row);
      if refused.None? {
        rows := rows[row.providerId := row];
      }
    }

    method HandleRemoveRow(providerId: string) returns (refused: Option<Refusal>)
      modifies this
      ensures Follows(RemovedRow(old(Contents()), providerId), refused)
    {
      if providerId !in rows {
        return Some(NotFound);
      }
      rows := rows - {providerId};
      return None;
    }

    method Handle(m: Mutation) returns (refused: Option<Refusal>)
      modifies this
      ensures Follows(Admit(old(Contents()), m), refused)
    {
      match m
      case AddCapability(record) => refused := HandleAddCapability(record);
      case UpdateCapability(record) => refused := HandleUpdateCapability(record);
      case TransitionCapability(id, to) => refused := HandleTransition(id, to);
      case AddRelationship(r) => refused := HandleAddRelationship(r);
      case RemoveRelationship(r) => refused := HandleRemoveRelationship(r);
      case AddRow(row) => refused := HandleAddRow(row);
      case UpdateRow(row) => refused := HandleUpdateRow(row);
      case RemoveRow(providerId) => refused := HandleRemoveRow(providerId);
      case UnknownKind => refused := Some(UnknownMutation);
    }
  }

  class DescriptorSpace {
    var version: nat
    var capabilities: map<string, Capability>
    var relationships: seq<Relationship>
    var rows: map<string, Row>
    var history: seq<Snapshot>

    ghost function Contents(): Content
      reads this
    {
      Content(capabilities, relationships, rows)
    }

    /** The last version of a good history is the live content. */
    ghost predicate Valid()
      reads this
    {
      HistoryOk(history) && |history| == version + 1 && history[version].content == Contents()
    }

    constructor ()
      ensures Valid() && version == 0 && Contents() == EMPTY
    {
      version, capabilities, relationships, rows := 0, map[], [], map[];
      history := [Snapshot(0, EMPTY)];
      EmptyOk();
    }

    method Validate(m: Mutation) returns (r: Result<Working, Refusal>)
      ensures var spec := Admit(Contents(), m);
              if r.Err? then spec == Err(r.error) else fresh(r.value) && spec == Ok(r.value.Contents())
    {
      var working := new Working(Content(capabilities, relationships, rows));
      var refused := working.Handle(m);
      if refused.Some? {
        return Err(refused.value);
      }
      return Ok(working);
    }

    /** Admit: exactly one new version holding exactly what the rules say, every earlier
        version untouched. Refuse: nothing changes at all. */
    method Apply(m: Mutation) returns (r: Result<nat, Refusal>)
      requires Valid()
      modifies this
      ensures Valid()
      ensures match Admit(old(Contents()), m)
              case Err(refusal) => r == Err(refusal) && version == old(version) && history == old(history) && Contents() == old(Contents())
              case Ok(next) => r == Ok(version) && version == old(version) + 1 && Contents() == next
                               && history == old(history) + [Snapshot(version, next)]
    {
      assert SpaceOk(history[version].content);
      var working := Validate(m);
      if working.Ok? {
        AdmitKeeps(Contents(), m);
        Commit(working.value);
        r := Ok(version);
      } else {
        r := Err(working.error);
      }
    }

    method Commit(working: Working)
      requires Valid() && SpaceOk(working.Contents()) && Evolves(Contents(), working.Contents())
      modifies this
      ensures Valid() && version == old(version) + 1 && Contents() == working.Contents()
      ensures history == old(history) + [Snapshot(version, Contents())]
    {
      HistoryExtends(history, working.Contents());
      ghost var extended := history + [Snapshot(|history|, working.Contents())];
      capabilities, relationships, rows, version := working.capabilities, working.relationships, working.rows, version + 1;
      history := history + [Snapshot(version, Content(capabilities, relationships, rows))];
      assert history == extended;
    }

    /** Refuses what Apply would refuse, and changes nothing. */
    method DryRun(m: Mutation) returns (refused: Option<Refusal>)
      ensures refused == if Admit(Contents(), m).Err? then Some(Admit(Contents(), m).error) else None
    {
      var r := Validate(m);
      return if r.Err? then Some(r.error) else None;
    }

    /** A published version, for ever; None for one that never existed. */
    method AtVersion(n: int) returns (r: Option<Snapshot>)
      requires Valid()
      ensures r.Some? <==> 0 <= n <= version
      ensures r.Some? ==> r.value == history[n] && r.value.version == n && SpaceOk(r.value.content)
    {
      if n < 0 || n > version {
        return None;
      }
      return Some(history[n]);
    }
  }
}
