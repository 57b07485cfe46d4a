/** What every mutation of the descriptor space is admitted for and what it leaves, told by
    the entries alone. */
module RoSpaceMeaning {
  import opened CycleDetection
  import opened Orders
  import opened RoSpaceRules
  import opened Wrappers

  predicate Later(from: Lifecycle, to: Lifecycle) {
    match from
    case Proposed => to != Proposed
    case Active => to == Deprecated || to == Retired
    case Deprecated => to == Retired
    case Retired => false
  }

  /** A capability is added if and only if its id is new; a retired one's id is a tombstone. */
  lemma CapabilityAddedExactly(c: Content, r: Capability)
    ensures var admitted := Admit(c, AddCapability(r));
            && (admitted.Ok? <==> r.id !in c.capabilities)
            && (admitted == Err(TombstoneReuse) <==> r.id in c.capabilities && c.capabilities[r.id].lifecycle == Retired)
            && (admitted == Err(DuplicateId) <==> r.id in c.capabilities && c.capabilities[r.id].lifecycle != Retired)
            && (admitted.Ok? ==> admitted.value == c.(capabilities := c.capabilities[r.id := r]))
  {
  }

  /** It is updated if and only if it is there, not retired, and keeps category and lifecycle. */
  lemma CapabilityUpdatedExactly(c: Content, r: Capability)
    ensures var admitted := Admit(c, UpdateCapability(r));
            var known := r.id in c.capabilities;
            && (admitted.Ok? <==> known && c.capabilities[r.id].lifecycle != Retired && c.capabilities[r.id].category == r.category
                                  && c.capabilities[r.id].lifecycle == r.lifecycle)
            && (admitted == Err(NotFound) <==> !known)
            && (admitted == Err(TombstoneReuse) <==> known && c.capabilities[r.id].lifecycle == Retired)
            && (admitted == Err(CategoryFrozen) <==>
                  known && c.capabilities[r.id].lifecycle != Retired && c.capabilities[r.id].category != r.category)
            && (admitted.Ok? ==> admitted.value == c.(capabilities := c.capabilities[r.id := r]))
  {
  }

  /** It moves if and only if the target is a later stage and, to retire, no row claims it. */
  lemma CapabilityMovedExactly(c: Content, id: string, to: Option<Lifecycle>)
    ensures var admitted := Admit(c, TransitionCapability(id, to));
            var known := id in c.capabilities;
            var moves := known && to.Some? && Later(c.capabilities[id].lifecycle, to.value);
            && (admitted.Ok? <==> moves && (to == Some(Retired) ==> forall p :: p in c.rows ==> id !in c.rows[p].claims))
            && (admitted == Err(NotFound) <==> !known)
            && (admitted == Err(LifecycleTransition) <==> known && !moves)
            && (admitted == Err(ClaimedRetirement) <==>
                  moves && to == Some(Retired) && exists p :: p in c.rows && id in c.rows[p].claims)
            && (admitted.Ok? ==> admitted.value == c.(capabilities := c.capabilities[id := c.capabilities[id].(lifecycle := to.value)]))
  {
  }

  /** The edges of the dependency relationships. */
  ghost function Depends(c: Content): Edges<string> {
    set r | r in c.relationships && r.kind == Dependency :: (r.src, r.dst)
  }

  lemma DependsMeans(c: Content)
    ensures Depends(c) == Dependencies(c)
  {
    DependencyIffListed(c);
    forall e ensures e in Depends(c) <==> e in Dependencies(c) {
      var (src, dst) := e;
      assert Relationship(Dependency, src, dst) in c.relationships <==> (src, dst) in Dependencies(c);
      if Relationship(Dependency, src, dst) in c.relationships {
        assert Relationship(Dependency, src, dst).kind == Dependency;
      }
    }
  }

  /** A relationship is added if and only if both ends are there, it is not there already,
      and, for a dependency, its target does not depend on its source, directly or not. */
  lemma RelationshipAddedExactly(c: Content, r: Relationship)
    requires SpaceOk(c)
    ensures var admitted := Admit(c, AddRelationship(r));
            var ends := r.src in c.capabilities && r.dst in c.capabilities;
            && (admitted.Ok? <==>
                  ends && r !in c.relationships && (r.kind == Dependency ==> !Leads(Depends(c), r.dst, r.src)))
            && (admitted == Err(RelationshipEndpoint) <==> !ends)
            && (admitted == Err(DuplicateId) <==> ends && r in c.relationships)
            && (admitted.Ok? ==> admitted.value == c.(relationships := c.relationships + [r]))
  {
    DependsMeans(c);
    if r.kind == Dependency && r.src in c.capabilities && r.dst in c.capabilities && r !in c.relationships {
      EdgeClosesCycle(Dependencies(c), r.src, r.dst);
    }
  }

  /** One is removed if and only if it is there; the others keep their order. */
  lemma RelationshipRemovedExactly(c: Content, r: Relationship)
    requires SpaceOk(c)
    ensures var admitted := Admit(c, RemoveRelationship(r));
            && (admitted.Ok? <==> r in c.relationships)
            && (admitted.Err? ==> admitted.error == NotFound)
            && (forall i :: 0 <= i < |c.relationships| && c.relationships[i] == r ==>
                  admitted == Ok(c.(relationships := c.relationships[..i] + c.relationships[i + 1..])))
  {
    forall i | 0 <= i < |c.relationships| && c.relationships[i] == r
      ensures RemoveFirst(c.relationships, r) == c.relationships[..i] + c.relationships[i + 1..]
    {
      RemovesAt(c.relationships, i);
    }
  }

  lemma {:induction false} RemovesAt<T>(s: seq<T>, i: nat)
    requires i < |s| && Distinct(s)
    ensures RemoveFirst(s, s[i]) == s[..i] + s[i + 1..]
  {
    if i > 0 {
      assert s[0] != s[i];
      assert Distinct(s[1..]);
      RemovesAt(s[1..], i - 1);
      assert s[1..][..i - 1] == s[1..i] && s[1..][i..] == s[i + 1..];
      assert s[..i] == [s[0]] + s[1..i];
    }
  }

  /** Every capability the row claims is there, active or deprecated. */
  predicate ClaimsStand(c: Content, row: Row) {
    forall id :: id in row.claims ==> id in c.capabilities && c.capabilities[id].lifecycle in {Active, Deprecated}
  }

  /** A row is added if and only if its provider has none and its claims stand; it is then
      that provider's row, field by field, and nothing else has changed. */
  lemma RowAddedExactly(c: Content, row: Row)
    ensures var admitted := Admit(c, AddRow(row));
            && (admitted.Ok? <==> row.providerId !in c.rows && ClaimsStand(c, row))
            && (admitted == Err(DuplicateId) <==> row.providerId in c.rows)
            && (admitted == Err(DescriptorClaim) <==> row.providerId !in c.rows && !ClaimsStand(c, row))
            && (admitted.Ok? ==> Holds(c, admitted.value, row))
  {
  }

  /** It is updated if and only if its provider has one and its claims stand. */
  lemma RowUpdatedExactly(c: Content, row: Row)
    ensures var admitted := Admit(c, UpdateRow(row));
            && (admitted.Ok? <==> row.providerId in c.rows && ClaimsStand(c, row))
            && (admitted == Err(NotFound) <==> row.providerId !in c.rows)
            && (admitted == Err(DescriptorClaim) <==> row.providerId in c.rows && !ClaimsStand(c, row))
            && (admitted.Ok? ==> Holds(c, admitted.value, row))
  {
  }

  /** The provider's row is this one; the rest is as it was. */
  ghost predicate Holds(before: Content, after: Content, row: Row) {
    && after.capabilities == before.capabilities && after.relationships == before.relationships
    && row.providerId in after.rows && after.rows[row.providerId] == row
    && forall p :: p != row.providerId ==>
         (p in after.rows <==> p in before.rows) && (p in after.rows ==> after.rows[p] == before.rows[p])
  }

  /** And removed if and only if it is there. */
  lemma RowRemovedExactly(c: Content, provider: string)
    ensures var admitted := Admit(c, RemoveRow(provider));
            && (admitted.Ok? <==> provider in c.rows)
            && (admitted.Err? ==> admitted.error == NotFound)
            && (admitted.Ok? ==>
                  && admitted.value.capabilities == c.capabilities && admitted.value.relationships == c.relationships
                  && forall p :: (p in admitted.value.rows <==> p in c.rows && p != provider)
                                 && (p in admitted.value.rows ==> admitted.value.rows[p] == c.rows[p]))
  {
  }
}
