/** Which changes of the descriptor space can be taken back. */
module RoSpaceUndo {
  import opened CycleDetection
  import opened Orders
  import opened RoSpaceRules
  import opened Wrappers

  /** The same space, whatever the order in which its relationships were added. */
  ghost predicate SameSpace(a: Content, b: Content) {
    && a.capabilities == b.capabilities && a.rows == b.rows
    && (forall r :: r in a.relationships <==> r in b.relationships)
  }

  /** A run that leads from one content back to the other. */
  ghost predicate Undoes(after: Content, before: Content, ms: seq<Mutation>) {
    SameSpace(RunFrom(after, ms), before)
  }

  lemma OneUndoes(after: Content, before: Content, m: Mutation)
    requires Admit(after, m).Ok? && SameSpace(Admit(after, m).value, before)
    ensures Undoes(after, before, [m])
  {
    assert [m][1..] == [];
    assert RunFrom(Admit(after, m).value, []) == Admit(after, m).value;
  }

  lemma ReaddIsAdmitted(c: Content, r: Relationship)
    requires SpaceOk(c) && r in c.relationships
    ensures var after := RemovedRelationship(c, r).value;
            && AddedRelationship(after, r).Ok?
            && SameSpace(AddedRelationship(after, r).value, c)
  {
    var after := RemovedRelationship(c, r).value;
    RemoveFirstMembers(c.relationships, r);
    if r.kind == Dependency {
      DependencyIffListed(c);
      DependencyIffListed(after);
      assert Dependencies(after) + {(r.src, r.dst)} == Dependencies(c) by {
        forall e ensures e in Dependencies(after) + {(r.src, r.dst)} <==> e in Dependencies(c) {
          var (src, dst) := e;
          assert (src, dst) in Dependencies(c) <==> Relationship(Dependency, src, dst) in c.relationships;
        }
      }
    }
  }

  lemma AddedIsRemoved(c: Content, r: Relationship)
    requires SpaceOk(c) && AddedRelationship(c, r).Ok?
    ensures var after := AddedRelationship(c, r).value;
            && RemovedRelationship(after, r).Ok?
            && SameSpace(RemovedRelationship(after, r).value, c)
  {
    RelationshipAdded(c, r);
    RemoveFirstMembers(c.relationships + [r], r);
  }

  /** What undoes an admitted mutation, when something does. */
  function Inverse(c: Content, m: Mutation): Mutation {
    match m
    case UpdateCapability(record) => if record.id in c.capabilities then UpdateCapability(c.capabilities[record.id]) else UnknownKind
    case AddRelationship(r) => RemoveRelationship(r)
    case RemoveRelationship(r) => AddRelationship(r)
    case AddRow(row) => RemoveRow(row.providerId)
    case UpdateRow(row) => if row.providerId in c.rows then UpdateRow(c.rows[row.providerId]) else UnknownKind
    case RemoveRow(providerId) => if providerId in c.rows then AddRow(c.rows[providerId]) else UnknownKind
    case _ => UnknownKind
  }

  predicate Permanent(m: Mutation) {
    m.AddCapability? || m.TransitionCapability?
  }

  lemma InverseUndoes(c: Content, m: Mutation)
    requires SpaceOk(c) && Admit(c, m).Ok? && !Permanent(m)
    ensures Undoes(Admit(c, m).value, c, [Inverse(c, m)])
  {
    var after := Admit(c, m).value;
    match m
    case UpdateCapability(record) =>
      assert after.capabilities[record.id := c.capabilities[record.id]] == c.capabilities;
      OneUndoes(after, c, Inverse(c, m));
    case AddRelationship(r) =>
      AddedIsRemoved(c, r);
      OneUndoes(after, c, Inverse(c, m));
    case RemoveRelationship(r) =>
      ReaddIsAdmitted(c, r);
      OneUndoes(after, c, Inverse(c, m));
    case AddRow(row) =>
      assert after.rows - {row.providerId} == c.rows;
      OneUndoes(after, c, Inverse(c, m));
    case UpdateRow(row) =>
      assert after.rows[row.providerId := c.rows[row.providerId]] == c.rows;
      assert ClaimsHold(c.capabilities, c.rows[row.providerId]);
      OneUndoes(after, c, Inverse(c, m));
    case RemoveRow(providerId) =>
      assert after.rows[providerId := c.rows[providerId]] == c.rows;
      assert ClaimsHold(c.capabilities, c.rows[providerId]);
      OneUndoes(after, c, Inverse(c, m));
  }

  lemma PermanentStays(c: Content, m: Mutation, ms: seq<Mutation>)
    requires SpaceOk(c) && Admit(c, m).Ok? && Permanent(m)
    ensures !Undoes(Admit(c, m).value, c, ms)
  {
    AdmitKeeps(c, m);
    RunKeeps(Admit(c, m).value, ms);
  }

  /** Some run of mutations takes an admitted mutation back if and only if it neither
      added a capability nor moved one along its lifecycle. */
  lemma UndoableExactly(c: Content, m: Mutation)
    requires SpaceOk(c) && Admit(c, m).Ok?
    ensures (exists ms :: Undoes(Admit(c, m).value, c, ms)) <==> !Permanent(m)
  {
    if Permanent(m) {
      forall ms ensures !Undoes(Admit(c, m).value, c, ms) {
        PermanentStays(c, m, ms);
      }
    } else {
      InverseUndoes(c, m);
    }
  }
}
