/** Duplicate elimination and priority order. */
module CmDedup {
  import opened CmTypes
  import opened Orders
  import opened Wrappers

  // -- dedup -----------------------------------------------------------------------

  /** What makes two candidates duplicates of each other. */
  type Key = (string, Content)

  function KeyOf(c: Candidate): Key {
    (c.id, c.content)
  }

  function Keys(cs: seq<Candidate>): set<Key> {
    set c | c in cs :: KeyOf(c)
  }

  /** Some source disagrees about this id. */
  ghost predicate Contradicted(keys: set<Key>, id: string) {
    exists x, y :: (id, x) in keys && (id, y) in keys && x != y
  }

  ghost function Flagged(keys: set<Key>, c: Candidate): (r: Candidate)
    ensures KeyOf(r) == KeyOf(c) && (Contradicted(keys, c.id) ==> r.contradiction)
  {
    if Contradicted(keys, c.id) then c.(contradiction := true) else c
  }

  /** The first n candidates without repeats, each flagged if its id is contradicted. */
  ghost function DedupUpTo(cs: seq<Candidate>, n: nat, keys: set<Key>): seq<Candidate>
    requires n <= |cs|
  {
    if n == 0 then []
    else DedupUpTo(cs, n - 1, keys) + if KeyOf(cs[n - 1]) in Keys(cs[..n - 1]) then [] else [Flagged(keys, cs[n - 1])]
  }

  ghost function Dedup(cs: seq<Candidate>): seq<Candidate> {
    DedupUpTo(cs, |cs|, Keys(cs))
  }

  predicate NoRepeats(cs: seq<Candidate>) {
    forall i, j :: 0 <= i < j < |cs| ==> KeyOf(cs[i]) != KeyOf(cs[j])
  }

  /** c is one of the first n candidates, flagged as it should be. */
  ghost predicate Kept(cs: seq<Candidate>, n: nat, keys: set<Key>, c: Candidate) {
    exists i :: 0 <= i < n <= |cs| && c == Flagged(keys, cs[i])
  }

  lemma KeysGrow(cs: seq<Candidate>, n: nat)
    requires n < |cs|
    ensures Keys(cs[..n + 1]) == Keys(cs[..n]) + {KeyOf(cs[n])}
  {
    assert cs[..n + 1] == cs[..n] + [cs[n]];
  }

  lemma KeysAppend(out: seq<Candidate>, c: Candidate)
    ensures Keys(out + [c]) == Keys(out) + {KeyOf(c)}
    ensures NoRepeats(out) && KeyOf(c) !in Keys(out) ==> NoRepeats(out + [c])
  {
  }

  /** No key is repeated and none is lost or invented. */
  lemma {:induction false} DedupKeepsKeys(cs: seq<Candidate>, n: nat, keys: set<Key>)
    requires n <= |cs|
    ensures Keys(DedupUpTo(cs, n, keys)) == Keys(cs[..n])
    ensures NoRepeats(DedupUpTo(cs, n, keys))
    decreases n
  {
    if n > 0 {
      DedupKeepsKeys(cs, n - 1, keys);
      KeysGrow(cs, n - 1);
      OneMoreKept(cs, n, keys);
      KeepStep(DedupUpTo(cs, n - 1, keys), Flagged(keys, cs[n - 1]), Keys(cs[..n - 1]));
    }
  }

  lemma KeepStep(before: seq<Candidate>, c: Candidate, seen: set<Key>)
    requires Keys(before) == seen && NoRepeats(before)
    ensures KeyOf(c) in seen ==> seen + {KeyOf(c)} == seen
    ensures KeyOf(c) !in seen ==> Keys(before + [c]) == seen + {KeyOf(c)} && NoRepeats(before + [c])
  {
    KeysAppend(before, c);
  }

  lemma OneMoreKept(cs: seq<Candidate>, n: nat, keys: set<Key>)
    requires 0 < n <= |cs|
    ensures DedupUpTo(cs, n, keys)
            == if KeyOf(cs[n - 1]) in Keys(cs[..n - 1]) then DedupUpTo(cs, n - 1, keys)
               else DedupUpTo(cs, n - 1, keys) + [Flagged(keys, cs[n - 1])]
  {
  }

  lemma {:induction false} DedupKeepsCandidates(cs: seq<Candidate>, n: nat, keys: set<Key>)
    requires n <= |cs|
    ensures forall j :: 0 <= j < |DedupUpTo(cs, n, keys)| ==> Kept(cs, n, keys, DedupUpTo(cs, n, keys)[j])
    decreases n
  {
    if n > 0 {
      DedupKeepsCandidates(cs, n - 1, keys);
      var before, out := DedupUpTo(cs, n - 1, keys), DedupUpTo(cs, n, keys);
      forall j | 0 <= j < |out| ensures Kept(cs, n, keys, out[j]) {
        if j < |before| {
          var i :| 0 <= i < n - 1 && before[j] == Flagged(keys, cs[i]);
          assert out[j] == Flagged(keys, cs[i]);
        }
      }
    }
  }

  /** The result has exactly the input's keys, each once: so the same ids are
      contradicted before and after. */
  lemma DedupDistils(cs: seq<Candidate>)
    ensures Keys(Dedup(cs)) == Keys(cs) && NoRepeats(Dedup(cs))
    ensures forall j :: 0 <= j < |Dedup(cs)| ==> Kept(cs, |cs|, Keys(cs), Dedup(cs)[j])
  {
    DedupKeepsKeys(cs, |cs|, Keys(cs));
    DedupKeepsCandidates(cs, |cs|, Keys(cs));
    assert cs[..|cs|] == cs;
  }

  lemma {:induction false} NothingLeftToDo(cs: seq<Candidate>, n: nat, keys: set<Key>)
    requires n <= |cs| && NoRepeats(cs)
    requires forall i :: 0 <= i < |cs| ==> Flagged(keys, cs[i]) == cs[i]
    ensures DedupUpTo(cs, n, keys) == cs[..n]
    decreases n
  {
    if n > 0 {
      NothingLeftToDo(cs, n - 1, keys);
      assert cs[..n] == cs[..n - 1] + [cs[n - 1]];
    }
  }

  /** dedup is idempotent, on all inputs. */
  lemma DedupIdempotent(cs: seq<Candidate>)
    ensures Dedup(Dedup(cs)) == Dedup(cs)
  {
    var out, keys := Dedup(cs), Keys(cs);
    DedupDistils(cs);
    forall j | 0 <= j < |out| ensures Flagged(keys, out[j]) == out[j] {
      assert Kept(cs, |cs|, keys, out[j]);
    }
    NothingLeftToDo(out, |out|, keys);
    assert out[..|out|] == out;
  }

  /** After dedup two candidates share an id only as flagged variants with different content. */
  lemma SharedIdsAreFlagged(cs: seq<Candidate>, i: nat, j: nat)
    requires i < j < |Dedup(cs)| && Dedup(cs)[i].id == Dedup(cs)[j].id
    ensures Dedup(cs)[i].contradiction && Dedup(cs)[j].contradiction
    ensures Dedup(cs)[i].content != Dedup(cs)[j].content
  {
    var out, keys := Dedup(cs), Keys(cs);
    DedupDistils(cs);
    assert KeyOf(out[i]) != KeyOf(out[j]);
    assert KeyOf(out[i]) in Keys(out) && KeyOf(out[j]) in Keys(out);
    assert Contradicted(keys, out[i].id);
    assert Kept(cs, |cs|, keys, out[i]) && Kept(cs, |cs|, keys, out[j]);
  }

  type Hashes = map<string, set<Content>>

  ghost predicate HashesOf(m: Hashes, keys: set<Key>) {
    forall id, x :: (id, x) in keys <==> id in m && x in m[id]
  }

  lemma TwoHashes(s: set<Content>)
    ensures |s| > 1 <==> exists x, y :: x in s && y in s && x != y
  {
    if |s| > 1 {
      var x :| x in s;
      assert |s - {x}| >= 1;
      var y :| y in s - {x};
      assert x in s && y in s && x != y;
    }
    if x, y :| x in s && y in s && x != y {
      assert {x, y} <= s;
      assert |s - {x, y}| == |s| - |{x, y}|;
    }
  }

  lemma HashesTell(m: Hashes, keys: set<Key>, id: string)
    requires HashesOf(m, keys) && id in m
    ensures |m[id]| > 1 <==> Contradicted(keys, id)
  {
    TwoHashes(m[id]);
    if x, y :| x in m[id] && y in m[id] && x != y {
      assert (id, x) in keys && (id, y) in keys;
    }
  }

  /** The first pass: the content seen under each id. */
  method CollectHashes(cs: seq<Candidate>) returns (hashes: Hashes)
    ensures HashesOf(hashes, Keys(cs))
  {
    hashes := map[];
    for i := 0 to |cs|
      invariant HashesOf(hashes, Keys(cs[..i]))
    {
      KeysGrow(cs, i);
      var c := cs[i];
      hashes := hashes[c.id := (if c.id in hashes then hashes[c.id] else {}) + {c.content}];
    }
    assert cs[..|cs|] == cs;
  }

  /** A kept candidate, flagged if the first pass saw its id with different contents. */
  method FlagIfContradicted(c: Candidate, hashes: Hashes, ghost keys: set<Key>) returns (r: Candidate)
    requires HashesOf(hashes, keys) && KeyOf(c) in keys
    ensures r == Flagged(keys, c)
  {
    HashesTell(hashes, keys, c.id);
    return if |hashes[c.id]| > 1 then c.(contradiction := true) else c;
  }

  /** dedup as it runs: one pass to collect content per id, one to emit. */
  method DedupCandidates(cs: seq<Candidate>) returns (out: seq<Candidate>)
    ensures out == Dedup(cs)
  {
    var hashes := CollectHashes(cs);
    ghost var keys := Keys(cs);
    var seen: set<Key> := {};
    out := [];
    for i := 0 to |cs|
      invariant seen == Keys(cs[..i])
      invariant out == DedupUpTo(cs, i, keys)
    {
      KeysGrow(cs, i);
      if KeyOf(cs[i]) !in seen {
        var kept := FlagIfContradicted(cs[i], hashes, keys);
        out := out + [kept];
      }
      seen := seen + {KeyOf(cs[i])};
    }
  }

  // -- prioritize --------------------------------------------------------------------

  /** section weight descending, score descending, id ascending. */
  predicate Before(weights: Weights, a: Candidate, b: Candidate) {
    var wa, wb := WeightOf(weights, a.section), WeightOf(weights, b.section);
    wa > wb || (wa == wb && if a.score != b.score then ScoreLe(b.score, a.score) else StrLe(a.id, b.id))
  }

  function Prioritize(cs: seq<Candidate>, weights: Weights): seq<Candidate> {
    Sort(cs, (a, b) => Before(weights, a, b))
  }

  lemma BeforePreorder(weights: Weights)
    ensures TotalPreorder((a, b) => Before(weights, a, b))
  {
    StrOrder();
  }

  /** The result is a rearrangement; a section's items come in non-increasing score. */
  lemma PrioritizeOrders(cs: seq<Candidate>, weights: Weights)
    ensures multiset(Prioritize(cs, weights)) == multiset(cs)
    ensures var out := Prioritize(cs, weights);
            forall i, j :: 0 <= i < j < |out| && out[i].section == out[j].section ==> ScoreLe(out[j].score, out[i].score)
  {
    BeforePreorder(weights);
    var le := (a, b) => Before(weights, a, b);
    SortCorrect(cs, le);
    var out := Prioritize(cs, weights);
    forall i, j | 0 <= i < j < |out| && out[i].section == out[j].section ensures ScoreLe(out[j].score, out[i].score) {
      assert le(out[i], out[j]);
    }
  }

  /** With distinct ids the order of the input does not matter. */
  lemma PrioritizePermutation(a: seq<Candidate>, b: seq<Candidate>, weights: Weights)
    requires multiset(a) == multiset(b)
    requires forall i, j :: 0 <= i < j < |a| ==> a[i].id != a[j].id
    ensures Prioritize(a, weights) == Prioritize(b, weights)
  {
    BeforePreorder(weights);
    var le := (a, b) => Before(weights, a, b);
    SortCorrect(a, le);
    SortCorrect(b, le);
    forall x, y | x in Elements(a) && y in Elements(a) && le(x, y) && le(y, x) ensures x == y {
      TiesShareIds(weights, x, y);
      var i :| 0 <= i < |a| && a[i] == x;
      var j :| 0 <= j < |a| && a[j] == y;
    }
    forall x | x in Prioritize(a, weights) ensures x in Elements(a) {
      assert x in multiset(a);
    }
    SortedUniqueUpTo(Prioritize(a, weights), Prioritize(b, weights), Elements(a), le);
  }

  lemma TiesShareIds(weights: Weights, x: Candidate, y: Candidate)
    requires Before(weights, x, y) && Before(weights, y, x)
    ensures x.id == y.id
  {
    StrOrder();
  }
}
