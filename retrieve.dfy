/**
 * Evidence retrieval: one search per claim, run concurrently and collected as the
 * searches complete; a claim whose search fails gets no entry.
 */
module Retrieve {
  import opened Wrappers
  import opened Types
  import opened Unordered

  /** What one search returned: the hits, or the error that ended it. */
  type SearchOutcome = Result<seq<EvidenceItem>>

  /** A claim paired with the outcome of its search. */
  type SearchTask = (string, SearchOutcome)

  /** The `i`-th claim with the `i`-th search outcome. */
  function Tasks(claims: seq<string>, outcomes: seq<SearchOutcome>): (tasks: seq<SearchTask>)
    requires |claims| == |outcomes|
    ensures |tasks| == |claims|
  {
    seq(|claims|, i requires 0 <= i < |claims| => (claims[i], outcomes[i]))
  }

  /** The entries of the successful searches, in task order. */
  function Successful(tasks: seq<SearchTask>): (entries: seq<ClaimEvidence>)
    ensures |entries| <= |tasks|
  {
    if tasks == [] then [] else Entry(tasks[0]) + Successful(tasks[1..])
  }

  /** The entry one task contributes: its pair when the search succeeded, nothing otherwise. */
  function Entry(t: SearchTask): (e: seq<ClaimEvidence>)
    ensures |e| <= 1
  {
    if t.1.Ok? then [(t.0, t.1.value)] else []
  }

  lemma {:induction false} SuccessfulAppend(a: seq<SearchTask>, b: seq<SearchTask>)
    ensures Successful(a + b) == Successful(a) + Successful(b)
  {
    if a == [] {
      assert a + b == b;
    } else {
      assert (a + b)[0] == a[0];
      assert (a + b)[1..] == a[1..] + b;
      SuccessfulAppend(a[1..], b);
      calc {
        Successful(a + b);
        Entry(a[0]) + Successful(a[1..] + b);
        Entry(a[0]) + (Successful(a[1..]) + Successful(b));
        (Entry(a[0]) + Successful(a[1..])) + Successful(b);
      }
    }
  }

  /** An entry occurs as often as the successful search that produced it. */
  lemma {:induction false} SuccessfulCount(tasks: seq<SearchTask>, e: ClaimEvidence)
    ensures multiset(Successful(tasks))[e] == multiset(tasks)[(e.0, Ok(e.1))]
  {
    if tasks != [] {
      var t, rest := tasks[0], tasks[1..];
      SuccessfulCount(rest, e);
      EntryCount(t, e);
      assert tasks == [t] + rest;
      assert multiset(tasks) == multiset([t]) + multiset(rest);
      assert multiset(Successful(tasks)) == multiset(Entry(t)) + multiset(Successful(rest));
    }
  }

  lemma EntryCount(t: SearchTask, e: ClaimEvidence)
    ensures multiset(Entry(t))[e] == multiset([t])[(e.0, Ok(e.1))]
  {
  }

  /** The entries depend on which searches succeeded, not on the order they completed in. */
  lemma SuccessfulPermutation(tasks: seq<SearchTask>, done: seq<SearchTask>)
    requires multiset(done) == multiset(tasks)
    ensures multiset(Successful(done)) == multiset(Successful(tasks))
  {
    forall e: ClaimEvidence
      ensures multiset(Successful(done))[e] == multiset(Successful(tasks))[e]
    {
      SuccessfulCount(done, e);
      SuccessfulCount(tasks, e);
    }
  }

  /** `(c, items)` is an entry exactly when some search for `c` returned `items`. */
  lemma SuccessfulMembership(tasks: seq<SearchTask>, c: string, items: seq<EvidenceItem>)
    ensures (c, items) in Successful(tasks) <==> (c, Ok(items)) in tasks
  {
    SuccessfulCount(tasks, (c, items));
  }

  /** A claim all of whose searches failed has no entry: it is dropped, not marked. */
  lemma FailedClaimDropped(tasks: seq<SearchTask>, c: string)
    requires forall i :: 0 <= i < |tasks| && tasks[i].0 == c ==> tasks[i].1.Err?
    ensures forall e :: e in Successful(tasks) ==> e.0 != c
  {
    forall e | e in Successful(tasks)
      ensures e.0 != c
    {
      SuccessfulMembership(tasks, e.0, e.1);
    }
  }

  /** When every search succeeds there is one entry per claim, duplicates included. */
  lemma {:induction false} AllSucceeded(tasks: seq<SearchTask>)
    requires forall i :: 0 <= i < |tasks| ==> tasks[i].1.Ok?
    ensures |Successful(tasks)| == |tasks|
    ensures forall i :: 0 <= i < |tasks| ==> Successful(tasks)[i] == (tasks[i].0, tasks[i].1.value)
  {
    if tasks != [] {
      AllSucceeded(tasks[1..]);
    }
  }

  /** If the search never returns more than `topK` hits, no entry holds more than `topK` hits. */
  lemma EntriesWithinTopK(tasks: seq<SearchTask>, topK: nat)
    requires forall i :: 0 <= i < |tasks| && tasks[i].1.Ok? ==> |tasks[i].1.value| <= topK
    ensures forall e :: e in Successful(tasks) ==> |e.1| <= topK
  {
    forall e | e in Successful(tasks)
      ensures |e.1| <= topK
    {
      SuccessfulMembership(tasks, e.0, e.1);
    }
  }

  /**
   * `retrieve_for_record`: searches every claim of `allClaims` (search `i` ends with
   * `outcomes[i]`), keeps the successful ones in completion order, and never fails.
   */
  method RetrieveForRecord(rec: ExtractedClaimsRecord, outcomes: seq<SearchOutcome>)
    returns (r: Result<EvidenceRecord>, ghost order: seq<nat>)
    requires |outcomes| == |rec.allClaims|
    ensures r.Ok? && r.value.claims == rec
    ensures IsPermutation(order, |rec.allClaims|)
    ensures r.value.claimSnippetsDict == Successful(Reorder(Tasks(rec.allClaims, outcomes), order))
    ensures multiset(r.value.claimSnippetsDict) == multiset(Successful(Tasks(rec.allClaims, outcomes)))
  {
    var tasks := Tasks(rec.allClaims, outcomes);
    var done;
    done, order := DrainUnordered(tasks);
    var dict := [];
    for j := 0 to |done|
      invariant dict == Successful(done[..j])
    {
      var (claim, hits) := done[j];
      assert done[..j + 1] == done[..j] + [done[j]];
      SuccessfulAppend(done[..j], [done[j]]);
      if hits.Ok? {
        dict := dict + [(claim, hits.value)];
      }
    }
    assert done[..|done|] == done;
    SuccessfulPermutation(tasks, done);
    r := Ok(EvidenceRecord(rec, dict));
  }
}
