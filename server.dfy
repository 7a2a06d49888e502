/**
 * The reward endpoint's reduction: every completion runs extract, retrieve and verify;
 * a finished item scores its F1, a failed one scores 0.0.
 */
module Server {
  import opened Wrappers
  import opened Types
  import opened Llm
  import opened Segments
  import opened Extraction
  import opened Retrieve
  import opened Verification
  import opened Scoring
  import opened Unordered

  /** The services a request runs against; the two concurrency bounds only shape scheduling. */
  datatype Engine = Engine(
    llmExtract: Chat,
    llmVerify: Chat,
    search: string -> SearchOutcome,
    searchConcurrency: nat,
    llmConcurrency: nat)

  /** The library code the pipeline calls: sentence splitter, claim-array parser, label reader. */
  datatype Libraries = Libraries(split: Splitter, parse: ClaimsParser, readLabel: LabelReader)

  datatype RewardReq = RewardReq(groupId: string, kMedian: nat, binary: bool, completions: seq<InputRecord>)

  datatype RewardResp = RewardResp(rewards: seq<real>)

  type ItemResult = Result<VerificationRecord>

  /** One search outcome per claim, in claim order. */
  function SearchAll(search: string -> SearchOutcome, claims: seq<string>): (outcomes: seq<SearchOutcome>)
    ensures |outcomes| == |claims|
  {
    seq(|claims|, i requires 0 <= i < |claims| => search(claims[i]))
  }

  /** The evidence record retrieval builds for `ex` when the searches finish in `order`. */
  function Evidence(search: string -> SearchOutcome, ex: ExtractedClaimsRecord, order: seq<nat>)
    : EvidenceRecord
    requires IsPermutation(order, |ex.allClaims|)
  {
    EvidenceRecord(ex, Successful(Reorder(Tasks(ex.allClaims, SearchAll(search, ex.allClaims)), order)))
  }

  /** `order` is a possible completion order of the item's searches (any order when extraction fails). */
  ghost predicate SearchOrder(engine: Engine, libs: Libraries, inp: InputRecord, order: seq<nat>) {
    var ex := Extracted(engine.llmExtract, libs.split, libs.parse, inp);
    ex.Ok? ==> IsPermutation(order, |ex.value.allClaims|)
  }

  /**
   * The outcome of one item's pipeline, the searches having finished in `order`: the first
   * stage that fails decides the error; otherwise the verification record.
   */
  function ItemOutcome(engine: Engine, libs: Libraries, inp: InputRecord, binary: bool, order: seq<nat>)
    : (r: ItemResult)
    requires KeepsCount(engine.llmVerify)
    requires SearchOrder(engine, libs, inp, order)
    ensures var ex := Extracted(engine.llmExtract, libs.split, libs.parse, inp);
      && (ex.Err? ==> r == Err(ex.error))
      && (ex.Ok? ==>
        var ev := Evidence(engine.search, ex.value, order);
        var reply := engine.llmVerify(VerifyPrompts(ev.claimSnippetsDict, binary));
        && (r.Err? <==> reply.Err?)
        && (r.Err? ==> r.error == reply.error)
        && (r.Ok? ==>
          && r.value.evidence.claims == ex.value
          && multiset(r.value.evidence.claimSnippetsDict)
             == multiset(Successful(Tasks(ex.value.allClaims, SearchAll(engine.search, ex.value.allClaims))))
          && |r.value.claimVerificationResult| == |r.value.evidence.claimSnippetsDict| <= |ex.value.allClaims|))
  {
    match Extracted(engine.llmExtract, libs.split, libs.parse, inp)
    case Err(e) => Err(e)
    case Ok(ex) =>
      var tasks := Tasks(ex.allClaims, SearchAll(engine.search, ex.allClaims));
      ReorderMultiset(tasks, order);
      SuccessfulPermutation(tasks, Reorder(tasks, order));
      var ev := Evidence(engine.search, ex, order);
      Verified(engine.llmVerify, libs.readLabel, ev, binary)
  }

  /** `r` is what one item's task can produce, for some completion order of its searches. */
  ghost predicate PossibleOutcome(engine: Engine, libs: Libraries, inp: InputRecord, binary: bool, r: ItemResult)
    requires KeepsCount(engine.llmVerify)
  {
    exists order :: SearchOrder(engine, libs, inp, order) && r == ItemOutcome(engine, libs, inp, binary, order)
  }

  /**
   * One item's task: extract, then search every claim, then verify. The gateway returns one
   * completion per prompt, which is what the verifier's index-aligned zip relies on.
   */
  method RunItem(engine: Engine, libs: Libraries, inp: InputRecord, binary: bool)
    returns (r: ItemResult, ghost order: seq<nat>)
    requires KeepsCount(engine.llmVerify)
    ensures SearchOrder(engine, libs, inp, order)
    ensures r == ItemOutcome(engine, libs, inp, binary, order)
    ensures PossibleOutcome(engine, libs, inp, binary, r)
    ensures var ex := Extracted(engine.llmExtract, libs.split, libs.parse, inp);
      && (ex.Err? ==> r == Err(ex.error))
      && (r.Ok? ==> ex.Ok? && r.value.evidence.claims == ex.value)
  {
    order := [];
    var extracted := ExtractRecord(engine.llmExtract, libs.split, libs.parse, inp);
    if extracted.Err? {
      return Err(extracted.error), order;
    }
    var claims := extracted.value.allClaims;
    var outcomes := seq(|claims|, i requires 0 <= i < |claims| => engine.search(claims[i]));
    var evid;
    evid, order := RetrieveForRecord(extracted.value, outcomes);
    r := VerifyRecord(engine.llmVerify, libs.readLabel, evid.value, binary);
  }

  /** The reward of one item: its F1 against `k` when it finished, 0.0 when it failed. */
  function ItemReward(r: ItemResult, k: nat): (reward: real)
    requires k > 0
    ensures 0.0 <= reward <= 1.0
    ensures r.Err? ==> reward == 0.0
    ensures r.Ok? ==> reward == Score(r.value, k).f1
    ensures reward > 0.0 <==> r.Ok? && CountSupported(r.value.claimVerificationResult) > 0
  {
    match r
    case Ok(vr) => Score(vr, k).f1
    case Err(_) => 0.0
  }

  /** The rewards of `results`, position by position. */
  function Rewards(results: seq<ItemResult>, k: nat): (rewards: seq<real>)
    requires k > 0
    ensures |rewards| == |results|
  {
    seq(|results|, i requires 0 <= i < |results| => ItemReward(results[i], k))
  }

  /** The reward loop: one push per result, in the order the results arrive. */
  method CollectRewards(results: seq<ItemResult>, k: nat) returns (rewards: seq<real>)
    requires k > 0
    ensures rewards == Rewards(results, k)
  {
    rewards := [];
    for i := 0 to |results|
      invariant rewards == Rewards(results[..i], k)
    {
      match results[i]
      case Ok(vr) =>
        rewards := rewards + [Score(vr, k).f1];
      case Err(_) =>
        rewards := rewards + [0.0];
      assert results[..i + 1] == results[..i] + [results[i]];
    }
    assert results[..|results|] == results;
  }

  /** Rewarding reordered results is reordering the rewards. */
  lemma RewardsReorder(results: seq<ItemResult>, order: seq<nat>, k: nat)
    requires k > 0
    requires forall j :: 0 <= j < |order| ==> order[j] < |results|
    ensures Rewards(Reorder(results, order), k) == Reorder(Rewards(results, k), order)
  {
  }

  /**
   * `reward_batch` as written: every completion's task runs, the results are collected in
   * completion order, and the rewards follow that order. The multiset of rewards is that of
   * the per-completion rewards, but position `i` need not belong to completion `i`.
   */
  method RewardBatch(engine: Engine, libs: Libraries, req: RewardReq)
    returns (resp: Result<RewardResp>, ghost results: seq<ItemResult>, ghost order: seq<nat>)
    requires KeepsCount(engine.llmVerify) && req.kMedian > 0
    ensures |results| == |req.completions|
    ensures forall i :: 0 <= i < |results| ==>
      PossibleOutcome(engine, libs, req.completions[i], req.binary, results[i])
    ensures IsPermutation(order, |results|)
    ensures resp.Ok? && |resp.value.rewards| == |req.completions|
    ensures resp.value.rewards == Rewards(Reorder(results, order), req.kMedian)
    ensures multiset(resp.value.rewards) == multiset(Rewards(results, req.kMedian))
    ensures forall j :: 0 <= j < |resp.value.rewards| ==> 0.0 <= resp.value.rewards[j] <= 1.0
  {
    var items := RunAll(engine, libs, req);
    results := items;
    var done;
    done, order := DrainUnordered(items);
    var rewards := CollectRewards(done, req.kMedian);
    RewardsReorder(items, order, req.kMedian);
    ReorderMultiset(Rewards(items, req.kMedian), order);
    resp := Ok(RewardResp(rewards));
  }

  /** Runs every completion's task; result `i` is a possible outcome of completion `i`. */
  method RunAll(engine: Engine, libs: Libraries, req: RewardReq) returns (items: seq<ItemResult>)
    requires KeepsCount(engine.llmVerify)
    ensures |items| == |req.completions|
    ensures forall i :: 0 <= i < |items| ==>
      PossibleOutcome(engine, libs, req.completions[i], req.binary, items[i])
  {
    items := [];
    for i := 0 to |req.completions|
      invariant |items| == i
      invariant AllPossible(engine, libs, req.completions, req.binary, items)
    {
      var r, _ := RunItem(engine, libs, req.completions[i], req.binary);
      AllPossibleSnoc(engine, libs, req.completions, req.binary, items, r);
      items := items + [r];
    }
  }

  /** Result `j` of `items` is a possible outcome of completion `j`, for every `j`. */
  ghost predicate AllPossible(engine: Engine, libs: Libraries, comps: seq<InputRecord>, binary: bool,
                              items: seq<ItemResult>)
    requires KeepsCount(engine.llmVerify)
  {
    |items| <= |comps| &&
    forall j :: 0 <= j < |items| ==> PossibleOutcome(engine, libs, comps[j], binary, items[j])
  }

  lemma AllPossibleSnoc(engine: Engine, libs: Libraries, comps: seq<InputRecord>, binary: bool,
                        items: seq<ItemResult>, r: ItemResult)
    requires KeepsCount(engine.llmVerify)
    requires AllPossible(engine, libs, comps, binary, items) && |items| < |comps|
    requires PossibleOutcome(engine, libs, comps[|items|], binary, r)
    ensures AllPossible(engine, libs, comps, binary, items + [r])
  {
    var next := items + [r];
    assert forall j :: 0 <= j < |items| ==> next[j] == items[j];
  }

  /**
   * `reward_batch` with an order-keeping collection (a buffered stream in request order),
   * so reward `i` is completion `i`'s.
   */
  method RewardBatchInOrder(engine: Engine, libs: Libraries, req: RewardReq)
    returns (resp: Result<RewardResp>, ghost results: seq<ItemResult>)
    requires KeepsCount(engine.llmVerify) && req.kMedian > 0
    ensures |results| == |req.completions|
    ensures forall i :: 0 <= i < |results| ==>
      PossibleOutcome(engine, libs, req.completions[i], req.binary, results[i])
    ensures resp.Ok? && |resp.value.rewards| == |req.completions|
    ensures forall i :: 0 <= i < |req.completions| ==>
      resp.value.rewards[i] == ItemReward(results[i], req.kMedian)
  {
    var items := RunAll(engine, libs, req);
    results := items;
    var rewards := CollectRewards(items, req.kMedian);
    resp := Ok(RewardResp(rewards));
  }

  /**
   * The order the as-written handler lets through: one completion with a single supported
   * claim, one failing, the failing one finishing first. The rewards come out swapped.
   */
  lemma SwappedRewards(vr: VerificationRecord, e: Error)
    requires |vr.claimVerificationResult| == 1
    requires vr.claimVerificationResult[0].verificationResult == Supported
    ensures var results := [Ok(vr), Err(e)];
      && IsPermutation([1, 0], 2)
      && Rewards(results, 4) == [0.4, 0.0]
      && Rewards(Reorder(results, [1, 0]), 4) == [0.0, 0.4]
  {
    OneOfOneAgainstFour(vr);
    assert Indices(2) == [0, 1];
    assert multiset([1, 0]) == multiset([0, 1]);
  }

  /**
   * Two completions that each end with one supported claim, against K = 4: whatever order
   * they finish in, both rewards are 0.4.
   */
  lemma TwoSupportedCompletions(vr1: VerificationRecord, vr2: VerificationRecord, order: seq<nat>)
    requires |vr1.claimVerificationResult| == 1 && vr1.claimVerificationResult[0].verificationResult == Supported
    requires |vr2.claimVerificationResult| == 1 && vr2.claimVerificationResult[0].verificationResult == Supported
    requires IsPermutation(order, 2)
    ensures Rewards(Reorder([Ok(vr1), Ok(vr2)], order), 4) == [0.4, 0.4]
  {
    assert |multiset(order)| == |Indices(2)| == 2;
    OneOfOneAgainstFour(vr1);
    OneOfOneAgainstFour(vr2);
  }
}
