/**
 * Claim verification: one judge prompt per dictionary entry, one completion per
 * prompt, each completion's label collapsed to Supported or Unsupported and zipped
 * back onto the entry with the same index.
 */
module Verification {
  import opened Wrappers
  import opened Strings
  import opened Types
  import opened Llm

  /** `serde_json::from_str` followed by `.get("label").and_then(as_str)`: the string label, if any. */
  type LabelReader = string -> Option<string>

  const JudgeInstructions :=
    "You are a meticulous fact checker. Judge the claim ONLY using the provided web snippets."

  /** The labels the judge is told to choose from. */
  function InstructedLabels(binary: bool): seq<string> {
    if binary then ["supported", "unsupported"] else ["supported", "contradicted", "inconclusive"]
  }

  function Quoted(text: string): string {
    "\"" + text + "\""
  }

  /** The labels, quoted, with ` | ` between neighbours. */
  function Alternatives(labels: seq<string>): string {
    if |labels| == 0 then ""
    else if |labels| == 1 then Quoted(labels[0])
    else Quoted(labels[0]) + " | " + Alternatives(labels[1..])
  }

  const InstructionHead := "Return JSON: {\"label\": "
  const InstructionTail := ", \"rationale\": \"...\"}"

  /** The answer-format line of the judge prompt: a JSON shape offering the instructed labels. */
  function LabelInstruction(binary: bool): string {
    InstructionHead + Alternatives(InstructedLabels(binary)) + InstructionTail
  }

  /** The alternatives offered in each mode. */
  lemma InstructionAlternatives(binary: bool)
    ensures Alternatives(InstructedLabels(binary))
         == if binary then Quoted("supported") + " | " + Quoted("unsupported")
            else Quoted("supported") + " | " + Quoted("contradicted") + " | " + Quoted("inconclusive")
  {
    var labels := InstructedLabels(binary);
    if !binary {
      assert labels[1..] == ["contradicted", "inconclusive"];
      assert labels[1..][1..] == ["inconclusive"];
      var a, b, c := Quoted("supported"), Quoted("contradicted"), Quoted("inconclusive");
      assert Alternatives(labels[1..][1..]) == c;
      assert Alternatives(labels[1..]) == b + " | " + c;
      assert Alternatives(labels) == a + " | " + (b + " | " + c);
      assert a + " | " + (b + " | " + c) == a + " | " + b + " | " + c;
    } else {
      assert labels[1..] == ["unsupported"];
    }
  }

  /** One hit as `- title [link]` followed by its snippet on the next line. */
  function RenderHit(h: EvidenceItem): string {
    "- " + h.title + " [" + h.link + "]\n" + h.snippet
  }

  /** The evidence block: the rendered hits, one after another, separated by newlines. */
  function RenderEvidence(hits: seq<EvidenceItem>): string {
    Join(seq(|hits|, i requires 0 <= i < |hits| => RenderHit(hits[i])), "\n")
  }

  /** No hits render as nothing; one more hit adds a newline and its rendering. */
  lemma RenderEvidenceSnoc(hits: seq<EvidenceItem>, h: EvidenceItem)
    ensures RenderEvidence([]) == ""
    ensures RenderEvidence(hits + [h])
         == if hits == [] then RenderHit(h) else RenderEvidence(hits) + "\n" + RenderHit(h)
  {
    var rendered := seq(|hits|, i requires 0 <= i < |hits| => RenderHit(hits[i]));
    assert seq(|hits + [h]|, i requires 0 <= i < |hits + [h]| => RenderHit((hits + [h])[i]))
        == rendered + [RenderHit(h)];
    JoinSnoc(rendered, RenderHit(h), "\n");
  }

  /** `build_verify_prompt`: the judge instructions, then the claim, its evidence and the answer format. */
  function VerifyPrompt(claim: string, hits: seq<EvidenceItem>, binary: bool): (p: Prompt)
    ensures |p| == 2 && p[0] == Message(System, JudgeInstructions) && p[1].role == User
    ensures var c := p[1].content; var start := |"Claim:\n" + claim + "\n\nEvidence:\n"|;
      var ev := RenderEvidence(hits);
      && start + |ev| <= |c| && c[start..start + |ev|] == ev
  {
    var head := "Claim:\n" + claim + "\n\nEvidence:\n";
    var ev := RenderEvidence(hits);
    var c := head + ev + "\n\n" + LabelInstruction(binary);
    assert c[|head|..|head| + |ev|] == ev;
    [Message(System, JudgeInstructions), Message(User, c)]
  }

  /** The user message opens with the claim and closes with the answer-format line. */
  lemma VerifyPromptLayout(claim: string, hits: seq<EvidenceItem>, binary: bool)
    ensures var p := VerifyPrompt(claim, hits, binary);
      && |p| == 2 && p[0].role == System && p[1].role == User
      && StartsWith(p[1].content, "Claim:\n" + claim + "\n\nEvidence:\n")
      && var c := p[1].content; var tail := LabelInstruction(binary);
      && |tail| <= |c| && c[|c| - |tail|..] == tail
  {
    var head := "Claim:\n" + claim + "\n\nEvidence:\n";
    var c := head + RenderEvidence(hits) + "\n\n" + LabelInstruction(binary);
    assert c[..|head|] == head;
    assert c[|c| - |LabelInstruction(binary)|..] == LabelInstruction(binary);
  }

  /** The prompts `verify_record` sends: one per dictionary entry, in dictionary order. */
  function VerifyPrompts(dict: seq<ClaimEvidence>, binary: bool): (prompts: seq<Prompt>)
    ensures |prompts| == |dict|
  {
    seq(|dict|, i requires 0 <= i < |dict| => VerifyPrompt(dict[i].0, dict[i].1, binary))
  }

  /** The label read from one completion; a parse failure or a missing label reads as "inconclusive". */
  function LabelOf(readLabel: LabelReader, out: string): (tag: string)
    ensures readLabel(out).Some? ==> tag == readLabel(out).value
    ensures readLabel(out).None? ==> tag == "inconclusive"
  {
    match readLabel(out)
    case Some(given) => given
    case None => "inconclusive"
  }

  /** "supported" is Supported; every other label is Unsupported. */
  function MapLabel(tag: string): VerificationLabel {
    if tag == "supported" then Supported else Unsupported
  }

  /** The verdict on one completion: Supported exactly when it carries the label "supported". */
  function Judge(readLabel: LabelReader, out: string): (v: VerificationLabel)
    ensures v == Supported <==> readLabel(out) == Some("supported")
  {
    MapLabel(LabelOf(readLabel, out))
  }

  /** Whatever the mode, of the labels the judge is offered only the first, "supported", means Supported. */
  lemma InstructedLabelsCollapse(binary: bool)
    ensures InstructedLabels(binary)[0] == "supported"
    ensures forall j :: 0 <= j < |InstructedLabels(binary)| ==>
      (MapLabel(InstructedLabels(binary)[j]) == Supported <==> j == 0)
  {
  }

  /**
   * What `verify_record` produces: one gateway call for all entries; result `i` takes claim and
   * hits from entry `i` and its verdict from completion `i`. Indexing past the dictionary panics
   * in the source, so a reply longer than the dictionary is excluded.
   */
  function Verified(chat: Chat, readLabel: LabelReader, ev: EvidenceRecord, binary: bool)
    : (r: Result<VerificationRecord>)
    requires var reply := chat(VerifyPrompts(ev.claimSnippetsDict, binary));
      reply.Ok? ==> |reply.value| <= |ev.claimSnippetsDict|
    ensures var reply := chat(VerifyPrompts(ev.claimSnippetsDict, binary));
      && (reply.Err? ==> r == Err(reply.error))
      && (reply.Ok? ==>
        && r.Ok?
        && r.value.evidence == ev
        && |r.value.claimVerificationResult| == |reply.value|
        && forall i :: 0 <= i < |reply.value| ==>
          r.value.claimVerificationResult[i] == ClaimVerification(
            ev.claimSnippetsDict[i].0, ev.claimSnippetsDict[i].1, Judge(readLabel, reply.value[i])))
  {
    var dict := ev.claimSnippetsDict;
    match chat(VerifyPrompts(dict, binary))
    case Err(e) => Err(e)
    case Ok(outs) =>
      Ok(VerificationRecord(ev, seq(|outs|, i requires 0 <= i < |outs| =>
        ClaimVerification(dict[i].0, dict[i].1, Judge(readLabel, outs[i])))))
  }

  /** `verify_record` itself: builds the results one completion at a time. */
  method VerifyRecord(chat: Chat, readLabel: LabelReader, ev: EvidenceRecord, binary: bool)
    returns (r: Result<VerificationRecord>)
    requires var reply := chat(VerifyPrompts(ev.claimSnippetsDict, binary));
      reply.Ok? ==> |reply.value| <= |ev.claimSnippetsDict|
    ensures r == Verified(chat, readLabel, ev, binary)
  {
    var prompts := VerifyPrompts(ev.claimSnippetsDict, binary);
    var reply := chat(prompts);
    if reply.Err? {
      return Err(reply.error);
    }
    var outs := reply.value;
    var results := [];
    for i := 0 to |outs|
      invariant |results| == i
      invariant forall j :: 0 <= j < i ==>
        results[j] == ClaimVerification(
          ev.claimSnippetsDict[j].0, ev.claimSnippetsDict[j].1, Judge(readLabel, outs[j]))
    {
      var tag := LabelOf(readLabel, outs[i]);
      var mapped := if tag == "supported" then Supported else Unsupported;
      var (claim, hits) := ev.claimSnippetsDict[i];
      results := results + [ClaimVerification(claim, hits, mapped)];
    }
    assert results == Verified(chat, readLabel, ev, binary).value.claimVerificationResult;
    r := Ok(VerificationRecord(ev, results));
  }
}
