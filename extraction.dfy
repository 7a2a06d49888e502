/**
 * Claim extraction: one prompt per sentence window, one completion per prompt,
 * each completion parsed as a JSON array of claim strings and the claims flattened.
 */
module Extraction {
  import opened Wrappers
  import opened Strings
  import opened Types
  import opened Llm
  import opened Segments

  /** `serde_json::from_str::<Vec<String>>`: the claims if the text is a JSON string array. */
  type ClaimsParser = string -> Option<seq<string>>

  const ExtractorInstructions :=
    "You are an expert at extracting verifiable factual claims. Extract only verifiable claims; "
    + "ignore unverifiable content (opinions, advice, fiction). Return a JSON array of strings."
  const WindowIntro := "Text window:\n"
  const WindowOutro := "\n\nReturn JSON array of verifiable claims."

  /** `build_extraction_prompt`: the instructions, then the window wrapped in the request text. */
  function ExtractionPrompt(win: string): (p: Prompt)
    ensures |p| == 2 && p[0] == Message(System, ExtractorInstructions) && p[1].role == User
    ensures var c := p[1].content;
      && |WindowIntro| + |WindowOutro| <= |c|
      && c[..|WindowIntro|] == WindowIntro && c[|c| - |WindowOutro|..] == WindowOutro
  {
    [Message(System, ExtractorInstructions), Message(User, WindowIntro + win + WindowOutro)]
  }

  /** The window can be read back out of the user message of its prompt. */
  lemma ExtractionPromptCarriesWindow(win: string)
    ensures var p := ExtractionPrompt(win);
      && |p| == 2 && p[0].role == System && p[1].role == User
      && var c := p[1].content;
      && |WindowIntro| + |WindowOutro| <= |c|
      && c[|WindowIntro|..|c| - |WindowOutro|] == win
  {
    var c := WindowIntro + win + WindowOutro;
    assert c[|WindowIntro|..|c| - |WindowOutro|] == win;
  }

  /** The window configuration extraction uses: three sentences left, one right, question shown when present. */
  function ExtractionCfg(question: Option<string>): SlidingWinCfg {
    SlidingWinCfg(3, 1, question.Some?)
  }

  /** The claims of one completion: its trimmed text parsed as a string array, or none when it does not parse. */
  function ParseClaims(parse: ClaimsParser, raw: string): (claims: seq<string>)
    ensures parse(Trim(raw)).None? ==> claims == []
    ensures parse(Trim(raw)).Some? ==> claims == parse(Trim(raw)).value
  {
    match parse(Trim(raw))
    case Some(cs) => cs
    case None => []
  }

  /** The claims of all windows, window after window. */
  function Flatten(xss: seq<seq<string>>): seq<string> {
    if xss == [] then [] else xss[0] + Flatten(xss[1..])
  }

  function TotalLength(xss: seq<seq<string>>): nat {
    if xss == [] then 0 else |xss[0]| + TotalLength(xss[1..])
  }

  lemma {:induction false} FlattenAppend(xss: seq<seq<string>>, yss: seq<seq<string>>)
    ensures Flatten(xss + yss) == Flatten(xss) + Flatten(yss)
  {
    if xss == [] {
      assert xss + yss == yss;
    } else {
      assert (xss + yss)[1..] == xss[1..] + yss;
      FlattenAppend(xss[1..], yss);
    }
  }

  lemma FlattenSnoc(xss: seq<seq<string>>, xs: seq<string>)
    ensures Flatten(xss + [xs]) == Flatten(xss) + xs
  {
    FlattenAppend(xss, [xs]);
    assert Flatten([xs]) == xs + Flatten([]);
  }

  /** The flattening holds as many claims as all windows together. */
  lemma {:induction false} FlattenLength(xss: seq<seq<string>>)
    ensures |Flatten(xss)| == TotalLength(xss)
  {
    if xss != [] {
      FlattenLength(xss[1..]);
    }
  }

  /** Claim `j` of window `i` sits after all claims of the earlier windows. */
  lemma FlattenPosition(xss: seq<seq<string>>, i: nat, j: nat)
    requires i < |xss| && j < |xss[i]|
    ensures TotalLength(xss[..i]) + j < |Flatten(xss)|
    ensures Flatten(xss)[TotalLength(xss[..i]) + j] == xss[i][j]
  {
    assert xss == xss[..i] + xss[i..];
    FlattenAppend(xss[..i], xss[i..]);
    FlattenLength(xss[..i]);
    FlattenLength(xss);
    assert Flatten(xss[i..]) == xss[i] + Flatten(xss[i + 1..]);
  }

  /** The loop of `extract_record`: one claim list per completion and their flattening. */
  method CollectClaims(parse: ClaimsParser, raw: seq<string>)
    returns (claimList: seq<seq<string>>, allClaims: seq<string>)
    ensures |claimList| == |raw|
    ensures forall i :: 0 <= i < |raw| ==> claimList[i] == ParseClaims(parse, raw[i])
    ensures allClaims == Flatten(claimList)
  {
    claimList, allClaims := [], [];
    for i := 0 to |raw|
      invariant claimList == ClaimLists(parse, raw)[..i]
      invariant allClaims == Flatten(claimList)
    {
      var claims := ParseClaims(parse, raw[i]);
      FlattenSnoc(claimList, claims);
      allClaims := allClaims + claims;
      ClaimListsPrefix(parse, raw, i);
      claimList := claimList + [claims];
    }
    assert ClaimLists(parse, raw)[..|raw|] == ClaimLists(parse, raw);
  }

  /** The prompts `extract_record` sends: one per window of the segmented response. */
  function ExtractionPrompts(split: Splitter, rec: InputRecord): (prompts: seq<Prompt>)
    ensures |prompts| == |SegmentSentences(split, rec.response)|
  {
    var sents := SegmentSentences(split, rec.response);
    seq(|sents|, i requires 0 <= i < |sents| =>
      ExtractionPrompt(Window(rec.question, sents, ExtractionCfg(rec.question), i)))
  }

  /** The claim list of every completion, in completion order. */
  function ClaimLists(parse: ClaimsParser, raw: seq<string>): (xss: seq<seq<string>>)
    ensures |xss| == |raw|
  {
    seq(|raw|, i requires 0 <= i < |raw| => ParseClaims(parse, raw[i]))
  }

  lemma ClaimListsPrefix(parse: ClaimsParser, raw: seq<string>, i: nat)
    requires i < |raw|
    ensures ClaimLists(parse, raw)[..i + 1] == ClaimLists(parse, raw)[..i] + [ParseClaims(parse, raw[i])]
  {
    var xss := ClaimLists(parse, raw);
    assert xss[..i + 1] == xss[..i] + [xss[i]];
  }

  /** What `extract_record` produces for `rec` when the gateway answers with `chat`. */
  function Extracted(chat: Chat, split: Splitter, parse: ClaimsParser, rec: InputRecord)
    : (r: Result<ExtractedClaimsRecord>)
    ensures r.Err? <==> chat(ExtractionPrompts(split, rec)).Err?
    ensures r.Err? ==> r.error == chat(ExtractionPrompts(split, rec)).error
    ensures r.Ok? ==>
      var raw := chat(ExtractionPrompts(split, rec)).value;
      && r.value.input == rec
      && !r.value.abstained
      && r.value.promptTokCnt.None? && r.value.responseTokCnt.None?
      && |r.value.claimList| == |raw|
      && (forall i :: 0 <= i < |raw| ==> r.value.claimList[i] == ParseClaims(parse, raw[i]))
      && r.value.allClaims == Flatten(r.value.claimList)
      && |r.value.allClaims| == TotalLength(r.value.claimList)
      && (KeepsCount(chat) ==> |r.value.claimList| == |SegmentSentences(split, rec.response)|)
  {
    match chat(ExtractionPrompts(split, rec))
    case Err(e) => Err(e)
    case Ok(raw) =>
      var claimList := ClaimLists(parse, raw);
      FlattenLength(claimList);
      Ok(ExtractedClaimsRecord(rec, None, None, false, claimList, Flatten(claimList)))
  }

  /** `extract_record`: segment, window, prompt, call the gateway once, parse and flatten. */
  method ExtractRecord(chat: Chat, split: Splitter, parse: ClaimsParser, rec: InputRecord)
    returns (r: Result<ExtractedClaimsRecord>)
    ensures r == Extracted(chat, split, parse, rec)
  {
    var sents := SegmentSentences(split, rec.response);
    var wins := SlidingWindows(rec.question, sents, ExtractionCfg(rec.question));
    var prompts := seq(|wins|, i requires 0 <= i < |wins| => ExtractionPrompt(wins[i]));
    assert prompts == ExtractionPrompts(split, rec);
    var reply := chat(prompts);
    if reply.Err? {
      return Err(reply.error);
    }
    var claimList, allClaims := CollectClaims(parse, reply.value);
    assert claimList == ClaimLists(parse, reply.value);
    r := Ok(ExtractedClaimsRecord(rec, None, None, false, claimList, allClaims));
  }
}
