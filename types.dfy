/** The records handed from stage to stage of the pipeline; plain values with no behaviour. */
module Types {
  import opened Wrappers

  /** An unsigned 32-bit count, as the token counts are declared. */
  newtype u32 = x: int | 0 <= x < 0x1_0000_0000

  /** One batch item; a present `question` switches the pipeline into question-answering mode. */
  datatype InputRecord = InputRecord(
    question: Option<string>,
    response: string,
    model: Option<string>,
    promptSource: Option<string>)

  /** `claimList[i]` holds the claims of window `i`; `allClaims` is their flattening. */
  datatype ExtractedClaimsRecord = ExtractedClaimsRecord(
    input: InputRecord,
    promptTokCnt: Option<u32>,
    responseTokCnt: Option<u32>,
    abstained: bool,
    claimList: seq<seq<string>>,
    allClaims: seq<string>)

  /** One search hit. */
  datatype EvidenceItem = EvidenceItem(title: string, snippet: string, link: string)

  /** A claim together with the hits its search returned. */
  type ClaimEvidence = (string, seq<EvidenceItem>)

  datatype EvidenceRecord = EvidenceRecord(
    claims: ExtractedClaimsRecord,
    claimSnippetsDict: seq<ClaimEvidence>)

  datatype VerificationLabel = Supported | Unsupported

  datatype ClaimVerification = ClaimVerification(
    claim: string,
    searchResults: seq<EvidenceItem>,
    verificationResult: VerificationLabel)

  datatype VerificationRecord = VerificationRecord(
    evidence: EvidenceRecord,
    claimVerificationResult: seq<ClaimVerification>)
}
