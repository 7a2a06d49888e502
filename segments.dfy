/**
 * Sentence segmentation and the context windows built around each sentence.
 * The Unicode sentence splitter itself (section 5 of Unicode Standard Annex #29)
 * is a parameter: only the trimming and filtering applied to its output is modelled.
 */
module Segments {
  import opened Wrappers
  import opened Strings

  /** `unicode_sentences`: cuts a text into sentence pieces. */
  type Splitter = string -> seq<string>

  /** Trims every piece and drops the pieces that trim to nothing, keeping their order. */
  function TrimNonEmpty(pieces: seq<string>): (r: seq<string>)
    ensures |r| <= |pieces|
    ensures forall j :: 0 <= j < |r| ==> r[j] != [] && Trim(r[j]) == r[j]
  {
    if pieces == [] then []
    else
      var t := Trim(pieces[0]);
      var rest := TrimNonEmpty(pieces[1..]);
      if t == [] then rest
      else
        TrimIdempotent(pieces[0]);
        [t] + rest
  }

  /** `segment_sentences`: the trimmed, non-empty sentences of `text`, in text order. */
  function SegmentSentences(split: Splitter, text: string): (r: seq<string>)
    ensures |r| <= |split(text)|
    ensures forall j :: 0 <= j < |r| ==> r[j] != [] && Trim(r[j]) == r[j]
  {
    TrimNonEmpty(split(text))
  }

  /** Trimming and filtering works piece by piece, so it distributes over concatenation. */
  lemma {:induction false} TrimNonEmptyAppend(a: seq<string>, b: seq<string>)
    ensures TrimNonEmpty(a + b) == TrimNonEmpty(a) + TrimNonEmpty(b)
  {
    if a == [] {
      assert a + b == b;
    } else {
      assert (a + b)[1..] == a[1..] + b;
      TrimNonEmptyAppend(a[1..], b);
    }
  }

  /** A piece that trims to something non-empty contributes its trim. */
  lemma {:induction false} KeptPiece(pieces: seq<string>, i: nat)
    requires i < |pieces| && Trim(pieces[i]) != []
    ensures Trim(pieces[i]) in TrimNonEmpty(pieces)
  {
    if i > 0 {
      KeptPiece(pieces[1..], i - 1);
      assert pieces[1..][i - 1] == pieces[i];
    }
  }

  /** One unfolding of `TrimNonEmpty`: the first piece's contribution, then the rest's. */
  lemma TrimNonEmptyCons(pieces: seq<string>)
    requires pieces != []
    ensures TrimNonEmpty(pieces)
         == (if Trim(pieces[0]) == [] then [] else [Trim(pieces[0])]) + TrimNonEmpty(pieces[1..])
  {
  }

  /** Every kept sentence is the trim of some piece. */
  lemma {:induction false} SourcePiece(pieces: seq<string>, k: nat) returns (i: nat)
    requires k < |TrimNonEmpty(pieces)|
    ensures i < |pieces| && Trim(pieces[i]) == TrimNonEmpty(pieces)[k]
  {
    assert pieces != [];
    TrimNonEmptyCons(pieces);
    var n := if Trim(pieces[0]) == [] then 0 else 1;
    if k < n {
      i := 0;
    } else {
      var i' := SourcePiece(pieces[1..], k - n);
      i := i' + 1;
    }
  }

  /** A sentence is kept exactly when it is the non-empty trim of some piece. */
  lemma TrimNonEmptyMembership(pieces: seq<string>, x: string)
    ensures x in TrimNonEmpty(pieces) <==> x != [] && exists p :: p in pieces && Trim(p) == x
  {
    if x in TrimNonEmpty(pieces) {
      var k :| 0 <= k < |TrimNonEmpty(pieces)| && TrimNonEmpty(pieces)[k] == x;
      var i := SourcePiece(pieces, k);
      assert pieces[i] in pieces;
    }
    if x != [] && exists p :: p in pieces && Trim(p) == x {
      var p :| p in pieces && Trim(p) == x;
      var i :| 0 <= i < |pieces| && pieces[i] == p;
      KeptPiece(pieces, i);
    }
  }

  /** Segmenting already-segmented sentences changes nothing. */
  lemma {:induction false} TrimNonEmptyIdempotent(pieces: seq<string>)
    ensures TrimNonEmpty(TrimNonEmpty(pieces)) == TrimNonEmpty(pieces)
  {
    if pieces != [] {
      var t := Trim(pieces[0]);
      var tail := TrimNonEmpty(pieces[1..]);
      TrimNonEmptyIdempotent(pieces[1..]);
      TrimNonEmptyAppend(if t == [] then [] else [t], tail);
      if t != [] {
        TrimIdempotent(pieces[0]);
        assert TrimNonEmpty([t]) == [t] + TrimNonEmpty([t][1..]);
      }
    }
  }

  /** `SlidingWinCfg`: how many sentences of context to take on each side, and whether to show the question. */
  datatype SlidingWinCfg = SlidingWinCfg(left: nat, right: nat, qaMode: bool)

  /** `i.saturating_sub(left)`: the first sentence of the left context. */
  function LeftBound(i: nat, left: nat): (lo: nat)
    ensures lo <= i && i - lo <= left
    ensures lo > 0 ==> i - lo == left
  {
    if i < left then 0 else i - left
  }

  /** `(i + right + 1).min(n)`: one past the last sentence of the right context. */
  function RightBound(n: nat, i: nat, right: nat): (hi: nat)
    ensures hi <= n && hi <= i + right + 1
    ensures hi == n || hi == i + right + 1
  {
    if i + right + 1 < n then i + right + 1 else n
  }

  predicate HasQuestionLine(question: Option<string>, cfg: SlidingWinCfg) {
    cfg.qaMode && question.Some?
  }

  /** The lines of the window around sentence `i`, before they are joined with newlines. */
  function WindowLines(question: Option<string>, sentences: seq<string>, cfg: SlidingWinCfg, i: nat): seq<string>
    requires i < |sentences|
  {
    var lo := LeftBound(i, cfg.left);
    var hi := RightBound(|sentences|, i, cfg.right);
    (if HasQuestionLine(question, cfg) then ["Question: " + question.value] else [])
    + ["ContextL: " + Join(sentences[lo..i], " ")]
    + ["<SOS> " + sentences[i] + " <EOS>"]
    + (if i + 1 < hi then ["ContextR: " + Join(sentences[i + 1..hi], " ")] else [])
  }

  /** The window around sentence `i`. */
  function Window(question: Option<string>, sentences: seq<string>, cfg: SlidingWinCfg, i: nat): string
    requires i < |sentences|
  {
    Join(WindowLines(question, sentences, cfg, i), "\n")
  }

  /** `sliding_windows`: one window per sentence, in sentence order. */
  method SlidingWindows(question: Option<string>, sentences: seq<string>, cfg: SlidingWinCfg)
    returns (out: seq<string>)
    ensures |out| == |sentences|
    ensures forall i :: 0 <= i < |sentences| ==> out[i] == Window(question, sentences, cfg, i)
  {
    out := [];
    for i := 0 to |sentences|
      invariant |out| == i
      invariant forall j :: 0 <= j < i ==> out[j] == Window(question, sentences, cfg, j)
    {
      var left := LeftBound(i, cfg.left);
      var right := RightBound(|sentences|, i, cfg.right);
      var parts := [];
      if cfg.qaMode {
        if question.Some? {
          parts := parts + ["Question: " + question.value];
        }
      }
      parts := parts + ["ContextL: " + Join(sentences[left..i], " ")];
      parts := parts + ["<SOS> " + sentences[i] + " <EOS>"];
      if i + 1 < right {
        parts := parts + ["ContextR: " + Join(sentences[i + 1..right], " ")];
      }
      assert parts == WindowLines(question, sentences, cfg, i);
      out := out + [Join(parts, "\n")];
    }
  }

  /** Index of the `ContextL:` line: right after the question line when there is one. */
  function LeftLineIndex(question: Option<string>, cfg: SlidingWinCfg): nat {
    if HasQuestionLine(question, cfg) then 1 else 0
  }

  /**
   * The layout of a window: an optional question line, the `ContextL:` line (always there,
   * holding the previous `min(i, left)` sentences), the focal line, and a `ContextR:` line
   * exactly when a sentence follows and `right > 0`, holding the next `min(right, n - i - 1)`.
   */
  lemma WindowLayout(question: Option<string>, sentences: seq<string>, cfg: SlidingWinCfg, i: nat)
    requires i < |sentences|
    ensures var lines := WindowLines(question, sentences, cfg, i);
      var q := LeftLineIndex(question, cfg);
      var nl := if i < cfg.left then i else cfg.left;
      var nr := if cfg.right < |sentences| - i - 1 then cfg.right else |sentences| - i - 1;
      && |lines| == q + 2 + (if nr > 0 then 1 else 0)
      && (q == 1 ==> lines[0] == "Question: " + question.value)
      && lines[q] == "ContextL: " + Join(sentences[i - nl..i], " ")
      && lines[q + 1] == "<SOS> " + sentences[i] + " <EOS>"
      && (nr > 0 ==> lines[q + 2] == "ContextR: " + Join(sentences[i + 1..i + 1 + nr], " "))
  {
  }

  /** The first line is a question line exactly when the question is shown; otherwise it is `ContextL:`. */
  lemma FirstLineIsQuestion(question: Option<string>, sentences: seq<string>, cfg: SlidingWinCfg, i: nat)
    requires i < |sentences|
    ensures StartsWith(WindowLines(question, sentences, cfg, i)[0], "Question: ")
        <==> HasQuestionLine(question, cfg)
    ensures !HasQuestionLine(question, cfg)
        ==> StartsWith(WindowLines(question, sentences, cfg, i)[0], "ContextL: ")
  {
    var first := WindowLines(question, sentences, cfg, i)[0];
    if HasQuestionLine(question, cfg) {
      assert first == "Question: " + question.value;
      assert first[..10] == "Question: ";
    } else {
      var line := "ContextL: " + Join(sentences[LeftBound(i, cfg.left)..i], " ");
      assert first == line;
      assert first[..10] == "ContextL: ";
      assert first[0] == 'C';
    }
  }

  /** Some line of the window is a `ContextR:` line exactly when a sentence follows and `right > 0`. */
  lemma ContextRPresence(question: Option<string>, sentences: seq<string>, cfg: SlidingWinCfg, i: nat)
    requires i < |sentences|
    ensures var lines := WindowLines(question, sentences, cfg, i);
      (exists j :: 0 <= j < |lines| && StartsWith(lines[j], "ContextR: "))
        <==> (i + 1 < |sentences| && cfg.right > 0)
  {
    var lines := WindowLines(question, sentences, cfg, i);
    var q := LeftLineIndex(question, cfg);
    var hi := RightBound(|sentences|, i, cfg.right);
    forall j | 0 <= j < q + 2
      ensures !StartsWith(lines[j], "ContextR: ")
    {
      if j < q {
        assert lines[j] == "Question: " + question.value;
        assert lines[j][0] == 'Q';
      } else if j == q {
        assert lines[j] == "ContextL: " + Join(sentences[LeftBound(i, cfg.left)..i], " ");
        assert lines[j][7] == 'L';
      } else {
        assert lines[j] == "<SOS> " + sentences[i] + " <EOS>";
        assert lines[j][0] == '<';
      }
    }
    if i + 1 < hi {
      var last := "ContextR: " + Join(sentences[i + 1..hi], " ");
      assert lines[q + 2] == last;
      assert last[..10] == "ContextR: ";
    }
  }

  /** The focal sentence can be read back out of its line. */
  lemma FocalLineRecoversSentence(question: Option<string>, sentences: seq<string>, cfg: SlidingWinCfg, i: nat)
    requires i < |sentences|
    ensures var focal := WindowLines(question, sentences, cfg, i)[LeftLineIndex(question, cfg) + 1];
      StartsWith(focal, "<SOS> ") && 12 <= |focal| && focal[6..|focal| - 6] == sentences[i]
  {
    var focal := "<SOS> " + sentences[i] + " <EOS>";
    assert focal[..6] == "<SOS> ";
    assert focal[6..|focal| - 6] == sentences[i];
  }

  /** A window only sees its right context: sentences beyond it do not change the window. */
  lemma WindowIgnoresLaterSentences(
    question: Option<string>, sentences: seq<string>, later: seq<string>, cfg: SlidingWinCfg, i: nat)
    requires i + cfg.right + 1 <= |sentences|
    ensures WindowLines(question, sentences + later, cfg, i) == WindowLines(question, sentences, cfg, i)
  {
    var all := sentences + later;
    var lo := LeftBound(i, cfg.left);
    assert all[lo..i] == sentences[lo..i];
    assert all[i + 1..i + cfg.right + 1] == sentences[i + 1..i + cfg.right + 1];
  }

  /** A window only sees its left context: sentences before it do not change the window. */
  lemma WindowIgnoresEarlierSentences(
    question: Option<string>, earlier: seq<string>, sentences: seq<string>, cfg: SlidingWinCfg, i: nat)
    requires cfg.left <= i < |sentences|
    ensures WindowLines(question, earlier + sentences, cfg, |earlier| + i)
         == WindowLines(question, sentences, cfg, i)
  {
    var all := earlier + sentences;
    var k := |earlier| + i;
    var hi := RightBound(|sentences|, i, cfg.right);
    assert RightBound(|all|, k, cfg.right) == |earlier| + hi;
    assert all[k - cfg.left..k] == sentences[i - cfg.left..i];
    assert all[k] == sentences[i];
    assert all[k + 1..|earlier| + hi] == sentences[i + 1..hi];
  }
}
