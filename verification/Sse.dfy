/**
 * Cutting a server-sent event stream into frames while it arrives, as done in
 * demo-next/lib/agent-utils.ts and by the reading loop of demo-next/app/page.tsx.
 */
module Sse {
  datatype Parsed = Parsed(frames: seq<string>, remainder: string)

  // ---------- what a split means ----------

  /** A blank line starts at `i`. */
  predicate BreakAt(text: string, i: nat) {
    i + 1 < |text| && text[i] == '\n' && text[i + 1] == '\n'
  }

  predicate Unbroken(text: string) {
    forall i: nat :: i < |text| ==> !BreakAt(text, i)
  }

  /** A frame ends where its separator starts, and no earlier. */
  predicate Frame(text: string) {
    Unbroken(text + "\n")
  }

  function Joined(p: Parsed): string
    decreases |p.frames|
  {
    if p.frames == [] then p.remainder
    else p.frames[0] + "\n\n" + Joined(Parsed(p.frames[1..], p.remainder))
  }

  /** `p` cuts `text` at every blank line, earliest first, and loses nothing. */
  predicate Cuts(p: Parsed, text: string) {
    && Joined(p) == text
    && (forall i :: 0 <= i < |p.frames| ==> Frame(p.frames[i]))
    && Unbroken(p.remainder)
  }

  // ---------- the splitter ----------

  function FirstBreak(text: string, from: nat): (r: nat)
    requires from <= |text|
    ensures from <= r <= |text|
    ensures r < |text| ==> BreakAt(text, r)
    ensures forall i: nat :: from <= i < r ==> !BreakAt(text, i)
    decreases |text| - from
  {
    if from == |text| || BreakAt(text, from) then from else FirstBreak(text, from + 1)
  }

  function Split(text: string): Parsed
    decreases |text|
  {
    var i := FirstBreak(text, 0);
    if i == |text| then Parsed([], text)
    else
      var rest := Split(text[i + 2..]);
      Parsed([text[..i]] + rest.frames, rest.remainder)
  }

  lemma {:induction false} SplitCuts(text: string)
    ensures Cuts(Split(text), text)
    decreases |text|
  {
    var i := FirstBreak(text, 0);
    if i < |text| {
      var rest := Split(text[i + 2..]);
      var p := Split(text);
      SplitCuts(text[i + 2..]);
      assert p.frames[1..] == rest.frames && p.frames[0] == text[..i];
      assert text == text[..i] + "\n\n" + text[i + 2..];
      forall k: nat | k < i + 1 ensures !BreakAt(text[..i] + "\n", k) {
        assert k < i ==> !BreakAt(text, k);
      }
      forall k | 0 <= k < |p.frames| ensures Frame(p.frames[k]) {
        if k > 0 {
          assert p.frames[k] == rest.frames[k - 1];
        }
      }
    }
  }

  /** The first break of a text that begins with a frame is the one that ends the frame. */
  lemma BreakAfterFrame(frame: string, rest: string)
    requires Frame(frame)
    ensures FirstBreak(frame + "\n\n" + rest, 0) == |frame|
  {
    var text := frame + "\n\n" + rest;
    assert BreakAt(text, |frame|);
    forall i: nat | i < |frame| ensures !BreakAt(text, i) {
      assert !BreakAt(frame + "\n", i);
    }
  }

  /** There is only one way to cut a text. */
  lemma {:induction false} CutIsUnique(p: Parsed, text: string)
    requires Cuts(p, text)
    ensures p == Split(text)
    decreases |p.frames|
  {
    if p.frames == [] {
      assert FirstBreak(text, 0) == |text|;
    } else {
      var rest := Parsed(p.frames[1..], p.remainder);
      var tail := Joined(rest);
      BreakAfterFrame(p.frames[0], tail);
      assert text[|p.frames[0]| + 2..] == tail && text[..|p.frames[0]|] == p.frames[0];
      CutIsUnique(rest, tail);
      assert p.frames == [p.frames[0]] + rest.frames;
    }
  }

  /** The splitter is the one function that cuts at every blank line and loses nothing. */
  lemma SplitExactly(p: Parsed, text: string)
    ensures p == Split(text) <==> Cuts(p, text)
  {
    SplitCuts(text);
    if Cuts(p, text) {
      CutIsUnique(p, text);
    }
  }

  // ---------- feeding it piece by piece ----------

  lemma {:induction false} JoinedWith(p: Parsed, more: seq<string>, remainder: string, extra: string)
    requires p.remainder + extra == Joined(Parsed(more, remainder))
    ensures Joined(Parsed(p.frames + more, remainder)) == Joined(p) + extra
    decreases |p.frames|
  {
    if p.frames == [] {
      assert p.frames + more == more;
    } else {
      var rest := Parsed(p.frames[1..], p.remainder);
      JoinedWith(rest, more, remainder, extra);
      assert (p.frames + more)[1..] == rest.frames + more && (p.frames + more)[0] == p.frames[0];
    }
  }

  /** Splitting a longer text continues from the remainder of the shorter one. */
  lemma SplitContinues(text: string, extra: string)
    ensures var first := Split(text);
      var next := Split(first.remainder + extra);
      Split(text + extra) == Parsed(first.frames + next.frames, next.remainder)
  {
    var first := Split(text);
    var next := Split(first.remainder + extra);
    SplitCuts(text);
    SplitCuts(first.remainder + extra);
    JoinedWith(first, next.frames, next.remainder, extra);
    CutIsUnique(Parsed(first.frames + next.frames, next.remainder), text + extra);
  }

  function Text(chunks: seq<string>): string {
    if chunks == [] then "" else Text(chunks[..|chunks| - 1]) + chunks[|chunks| - 1]
  }

  /** What the loop holds after each chunk: frames handed on, and the buffer. */
  function Fed(chunks: seq<string>): Parsed {
    if chunks == [] then Parsed([], "")
    else
      var before := Fed(chunks[..|chunks| - 1]);
      var next := Split(before.remainder + chunks[|chunks| - 1]);
      Parsed(before.frames + next.frames, next.remainder)
  }

  lemma {:induction false} FedIsSplit(chunks: seq<string>)
    ensures Fed(chunks) == Split(Text(chunks))
  {
    if chunks == [] {
      assert Split("") == Parsed([], "");
    } else {
      FedIsSplit(chunks[..|chunks| - 1]);
      SplitContinues(Text(chunks[..|chunks| - 1]), chunks[|chunks| - 1]);
    }
  }

  /**
   * The reading loop. Every frame is handed on as soon as its blank line has arrived; what is left
   * when the stream ends, with the decoder's last characters, is handed on unless it is blank.
   */
  method Read(chunks: seq<string>, flushed: string, blank: string -> bool) returns (processed: seq<string>)
    ensures var whole := Split(Text(chunks));
      processed == whole.frames + (if blank(whole.remainder + flushed) then [] else [whole.remainder + flushed])
  {
    processed := [];
    var buffer := "";
    var n := 0;
    while n < |chunks|
      invariant 0 <= n <= |chunks|
      invariant Fed(chunks[..n]) == Parsed(processed, buffer)
    {
      assert chunks[..n + 1][..n] == chunks[..n];
      buffer := buffer + chunks[n];
      var parsed := Split(buffer);
      buffer := parsed.remainder;
      processed := processed + parsed.frames;
      n := n + 1;
    }
    assert chunks[..n] == chunks;
    FedIsSplit(chunks);
    buffer := buffer + flushed;
    if !blank(buffer) {
      processed := processed + [buffer];
    }
  }

  /** Two ways of cutting one stream into network chunks give the same frames and remainder. */
  lemma ChunkingIrrelevant(chunks: seq<string>, others: seq<string>)
    requires Text(chunks) == Text(others)
    ensures Fed(chunks) == Fed(others) && Cuts(Fed(others), Text(others))
  {
    FedIsSplit(chunks);
    FedIsSplit(others);
    SplitCuts(Text(others));
  }
}
