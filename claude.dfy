/**
 * Prompt assembly: the two pure builders of the user message sent to the
 * generation backend.
 */
module Claude {
  import opened JsString
  import opened Extractor

  /** The base64 image source of an image content block. */
  datatype ImageSource = ImageSource(sourceType: string, mediaType: string, data: string)

  /** One block of a multimodal message. */
  datatype ContentBlock = ImageBlock(source: ImageSource) | TextBlock(text: string)

  /** A message's content: a list of blocks, or plain text. */
  datatype Content = Blocks(blocks: seq<ContentBlock>) | PlainText(text: string)

  datatype MessageParam = MessageParam(role: string, content: Content)

  /** The send-time cap on the HTML sample, independent of the capture-time cap. */
  const HtmlSampleCap: nat := 30000

  const VisionPrefix: string := "Here is the HTML structure of the website (truncated):\n\n"
  const VisionInfix: string := "\n\nUser request: "
  const IterationPreamble: string := "Here is the current HTML prototype:\n\n"
  const ChangeRequest: string := "\n\nPlease make the following changes: "

  /** `buildVisionMessages(screenshot, html, prompt)`. */
  function BuildVisionMessages(screenshot: string, html: string, prompt: string): seq<MessageParam> {
    [MessageParam("user", Blocks([
      ImageBlock(ImageSource("base64", "image/png", screenshot)),
      TextBlock(VisionPrefix + SliceTo(html, HtmlSampleCap) + VisionInfix + prompt)
    ]))]
  }

  /** `buildIterationMessages(currentHtml, instruction)`. */
  function BuildIterationMessages(currentHtml: string, instruction: string): seq<MessageParam> {
    [MessageParam("user", PlainText(IterationPreamble + OpenMarker + "\n" + currentHtml + "\n" + Fence + ChangeRequest + instruction))]
  }

  /** The generation message: one user message whose first block is the
      screenshot, unchanged, as a PNG image, and whose second block holds
      the HTML sample (the whole HTML when it is short enough, else exactly
      its first 30,000 characters) followed by the verbatim request. */
  lemma VisionMessageShape(screenshot: string, html: string, prompt: string)
    ensures var m := BuildVisionMessages(screenshot, html, prompt);
      |m| == 1 && m[0].role == "user" && m[0].content.Blocks? && |m[0].content.blocks| == 2
      && m[0].content.blocks[0] == ImageBlock(ImageSource("base64", "image/png", screenshot))
      && m[0].content.blocks[1].TextBlock?
      && var t := m[0].content.blocks[1].text;
         var n := if |html| <= HtmlSampleCap then |html| else HtmlSampleCap;
         |t| == |VisionPrefix| + n + |VisionInfix| + |prompt|
         && StartsWith(t, VisionPrefix)
         && t[|VisionPrefix|..|VisionPrefix| + n] == html[..n]
         && (|html| <= HtmlSampleCap ==> t[|VisionPrefix|..|VisionPrefix| + n] == html)
         && t[|t| - |"User request: "| - |prompt|..] == "User request: " + prompt
  {
    var sample := SliceTo(html, HtmlSampleCap);
    var request := "User request: " + prompt;
    assert VisionInfix == "\n\n" + "User request: ";
    assert VisionPrefix + sample + VisionInfix + prompt == VisionPrefix + sample + "\n\n" + request;
    Parts(VisionPrefix, sample, "\n\n", request);
  }

  /** A concatenation of four parts starts with the first, then the second,
      and ends with the last. */
  lemma Parts(w: string, x: string, y: string, z: string)
    ensures var t := w + x + y + z;
      |t| == |w| + |x| + |y| + |z| && t[..|w|] == w && t[|w|..|w| + |x|] == x && t[|t| - |z|..] == z
  {
    var t := w + x + y + z;
    assert t[..|w|] == w;
    assert t[|w|..|w| + |x|] == x;
    assert t[|t| - |z|..] == z;
  }

  /** The iteration message: one user message holding, in order, the fixed
      preamble, "```html\n", the whole current HTML untruncated, the closing
      "\n```" with the change request, and the instruction. */
  lemma IterationMessageShape(currentHtml: string, instruction: string)
    ensures var m := BuildIterationMessages(currentHtml, instruction);
      |m| == 1 && m[0].role == "user" && m[0].content.PlainText?
      && var t := m[0].content.text;
         var a := |IterationPreamble| + 8;
         var c := a + |currentHtml|;
         var e := c + 4 + |ChangeRequest|;
         |t| == e + |instruction|
         && t[..|IterationPreamble|] == IterationPreamble
         && t[|IterationPreamble|..a] == "```html\n"
         && t[a..c] == currentHtml
         && t[c..e] == "\n```" + ChangeRequest
         && t[e..] == instruction
  {
    var t := BuildIterationMessages(currentHtml, instruction)[0].content.text;
    var a := |IterationPreamble| + 8;
    var c := a + |currentHtml|;
    var e := c + 4 + |ChangeRequest|;
    assert t == IterationPreamble + "```html\n" + currentHtml + ("\n```" + ChangeRequest) + instruction;
  }

  /** A "\n"-padded string free of "```" stays free of it. */
  lemma PaddedStaysClean(h: string)
    requires NoOccurrenceFrom(h, Fence, 0)
    ensures NoOccurrenceFrom("\n" + h + "\n", Fence, 0)
  {
    var s := "\n" + h + "\n";
    forall j | 0 <= j <= |s| && OccursAt(s, Fence, j)
      ensures false
    {
      assert s[j] == s[j..j + 3][0] == '`';
      assert s[j + 2] == s[j..j + 3][2] == '`';
      assert 1 <= j && j + 2 <= |h|;
      assert h[j - 1..j + 2] == s[j..j + 3];
      assert OccursAt(h, Fence, j - 1);
    }
  }

  /** Round trip with `extractHtml`: extracting from the iteration message
      gives back the current HTML, trimmed, whenever it holds no "```". */
  lemma IterationRoundTrip(currentHtml: string, instruction: string)
    requires NoOccurrenceFrom(currentHtml, Fence, 0)
    ensures ExtractHtml(BuildIterationMessages(currentHtml, instruction)[0].content.text) == Trim(currentHtml)
  {
    var mid := "\n" + currentHtml + "\n";
    var post := ChangeRequest + instruction;
    Regroup8(IterationPreamble, OpenMarker, "\n", currentHtml, "\n", Fence, ChangeRequest, instruction);
    PaddedStaysClean(currentHtml);
    assert '`' !in IterationPreamble;
    ExtractFenced(IterationPreamble, mid, post);
    TrimIgnoresPadding("\n", currentHtml, "\n");
  }

  lemma Regroup8(a: string, b: string, c: string, d: string, e: string, f: string, g: string, h: string)
    ensures a + b + c + d + e + f + g + h == a + b + (c + d + e) + f + (g + h)
  {
  }
}
