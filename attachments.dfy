/** Turning a message's attachments into prompt parts (Bot.py:76-110).
    Downloads, image decoding and PDF parsing happen outside the model: an
    attachment arrives with what each of those steps would yield for its URL. */
module Attachments {
  import opened Wrappers
  import opened Text

  /** A decoded image, opaque to the bot: it is only handed on to the model. */
  datatype Image = Image(id: nat)

  /** One attachment descriptor together with the outcome of each way the
      bot may read its URL: decoding it as an image, reading it as text, or
      extracting the text of each PDF page. A step that raises is an `Error`. */
  datatype Attachment = Attachment(
    filename: string,
    contentType: Option<string>,
    asImage: Result<Image>,
    asText: Result<string>,
    asPdfPages: Result<seq<string>>)

  /** One entry of `content_parts`: the prompt string, or an image. */
  datatype Part = TextPart(text: string) | ImagePart(image: Image)

  const ImageTypePrefix: string := "image/"
  const TextExtensions: seq<string> := [".txt", ".py", ".js", ".html", ".css", ".json"]
  const PdfExtension: string := ".pdf"

  /** Characters of a text file or of a PDF's extracted text that reach the prompt. */
  const TextLimit: nat := 3000

  /** Pages of a PDF whose text is extracted. */
  const PdfPageLimit: nat := 5

  /** `attachment.content_type and attachment.content_type.startswith('image/')` */
  predicate IsImageType(contentType: Option<string>)
  {
    contentType.Some? && StartsWith(contentType.value, ImageTypePrefix)
  }

  /** `attachment.filename.endswith(('.txt', '.py', '.js', '.html', '.css', '.json'))` */
  predicate IsTextName(filename: string)
  {
    EndsWithAny(filename, TextExtensions)
  }

  /** `attachment.filename.endswith('.pdf')` */
  predicate IsPdfName(filename: string)
  {
    EndsWith(filename, PdfExtension)
  }

  datatype Kind = ImageFile | TextFile | PdfFile | Unsupported

  /** The `if / elif / elif` chain: the content type is looked at first, then
      the text extensions, then `.pdf`. */
  function Classify(a: Attachment): Kind
  {
    if IsImageType(a.contentType) then ImageFile
    else if IsTextName(a.filename) then TextFile
    else if IsPdfName(a.filename) then PdfFile
    else Unsupported
  }

  lemma LastCharOf(s: string, suffix: string)
    ensures EndsWith(s, suffix) && |suffix| > 0 ==> s[|s| - 1] == suffix[|suffix| - 1]
  {
    if EndsWith(s, suffix) && |suffix| > 0 {
      assert s[|s| - |suffix|..][|suffix| - 1] == s[|s| - 1];
    }
  }

  /** No file name ends both in a text extension and in `.pdf`: every text
      extension ends in a letter other than the 'f' of ".pdf". */
  lemma TextAndPdfNamesDisjoint(filename: string)
    ensures !(IsTextName(filename) && IsPdfName(filename))
  {
    EndsWithAnyWitness(filename, TextExtensions);
    LastCharOf(filename, PdfExtension);
    forall i | 0 <= i < |TextExtensions|
      ensures !(EndsWith(filename, TextExtensions[i]) && IsPdfName(filename))
    {
      LastCharOf(filename, TextExtensions[i]);
    }
  }

  /** Each kind in terms of the three tests: an image content type wins over
      any file name, and a file name picks at most one of text and PDF. */
  lemma ClassifyPrecedence(a: Attachment)
    ensures Classify(a) == ImageFile <==> IsImageType(a.contentType)
    ensures Classify(a) == TextFile <==> !IsImageType(a.contentType) && IsTextName(a.filename)
    ensures Classify(a) == PdfFile <==> !IsImageType(a.contentType) && IsPdfName(a.filename)
    ensures Classify(a) == Unsupported <==>
      !IsImageType(a.contentType) && !IsTextName(a.filename) && !IsPdfName(a.filename)
  {
    TextAndPdfNamesDisjoint(a.filename);
  }

  /** An image content type wins over the file name: an image sent under a
      PDF's or a text file's name is still taken as an image. */
  lemma ImageTypeWins(img: Result<Image>, txt: Result<string>, pages: Result<seq<string>>)
    ensures Classify(Attachment("a.pdf", Some("image/png"), img, txt, pages)) == ImageFile
    ensures Classify(Attachment("notes.txt", Some("image/png"), img, txt, pages)) == ImageFile
  {
    assert StartsWith("image/png", ImageTypePrefix) by {
      assert "image/png"[..6] == ImageTypePrefix;
    }
  }

  /** Without a content type the name decides: `a.pdf` is a PDF. */
  lemma PdfByName(img: Result<Image>, txt: Result<string>, pages: Result<seq<string>>)
    ensures Classify(Attachment("a.pdf", None, img, txt, pages)) == PdfFile
  {
    TextAndPdfNamesDisjoint("a.pdf");
    assert IsPdfName("a.pdf") by {
      assert "a.pdf"[1..] == PdfExtension;
    }
  }

  /** A name with none of the handled extensions and no content type is
      skipped: `video.mp4`. */
  lemma UnknownSkipped(img: Result<Image>, txt: Result<string>, pages: Result<seq<string>>)
    ensures Classify(Attachment("video.mp4", None, img, txt, pages)) == Unsupported
  {
    var mp4 := "video.mp4";
    EndsWithAnyWitness(mp4, TextExtensions);
    forall i | 0 <= i < |TextExtensions| ensures !EndsWith(mp4, TextExtensions[i]) {
      LastCharOf(mp4, TextExtensions[i]);
    }
    LastCharOf(mp4, PdfExtension);
  }

  // PDF text

  /** `pdf_reader.pages[:5]` */
  function FirstPages(pages: seq<string>): (r: seq<string>)
    ensures |r| == if |pages| < PdfPageLimit then |pages| else PdfPageLimit
    ensures r == pages[..|r|]
  {
    if |pages| <= PdfPageLimit then pages else pages[..PdfPageLimit]
  }

  /** The page loop: the first five pages' text joined in page order. */
  method ExtractPdfText(pages: seq<string>) returns (text: string)
    ensures text == Concat(FirstPages(pages))
  {
    var first := FirstPages(pages);
    text := "";
    for i := 0 to |first|
      invariant text == Concat(first[..i])
    {
      assert first[..i + 1][..i] == first[..i];
      text := text + first[i];
    }
    assert first[..|first|] == first;
  }

  /** `pdf_text[:3000]` */
  function PdfBody(pages: seq<string>): string
  {
    Take(Concat(FirstPages(pages)), TextLimit)
  }

  /** What reaches the prompt from a PDF: at most 3000 characters, a prefix of
      the whole document's text, taken from the first five pages only. */
  lemma PdfBodyBounds(pages: seq<string>, later: seq<string>)
    ensures |PdfBody(pages)| <= TextLimit
    ensures |PdfBody(pages)| <= |Concat(pages)| && PdfBody(pages) == Concat(pages)[..|PdfBody(pages)|]
    ensures |pages| >= PdfPageLimit ==> PdfBody(pages + later) == PdfBody(pages)
  {
    var first := FirstPages(pages);
    assert pages == first + pages[|first|..];
    ConcatAppend(first, pages[|first|..]);
    if |pages| >= PdfPageLimit {
      assert FirstPages(pages + later) == first;
    }
  }

  // What each attachment contributes

  function FileHeader(filename: string): string
  {
    "\n\n[File: " + filename + "]\n"
  }

  function PdfHeader(filename: string): string
  {
    "\n\n[PDF: " + filename + "]\n"
  }

  /** `f"\n\n[File: {attachment.filename}]\n{file_content[:3000]}"` */
  function FileSection(filename: string, content: string): string
  {
    FileHeader(filename) + Take(content, TextLimit)
  }

  /** `f"\n\n[PDF: {attachment.filename}]\n{pdf_text[:3000]}"` */
  function PdfSection(filename: string, pages: seq<string>): string
  {
    PdfHeader(filename) + PdfBody(pages)
  }

  /** A text file contributes its header and then at most 3000 characters,
      which are a prefix of the downloaded text (all of it when it is short). */
  lemma FileSectionBounds(filename: string, content: string)
    ensures var s := FileSection(filename, content); var h := FileHeader(filename);
      && s[..|h|] == h
      && |s| - |h| <= TextLimit
      && s[|h|..] == content[..|s| - |h|]
      && (|content| <= TextLimit ==> s == h + content)
  {
  }

  /** The exception raised while reading an attachment, if the branch it
      takes raises one; unsupported attachments are never read. */
  function Failure(a: Attachment): Option<string>
  {
    match Classify(a)
    case ImageFile => if a.asImage.Error? then Some(a.asImage.message) else None
    case TextFile => if a.asText.Error? then Some(a.asText.message) else None
    case PdfFile => if a.asPdfPages.Error? then Some(a.asPdfPages.message) else None
    case Unsupported => None
  }

  predicate Readable(a: Attachment)
  {
    Failure(a).None?
  }

  /** The exception of the first attachment, in message order, that raises. */
  function FirstFailure(atts: seq<Attachment>): Option<string>
  {
    if atts == [] then None
    else
      var before := FirstFailure(atts[..|atts| - 1]);
      if before.Some? then before else Failure(atts[|atts| - 1])
  }

  lemma {:induction false} NoFailureReadable(atts: seq<Attachment>)
    ensures FirstFailure(atts).None? <==> forall i :: 0 <= i < |atts| ==> Readable(atts[i])
  {
    if atts != [] {
      var prefix := atts[..|atts| - 1];
      NoFailureReadable(prefix);
      assert forall j :: 0 <= j < |prefix| ==> prefix[j] == atts[j];
    }
  }

  /** The text one attachment appends to part 0: a file or PDF section for
      those kinds, nothing otherwise. (An attachment that raises aborts the
      message, so what it would contribute is never looked at.) */
  function Section(a: Attachment): string
  {
    match Classify(a)
    case TextFile => if a.asText.Ok? then FileSection(a.filename, a.asText.value) else ""
    case PdfFile => if a.asPdfPages.Ok? then PdfSection(a.filename, a.asPdfPages.value) else ""
    case _ => ""
  }

  /** The parts an attachment adds after part 0: its image, or none. */
  function Extra(a: Attachment): seq<Part>
  {
    if Classify(a) == ImageFile && a.asImage.Ok? then [ImagePart(a.asImage.value)] else []
  }

  /** Everything the attachments append to part 0, in message order. */
  function Sections(atts: seq<Attachment>): string
  {
    if atts == [] then "" else Sections(atts[..|atts| - 1]) + Section(atts[|atts| - 1])
  }

  /** The image parts, in message order. */
  function ImageParts(atts: seq<Attachment>): seq<Part>
  {
    if atts == [] then [] else ImageParts(atts[..|atts| - 1]) + Extra(atts[|atts| - 1])
  }

  /** The number of image attachments. */
  function ImageCount(atts: seq<Attachment>): nat
  {
    if atts == [] then 0
    else ImageCount(atts[..|atts| - 1]) + (if Classify(atts[|atts| - 1]) == ImageFile then 1 else 0)
  }

  /** `content_parts` after the attachment loop, starting from part 0 = `head`;
      the first attachment that raises aborts the whole message. */
  function Parts(head: string, atts: seq<Attachment>): Result<seq<Part>>
  {
    match FirstFailure(atts)
    case Some(e) => Error(e)
    case None => Ok([TextPart(head + Sections(atts))] + ImageParts(atts))
  }

  /** Once some attachment has raised, no attachment after it changes the error. */
  lemma {:induction false} FailureSticks(s: seq<Attachment>, t: seq<Attachment>)
    requires FirstFailure(s).Some?
    ensures FirstFailure(s + t) == FirstFailure(s)
  {
    if t != [] {
      var t' := t[..|t| - 1];
      assert (s + t)[..|s + t| - 1] == s + t';
      FailureSticks(s, t');
      assert FirstFailure(s + t) == FirstFailure(s + t');
    } else {
      assert s + t == s;
    }
  }

  /** When no attachment raises, the prompt has exactly one text part, at
      index 0, followed by one image part per image attachment. */
  lemma {:induction false} PartsShape(head: string, atts: seq<Attachment>)
    ensures Parts(head, atts).Ok? <==> FirstFailure(atts).None?
    ensures Parts(head, atts).Ok? ==>
      var ps := Parts(head, atts).value;
      && |ps| == 1 + ImageCount(atts)
      && ps[0] == TextPart(head + Sections(atts))
      && forall k :: 1 <= k < |ps| ==> ps[k].ImagePart?
  {
    ImagePartsCount(atts);
  }

  lemma {:induction false} ImagePartsCount(atts: seq<Attachment>)
    ensures forall k :: 0 <= k < |ImageParts(atts)| ==> ImageParts(atts)[k].ImagePart?
    ensures FirstFailure(atts).None? ==> |ImageParts(atts)| == ImageCount(atts)
  {
    if atts != [] {
      var prefix := atts[..|atts| - 1];
      ImagePartsCount(prefix);
      assert atts == prefix + [atts[|atts| - 1]];
      AppendOne(prefix, atts[|atts| - 1]);
    }
  }

  /** One more attachment extends part 0 by its section and the image parts by its image. */
  lemma AppendOne(atts: seq<Attachment>, a: Attachment)
    ensures FirstFailure(atts + [a]) == if FirstFailure(atts).Some? then FirstFailure(atts) else Failure(a)
    ensures Sections(atts + [a]) == Sections(atts) + Section(a)
    ensures ImageParts(atts + [a]) == ImageParts(atts) + Extra(a)
  {
    assert (atts + [a])[..|atts|] == atts;
  }

  /** An unsupported attachment changes nothing: no part, no text, no error. */
  lemma UnsupportedIgnored(head: string, atts: seq<Attachment>, a: Attachment)
    requires Classify(a) == Unsupported
    ensures Parts(head, atts + [a]) == Parts(head, atts)
  {
    AppendOne(atts, a);
    assert Sections(atts) + "" == Sections(atts);
    assert ImageParts(atts) + [] == ImageParts(atts);
  }

  /** Once an attachment has raised, later ones do not matter; the first
      attachment to raise decides the error. */
  lemma FailureAborts(head: string, atts: seq<Attachment>, a: Attachment, later: seq<Attachment>)
    ensures FirstFailure(atts).Some? ==> Parts(head, atts + later) == Error(FirstFailure(atts).value)
    ensures FirstFailure(atts).None? && Failure(a).Some? ==> Parts(head, atts + [a] + later) == Error(Failure(a).value)
  {
    AppendOne(atts, a);
    if FirstFailure(atts).Some? {
      FailureSticks(atts, later);
    } else if Failure(a).Some? {
      FailureSticks(atts + [a], later);
    }
  }

  /** Attachments are applied in message order: one more image becomes the
      new last part. */
  lemma ImageAppended(head: string, atts: seq<Attachment>, a: Attachment)
    requires FirstFailure(atts).None? && Classify(a) == ImageFile && a.asImage.Ok?
    ensures Parts(head, atts + [a]) == Ok(Parts(head, atts).value + [ImagePart(a.asImage.value)])
  {
    AppendOne(atts, a);
    assert Section(a) == "" && Extra(a) == [ImagePart(a.asImage.value)];
    var head' := TextPart(head + Sections(atts));
    assert Sections(atts) + "" == Sections(atts);
    assert [head'] + (ImageParts(atts) + Extra(a)) == ([head'] + ImageParts(atts)) + Extra(a);
  }

  /** One more text file or PDF only extends part 0, by its section. */
  lemma SectionAppended(head: string, atts: seq<Attachment>, a: Attachment)
    requires FirstFailure(atts).None? && Failure(a).None?
    requires Classify(a) == TextFile || Classify(a) == PdfFile
    ensures var before := Parts(head, atts).value;
      Parts(head, atts + [a]) == Ok(before[0 := TextPart(before[0].text + Section(a))])
  {
    AppendOne(atts, a);
    assert Extra(a) == [];
    AppendAssoc(head, Sections(atts), Section(a));
    GrowHead(head + Sections(atts), Section(a), ImageParts(atts));
  }

  lemma GrowHead(text: string, more: string, images: seq<Part>)
    ensures var before := [TextPart(text)] + images;
      before[0 := TextPart(before[0].text + more)] == [TextPart(text + more)] + (images + [])
  {
    assert images + [] == images;
  }

  /** When every attachment before index i reads and attachment i raises,
      its exception is the one the message fails with. */
  lemma {:induction false} FirstFailureAt(atts: seq<Attachment>, i: nat)
    requires i < |atts|
    requires FirstFailure(atts[..i]).None?
    requires Failure(atts[i]).Some?
    ensures FirstFailure(atts) == Failure(atts[i])
  {
    var prefix := atts[..|atts| - 1];
    if i == |atts| - 1 {
      assert prefix == atts[..i];
    } else {
      assert prefix[..i] == atts[..i] && prefix[i] == atts[i];
      FirstFailureAt(prefix, i);
    }
  }

  /** The body of the attachment loop for one attachment that reads
      without raising: an image becomes a new last part, a text file or PDF
      grows part 0, anything else leaves the parts alone. */
  method AddAttachment(parts: seq<Part>, a: Attachment) returns (grown: seq<Part>)
    requires |parts| >= 1 && parts[0].TextPart?
    requires Readable(a)
    ensures |grown| >= 1 && grown[0] == TextPart(parts[0].text + Section(a))
    ensures grown[1..] == parts[1..] + Extra(a)
  {
    if IsImageType(a.contentType) {
      grown := parts + [ImagePart(a.asImage.value)];
    } else if IsTextName(a.filename) {
      grown := parts[0 := TextPart(parts[0].text + FileSection(a.filename, a.asText.value))];
    } else if IsPdfName(a.filename) {
      var pdfText := ExtractPdfText(a.asPdfPages.value);
      grown := parts[0 := TextPart(parts[0].text + PdfHeader(a.filename) + Take(pdfText, TextLimit))];
      AppendAssoc(parts[0].text, PdfHeader(a.filename), Take(pdfText, TextLimit));
    } else {
      grown := parts;
    }
  }

  /** The attachment loop over `message.attachments`, in message order. */
  method BuildParts(head: string, atts: seq<Attachment>) returns (r: Result<seq<Part>>)
    ensures r == Parts(head, atts)
  {
    var parts := [TextPart(head)];
    assert atts[..0] == [];
    for i := 0 to |atts|
      invariant FirstFailure(atts[..i]).None?
      invariant |parts| >= 1 && parts[0] == TextPart(head + Sections(atts[..i]))
      invariant parts[1..] == ImageParts(atts[..i])
    {
      var a := atts[i];
      if Failure(a).Some? {
        FirstFailureAt(atts, i);
        return Error(Failure(a).value);
      }
      assert atts[..i + 1] == atts[..i] + [a];
      AppendOne(atts[..i], a);
      AppendAssoc(head, Sections(atts[..i]), Section(a));
      parts := AddAttachment(parts, a);
    }
    assert atts[..|atts|] == atts;
    assert parts == [parts[0]] + parts[1..];
    r := Ok(parts);
  }
}
