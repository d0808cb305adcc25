/** Resume parsing (phase2_resume_extraction/resume_parser.py): the text of
    a PDF or DOCX file, the choice of reader by extension, and the decision
    between the traditional text, the AI deep-scan text and an error. The
    PDF and DOCX libraries and the deep scan are oracles: the model receives
    what they return. */
module ResumeParser {
  import opened Wrappers
  import opened PyStrings

  /** What `page.extract_text()` does for one page: return text or raise. */
  datatype PdfPage = PageText(text: string) | PageError

  /** The texts of the pages that could be read, in order. */
  function ReadablePages(pages: seq<PdfPage>): (r: seq<string>)
    ensures |r| <= |pages|
  {
    if pages == [] then []
    else
      var last := pages[|pages| - 1];
      ReadablePages(pages[..|pages| - 1]) + (if last.PageText? then [last.text] else [])
  }

  /** The text `extract_text_from_pdf` accumulates: every readable page
      followed by a newline. */
  function PdfText(pages: seq<PdfPage>): string {
    if pages == [] then ""
    else
      var last := pages[|pages| - 1];
      PdfText(pages[..|pages| - 1]) + (if last.PageText? then last.text + "\n" else "")
  }

  /** The PDF text is the readable pages joined by newlines, with a final
      newline; a PDF with no readable page gives the empty text. */
  lemma {:induction false} PdfTextIsJoin(pages: seq<PdfPage>)
    ensures ReadablePages(pages) == [] ==> PdfText(pages) == ""
    ensures ReadablePages(pages) != [] ==> PdfText(pages) == Join(ReadablePages(pages), "\n") + "\n"
  {
    if pages != [] {
      var init := pages[..|pages| - 1];
      var last := pages[|pages| - 1];
      PdfTextIsJoin(init);
      var r := ReadablePages(init);
      if last.PageText? {
        var t := last.text;
        assert ReadablePages(pages) == r + [t];
        assert PdfText(pages) == PdfText(init) + (t + "\n");
        if r != [] {
          assert (r + [t])[..|r|] == r;
          assert Join(r + [t], "\n") == Join(r, "\n") + "\n" + t;
        } else {
          assert Join(r + [t], "\n") == t;
        }
      } else {
        assert ReadablePages(pages) == r;
        assert PdfText(pages) == PdfText(init);
      }
    }
  }

  /** A page that fails adds nothing to the text. */
  lemma PdfSkipsFailedPage(pages: seq<PdfPage>)
    ensures PdfText(pages + [PageError]) == PdfText(pages)
  {
    assert (pages + [PageError])[..|pages|] == pages;
  }

  /** `extract_text_from_pdf`: `pages` is `None` when the file cannot be opened. */
  method ExtractPdfText(pages: Option<seq<PdfPage>>) returns (text: string)
    ensures pages.None? ==> text == ""
    ensures pages.Some? ==> text == PdfText(pages.value)
  {
    if pages.None? {
      return "";
    }
    var all := pages.value;
    text := "";
    var i := 0;
    while i < |all|
      invariant 0 <= i <= |all|
      invariant text == PdfText(all[..i])
    {
      assert all[..i + 1][..i] == all[..i];
      match all[i] {
        case PageText(t) =>
          text := text + t + "\n";
        case PageError =>
      }
      i := i + 1;
    }
    assert all[..i] == all;
  }

  /** `extract_text_from_docx`: the paragraph texts joined by newlines. */
  method ExtractDocxText(paragraphs: seq<string>) returns (text: string)
    ensures text == Join(paragraphs, "\n")
  {
    var parts: seq<string> := [];
    var i := 0;
    while i < |paragraphs|
      invariant 0 <= i <= |paragraphs|
      invariant parts == paragraphs[..i]
    {
      parts := parts + [paragraphs[i]];
      i := i + 1;
    }
    assert parts == paragraphs;
    text := Join(parts, "\n");
  }

  /** `s.split(c)` for a single separator character. */
  function SplitAt(s: string, c: char): (r: seq<string>)
    decreases |s|
    ensures r != []
  {
    var i := RFind(s, [c]);
    if i == -1 then [s] else SplitAt(s[..i], c) + [s[i + 1..]]
  }

  /** The last occurrence of `c` in `x + [c] + y`, when `y` has none, is at `|x|`. */
  lemma RFindSeparator(x: string, c: char, y: string)
    requires forall i :: 0 <= i < |y| ==> y[i] != c
    ensures RFind(x + [c] + y, [c]) == |x|
  {
    var s := x + [c] + y;
    assert MatchesAt(s, [c], |x|);
    forall j | |x| < j ensures !MatchesAt(s, [c], j) {
      if j < |s| {
        assert s[j..j + 1][0] == y[j - |x| - 1];
      }
    }
  }

  /** Splitting the joined paragraphs at newlines gives them back, when no
      paragraph holds a newline itself. */
  lemma {:induction false} SplitJoin(paragraphs: seq<string>)
    requires paragraphs != []
    requires forall k, i :: 0 <= k < |paragraphs| && 0 <= i < |paragraphs[k]| ==> paragraphs[k][i] != '\n'
    ensures SplitAt(Join(paragraphs, "\n"), '\n') == paragraphs
    decreases |paragraphs|
  {
    var n := |paragraphs|;
    var last := paragraphs[n - 1];
    if n == 1 {
      AbsentCharNotFound(last, '\n');
    } else {
      var init := paragraphs[..n - 1];
      var j := Join(init, "\n");
      assert Join(paragraphs, "\n") == j + ['\n'] + last;
      RFindSeparator(j, '\n', last);
      assert (j + ['\n'] + last)[..|j|] == j;
      assert (j + ['\n'] + last)[|j| + 1..] == last;
      SplitJoin(init);
      assert init + [last] == paragraphs;
    }
  }

  /** `os.path.splitext(path)` on a POSIX system: the extension starts at
      the last "." of the last path component, unless that component has
      only dots before it. */
  function SplitExt(path: string): (r: (string, string))
  {
    var sep := RFind(path, "/");
    var dot := RFind(path, ".");
    if dot > sep && exists k :: sep + 1 <= k < dot && path[k] != '.' then (path[..dot], path[dot..])
    else (path, "")
  }

  /** The root and the extension make up the path again; a non-empty
      extension is one "." followed by no other "." and no "/". */
  lemma SplitExtShape(path: string)
    ensures SplitExt(path).0 + SplitExt(path).1 == path
    ensures SplitExt(path).1 == ""
      || (SplitExt(path).1[0] == '.'
          && forall i :: 1 <= i < |SplitExt(path).1| ==> SplitExt(path).1[i] != '.' && SplitExt(path).1[i] != '/')
  {
    var sep := RFind(path, "/");
    var dot := RFind(path, ".");
    var (root, ext) := SplitExt(path);
    if ext != "" {
      assert path[dot..dot + 1] == ".";
      AbsentAfterLast(path, '.', dot);
      AbsentAfterLast(path, '/', sep);
      forall i | 1 <= i < |ext| ensures ext[i] != '.' && ext[i] != '/' {
        assert ext[i] == path[dot + i];
      }
    }
  }

  /** `os.path.basename(path)`: what follows the last "/". */
  function Basename(path: string): (r: string)
    ensures forall i :: 0 <= i < |r| ==> r[i] != '/'
    ensures EndsWith(path, r)
    ensures |r| == |path| || path[|path| - |r| - 1] == '/'
  {
    var i := RFind(path, "/");
    AbsentAfterLast(path, '/', i);
    path[i + 1..]
  }

  /** No `c` follows its last occurrence. */
  lemma AbsentAfterLast(s: string, c: char, i: int)
    requires i == RFind(s, [c])
    ensures -1 <= i < |s|
    ensures forall k :: i < k < |s| ==> s[k] != c
    ensures i >= 0 ==> s[i] == c
  {
    forall k | i < k < |s| ensures s[k] != c {
      assert !MatchesAt(s, [c], k);
      assert s[k..k + 1][0] == s[k];
    }
  }

  /** `os.path.splitext(filepath)[1].lower()` */
  function Extension(path: string): string {
    Lower(SplitExt(path).1)
  }

  /** The extension is compared in lower case. */
  lemma ExtensionIgnoresCase()
    ensures Extension("cv.PDF") == ".pdf"
  {
    assert MatchesAt("cv.PDF", ".", 2);
    assert "cv.PDF"[0] != '.';
    assert Lower(".PDF") == ".pdf";
  }

  /** A hidden file's leading dot does not start an extension, so ".docx" is refused. */
  lemma HiddenFileHasNoExtension()
    ensures Extension(".docx") == ""
  {
    assert MatchesAt(".docx", ".", 0);
  }

  /** A dot in a directory name does not start an extension. */
  lemma DirectoryDotIgnored()
    ensures Extension("a.b/cv") == ""
  {
    assert MatchesAt("a.b/cv", "/", 3);
  }

  /** What the readers make of the file: the PDF pages (`None` when the
      PDF cannot be opened), the DOCX paragraphs (`None` when the document
      cannot be opened, which raises) and the UTF-8 text (`None` when it
      cannot be decoded, which raises). */
  datatype FileReaders = FileReaders(
    pdfPages: Option<seq<PdfPage>>,
    docxParagraphs: Option<seq<string>>,
    plainText: Option<string>)

  /** The parsed resume. */
  datatype ResumeData = ResumeData(text: string, filename: string, fileType: string)

  /** Why `parse_resume` raised. */
  datatype ParseError =
    | UnsupportedFormat(ext: string)
    | ReaderFailed(ext: string)
    | DeepScanFailed(detail: string)
    | ZeroText(ext: string)
    | TooShort(length: nat)

  datatype ParseOutcome = Parsed(data: ResumeData) | ParseFailed(error: ParseError)

  /** `s.replace(t, "")` for a non-empty `t`: removes every occurrence, left to right. */
  function RemoveAll(s: string, t: string): (r: string)
    requires t != []
    decreases |s|
    ensures |r| <= |s|
  {
    if |s| < |t| then s
    else if s[..|t|] == t then RemoveAll(s[|t|..], t)
    else [s[0]] + RemoveAll(s[1..], t)
  }

  const AiErrorMarker: string := "AI_ERROR:"

  /** The text traditional extraction gives for the extension, or the reason it raised. */
  function TraditionalText(ext: string, readers: FileReaders): Option<string> {
    if ext == ".pdf" then Some(if readers.pdfPages.None? then "" else PdfText(readers.pdfPages.value))
    else if ext == ".docx" then
      (if readers.docxParagraphs.None? then None else Some(Join(readers.docxParagraphs.value, "\n")))
    else readers.plainText
  }

  /** The choice between the stripped traditional text and the deep-scan
      text `aiText`: the text kept, or the error raised. */
  function ChooseText(ext: string, traditional: string, aiText: string): (r: Result)
    ensures r.Kept? ==> IsStripped(r.text) && |r.text| >= 30
    ensures |Strip(traditional)| >= 50 ==> r == Kept(Strip(traditional))
    ensures |Strip(traditional)| < 50 && StartsWith(aiText, AiErrorMarker) ==>
      r == Failed(DeepScanFailed(Strip(RemoveAll(aiText, AiErrorMarker))))
    ensures |Strip(traditional)| < 50 && !StartsWith(aiText, AiErrorMarker) && |Strip(aiText)| > 50 ==>
      r == Kept(Strip(aiText))
    ensures |Strip(traditional)| < 50 && !StartsWith(aiText, AiErrorMarker) && |Strip(aiText)| <= 50 ==>
      (|Strip(traditional)| == 0 ==> r == Failed(ZeroText(ext)))
      && (0 < |Strip(traditional)| < 30 ==> r == Failed(TooShort(|Strip(traditional)|)))
      && (30 <= |Strip(traditional)| ==> r == Kept(Strip(traditional)))
  {
    var extracted := Strip(traditional);
    if |extracted| < 50 then
      if StartsWith(aiText, AiErrorMarker) then
        Failed(DeepScanFailed(Strip(RemoveAll(aiText, AiErrorMarker))))
      else if |Strip(aiText)| > 50 then
        Kept(Strip(aiText))
      else if |extracted| < 30 then
        if |extracted| == 0 then Failed(ZeroText(ext)) else Failed(TooShort(|extracted|))
      else Kept(extracted)
    else Kept(extracted)
  }

  /** The outcome of the choice. */
  datatype Result = Kept(text: string) | Failed(error: ParseError)

  /** A traditional text of 50 characters or more makes the deep scan irrelevant. */
  lemma LongTextIgnoresScan(ext: string, traditional: string, ai1: string, ai2: string)
    requires |Strip(traditional)| >= 50
    ensures ChooseText(ext, traditional, ai1) == ChooseText(ext, traditional, ai2)
  {
  }

  /** `parse_resume(path)`, the readers and the deep scan being oracles. */
  function Parse(path: string, readers: FileReaders, aiText: string): (r: ParseOutcome)
    ensures r.Parsed? ==> IsStripped(r.data.text) && |r.data.text| >= 30
    ensures r.Parsed? ==> r.data.fileType == Extension(path) && r.data.filename == Basename(path)
    ensures r.Parsed? ==> Extension(path) in {".pdf", ".docx", ".txt"}
    ensures Extension(path) !in {".pdf", ".docx", ".txt"} ==> r == ParseFailed(UnsupportedFormat(Extension(path)))
  {
    var ext := Extension(path);
    if ext != ".pdf" && ext != ".docx" && ext != ".txt" then ParseFailed(UnsupportedFormat(ext))
    else
      match TraditionalText(ext, readers)
      case None => ParseFailed(ReaderFailed(ext))
      case Some(text) =>
        match ChooseText(ext, text, aiText)
        case Kept(t) => Parsed(ResumeData(t, Basename(path), ext))
        case Failed(e) => ParseFailed(e)
  }

  /** Traditional extraction, the reader being chosen by the extension. */
  method ReadTraditional(ext: string, readers: FileReaders) returns (text: Option<string>)
    ensures text == TraditionalText(ext, readers)
  {
    if ext == ".pdf" {
      var t := ExtractPdfText(readers.pdfPages);
      text := Some(t);
    } else if ext == ".docx" {
      if readers.docxParagraphs.None? {
        return None;
      }
      var t := ExtractDocxText(readers.docxParagraphs.value);
      text := Some(t);
    } else {
      text := readers.plainText;
    }
  }

  /** The fallback chain of `parse_resume` on the traditional text: also
      says whether the deep scan was run. */
  method ChooseInOrder(ext: string, traditional: string, aiText: string) returns (r: Result, scanned: bool)
    ensures r == ChooseText(ext, traditional, aiText)
    ensures scanned <==> |Strip(traditional)| < 50
  {
    var extracted := Strip(traditional);
    scanned := false;
    if |extracted| < 50 {
      scanned := true;
      if StartsWith(aiText, AiErrorMarker) {
        var detail := Strip(RemoveAll(aiText, AiErrorMarker));
        return Failed(DeepScanFailed(detail)), true;
      }
      if |Strip(aiText)| > 50 {
        extracted := Strip(aiText);
      } else if |extracted| < 30 {
        if |extracted| == 0 {
          return Failed(ZeroText(ext)), true;
        }
        return Failed(TooShort(|extracted|)), true;
      }
    }
    r := Kept(extracted);
  }

  /** `parse_resume`: the outcome, and whether the deep scan was run, which
      happens exactly when a supported file was read and gave fewer than 50
      characters once stripped. */
  method ParseResume(path: string, readers: FileReaders, aiText: string)
    returns (outcome: ParseOutcome, scanned: bool)
    ensures outcome == Parse(path, readers, aiText)
    ensures scanned <==> (Extension(path) in {".pdf", ".docx", ".txt"}
                          && TraditionalText(Extension(path), readers).Some?
                          && |Strip(TraditionalText(Extension(path), readers).value)| < 50)
  {
    var ext := Extension(path);
    if ext != ".pdf" && ext != ".docx" && ext != ".txt" {
      return ParseFailed(UnsupportedFormat(ext)), false;
    }
    var text := ReadTraditional(ext, readers);
    if text.None? {
      return ParseFailed(ReaderFailed(ext)), false;
    }
    var chosen;
    chosen, scanned := ChooseInOrder(ext, text.value, aiText);
    match chosen {
      case Kept(t) => outcome := Parsed(ResumeData(t, Basename(path), ext));
      case Failed(e) => outcome := ParseFailed(e);
    }
  }
}
