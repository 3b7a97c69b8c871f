/** The pages of an upload: a PDF of several pages is split into one
    single-page PDF per page, any other PDF and the JPEG and PNG images are
    sent whole as one page, every other file type is refused. Each page is a
    base64 data URI with its SHA-1. */
module Pages {
  import opened Wrappers
  import opened Errors
  import opened Json

  /** What the client learns about the file at a path: whether it exists,
      its MIME type (`mime_content_type`, empty when it cannot tell), its
      page count as FPDI reads it, its bytes, and the bytes of the
      single-page PDF FPDI writes for page `i`. */
  datatype FileInfo = FileInfo(
    present: bool, mime: string, pageCount: int, contents: string, pageOutput: int -> string)

  /** The library functions the client relies on. */
  datatype Builtins = Builtins(sha256: string -> string, sha1: string -> string, base64: string -> string)

  /** One page of an upload, with the keys `data`, `name`, `hash`, `page`, `type`. */
  datatype Page = Page(data: string, name: string, hash: string, page: int, mime: string)

  const PdfType: string := "application/pdf"
  const ImageTypes: seq<string> := ["image/jpg", "image/jpeg", "image/png"]

  /** The head of a data URI of type `mime`. */
  function UriHead(mime: string): string {
    "data:" + mime + ";base64,"
  }

  /** The data URI of some bytes: the head, then the base64 text of the bytes. */
  function DataUri(mime: string, bytes: string, lib: Builtins): (d: string)
    ensures |UriHead(mime)| <= |d| && d[..|UriHead(mime)|] == UriHead(mime)
    ensures d[|UriHead(mime)|..] == lib.base64(bytes)
  {
    UriHead(mime) + lib.base64(bytes)
  }

  /** Page number `n` made of `bytes`. */
  function MakePage(bytes: string, name: string, n: int, mime: string, lib: Builtins): Page {
    var data := DataUri(mime, bytes, lib);
    Page(data, name, lib.sha1(data), n, mime)
  }

  /** The bytes sent as page `n`: FPDI's single-page output for a PDF of
      several pages, the whole file otherwise. */
  function PageBytes(file: FileInfo, n: int): string {
    if file.mime == PdfType && file.pageCount > 1 then file.pageOutput(n) else file.contents
  }

  /** The pages prepareDocumentPages builds. */
  function PagesOf(file: FileInfo, name: string, lib: Builtins): Result<seq<Page>, Error> {
    if file.mime == PdfType then
      if file.pageCount > 1 then
        Success(seq(file.pageCount, i => MakePage(file.pageOutput(i + 1), name, i + 1, file.mime, lib)))
      else
        Success([MakePage(file.contents, name, 1, file.mime, lib)])
    else if file.mime in ImageTypes then
      Success([MakePage(file.contents, name, 1, file.mime, lib)])
    else
      Failure(UnsupportedType(file.mime))
  }

  /** prepareDocumentPages: the split loop over the pages of a PDF, or the
      whole file as its single page. */
  method PrepareDocumentPages(file: FileInfo, name: string, lib: Builtins) returns (r: Result<seq<Page>, Error>)
    ensures r == PagesOf(file, name, lib)
  {
    var pages: seq<Page> := [];
    if file.mime == PdfType {
      if file.pageCount > 1 {
        for i := 1 to file.pageCount + 1
          invariant |pages| == i - 1
          invariant forall j :: 0 <= j < |pages| ==>
            pages[j] == MakePage(file.pageOutput(j + 1), name, j + 1, file.mime, lib)
        {
          var data := DataUri(file.mime, file.pageOutput(i), lib);
          pages := pages + [Page(data, name, lib.sha1(data), i, file.mime)];
        }
      } else {
        var data := DataUri(file.mime, file.contents, lib);
        pages := pages + [Page(data, name, lib.sha1(data), 1, file.mime)];
      }
    } else if file.mime in ImageTypes {
      var data := DataUri(file.mime, file.contents, lib);
      pages := pages + [Page(data, name, lib.sha1(data), 1, file.mime)];
    } else {
      return Failure(UnsupportedType(file.mime));
    }
    ghost var expected := PagesOf(file, name, lib).value;
    assert |pages| == |expected| && forall j :: 0 <= j < |pages| ==> pages[j] == expected[j];
    assert pages == expected;
    return Success(pages);
  }

  /** What every upload satisfies: only PDFs and the three image types are
      accepted; a PDF of n > 1 pages gives n pages, anything else one; the
      pages are numbered 1, 2, ... in order, carry the given name and type,
      hold the data URI of their own bytes (page i of the split PDF, or the
      whole file), and their hash is the SHA-1 of that URI.
      In particular no accepted file gives an empty page list. */
  lemma PagesShape(file: FileInfo, name: string, lib: Builtins)
    ensures PagesOf(file, name, lib).Success? <==> file.mime == PdfType || file.mime in ImageTypes
    ensures PagesOf(file, name, lib).Failure? ==> PagesOf(file, name, lib).error == UnsupportedType(file.mime)
    ensures PagesOf(file, name, lib).Success? ==>
      var pages := PagesOf(file, name, lib).value;
      && |pages| == (if file.mime == PdfType && file.pageCount > 1 then file.pageCount else 1)
      && |pages| >= 1
      && forall i :: 0 <= i < |pages| ==>
           && pages[i].page == i + 1
           && pages[i].name == name
           && pages[i].mime == file.mime
           && pages[i].hash == lib.sha1(pages[i].data)
           && |UriHead(file.mime)| <= |pages[i].data|
           && pages[i].data[..|UriHead(file.mime)|] == UriHead(file.mime)
           && pages[i].data == DataUri(file.mime, PageBytes(file, i + 1), lib)
  {
    var r := PagesOf(file, name, lib);
    if r.Success? {
      forall i | 0 <= i < |r.value|
        ensures r.value[i].page == i + 1 && r.value[i].name == name && r.value[i].mime == file.mime
        ensures r.value[i].hash == lib.sha1(r.value[i].data)
        ensures |UriHead(file.mime)| <= |r.value[i].data|
        ensures r.value[i].data[..|UriHead(file.mime)|] == UriHead(file.mime)
        ensures r.value[i].data == DataUri(file.mime, PageBytes(file, i + 1), lib)
      {
        assert r.value[i] == MakePage(PageBytes(file, i + 1), name, i + 1, file.mime, lib);
      }
    }
  }

  /** The outcome of an upload's page preparation in short: at least one
      page, or the unsupported-type error. */
  lemma PagesOutcome(file: FileInfo, name: string, lib: Builtins)
    ensures PagesOf(file, name, lib).Success? ==> |PagesOf(file, name, lib).value| >= 1
    ensures PagesOf(file, name, lib).Failure? ==> PagesOf(file, name, lib).error == UnsupportedType(file.mime)
  {
  }

  /** A page as the upload request carries it. */
  function PageJson(p: Page): (j: Json)
    ensures j.JObj? && j.fields.Keys == {"data", "name", "hash", "page", "type"}
    ensures Prop(j, "page") == JInt(p.page) && Prop(j, "hash") == JStr(p.hash)
    ensures Prop(j, "data") == JStr(p.data) && Prop(j, "name") == JStr(p.name)
    ensures Prop(j, "type") == JStr(p.mime)
  {
    JObj(map["data" := JStr(p.data), "name" := JStr(p.name), "hash" := JStr(p.hash),
             "page" := JInt(p.page), "type" := JStr(p.mime)])
  }

  // ------------------------------------------------------------ basename

  /** The path without its trailing slashes. */
  function TrimSlashes(p: string): (t: string)
    ensures |t| <= |p| && t == p[..|t|]
    ensures t == [] || t[|t| - 1] != '/'
    ensures forall i :: |t| <= i < |p| ==> p[i] == '/'
  {
    if p != [] && p[|p| - 1] == '/' then TrimSlashes(p[..|p| - 1]) else p
  }

  /** The part of `p` after its last slash. */
  function LastSegment(p: string): (s: string)
    ensures |s| <= |p| && s == p[|p| - |s|..]
    ensures '/' !in s
    ensures |s| < |p| ==> p[|p| - |s| - 1] == '/'
  {
    if p == [] || p[|p| - 1] == '/' then []
    else LastSegment(p[..|p| - 1]) + [p[|p| - 1]]
  }

  /** PHP's `basename` without a suffix: the last path component, trailing
      slashes ignored. */
  function Basename(path: string): (b: string)
    ensures '/' !in b
  {
    LastSegment(TrimSlashes(path))
  }

  /** The name of a file in a directory is its basename. */
  lemma {:induction false} BasenameOfJoin(dir: string, name: string)
    requires name != [] && '/' !in name
    ensures Basename(dir + "/" + name) == name
  {
    var p := dir + "/" + name;
    assert TrimSlashes(p) == p;
    LastSegmentOf(dir + "/", name);
  }

  lemma {:induction false} LastSegmentOf(dir: string, name: string)
    requires '/' !in name && (dir != [] ==> dir[|dir| - 1] == '/')
    ensures LastSegment(dir + name) == name
  {
    if name != [] {
      var init, c := name[..|name| - 1], name[|name| - 1];
      assert name == init + [c];
      assert dir + name == (dir + init) + [c];
      LastSegmentStep(dir + init, c);
      LastSegmentOf(dir, init);
    } else {
      assert dir + name == dir;
    }
  }

  /** A character other than `/` extends the last segment. */
  lemma LastSegmentStep(q: string, c: char)
    requires c != '/'
    ensures LastSegment(q + [c]) == LastSegment(q) + [c]
  {
    assert (q + [c])[..|q|] == q;
  }

  /** A basename is its own basename. */
  lemma BasenameIdempotent(path: string)
    ensures Basename(Basename(path)) == Basename(path)
  {
    var b := Basename(path);
    assert b == [] || b[|b| - 1] != '/';
    assert TrimSlashes(b) == b;
    LastSegmentOf([], b);
    assert [] + b == b;
  }
}
