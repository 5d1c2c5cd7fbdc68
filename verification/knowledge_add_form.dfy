/** The add-document form: a heading and a source label chosen by the add
    type, a title derived from a chosen file's name or a fixed title for a
    URL, and a save that hands a candidate to the store only when the
    title is non-empty. */
module KnowledgeAddForm {
  import opened Base
  import opened KnowledgeStore

  /** The form's fields; `kind` is the add type chosen on the previous
      screen ("blank", "pdf", "url"). */
  datatype Form = Form(kind: Option<string>, title: string, content: string, url: string, fileName: string)

  /** The empty form for an add type. */
  function NewForm(kind: Option<string>): (f: Form)
    ensures f.kind == kind && f.title == "" && f.content == "" && f.url == "" && f.fileName == ""
  {
    Form(kind, "", "", "", "")
  }

  /** The form's heading. */
  function FormTitle(kind: Option<string>): (r: string)
    ensures kind == Some("blank") ==> r == "Create New Document"
    ensures kind == Some("pdf") ==> r == "Upload PDF Document"
    ensures kind == Some("url") ==> r == "Add from URL"
    ensures kind !in {Some("blank"), Some("pdf"), Some("url")} ==> r == "Add Document"
  {
    match kind
    case Some(k) =>
      if k == "blank" then "Create New Document"
      else if k == "pdf" then "Upload PDF Document"
      else if k == "url" then "Add from URL"
      else "Add Document"
    case None => "Add Document"
  }

  /** The source label a saved document carries. */
  function SourceLabel(kind: Option<string>): (r: string)
    ensures kind == Some("pdf") ==> r == "Uploaded PDF"
    ensures kind == Some("url") ==> r == "Web Page"
    ensures kind != Some("pdf") && kind != Some("url") ==> r == "Internal Document"
  {
    if kind == Some("pdf") then "Uploaded PDF"
    else if kind == Some("url") then "Web Page"
    else "Internal Document"
  }

  /** Position `i` starts an extension: a '.' followed, up to the end of the
      name, by one or more characters none of which is '/' or '.'. This is
      where the pattern `\.[^/.]+$` matches. */
  predicate ExtensionAt(name: string, i: int) {
    && 0 <= i < |name| - 1
    && name[i] == '.'
    && forall j :: i < j < |name| ==> name[j] != '/' && name[j] != '.'
  }

  /** The index of the last '.' in `name`. */
  function LastDot(name: string): (r: Option<nat>)
    ensures r.Some? ==> r.value < |name| && name[r.value] == '.'
    ensures r.Some? ==> forall j :: r.value < j < |name| ==> name[j] != '.'
    ensures r.None? ==> forall j :: 0 <= j < |name| ==> name[j] != '.'
    decreases |name|
  {
    if |name| == 0 then None
    else if name[|name| - 1] == '.' then Some(|name| - 1)
    else LastDot(name[..|name| - 1])
  }

  /** The file name with its extension, if it has one, removed. */
  function StripExtension(name: string): (r: string)
    ensures forall i :: ExtensionAt(name, i) ==> r == name[..i]
    ensures (forall i :: !ExtensionAt(name, i)) ==> r == name
  {
    match LastDot(name)
    case None => name
    case Some(i) =>
      if i < |name| - 1 && forall j :: i < j < |name| ==> name[j] != '/' then
        assert ExtensionAt(name, i);
        name[..i]
      else
        name
  }

  /** A name built as base, '.', and a non-empty extension without '/' or
      '.' loses exactly that extension. */
  lemma StripAddedExtension(base: string, ext: string)
    requires |ext| > 0
    requires forall j :: 0 <= j < |ext| ==> ext[j] != '/' && ext[j] != '.'
    ensures StripExtension(base + "." + ext) == base
  {
    var name := base + "." + ext;
    assert forall j :: |base| < j < |name| ==> name[j] == ext[j - |base| - 1];
    assert ExtensionAt(name, |base|);
    assert name[..|base|] == base;
  }

  /** Only the last extension goes: "a.tar.gz" becomes "a.tar". */
  lemma StripDoubleExtension()
    ensures StripExtension("a.tar.gz") == "a.tar"
  {
    assert ExtensionAt("a.tar.gz", 5);
  }

  /** A name ending in '.' has no extension and is kept whole. */
  lemma StripKeepsTrailingDot(base: string)
    ensures StripExtension(base + ".") == base + "."
  {
    var name := base + ".";
    forall i | 0 <= i < |name| - 1 ensures !ExtensionAt(name, i) {
      assert name[|name| - 1] == '.';
    }
  }

  /** A chosen file: its name, the name without the extension as title, and
      a placeholder content naming the file. No file leaves the form as is. */
  function FileChosen(f: Form, file: Option<string>): (g: Form)
    ensures file.None? ==> g == f
    ensures file.Some? ==>
      && g.fileName == file.value
      && g.title == StripExtension(file.value)
      && g.content == "Content from " + file.value + " will be extracted here upon processing."
      && g.kind == f.kind && g.url == f.url
  {
    match file
    case None => f
    case Some(name) =>
      f.(fileName := name, title := StripExtension(name),
         content := "Content from " + name + " will be extracted here upon processing.")
  }

  /** A URL typed in: the URL, a fixed title, and a placeholder content
      naming the URL. */
  function UrlChanged(f: Form, url: string): (g: Form)
    ensures g.url == url && g.title == "Content from URL"
    ensures g.content == "Content from " + url + " will be fetched and displayed here."
    ensures g.kind == f.kind && g.fileName == f.fileName
  {
    f.(url := url, title := "Content from URL",
       content := "Content from " + url + " will be fetched and displayed here.")
  }

  /** Save: nothing is handed over while the title is empty; otherwise the
      candidate carries exactly the title, the content and the label. */
  function Save(f: Form): (r: Option<Candidate>)
    ensures r.None? <==> f.title == ""
    ensures r.Some? ==> r.value == Candidate(f.title, f.content, SourceLabel(f.kind))
  {
    if f.title == "" then None else Some(Candidate(f.title, f.content, SourceLabel(f.kind)))
  }

  /** A URL form always saves, as a web page when the type is "url". */
  lemma UrlFormSaves(kind: Option<string>, url: string)
    ensures var r := Save(UrlChanged(NewForm(kind), url));
            && r.Some?
            && r.value.title == "Content from URL"
            && (kind == Some("url") ==> r.value.source == "Web Page")
  {
  }

  /** A chosen "report.pdf" on the PDF form saves as "report", an uploaded
      PDF. */
  lemma PdfFileSaves()
    ensures var r := Save(FileChosen(NewForm(Some("pdf")), Some("report.pdf")));
            && r.Some? && r.value.title == "report" && r.value.source == "Uploaded PDF"
  {
    StripAddedExtension("report", "pdf");
    assert "report" + "." + "pdf" == "report.pdf";
  }

  /** A file named only by its extension, like ".env", strips to an empty
      title, and that form refuses to save. */
  lemma DotFileCannotSave()
    ensures Save(FileChosen(NewForm(Some("pdf")), Some(".env"))).None?
  {
    StripAddedExtension("", "env");
    assert "" + "." + "env" == ".env";
  }
}
