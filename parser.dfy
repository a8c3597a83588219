/** The entry loop of Parse in parser.go. Opening the archive and decoding an
    entry's JSON are outside the model: the archive arrives as the outcome of
    opening it, and each entry carries the outcome of decoding it as a page and
    as a document. */
module Parser {
  import opened Wrappers

  /** An error returned by zip.OpenReader or by decoding an entry, passed on unchanged. */
  datatype Failure = Failure(message: string)

  /** A decoded page; the remaining fields of the Go record are not modelled. */
  datatype Page = Page(Class: string, DoObjectID: string, Name: string)

  /** A decoded document; the remaining fields of the Go record are not modelled. */
  datatype Document = Document(Class: string, DoObjectID: string)

  /** The zero value Document{}. */
  const ZeroDocument := Document("", "")

  /** An archive entry: its name and what decoding its contents as a Page and
      as a Document yields. */
  datatype Entry = Entry(name: string, asPage: Result<Page, Failure>, asDocument: Result<Document, Failure>)

  /** What Parse returns: the document and the pages by their own names. */
  datatype File = File(Document: Document, Pages: map<string, Page>)

  /** The value Parse starts from: a zero document and an empty page map. */
  const EmptyFile := File(ZeroDocument, map[])

  const PagesPrefix := "pages/"
  const DocumentPath := "document.json"

  /** strings.HasPrefix(name, "pages/") */
  predicate IsPagePath(name: string) {
    |name| >= |PagesPrefix| && name[..|PagesPrefix|] == PagesPrefix
  }

  /** An entry that decoded as a page under a page path. */
  predicate IsPage(e: Entry) {
    IsPagePath(e.name) && e.asPage.Ok?
  }

  /** An entry that decoded as the document under the document path. */
  predicate IsDocument(e: Entry) {
    e.name == DocumentPath && e.asDocument.Ok?
  }

  /** An entry that makes Parse return an error. */
  predicate Fails(e: Entry) {
    (IsPagePath(e.name) && e.asPage.Err?) || (e.name == DocumentPath && e.asDocument.Err?)
  }

  function FailureOf(e: Entry): Failure
    requires Fails(e)
  {
    if IsPagePath(e.name) && e.asPage.Err? then e.asPage.error else e.asDocument.error
  }

  /** Every page is stored under its own Name. */
  predicate KeyedByName(pages: map<string, Page>) {
    forall k :: k in pages ==> pages[k].Name == k
  }

  /** One turn of the loop: a page path decodes a page and stores it under its
      Name, then the document path decodes the document and replaces it. */
  function Step(file: File, e: Entry): (r: Result<File, Failure>)
    ensures r.Ok? ==> file.Pages.Keys <= r.value.Pages.Keys
    ensures r.Ok? && KeyedByName(file.Pages) ==> KeyedByName(r.value.Pages)
  {
    var afterPage :-
      if IsPagePath(e.name) then
        match e.asPage
        case Ok(p) => Ok(file.(Pages := file.Pages[p.Name := p]))
        case Err(f) => Err(f)
      else Ok(file);
    if e.name == DocumentPath then
      match e.asDocument
      case Ok(d) => Ok(afterPage.(Document := d))
      case Err(f) => Err(f)
    else Ok(afterPage)
  }

  /** What the loop has built after the given entries, or the error it stopped with. */
  function Collect(entries: seq<Entry>): (r: Result<File, Failure>)
    ensures r.Ok? ==> KeyedByName(r.value.Pages)
  {
    if entries == [] then Ok(EmptyFile)
    else
      var file :- Collect(entries[..|entries| - 1]);
      Step(file, entries[|entries| - 1])
  }

  /** Parse: a failure to open the archive is returned as is; otherwise the
      entries are handled in archive order and the first failing one ends the
      loop with its error and no file. */
  method Parse(archive: Result<seq<Entry>, Failure>) returns (r: Result<File, Failure>)
    ensures archive.Err? ==> r == Err(archive.error)
    ensures archive.Ok? ==> r == Collect(archive.value)
  {
    var document := ZeroDocument;
    var pages: map<string, Page> := map[];
    if archive.Err? {
      return Err(archive.error);
    }
    var entries := archive.value;
    var i := 0;
    while i < |entries|
      invariant 0 <= i <= |entries|
      invariant Collect(entries[..i]) == Ok(File(document, pages))
    {
      var e := entries[i];
      assert entries[..i + 1][..i] == entries[..i];
      if IsPagePath(e.name) {
        if e.asPage.Err? {
          FailureIsFinal(entries, i + 1);
          return Err(e.asPage.error);
        }
        var page := e.asPage.value;
        pages := pages[page.Name := page];
      }
      if e.name == DocumentPath {
        if e.asDocument.Err? {
          FailureIsFinal(entries, i + 1);
          return Err(e.asDocument.error);
        }
        document := e.asDocument.value;
      }
      i := i + 1;
    }
    assert entries[..i] == entries;
    return Ok(File(document, pages));
  }

  /** No name is both a page path and the document path. */
  lemma PathClassesDisjoint(name: string)
    ensures !(IsPagePath(name) && name == DocumentPath)
  {
    if name == DocumentPath {
      assert name[0] == 'd';
    }
  }

  /** A turn of the loop fails exactly on a failing entry, with that entry's error. */
  lemma StepFails(file: File, e: Entry)
    ensures Step(file, e).Err? <==> Fails(e)
    ensures Step(file, e).Err? ==> Step(file, e).error == FailureOf(e)
  {
    PathClassesDisjoint(e.name);
  }

  /** A page entry changes only the page stored under its Name. */
  lemma StepPage(file: File, e: Entry)
    requires IsPage(e)
    ensures Step(file, e) == Ok(file.(Pages := file.Pages[e.asPage.value.Name := e.asPage.value]))
  {
    PathClassesDisjoint(e.name);
  }

  /** A document entry changes only the document. */
  lemma StepDocument(file: File, e: Entry)
    requires IsDocument(e)
    ensures Step(file, e) == Ok(file.(Document := e.asDocument.value))
  {
    PathClassesDisjoint(e.name);
  }

  /** Once an error has been returned, later entries change nothing. */
  lemma {:induction false} FailureIsFinal(entries: seq<Entry>, n: nat)
    requires n <= |entries|
    requires Collect(entries[..n]).Err?
    ensures Collect(entries) == Collect(entries[..n])
  {
    if n == |entries| {
      assert entries[..n] == entries;
    } else {
      var init := entries[..|entries| - 1];
      assert init[..n] == entries[..n];
      FailureIsFinal(init, n);
    }
  }

  /** Parse fails exactly when some entry fails, and then with the error of the
      first failing entry. */
  lemma {:induction false} FirstFailureWins(entries: seq<Entry>)
    ensures Collect(entries).Err? <==> exists i :: 0 <= i < |entries| && Fails(entries[i])
    ensures Collect(entries).Err? ==>
      exists i :: 0 <= i < |entries| && Fails(entries[i]) && Collect(entries).error == FailureOf(entries[i])
        && forall j :: 0 <= j < i ==> !Fails(entries[j])
  {
    if entries != [] {
      var init, e := entries[..|entries| - 1], entries[|entries| - 1];
      FirstFailureWins(init);
      assert forall i :: 0 <= i < |init| ==> init[i] == entries[i];
      if Collect(init).Ok? {
        StepFails(Collect(init).value, e);
      }
    }
  }

  /** No later entry is a page with this name. */
  predicate NoLaterPage(entries: seq<Entry>, i: int, name: string) {
    forall j :: 0 <= j < |entries| && i < j && IsPage(entries[j]) ==> entries[j].asPage.value.Name != name
  }

  /** No later entry is named document.json. */
  predicate NoLaterDocument(entries: seq<Entry>, i: int) {
    forall j :: 0 <= j < |entries| && i < j ==> entries[j].name != DocumentPath
  }

  /** The pages of a successful parse are keyed by the pages' own Name fields,
      one key per name that occurs, and each holds the last page with that name. */
  lemma {:induction false} PagesByLastName(entries: seq<Entry>, file: File)
    requires Collect(entries) == Ok(file)
    ensures forall name :: name in file.Pages <==>
      exists i :: 0 <= i < |entries| && IsPage(entries[i]) && entries[i].asPage.value.Name == name
    ensures forall i :: 0 <= i < |entries| && IsPage(entries[i]) && NoLaterPage(entries, i, entries[i].asPage.value.Name) ==>
      file.Pages[entries[i].asPage.value.Name] == entries[i].asPage.value
  {
    if entries != [] {
      var init, e := entries[..|entries| - 1], entries[|entries| - 1];
      var before := Collect(init).value;
      PagesByLastName(init, before);
      assert forall i :: 0 <= i < |init| ==> init[i] == entries[i];
      StepFails(before, e);
      if IsPage(e) {
        StepPage(before, e);
      } else {
        if IsDocument(e) {
          StepDocument(before, e);
        }
        assert file.Pages == before.Pages;
      }
    }
  }

  /** A turn of the loop on an entry not named document.json keeps the document. */
  lemma StepKeepsDocument(file: File, e: Entry)
    requires Step(file, e).Ok? && e.name != DocumentPath
    ensures Step(file, e).value.Document == file.Document
  {
  }

  /** The document of a successful parse is the last document.json entry. */
  lemma {:induction false} DocumentIsLast(entries: seq<Entry>, file: File)
    requires Collect(entries) == Ok(file)
    ensures forall i :: 0 <= i < |entries| && entries[i].name == DocumentPath && NoLaterDocument(entries, i) ==>
      entries[i].asDocument == Ok(file.Document)
  {
    if entries != [] {
      var init, e := entries[..|entries| - 1], entries[|entries| - 1];
      var before := Collect(init).value;
      StepFails(before, e);
      if e.name == DocumentPath {
        StepDocument(before, e);
      } else {
        DocumentIsLast(init, before);
        StepKeepsDocument(before, e);
        forall i | 0 <= i < |entries| && entries[i].name == DocumentPath && NoLaterDocument(entries, i)
          ensures entries[i].asDocument == Ok(file.Document)
        {
          assert init[i] == entries[i];
          assert NoLaterDocument(init, i);
        }
      }
    }
  }

  /** Without a document.json entry a successful parse keeps the zero document. */
  lemma {:induction false} DocumentAbsent(entries: seq<Entry>, file: File)
    requires Collect(entries) == Ok(file)
    requires forall i :: 0 <= i < |entries| ==> entries[i].name != DocumentPath
    ensures file.Document == ZeroDocument
  {
    if entries != [] {
      var init, e := entries[..|entries| - 1], entries[|entries| - 1];
      var before := Collect(init).value;
      DocumentAbsent(init, before);
      StepKeepsDocument(before, e);
    }
  }

  /** An entry that is neither under pages/ nor named document.json changes nothing. */
  lemma IgnoredEntry(entries: seq<Entry>, e: Entry)
    requires !IsPagePath(e.name) && e.name != DocumentPath
    ensures Collect(entries + [e]) == Collect(entries)
  {
    assert (entries + [e])[..|entries|] == entries;
  }

  /** An archive without page or document entries gives the zero document and
      an empty page map, not an error. */
  lemma {:induction false} NothingMatches(entries: seq<Entry>)
    requires forall i :: 0 <= i < |entries| ==> !IsPagePath(entries[i].name) && entries[i].name != DocumentPath
    ensures Collect(entries) == Ok(EmptyFile)
  {
    if entries != [] {
      var init := entries[..|entries| - 1];
      NothingMatches(init);
      IgnoredEntry(init, entries[|entries| - 1]);
      assert init + [entries[|entries| - 1]] == entries;
    }
  }

  /** Without a document.json entry the walk can only fail on a page entry
      whose decode failed. */
  lemma DocumentAbsentFails(entries: seq<Entry>)
    requires forall i :: 0 <= i < |entries| ==> entries[i].name != DocumentPath
    ensures Collect(entries).Err? ==>
      exists i :: 0 <= i < |entries| && IsPagePath(entries[i].name) && entries[i].asPage.Err?
  {
    FirstFailureWins(entries);
  }
}
