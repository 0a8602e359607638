/**
 * The document library: a list of uploaded files with an icon chosen by
 * extension, a case-insensitive search with a type filter, deletion, editing of
 * a file's description, the upload of new files (prepended to the list) and the
 * stat tiles. Clock, random ids and the backend's answer for a PDF are inputs.
 */
module UploadsSection {
  import opened Wrappers
  import opened Text
  import Seqs

  /** An entry of the library; `fileType` is "resume", "note", "project" or "document". */
  datatype UploadedFile = UploadedFile(
    id: string,
    name: string,
    fileType: string,
    size: string,
    uploadDate: string,
    description: Option<string>)

  /** The component's state. */
  datatype UState = UState(
    files: seq<UploadedFile>,
    searchTerm: string,
    filterType: string,
    editingId: Option<string>,
    editDescription: string)

  /** ---------------------------------------------------------------- icons */

  /** `name.split('.').pop()`: the text after the last '.', the whole name when there is none. */
  function AfterLastDot(name: string): (r: string)
    ensures '.' !in r
    ensures |r| <= |name| && r == name[|name| - |r|..]
    ensures |r| < |name| ==> name[|name| - |r| - 1] == '.'
    ensures '.' !in name ==> r == name
    decreases |name|
  {
    if name == [] then []
    else if name[|name| - 1] == '.' then []
    else AfterLastDot(name[..|name| - 1]) + [name[|name| - 1]]
  }

  /** The lower-cased extension `getFileIcon` looks up. */
  function Extension(name: string): string {
    LowerStr(AfterLastDot(name))
  }

  /** Whatever precedes the last dot, the extension is what follows it. */
  lemma {:induction false} AfterLastDotOfJoined(base: string, ext: string)
    requires '.' !in ext
    ensures AfterLastDot(base + "." + ext) == ext
    decreases |ext|
  {
    var name := base + "." + ext;
    if ext == [] {
      assert name[|name| - 1] == '.';
    } else {
      var shorter := ext[..|ext| - 1];
      assert name[..|name| - 1] == base + "." + shorter;
      assert name[|name| - 1] == ext[|ext| - 1];
      AfterLastDotOfJoined(base, shorter);
      assert shorter + [ext[|ext| - 1]] == ext;
    }
  }

  /** Lower-casing the name first does not change the part after the last dot, except for its case. */
  lemma {:induction false} AfterLastDotOfLower(name: string)
    ensures AfterLastDot(LowerStr(name)) == LowerStr(AfterLastDot(name))
    decreases |name|
  {
    if name != [] {
      var init := name[..|name| - 1];
      var last := name[|name| - 1];
      assert name == init + [last];
      LowerSnoc(init, last);
      if last != '.' {
        AfterLastDotOfLower(init);
        LowerSnoc(AfterLastDot(init), last);
      }
    }
  }

  lemma LowerSnoc(s: string, c: char)
    ensures LowerStr(s + [c]) == LowerStr(s) + [Lower(c)]
    ensures Lower(c) == '.' <==> c == '.'
  {
  }

  const ImageExtensions: seq<string> := ["jpg", "jpeg", "png", "gif", "svg"]
  const CodeExtensions: seq<string> := ["js", "ts", "jsx", "tsx", "py", "java", "cpp"]
  const ArchiveExtensions: seq<string> := ["zip", "rar", "7z", "tar"]

  datatype FileIcon = ImageIcon | CodeIcon | ArchiveIcon | TextIcon

  /** `getFileIcon`: the first extension list holding the extension picks the icon; text otherwise. */
  function IconFor(name: string): (icon: FileIcon)
    ensures icon == ImageIcon <==> Extension(name) in ImageExtensions
    ensures icon == CodeIcon <==>
      Extension(name) !in ImageExtensions && Extension(name) in CodeExtensions
    ensures icon == ArchiveIcon <==>
      Extension(name) !in ImageExtensions + CodeExtensions && Extension(name) in ArchiveExtensions
    ensures icon == TextIcon <==>
      Extension(name) !in ImageExtensions + CodeExtensions + ArchiveExtensions
  {
    var ext := Extension(name);
    if ext in ImageExtensions then ImageIcon
    else if ext in CodeExtensions then CodeIcon
    else if ext in ArchiveExtensions then ArchiveIcon
    else TextIcon
  }

  /** The icon ignores the case of the name. */
  lemma IconIgnoresCase(name: string)
    ensures IconFor(LowerStr(name)) == IconFor(name)
  {
    AfterLastDotOfLower(name);
    LowerStrIdempotent(AfterLastDot(name));
  }

  /** Only the last extension counts: a name "<base>.<ext>" gets the icon of `ext` alone. */
  lemma IconOfLastExtension(base: string, ext: string)
    requires '.' !in ext
    ensures IconFor(base + "." + ext) == IconFor(ext)
  {
    AfterLastDotOfJoined(base, ext);
  }

  /** ---------------------------------------------------------------- search and filter */

  /** The lower-cased term occurs in the lower-cased name or description ("" when there is none). */
  predicate MatchesSearch(f: UploadedFile, term: string) {
    || Contains(LowerStr(f.name), LowerStr(term))
    || Contains(LowerStr(f.description.GetOr("")), LowerStr(term))
  }

  /** The filter is "all" or the file's type. */
  predicate MatchesFilter(f: UploadedFile, filterType: string) {
    filterType == "all" || f.fileType == filterType
  }

  predicate Matches(f: UploadedFile, term: string, filterType: string) {
    MatchesSearch(f, term) && MatchesFilter(f, filterType)
  }

  /** The filter callback. */
  function Keep(term: string, filterType: string): UploadedFile -> bool {
    (f: UploadedFile) => Matches(f, term, filterType)
  }

  /** `filteredFiles`: exactly the matching files, in list order. */
  function FilteredFiles(s: UState): (r: seq<UploadedFile>)
    ensures forall i :: 0 <= i < |s.files| ==> (s.files[i] in r <==> Matches(s.files[i], s.searchTerm, s.filterType))
    ensures forall i :: 0 <= i < |r| ==> r[i] in s.files && Matches(r[i], s.searchTerm, s.filterType)
    ensures Seqs.IsSubsequence(r, s.files)
    ensures |r| == Seqs.Count(s.files, Keep(s.searchTerm, s.filterType))
  {
    var keep := Keep(s.searchTerm, s.filterType);
    Seqs.FilterIsSubsequence(s.files, keep);
    Seqs.CountIsFilterLength(s.files, keep);
    Seqs.Filter(s.files, keep)
  }

  /** With an empty search and the "all" filter every file is listed. */
  lemma EmptySearchListsAll(s: UState)
    requires s.searchTerm == "" && s.filterType == "all"
    ensures FilteredFiles(s) == s.files
  {
    assert LowerStr("") == "";
    forall i | 0 <= i < |s.files|
      ensures Keep("", "all")(s.files[i])
    {
      ContainsEmpty(LowerStr(s.files[i].name));
    }
  }

  /** ---------------------------------------------------------------- delete */

  function HasOtherId(id: string): UploadedFile -> bool {
    (f: UploadedFile) => f.id != id
  }

  /** `handleDelete`: every file with the id goes, every other file stays, in order. */
  function Delete(s: UState, id: string): (r: UState)
    ensures forall i :: 0 <= i < |r.files| ==> r.files[i].id != id && r.files[i] in s.files
    ensures forall i :: 0 <= i < |s.files| && s.files[i].id != id ==> s.files[i] in r.files
    ensures Seqs.IsSubsequence(r.files, s.files)
    ensures (forall i :: 0 <= i < |s.files| ==> s.files[i].id != id) ==> r.files == s.files
    ensures r.searchTerm == s.searchTerm && r.filterType == s.filterType
    ensures r.editingId == s.editingId && r.editDescription == s.editDescription
    ensures |r.files| == Seqs.Count(s.files, HasOtherId(id))
  {
    var keep := HasOtherId(id);
    var kept := Seqs.Filter(s.files, keep);
    Seqs.FilterIsSubsequence(s.files, keep);
    Seqs.CountIsFilterLength(s.files, keep);
    s.(files := kept)
  }

  /** ---------------------------------------------------------------- edit */

  /** `files.find(f => f.id === id)`: the index of the first file with the id. */
  function FileId(f: UploadedFile): string {
    f.id
  }

  function FindFile(files: seq<UploadedFile>, id: string): Option<nat> {
    Seqs.FindKey(files, FileId, id)
  }

  /**
   * `handleEdit`: for a known id, the editor opens on the first such file with its
   * description ("" when it has none); an unknown id changes nothing.
   */
  function StartEdit(s: UState, id: string): (r: UState)
    ensures FindFile(s.files, id).None? ==> r == s
    ensures FindFile(s.files, id).Some? ==>
      && r.editingId == Some(id)
      && r.editDescription == s.files[FindFile(s.files, id).value].description.GetOr("")
    ensures r.files == s.files && r.searchTerm == s.searchTerm && r.filterType == s.filterType
  {
    match FindFile(s.files, id)
    case None => s
    case Some(i) => s.(editingId := Some(id), editDescription := s.files[i].description.GetOr(""))
  }

  /** Typing in the editor. */
  function TypeDescription(s: UState, text: string): (r: UState)
    ensures r.editDescription == text
    ensures r.files == s.files && r.editingId == s.editingId
  {
    s.(editDescription := text)
  }

  /** The editor's Cancel button: closes the editor, keeping the typed text and the files. */
  function CancelEdit(s: UState): (r: UState)
    ensures r.editingId.None?
    ensures r.files == s.files && r.editDescription == s.editDescription
  {
    s.(editingId := None)
  }

  /** The file after a save: its description replaced when its id is the one saved. */
  function Saved(f: UploadedFile, id: string, description: string): UploadedFile {
    if f.id == id then f.(description := Some(description)) else f
  }

  /**
   * `handleSaveEdit`: the files with the id get the typed description and nothing
   * else about them changes; every other file is untouched; the editor closes.
   */
  function SaveEdit(s: UState, id: string): (r: UState)
    ensures |r.files| == |s.files|
    ensures forall i :: 0 <= i < |s.files| && s.files[i].id == id ==>
      r.files[i].description == Some(s.editDescription)
      && r.files[i].(description := s.files[i].description) == s.files[i]
    ensures forall i :: 0 <= i < |s.files| && s.files[i].id != id ==> r.files[i] == s.files[i]
    ensures r.editingId.None? && r.editDescription == ""
    ensures r.searchTerm == s.searchTerm && r.filterType == s.filterType
  {
    var files := seq(|s.files|, i requires 0 <= i < |s.files| => Saved(s.files[i], id, s.editDescription));
    s.(files := files, editingId := None, editDescription := "")
  }

  /** The ids of the list are pairwise distinct. */
  predicate DistinctIds(files: seq<UploadedFile>) {
    forall i, j :: 0 <= i < j < |files| ==> files[i].id != files[j].id
  }

  /**
   * Opening the editor on a file with a description and saving without typing
   * leaves the list as it was, when ids are distinct.
   */
  lemma EditRoundTrip(s: UState, i: nat)
    requires DistinctIds(s.files)
    requires i < |s.files| && s.files[i].description.Some?
    ensures SaveEdit(StartEdit(s, s.files[i].id), s.files[i].id).files == s.files
  {
    var id := s.files[i].id;
    var found := FindFile(s.files, id);
    assert found == Some(i);
    var r := SaveEdit(StartEdit(s, id), id);
    forall k | 0 <= k < |s.files|
      ensures r.files[k] == s.files[k]
    {
    }
  }

  /** ---------------------------------------------------------------- upload */

  /** A file chosen or dropped by the user: its name and its size in bytes. */
  datatype Incoming = Incoming(name: string, bytes: nat)

  /** `name.toLowerCase().endsWith('.pdf')`: such a file goes to the indexing backend. */
  predicate IsPdf(name: string) {
    EndsWith(LowerStr(name), ".pdf")
  }

  /** The PDF check ignores case. */
  lemma IsPdfIgnoresCase(name: string)
    ensures IsPdf(LowerStr(name)) <==> IsPdf(name)
  {
    LowerStrIdempotent(name);
  }

  /** One megabyte, `1024 * 1024`. */
  const Megabyte: nat := 1048576

  /** `(bytes / 1024).toFixed(0)` as a number: kilobytes rounded to nearest, halves up. */
  function KbRounded(bytes: nat): (k: nat)
    ensures k * 1024 <= bytes + 512 < k * 1024 + 1024
  {
    (bytes + 512) / 1024
  }

  /** `(bytes / (1024 * 1024)).toFixed(1)` as tenths: megabytes to the nearest tenth, halves up. */
  function MbTenths(bytes: nat): (t: nat)
    ensures t * Megabyte <= 10 * bytes + Megabyte / 2 < t * Megabyte + Megabyte
  {
    (10 * bytes + Megabyte / 2) / Megabyte
  }

  /**
   * The size label: "<tenths as d.d> MB" above one megabyte, "<k> KB" otherwise.
   * Both start with the whole number they show.
   */
  function SizeLabel(bytes: nat): (text: string)
    ensures bytes > Megabyte ==>
      text == NatToString(MbTenths(bytes) / 10) + "." + [DigitChar(MbTenths(bytes) % 10)] + " MB"
    ensures bytes <= Megabyte ==> text == NatToString(KbRounded(bytes)) + " KB"
    ensures EndsWith(text, " MB") <==> bytes > Megabyte
    ensures EndsWith(text, " KB") <==> bytes <= Megabyte
  {
    if bytes > Megabyte then
      var t := MbTenths(bytes);
      NatToString(t / 10) + "." + [DigitChar(t % 10)] + " MB"
    else
      NatToString(KbRounded(bytes)) + " KB"
  }

  /** `parseInt` of the label reads the whole megabytes, or the rounded kilobytes. */
  lemma SizeLabelParses(bytes: nat)
    ensures bytes > Megabyte ==> ParseInt(SizeLabel(bytes)) == Some(MbTenths(bytes) / 10)
    ensures bytes <= Megabyte ==> ParseInt(SizeLabel(bytes)) == Some(KbRounded(bytes))
  {
    if bytes > Megabyte {
      var t := MbTenths(bytes);
      var rest := "." + [DigitChar(t % 10)] + " MB";
      assert SizeLabel(bytes) == NatToString(t / 10) + rest;
      ParseIntOfDecimal(t / 10, rest);
    } else {
      ParseIntOfDecimal(KbRounded(bytes), " KB");
    }
  }

  /**
   * One file of an upload, with what the model takes as inputs: the generated id,
   * today's date, and for a PDF the backend's chunk count when it indexed the file
   * (`None` when it refused or could not be reached).
   */
  datatype Upload = Upload(file: Incoming, id: string, date: string, pdfChunks: Option<string>)

  /** Whether the upload adds an entry: every non-PDF file, and a PDF the backend indexed. */
  predicate Accepted(u: Upload) {
    !IsPdf(u.file.name) || u.pdfChunks.Some?
  }

  /** The description of the new entry. */
  function UploadDescription(u: Upload): string {
    if IsPdf(u.file.name) && u.pdfChunks.Some? then
      "PDF processed into " + u.pdfChunks.value + " text chunks for RAG"
    else
      "Uploaded " + u.file.name
  }

  /**
   * One iteration of `handleFileUpload`: an accepted file is prepended as a
   * 'document' entry with its name, size label and date; otherwise the list stays.
   */
  function UploadOne(files: seq<UploadedFile>, u: Upload): (r: seq<UploadedFile>)
    ensures Accepted(u) ==> |r| == |files| + 1 && r[1..] == files
    ensures Accepted(u) ==>
      r[0] == UploadedFile(u.id, u.file.name, "document", SizeLabel(u.file.bytes), u.date,
                           Some(UploadDescription(u)))
    ensures !Accepted(u) ==> r == files
  {
    if Accepted(u) then
      [UploadedFile(u.id, u.file.name, "document", SizeLabel(u.file.bytes), u.date,
                    Some(UploadDescription(u)))] + files
    else files
  }

  /** A non-PDF file is described as uploaded under its own name; an indexed PDF by its chunk count. */
  lemma UploadDescriptions(u: Upload)
    ensures !IsPdf(u.file.name) ==> UploadDescription(u) == "Uploaded " + u.file.name
    ensures IsPdf(u.file.name) && u.pdfChunks.Some? ==>
      UploadDescription(u) == "PDF processed into " + u.pdfChunks.value + " text chunks for RAG"
  {
  }

  /**
   * `handleFileUpload` over all chosen files, in order: each accepted file is
   * prepended, so the old list stays at the end, untouched, and the list grows by
   * the number of accepted files.
   */
  function UploadAll(files: seq<UploadedFile>, batch: seq<Upload>): (r: seq<UploadedFile>)
    ensures |r| == |files| + Seqs.Count(batch, Accepted)
    ensures r[|r| - |files|..] == files
    decreases |batch|
  {
    if batch == [] then files
    else
      var next := UploadOne(files, batch[0]);
      var r := UploadAll(next, batch[1..]);
      assert r[|r| - |next|..][|next| - |files|..] == r[|r| - |files|..];
      r
  }

  /** The last accepted file of a batch ends up first in the list. */
  lemma LastUploadFirst(files: seq<UploadedFile>, batch: seq<Upload>, u: Upload)
    requires Accepted(u)
    ensures |UploadAll(files, batch + [u])| > |files|
    ensures UploadAll(files, batch + [u])[0].name == u.file.name
    ensures UploadAll(files, batch + [u])[0].id == u.id
    decreases |batch|
  {
    if batch == [] {
      assert UploadAll(files, [u]) == UploadAll(UploadOne(files, u), []);
    } else {
      assert (batch + [u])[1..] == batch[1..] + [u];
      LastUploadFirst(UploadOne(files, batch[0]), batch[1..], u);
    }
  }

  /** ---------------------------------------------------------------- stats */

  datatype Stats = Stats(total: nat, resumes: nat, projects: nat, notes: nat)

  predicate IsResume(f: UploadedFile) { f.fileType == "resume" }
  predicate IsProject(f: UploadedFile) { f.fileType == "project" }
  predicate IsNote(f: UploadedFile) { f.fileType == "note" }

  /** The four stat tiles: all files, and the resumes, projects and notes among them. */
  function StatTiles(files: seq<UploadedFile>): (st: Stats)
    ensures st.total == |files|
    ensures st.resumes <= st.total && st.projects <= st.total && st.notes <= st.total
  {
    Stats(|files|, Seqs.Count(files, IsResume), Seqs.Count(files, IsProject), Seqs.Count(files, IsNote))
  }

  /** No file is counted twice: the three type tiles together never exceed the total. */
  lemma {:induction false} StatTilesDisjoint(files: seq<UploadedFile>)
    ensures var st := StatTiles(files);
      st.resumes + st.projects + st.notes <= st.total
  {
    if files != [] {
      StatTilesDisjoint(files[1..]);
    }
  }

  /** Uploads only add documents: the type tiles stay and the total grows by the accepted files. */
  lemma {:induction false} UploadKeepsTypeTiles(files: seq<UploadedFile>, batch: seq<Upload>)
    ensures var before := StatTiles(files);
      var after := StatTiles(UploadAll(files, batch));
      && after.total == before.total + Seqs.Count(batch, Accepted)
      && after.resumes == before.resumes
      && after.projects == before.projects
      && after.notes == before.notes
    decreases |batch|
  {
    if batch != [] {
      var next := UploadOne(files, batch[0]);
      UploadKeepsTypeTiles(next, batch[1..]);
      if Accepted(batch[0]) {
        assert next[1..] == files;
      }
    }
  }
}
