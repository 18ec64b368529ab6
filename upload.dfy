/** What the file-input handler derives from the input before it changes
    anything: the file name, its extension and whether that extension is allowed
    (Billed-app-FR-Front/src/containers/NewBill.js, `handleChangeFile`). */
module Upload {
  import opened JsStrings

  /** A browser `File` object, known only by its identity. */
  datatype FileHandle = FileHandle(id: nat)

  const Backslash: char := '\\'
  const Dot: char := '.'

  /** The only extensions an upload may have, compared after lower-casing. */
  const AllowedExtensions: seq<string> := ["jpg", "jpeg", "png"]

  /** The file name in the input's value (`C:\fakepath\name.ext` in browsers):
      the last piece after splitting on backslashes. */
  function FileNameOf(inputValue: string): (name: string)
    ensures Backslash !in name
    ensures name == inputValue[LastIndexOf(inputValue, Backslash) + 1..]
    ensures Backslash !in inputValue ==> name == inputValue
  {
    LastSegmentAfterLastSep(inputValue, Backslash);
    LastSegment(inputValue, Backslash)
  }

  /** The lower-cased last piece of the name split on dots. */
  function ExtensionOf(fileName: string): string {
    ToLower(LastSegment(fileName, Dot))
  }

  /** The extension is the lower-cased text after the last dot; a name without
      a dot is its own "extension"; an extension never holds a dot. */
  lemma ExtensionAfterLastDot(fileName: string)
    ensures ExtensionOf(fileName) == ToLower(fileName[LastIndexOf(fileName, Dot) + 1..])
    ensures Dot !in fileName ==> ExtensionOf(fileName) == ToLower(fileName)
    ensures Dot !in ExtensionOf(fileName)
  {
    LastSegmentAfterLastSep(fileName, Dot);
    var seg := LastSegment(fileName, Dot);
    assert forall i :: 0 <= i < |seg| ==> ToLower(seg)[i] == ToLowerChar(seg[i]);
  }

  predicate IsAllowedExtension(ext: string) {
    ext in AllowedExtensions
  }

  /** Whether a selection whose input value is `inputValue` passes the extension check. */
  predicate Accepts(inputValue: string) {
    IsAllowedExtension(ExtensionOf(FileNameOf(inputValue)))
  }

  /** The three outcomes of a change of the file input. */
  datatype Verdict = Cancelled | Rejected | Accepted(file: FileHandle, fileName: string)

  /** The outcome of a change event, from the input's value and its selected files:
      no file means the picker was cancelled; otherwise the extension decides. */
  function Decide(inputValue: string, files: seq<FileHandle>): (v: Verdict)
    ensures v.Cancelled? <==> |files| == 0
    ensures v.Rejected? <==> |files| > 0 && !Accepts(inputValue)
    ensures v.Accepted? <==> |files| > 0 && Accepts(inputValue)
    ensures v.Accepted? ==> v.file == files[0] && v.fileName == FileNameOf(inputValue)
    ensures v.Accepted? ==> Backslash !in v.fileName && IsAllowedExtension(ExtensionOf(v.fileName))
  {
    if |files| == 0 then Cancelled
    else if !Accepts(inputValue) then Rejected
    else Accepted(files[0], FileNameOf(inputValue))
  }

  /** The verdict ignores letter case: an input value and its lower-cased form
      are accepted alike. */
  lemma AcceptsIgnoresCase(inputValue: string)
    ensures Accepts(ToLower(inputValue)) == Accepts(inputValue)
  {
    ToLowerCommutesWithLastSegment(inputValue, Backslash);
    var name := FileNameOf(inputValue);
    ToLowerCommutesWithLastSegment(name, Dot);
    ToLowerIdempotent(LastSegment(name, Dot));
  }

  /** Two input values that differ only in the case of their letters get the same verdict. */
  lemma SameVerdictUpToCase(a: string, b: string)
    requires ToLower(a) == ToLower(b)
    ensures Accepts(a) == Accepts(b)
  {
    AcceptsIgnoresCase(a);
    AcceptsIgnoresCase(b);
  }

  /** The allowed extensions, spelled out. */
  lemma AllowedExtensionIff(ext: string)
    ensures IsAllowedExtension(ext) <==> ext == "jpg" || ext == "jpeg" || ext == "png"
  {
  }

  /** Acceptance is decided by the text after the last dot of the text after the
      last backslash, lower-cased, and nothing else. */
  lemma AcceptsIff(inputValue: string, name: string, ext: string)
    requires name == inputValue[LastIndexOf(inputValue, Backslash) + 1..]
    requires ext == ToLower(name[LastIndexOf(name, Dot) + 1..])
    ensures Accepts(inputValue) <==> ext == "jpg" || ext == "jpeg" || ext == "png"
  {
    ExtensionAfterLastDot(name);
    AllowedExtensionIff(ext);
  }

  /** The name in a value of the form `dir\name` is `name`, whatever `dir` holds. */
  lemma FileNameAfterDirectory(dir: string, name: string)
    requires Backslash !in name
    ensures FileNameOf(dir + [Backslash] + name) == name
  {
    var v := dir + [Backslash] + name;
    assert v[|dir|] == Backslash && v[|dir| + 1..] == name;
    LastIndexOfUnique(v, Backslash, |dir|);
  }

  /** The extension of `base.ext` is `ext` lower-cased, whatever `base` holds. */
  lemma ExtensionAfterBase(base: string, ext: string)
    requires Dot !in ext
    ensures ExtensionOf(base + [Dot] + ext) == ToLower(ext)
  {
    var name := base + [Dot] + ext;
    assert name[|base|] == Dot && name[|base| + 1..] == ext;
    LastIndexOfUnique(name, Dot, |base|);
    ExtensionAfterLastDot(name);
  }

  /** A value `dir\base.ext` from the browser is accepted exactly when `ext`,
      lower-cased, is an allowed extension, whatever `dir` and `base` hold. */
  lemma AcceptsPath(dir: string, base: string, ext: string)
    requires Backslash !in base && Backslash !in ext && Dot !in ext
    ensures Accepts(dir + [Backslash] + base + [Dot] + ext) <==> IsAllowedExtension(ToLower(ext))
  {
    var name := base + [Dot] + ext;
    assert dir + [Backslash] + base + [Dot] + ext == dir + [Backslash] + name;
    FileNameAfterDirectory(dir, name);
    ExtensionAfterBase(base, ext);
  }

  /** An upper-case `JPG` extension is accepted. */
  lemma AcceptsUpperCaseJpg(dir: string, base: string)
    requires Backslash !in base
    ensures Accepts(dir + [Backslash] + base + [Dot] + "JPG")
  {
    AcceptsPath(dir, base, "JPG");
    assert ToLower("JPG") == AllowedExtensions[0];
  }

  /** A PDF is rejected. */
  lemma RejectsPdf(dir: string, base: string)
    requires Backslash !in base
    ensures !Accepts(dir + [Backslash] + base + [Dot] + "pdf")
  {
    AcceptsPath(dir, base, "pdf");
    assert ToLower("pdf") == "pdf";
    AllowedExtensionIff("pdf");
  }

  /** Only the last extension counts: `photo.jpg.pdf` is a PDF. */
  lemma OnlyLastExtensionCounts(dir: string, base: string)
    requires Backslash !in base
    ensures !Accepts(dir + [Backslash] + base + [Dot] + "jpg" + [Dot] + "pdf")
  {
    RejectsPdf(dir, base + [Dot] + "jpg");
    assert dir + [Backslash] + base + [Dot] + "jpg" + [Dot] + "pdf"
        == dir + [Backslash] + (base + [Dot] + "jpg") + [Dot] + "pdf";
  }

  /** A name without any dot is its own extension: a file called `jpg` is accepted. */
  lemma AcceptsNameWithoutDot(dir: string, name: string)
    requires Backslash !in name && Dot !in name
    ensures Accepts(dir + [Backslash] + name) <==> IsAllowedExtension(ToLower(name))
  {
    FileNameAfterDirectory(dir, name);
    ExtensionAfterLastDot(name);
  }
}
