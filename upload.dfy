/** CodeBuddy.validateFile: the check a selected file passes before it is
    uploaded. A file is refused when it is larger than 10 MB or when its
    lowercased extension (the text after the last dot of its name) is not on
    the allow-list; each refusal raises one error notification. */
module Upload {
  import Text

  /** 10 * 1024 * 1024 bytes. */
  const MaxSize: nat := 10 * 1024 * 1024

  const AllowedTypes: seq<string> :=
    ["pdf", "doc", "docx", "txt", "md", "py", "js", "html", "css", "json", "jpg", "jpeg", "png", "gif"]

  /** What validateFile reads of a File: its name and its size in bytes. */
  datatype FileInfo = FileInfo(name: string, size: nat)

  /** A call to showNotification(message, kind). */
  datatype Notice = Notice(message: string, kind: string)

  /** validateFile's boolean result and the notifications it raised. */
  datatype Validation = Validation(ok: bool, notices: seq<Notice>)

  /** file.name.split('.').pop(): the text after the last dot, or the whole
      name when it has no dot. */
  function Extension(name: string): (e: string)
    ensures '.' !in e
  {
    var parts := Text.Split(name, '.');
    parts[|parts| - 1]
  }

  function TooLargeNotice(name: string): Notice
  {
    Notice("File \"" + name + "\" is too large. Maximum size is 10MB.", "error")
  }

  function TypeNotice(extension: string): Notice
  {
    Notice("File type \"." + extension + "\" is not allowed.", "error")
  }

  /** validateFile(file). The size bound is checked first: an oversized file
      is refused with the size notification alone, whatever its name. Then
      the lowercased extension must be on the allow-list. The file is
      accepted exactly when both checks pass, and a refused file raises
      exactly one notification. */
  function ValidateFile(f: FileInfo): (r: Validation)
    ensures r.ok <==> f.size <= MaxSize && Text.Lower(Extension(f.name)) in AllowedTypes
    ensures |r.notices| == if r.ok then 0 else 1
    ensures f.size > MaxSize ==> r.notices == [TooLargeNotice(f.name)]
    ensures f.size <= MaxSize && !r.ok ==> r.notices == [TypeNotice(Text.Lower(Extension(f.name)))]
  {
    if f.size > MaxSize then
      Validation(false, [TooLargeNotice(f.name)])
    else
      var extension := Text.Lower(Extension(f.name));
      if extension !in AllowedTypes then
        Validation(false, [TypeNotice(extension)])
      else
        Validation(true, [])
  }

  /** The extension is the final segment of the name: it holds no dot, it
      ends the name, and it is either the whole name or follows a dot. */
  lemma ExtensionIsFinalSegment(name: string)
    ensures Text.IsFinalSegment(name, Extension(name), '.')
  {
    Text.LastPieceIsFinalSegment(name, '.');
  }

  /** A name without a dot is its own extension. */
  lemma NoDotWholeName(name: string)
    requires '.' !in name
    ensures Extension(name) == name
  {
    ExtensionIsFinalSegment(name);
  }

  /** Taking the extension and lowercasing commute. */
  lemma ExtensionOfLower(name: string)
    ensures Extension(Text.Lower(name)) == Text.Lower(Extension(name))
  {
    var e := Extension(name);
    var low := Text.Lower(name);
    ExtensionIsFinalSegment(name);
    ExtensionIsFinalSegment(low);
    Text.LowerKeepsFinalSegment(name, e, '.');
    Text.FinalSegmentUnique(low, Extension(low), Text.Lower(e), '.');
  }

  /** The check is case-insensitive: two files of the same size whose names
      agree up to case get the same answer. */
  lemma ValidateFileIgnoresCase(a: FileInfo, b: FileInfo)
    requires a.size == b.size && Text.Lower(a.name) == Text.Lower(b.name)
    ensures ValidateFile(a).ok == ValidateFile(b).ok
  {
    ExtensionOfLower(a.name);
    ExtensionOfLower(b.name);
  }

  lemma AllowedTypesHaveNoDot()
    ensures forall e :: e in AllowedTypes ==> '.' !in e
  {
  }

  /** The extension as a suffix: the whole name, or what follows the dot
      that ends the name's last-but-one piece. */
  lemma ExtensionIsSuffix(name: string)
    ensures var e := Extension(name);
      name == e || (|e| + 1 <= |name| && name[|name| - |e| - 1..] == "." + e)
  {
    var e := Extension(name);
    ExtensionIsFinalSegment(name);
    if |e| < |name| {
      assert name[|name| - |e| - 1..] == [name[|name| - |e| - 1]] + name[|name| - |e|..];
    }
  }

  /** A dot-free suffix after a dot (or the whole name) is the extension. */
  lemma SuffixIsExtension(name: string, e: string)
    requires '.' !in e
    requires name == e || (|e| + 1 <= |name| && name[|name| - |e| - 1..] == "." + e)
    ensures Extension(name) == e
  {
    if name == e {
      NoDotWholeName(name);
    } else {
      assert name[|name| - |e|..] == name[|name| - |e| - 1..][1..];
      assert name[|name| - |e| - 1] == name[|name| - |e| - 1..][0];
      assert Text.IsFinalSegment(name, e, '.');
      ExtensionIsFinalSegment(name);
      Text.FinalSegmentUnique(name, Extension(name), e, '.');
    }
  }

  /** A reference statement of the rule that does not mention split or pop:
      a file is accepted exactly when it is at most 10 MB and its lowercased
      name is an allowed extension on its own or ends with a dot followed by
      one. */
  lemma ValidateFileBySuffix(f: FileInfo)
    ensures ValidateFile(f).ok <==>
      f.size <= MaxSize &&
      exists e :: e in AllowedTypes &&
        (Text.Lower(f.name) == e ||
         (|e| + 1 <= |f.name| && Text.Lower(f.name)[|f.name| - |e| - 1..] == "." + e))
  {
    var low := Text.Lower(f.name);
    ExtensionOfLower(f.name);
    ExtensionIsSuffix(low);
    AllowedTypesHaveNoDot();
    forall e | e in AllowedTypes && (low == e || (|e| + 1 <= |low| && low[|low| - |e| - 1..] == "." + e))
      ensures Extension(low) == e
    {
      SuffixIsExtension(low, e);
    }
  }
}
