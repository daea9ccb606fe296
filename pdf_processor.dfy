/** The byte-level PDF checks of extraction/pdf_processor.py: the header
    check, the encryption marker, the page-count heuristic, the metadata
    placeholder and the readability report. A file is an abstract entry
    whose contents, when it can be opened, are a sequence of bytes; the
    entry does not change between the successive opens of one check. */
module PdfProcessor {
  import opened Wrappers
  import opened Strings
  import opened Paths
  import opened Seqs

  newtype byte = b: int | 0 <= b < 256

  /** What opening the file for reading gives. */
  datatype ReadOutcome = Readable(bytes: seq<byte>) | PermissionDenied | ReadFailed(reason: string)

  /** What the path names on disk. */
  datatype FileEntry = Missing | Directory | RegularFile(read: ReadOutcome)

  predicate Exists(f: FileEntry) { !f.Missing? }

  predicate IsFile(f: FileEntry) { f.RegularFile? }

  /** The bytes of a `b"..."` literal written in ASCII. */
  function Ascii(s: string): (r: seq<byte>)
    requires forall i | 0 <= i < |s| :: s[i] as int < 256
    ensures |r| == |s|
    ensures forall i | 0 <= i < |s| :: r[i] as int == s[i] as int
  {
    if s == [] then [] else [s[0] as int as byte] + Ascii(s[1..])
  }

  predicate BytesAt(s: seq<byte>, p: seq<byte>, i: nat) {
    i + |p| <= |s| && s[i..i + |p|] == p
  }

  /** `p in s` on bytes. */
  predicate ContainsBytes(s: seq<byte>, p: seq<byte>) {
    exists i: nat | i <= |s| :: BytesAt(s, p, i)
  }

  /** `s.count(p)` on bytes: occurrences found left to right, the scan
      resuming after each one, so they never overlap. */
  function CountBytes(s: seq<byte>, p: seq<byte>): nat
    requires p != []
    decreases |s|
  {
    if |s| < |p| then 0
    else if s[..|p|] == p then 1 + CountBytes(s[|p|..], p)
    else CountBytes(s[1..], p)
  }

  /** Non-overlapping occurrences fit in the sequence side by side. */
  lemma {:induction false} CountBytesBound(s: seq<byte>, p: seq<byte>)
    requires p != []
    ensures CountBytes(s, p) * |p| <= |s|
    decreases |s|
  {
    if |s| >= |p| {
      if s[..|p|] == p {
        CountBytesBound(s[|p|..], p);
      } else {
        CountBytesBound(s[1..], p);
      }
    }
  }

  /** An occurrence inside a prefix is an occurrence in the whole. */
  lemma ContainsInPrefix(s: seq<byte>, n: nat, p: seq<byte>)
    requires n <= |s| && ContainsBytes(s[..n], p)
    ensures ContainsBytes(s, p)
  {
    var i: nat :| i <= n && BytesAt(s[..n], p, i);
    assert s[..n][i..i + |p|] == s[i..i + |p|];
    assert BytesAt(s, p, i);
  }

  const PdfMagic := Ascii("%PDF-")
  const EncryptMarker := Ascii("/Encrypt")
  const PageMarker := Ascii("/Type /Page")
  const PagesMarker := Ascii("/Type /Pages")

  /** `suffix.lower() == ".pdf"`. */
  predicate HasPdfSuffix(path: Path) {
    Lower(Suffix(path)) == ".pdf"
  }

  /** `validate_pdf`: an existing regular file with a `.pdf` suffix in any
      case whose contents start with `%PDF-`; a file that cannot be read is
      not valid. */
  function ValidatePdf(path: Path, f: FileEntry): (b: bool)
    ensures b <==> f.RegularFile? && HasPdfSuffix(path) && f.read.Readable?
                   && |f.read.bytes| >= 5 && f.read.bytes[..5] == PdfMagic
  {
    if !Exists(f) then false
    else if !IsFile(f) then false
    else if Lower(Suffix(path)) != ".pdf" then false
    else match f.read
      case Readable(bytes) =>
        var header := Take(bytes, 5);
        |header| >= |PdfMagic| && header[..|PdfMagic|] == PdfMagic
      case _ => false
  }

  /** `is_encrypted`: the marker `/Encrypt` occurs within the first 4096
      bytes; a file that cannot be opened is reported as not encrypted. */
  function IsEncrypted(f: FileEntry): (b: bool)
    ensures b <==> f.RegularFile? && f.read.Readable?
                   && ContainsBytes(Take(f.read.bytes, 4096), EncryptMarker)
    ensures b ==> ContainsBytes(f.read.bytes, EncryptMarker)
    ensures f.RegularFile? && f.read.Readable? && |f.read.bytes| <= 4096 ==>
              (b <==> ContainsBytes(f.read.bytes, EncryptMarker))
  {
    match f
    case RegularFile(Readable(bytes)) =>
      var content := Take(bytes, 4096);
      if ContainsBytes(content, EncryptMarker) then
        ContainsInPrefix(bytes, |content|, EncryptMarker);
        true
      else false
    case _ => false
  }

  /** The `/Type /Page` markers less the `/Type /Pages` markers: the
      singular marker is also a prefix of the plural one. */
  function MarkerBalance(bytes: seq<byte>): int {
    CountBytes(bytes, PageMarker) - CountBytes(bytes, PagesMarker)
  }

  /** `get_page_count`: zero for anything `validate_pdf` rejects, otherwise
      the marker balance floored at zero. */
  function GetPageCount(path: Path, f: FileEntry): (n: nat)
    ensures !ValidatePdf(path, f) ==> n == 0
    ensures ValidatePdf(path, f) ==> n >= MarkerBalance(f.read.bytes)
    ensures ValidatePdf(path, f) && n > 0 ==> n == MarkerBalance(f.read.bytes)
    ensures ValidatePdf(path, f) ==> n <= CountBytes(f.read.bytes, PageMarker)
  {
    if !ValidatePdf(path, f) then 0
    else
      var count := MarkerBalance(f.read.bytes);
      if count < 0 then 0 else count
  }

  /** The heuristic never reports more pages than `/Type /Page` markers fit
      in the file: each takes eleven bytes. */
  lemma PageCountBound(path: Path, f: FileEntry)
    ensures ValidatePdf(path, f) ==> GetPageCount(path, f) * 11 <= |f.read.bytes|
  {
    if ValidatePdf(path, f) {
      CountBytesBound(f.read.bytes, PageMarker);
    }
  }

  const MetadataKeys := {"title", "author", "subject", "creator", "producer", "creation_date"}

  /** `get_pdf_metadata`: the same six keys with no value, whatever the file;
      the header it reads is never used. */
  function GetPdfMetadata(path: Path, f: FileEntry): (m: map<string, Option<string>>)
    ensures m.Keys == MetadataKeys
    ensures forall k | k in m :: m[k] == None
  {
    map k | k in MetadataKeys :: None
  }

  /** `check_pdf_readability`: the first failed check, in the order
      existence, kind, header, encryption, read; `(true, None)` otherwise. */
  function CheckPdfReadability(path: Path, f: FileEntry): (r: (bool, Option<string>))
    ensures r.0 <==> r.1.None?
    ensures r.0 <==> ValidatePdf(path, f) && !IsEncrypted(f)
    ensures f.Missing? ==> r.1 == Some("File not found: " + ToStr(path))
    ensures f.Directory? ==> r.1 == Some("Not a file: " + ToStr(path))
    ensures f.RegularFile? && !ValidatePdf(path, f) ==> r.1 == Some("Not a valid PDF file")
    ensures ValidatePdf(path, f) && IsEncrypted(f) ==> r.1 == Some("PDF is encrypted (password protected)")
  {
    if !Exists(f) then (false, Some("File not found: " + ToStr(path)))
    else if !IsFile(f) then (false, Some("Not a file: " + ToStr(path)))
    else if !ValidatePdf(path, f) then (false, Some("Not a valid PDF file"))
    else if IsEncrypted(f) then (false, Some("PDF is encrypted (password protected)"))
    else match f.read
      case Readable(_) => (true, None)
      case PermissionDenied => (false, Some("Permission denied"))
      case ReadFailed(reason) => (false, Some("Cannot read file: " + reason))
  }

  /** When the file does not change between the opens, the read-error
      reports cannot appear: a file that cannot be read already fails the
      header check. */
  lemma {:induction false} ReadErrorsUnreachable(path: Path, f: FileEntry, reason: string)
    ensures CheckPdfReadability(path, f).1 != Some("Permission denied")
    ensures CheckPdfReadability(path, f).1 != Some("Cannot read file: " + reason)
  {
    var r := CheckPdfReadability(path, f);
    var cannot := "Cannot read file: " + reason;
    assert cannot[0] == 'C';
    if r.1.Some? {
      if !ValidatePdf(path, f) {
        // The report is one of the first three, none of which starts with
        // 'P' or 'C'.
        assert r.1.value[0] in {'F', 'N'};
      } else {
        assert r.1.value == "PDF is encrypted (password protected)";
      }
    }
  }
}
