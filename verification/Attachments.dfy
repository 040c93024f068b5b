/** `augment_with_attachments`: the user's text with an `<attachments>` block after it. */
module Attachments {
  import opened Options
  import opened TextReplace

  datatype Kind = Audio | Image | Document

  datatype Attachment = Attachment(
    kind: Kind,
    filename: Option<string>,
    mime: string,
    localPath: Option<string>,
    durationSecs: Option<nat>,
    sizeBytes: Option<nat>,
    extractedText: Option<string>,
    data: seq<bv8>)

  /** Number formatting, base64 and the fixed English phrases, which this model does not open up. */
  datatype Printer = Printer(
    number: nat -> string,
    size: nat -> string,
    base64: seq<bv8> -> string,
    saved: string, // "Saved to project file: "
    transcript: string, // "Transcript: "
    noTranscript: string,
    noText: string,
    imageSeen: string,
    imageSaved: string,
    imageMissing: string)

  /** Printed numbers, sizes and phrases hold nothing that XML would need to escape. */
  ghost predicate Tame(p: Printer) {
    && (forall n :: Bare(p.number(n))) && (forall n :: Bare(p.size(n)))
    && Bare(p.saved) && Bare(p.transcript) && Bare(p.noTranscript) && Bare(p.noText)
    && Bare(p.imageSeen) && Bare(p.imageSaved) && Bare(p.imageMissing)
  }

  predicate Bare(s: string) {
    '&' !in s && '"' !in s && '<' !in s && '>' !in s
  }

  const MARK := "\n\n<attachments>"
  const END := "\n</attachments>"
  const CLOSE := "\n</attachment>"
  // ---- Escaping ----

  function EscapeAttr(s: string): string {
    Replace(Replace(Replace(Replace(s, '&', "&amp;"), '"', "&quot;"), '<', "&lt;"), '>', "&gt;")
  }

  function EscapeText(s: string): string {
    Replace(Replace(Replace(s, '&', "&amp;"), '<', "&lt;"), '>', "&gt;")
  }

  // ---- Formatting ----

  function KindName(k: Kind): string {
    match k case Audio => "audio" case Image => "image" case Document => "document"
  }

  /** The text of an attachment below its first line, before escaping. */
  function Content(p: Printer, a: Attachment): string {
    match a.kind
    case Audio => if a.extractedText.Some? then p.transcript + a.extractedText.value else p.noTranscript
    case Image => if a.data != [] then p.imageSeen else if a.localPath.Some? then p.imageSaved else p.imageMissing
    case Document => if a.extractedText.Some? then a.extractedText.value else p.noText
  }

  /** The same, as `format_attachment` writes it: only extracted text is escaped. */
  function Written(p: Printer, a: Attachment): string {
    match a.kind
    case Audio => if a.extractedText.Some? then p.transcript + EscapeText(a.extractedText.value) else p.noTranscript
    case Image => if a.data != [] then p.imageSeen else if a.localPath.Some? then p.imageSaved else p.imageMissing
    case Document => if a.extractedText.Some? then EscapeText(a.extractedText.value) else p.noText
  }

  function Body(p: Printer, a: Attachment): string {
    if a.localPath.Some? then p.saved + EscapeText(a.localPath.value) + "\n" + Written(p, a) else Written(p, a)
  }

  function FileName(a: Attachment): string {
    if a.filename.Some? then a.filename.value else "unknown"
  }

  type Attrs = seq<(string, string)>

  /** The attributes of an entry, in order, before escaping. */
  function AttrsOf(p: Printer, index: nat, a: Attachment): Attrs {
    [("index", p.number(index)), ("type", KindName(a.kind)), ("filename", FileName(a)), ("mime", a.mime)] +
    (if a.localPath.Some? then [("project_path", a.localPath.value)] else []) +
    (if a.kind.Audio? && a.durationSecs.Some? then [("duration", p.number(a.durationSecs.value) + "s")] else []) +
    (if a.sizeBytes.Some? then [("size", p.size(a.sizeBytes.value))] else [])
  }

  /** How they are written; values that hold nothing special are unchanged by escaping. */
  function WriteAttrs(attrs: Attrs): string {
    if attrs == [] then "" else " " + attrs[0].0 + "=\"" + EscapeAttr(attrs[0].1) + "\"" + WriteAttrs(attrs[1..])
  }

  /** `format_attachment`. */
  function Format(p: Printer, index: nat, a: Attachment): string {
    "<attachment" + WriteAttrs(AttrsOf(p, index, a)) + ">\n" + Body(p, a) + CLOSE
  }

  /** Every entry, numbered from 1. */
  function Formats(p: Printer, atts: seq<Attachment>): (fs: seq<string>)
    ensures |fs| == |atts| && forall i | 0 <= i < |fs| :: fs[i] == Format(p, i + 1, atts[i])
  {
    seq(|atts|, i requires 0 <= i < |atts| => Format(p, i + 1, atts[i]))
  }

  /** The text after `n` entries have been pushed onto it. */
  function PushAll(text: string, fs: seq<string>, n: nat): string
    requires n <= |fs|
  {
    if n == 0 then text else PushAll(text, fs, n - 1) + "\n" + fs[n - 1]
  }

  function Augmented(p: Printer, content: string, atts: seq<Attachment>): string {
    PushAll(content + MARK, Formats(p, atts), |atts|) + END
  }

  function DataUrl(p: Printer, mime: string, data: seq<bv8>): string {
    "data:" + mime + ";base64," + p.base64(data)
  }

  /** One data URL for each image whose bytes are there, in order. */
  function ImageParts(p: Printer, atts: seq<Attachment>, n: nat): seq<string>
    requires n <= |atts|
  {
    if n == 0 then [] else
      var a := atts[n - 1];
      ImageParts(p, atts, n - 1) + if a.kind.Image? && a.data != [] then [DataUrl(p, a.mime, a.data)] else []
  }

  datatype AugmentResult = AugmentResult(text: string, imageParts: seq<string>)

  method AugmentWithAttachments(p: Printer, content: string, atts: seq<Attachment>) returns (r: Option<AugmentResult>)
    ensures r.None? <==> atts == []
    ensures r.Some? ==> r.value == AugmentResult(Augmented(p, content, atts), ImageParts(p, atts, |atts|))
  {
    if atts == [] { return None; }
    var text, parts := PushAttachments(p, content + MARK, Formats(p, atts), atts);
    return Some(AugmentResult(text + END, parts));
  }

  /** The loop of `augment_with_attachments`, over entries already formatted. */
  method PushAttachments(p: Printer, start: string, entries: seq<string>, atts: seq<Attachment>) returns (text: string, parts: seq<string>)
    requires |entries| == |atts|
    ensures text == PushAll(start, entries, |entries|) && parts == ImageParts(p, atts, |atts|)
  {
    text, parts := start, [];
    for i := 0 to |atts|
      invariant text == PushAll(start, entries, i) && parts == ImageParts(p, atts, i)
    {
      text := text + "\n" + entries[i];
      if atts[i].kind.Image? && atts[i].data != [] {
        parts := parts + [DataUrl(p, atts[i].mime, atts[i].data)];
      }
    }
  }

  // ---- Reading it back ----

  /** The first character meant, and how much text it takes; a stray ampersand stands for itself. */
  function FirstChar(s: string): (r: (char, nat))
    requires s != ""
    ensures 1 <= r.1 <= |s|
  {
    if s[0] != '&' then (s[0], 1)
    else if "&amp;" <= s then ('&', 5)
    else if "&lt;" <= s then ('<', 4)
    else if "&gt;" <= s then ('>', 4)
    else if "&quot;" <= s then ('"', 6)
    else ('&', 1)
  }

  /** The entities the code writes, read back. */
  function Unescape(s: string): string {
    if s == "" then "" else [FirstChar(s).0] + Unescape(s[FirstChar(s).1..])
  }

  /** The text before and after the first `c`. */
  function TakeUntil(t: string, c: char): (r: Option<(string, string)>)
    ensures r.Some? ==> |r.value.0| + 1 + |r.value.1| == |t|
  {
    if t == "" then None
    else if t[0] == c then Some(("", t[1..]))
    else match TakeUntil(t[1..], c)
      case None => None
      case Some(r) => Some(([t[0]] + r.0, r.1))
  }

  function Strip(t: string, prefix: string): (r: Option<string>)
    ensures r.Some? ==> |r.value| + |prefix| == |t|
  {
    if prefix <= t then Some(t[|prefix|..]) else None
  }

  function ReadAttrs(t: string): (r: (Attrs, string))
    ensures |r.1| <= |t|
    decreases |t|
  {
    if t == "" || t[0] != ' ' then ([], t)
    else match TakeUntil(t[1..], '=')
      case None => ([], t)
      case Some((name, afterName)) =>
        if afterName == "" || afterName[0] != '"' then ([], t)
        else match TakeUntil(afterName[1..], '"')
          case None => ([], t)
          case Some((value, rest)) =>
            var more := ReadAttrs(rest);
            ([(name, Unescape(value))] + more.0, more.1)
  }

  datatype Entry = Entry(attrs: Attrs, body: string)

  function ValueOf(attrs: Attrs, name: string): Option<string> {
    if attrs == [] then None else if attrs[0].0 == name then Some(attrs[0].1) else ValueOf(attrs[1..], name)
  }

  /** The body without the line that repeats the project path. */
  function WithoutPathLine(p: Printer, body: string, path: Option<string>): Option<string> {
    if path.None? then Some(body) else Strip(body, p.saved + path.value + "\n")
  }

  function ReadBody(p: Printer, attrs: Attrs, t: string): (r: Option<(Entry, string)>)
    ensures r.Some? ==> |r.value.1| < |t|
  {
    match TakeUntil(t, '<')
    case None => None
    case Some((raw, rest)) =>
      if raw == "" || raw[|raw| - 1] != '\n' then None
      else match (WithoutPathLine(p, Unescape(raw[..|raw| - 1]), ValueOf(attrs, "project_path")), Strip(rest, "/attachment>"))
        case (Some(body), Some(more)) => Some((Entry(attrs, body), more))
        case _ => None
  }

  function ReadEntry(p: Printer, t: string): (r: Option<(Entry, string)>)
    ensures r.Some? ==> |r.value.1| < |t|
  {
    match Strip(t, "\n<attachment")
    case None => None
    case Some(afterOpen) =>
      var (attrs, afterAttrs) := ReadAttrs(afterOpen);
      match Strip(afterAttrs, ">\n")
      case None => None
      case Some(rest) => ReadBody(p, attrs, rest)
  }

  function ReadEntries(p: Printer, t: string): Option<seq<Entry>>
    decreases |t|
  {
    if t == END then Some([])
    else match ReadEntry(p, t)
      case None => None
      case Some((e, rest)) => match ReadEntries(p, rest) case None => None case Some(es) => Some([e] + es)
  }

  /** The last position at or before `p` where the marker starts. */
  function LastMark(text: string, p: nat): (r: Option<nat>)
    requires p <= |text|
    ensures r.Some? ==> r.value + |MARK| <= |text|
  {
    if MARK <= text[p..] then Some(p) else if p == 0 then None else LastMark(text, p - 1)
  }

  /** Content and entries from the augmented text alone. */
  function Decode(p: Printer, text: string): Option<(string, seq<Entry>)> {
    match LastMark(text, |text|)
    case None => None
    case Some(at) => match ReadEntries(p, text[at + |MARK|..]) case None => None case Some(es) => Some((text[..at], es))
  }

  /** The entries from index `i` on, and the end of the block. */
  function Block(fs: seq<string>, i: nat): string
    requires i <= |fs|
    decreases |fs| - i
  {
    if i == |fs| then END else "\n" + (fs[i] + Block(fs, i + 1))
  }

  function EntryOf(p: Printer, index: nat, a: Attachment): Entry {
    Entry(AttrsOf(p, index, a), Content(p, a))
  }

  /** What a reader is shown: one entry per attachment, numbered from 1. */
  function EntriesOf(p: Printer, atts: seq<Attachment>): (es: seq<Entry>)
    ensures |es| == |atts| && forall i | 0 <= i < |es| :: es[i] == EntryOf(p, i + 1, atts[i])
  {
    seq(|atts|, i requires 0 <= i < |atts| => EntryOf(p, i + 1, atts[i]))
  }
}
