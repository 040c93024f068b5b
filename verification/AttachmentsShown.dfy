/** What the reader of an augmented text learns of each attachment, from the attachment's own fields. */
module AttachmentsShown {
  import opened Options
  import opened Attachments
  import opened AttachmentsRoundTrip

  /** The body, by kind and by what is there. */
  ghost predicate ShowsBody(p: Printer, a: Attachment, body: string) {
    && (a.kind == Audio && a.extractedText.Some? ==> body == p.transcript + a.extractedText.value)
    && (a.kind == Audio && a.extractedText.None? ==> body == p.noTranscript)
    && (a.kind == Image && a.data != [] ==> body == p.imageSeen)
    && (a.kind == Image && a.data == [] && a.localPath.Some? ==> body == p.imageSaved)
    && (a.kind == Image && a.data == [] && a.localPath.None? ==> body == p.imageMissing)
    && (a.kind == Document && a.extractedText.Some? ==> body == a.extractedText.value)
    && (a.kind == Document && a.extractedText.None? ==> body == p.noText)
  }

  /** Entry `e` is numbered `n` and shows `a`: kind, displayed name, type, path, duration and size as they are or are not there. */
  ghost predicate Shows(p: Printer, n: nat, a: Attachment, e: Entry) {
    && ValueOf(e.attrs, "index") == Some(p.number(n))
    && (ValueOf(e.attrs, "type") == Some("audio") <==> a.kind == Audio)
    && (ValueOf(e.attrs, "type") == Some("image") <==> a.kind == Image)
    && (ValueOf(e.attrs, "type") == Some("document") <==> a.kind == Document)
    && ValueOf(e.attrs, "filename") == Some(if a.filename.Some? then a.filename.value else "unknown")
    && ValueOf(e.attrs, "mime") == Some(a.mime)
    && ValueOf(e.attrs, "project_path") == a.localPath
    && ValueOf(e.attrs, "duration") == (if a.kind == Audio && a.durationSecs.Some? then Some(p.number(a.durationSecs.value) + "s") else None)
    && ValueOf(e.attrs, "size") == (if a.sizeBytes.Some? then Some(p.size(a.sizeBytes.value)) else None)
    && |e.attrs| == 4 + (if a.localPath.Some? then 1 else 0) +
         (if a.kind == Audio && a.durationSecs.Some? then 1 else 0) + (if a.sizeBytes.Some? then 1 else 0)
    && ShowsBody(p, a, e.body)
  }

  lemma EntryShows(p: Printer, n: nat, a: Attachment)
    ensures Shows(p, n, a, EntryOf(p, n, a))
  {
    NamesDiffer();
    KindsDiffer();
    AttrsSay(p, n, a, "index");
    AttrsSay(p, n, a, "type");
    AttrsSay(p, n, a, "filename");
    AttrsSay(p, n, a, "mime");
    AttrsSay(p, n, a, "project_path");
    AttrsSay(p, n, a, "duration");
    AttrsSay(p, n, a, "size");
  }

  lemma KindsDiffer()
    ensures "audio" != "image" && "audio" != "document" && "image" != "document"
  {
    assert "audio"[0] == 'a' && "image"[0] == 'i';
  }

  /** One entry for each attachment, numbered from 1, in order. */
  ghost predicate ShowsAll(p: Printer, atts: seq<Attachment>, es: seq<Entry>) {
    |es| == |atts| && forall i | 0 <= i < |atts| :: Shows(p, i + 1, atts[i], es[i])
  }

  lemma EntriesShow(p: Printer, atts: seq<Attachment>)
    ensures ShowsAll(p, atts, EntriesOf(p, atts))
  {
    forall i | 0 <= i < |atts| ensures Shows(p, i + 1, atts[i], EntriesOf(p, atts)[i]) { EntryShows(p, i + 1, atts[i]); }
  }

  /** So from the text alone a reader has the content and, for each attachment in order, what its own fields say. */
  lemma AugmentedShows(p: Printer, content: string, atts: seq<Attachment>, decoded: Option<(string, seq<Entry>)>)
    requires Tame(p) && decoded == Decode(p, Augmented(p, content, atts))
    ensures decoded.Some? && decoded.value.0 == content && ShowsAll(p, atts, decoded.value.1)
  {
    AugmentedDecodes(p, content, atts);
    EntriesShow(p, atts);
  }

  /** Attachments that look alike to the reader. */
  ghost predicate LookAlike(p: Printer, a: Attachment, b: Attachment) {
    && a.kind == b.kind && a.mime == b.mime && a.localPath == b.localPath
    && (if a.filename.Some? then a.filename.value else "unknown") == (if b.filename.Some? then b.filename.value else "unknown")
    && (a.kind == Document && a.extractedText.Some? && b.extractedText.Some? ==> a.extractedText == b.extractedText)
    && (a.kind == Audio && a.extractedText.Some? && b.extractedText.Some? ==> a.extractedText == b.extractedText)
    && (a.sizeBytes.Some? <==> b.sizeBytes.Some?)
    && (a.sizeBytes.Some? ==> p.size(a.sizeBytes.value) == p.size(b.sizeBytes.value))
    && (a.kind == Audio ==> (a.durationSecs.Some? <==> b.durationSecs.Some?))
    && (a.kind == Audio && a.durationSecs.Some? ==> p.number(a.durationSecs.value) == p.number(b.durationSecs.value))
  }

  lemma ShownAlike(p: Printer, n: nat, a: Attachment, b: Attachment, e: Entry)
    requires Shows(p, n, a, e) && Shows(p, n, b, e)
    ensures LookAlike(p, a, b)
  {
    if a.kind == Audio && a.extractedText.Some? && b.extractedText.Some? {
      SameSuffix(p.transcript, a.extractedText.value, b.extractedText.value);
    }
    if a.kind == Audio && a.durationSecs.Some? && b.durationSecs.Some? {
      SamePrefix(p.number(a.durationSecs.value), p.number(b.durationSecs.value), "s");
    }
  }

  lemma SameSuffix(a: string, b: string, c: string)
    requires a + b == a + c
    ensures b == c
  {
    assert (a + b)[|a|..] == b && (a + c)[|a|..] == c;
  }

  lemma SamePrefix(a: string, b: string, c: string)
    requires a + c == b + c
    ensures a == b
  {
    assert |a| == |b| && (a + c)[..|a|] == a && (b + c)[..|b|] == b;
  }

  ghost predicate AllLookAlike(p: Printer, a: seq<Attachment>, b: seq<Attachment>) {
    |a| == |b| && forall i | 0 <= i < |a| :: LookAlike(p, a[i], b[i])
  }

  lemma AllShownAlike(p: Printer, a: seq<Attachment>, b: seq<Attachment>, es: seq<Entry>)
    requires ShowsAll(p, a, es) && ShowsAll(p, b, es)
    ensures AllLookAlike(p, a, b)
  {
    forall i | 0 <= i < |a| ensures LookAlike(p, a[i], b[i]) {
      assert Shows(p, i + 1, a[i], es[i]) && Shows(p, i + 1, b[i], es[i]);
      ShownAlike(p, i + 1, a[i], b[i], es[i]);
    }
  }

  /** Two messages that read the same have the same content and attachments that look alike, one for one. */
  lemma AugmentedInjective(p: Printer, content: string, atts: seq<Attachment>, content': string, atts': seq<Attachment>)
    requires Tame(p) && Augmented(p, content, atts) == Augmented(p, content', atts')
    ensures content == content' && AllLookAlike(p, atts, atts')
  {
    var decoded := Decode(p, Augmented(p, content, atts));
    AugmentedShows(p, content, atts, decoded);
    AugmentedShows(p, content', atts', decoded);
    AllShownAlike(p, atts, atts', decoded.value.1);
  }

  // ---- Image parts ----

  predicate HasPicture(a: Attachment) {
    a.kind == Image && a.data != []
  }

  /** The images with data before place `n`. */
  function Pictures(atts: seq<Attachment>, n: nat): set<nat>
    requires n <= |atts|
  {
    set i: nat | i < n && HasPicture(atts[i])
  }

  /** Image `i` is part `k`. */
  predicate PartOf(p: Printer, a: Attachment, parts: seq<string>, k: nat) {
    k < |parts| && parts[k] == "data:" + a.mime + ";base64," + p.base64(a.data)
  }

  lemma PicturesGrow(atts: seq<Attachment>, n: nat)
    requires n < |atts|
    ensures |Pictures(atts, n + 1)| == |Pictures(atts, n)| + if HasPicture(atts[n]) then 1 else 0
  {
    assert Pictures(atts, n + 1) == Pictures(atts, n) + if HasPicture(atts[n]) then {n} else {};
  }

  lemma {:induction false} ImagePartsCount(p: Printer, atts: seq<Attachment>, n: nat)
    requires n <= |atts|
    ensures |ImageParts(p, atts, n)| == |Pictures(atts, n)|
  {
    if n > 0 {
      ImagePartsCount(p, atts, n - 1);
      PicturesGrow(atts, n - 1);
    }
  }

  /** One part for each image whose data is there, in order, with its type and its data: that of attachment `i` comes after those before. */
  lemma {:induction false} ImagePartsExact(p: Printer, atts: seq<Attachment>, n: nat, i: nat)
    requires i < n <= |atts| && HasPicture(atts[i])
    ensures |ImageParts(p, atts, n)| == |Pictures(atts, n)|
    ensures PartOf(p, atts[i], ImageParts(p, atts, n), |Pictures(atts, i)|)
  {
    ImagePartsCount(p, atts, n);
    if i == n - 1 {
      ImagePartsCount(p, atts, i);
    } else {
      ImagePartsExact(p, atts, n - 1, i);
    }
  }
}
