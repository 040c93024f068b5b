/** The augmented text tells the user's content and every attachment apart again. */
module AttachmentsRoundTrip {
  import opened Options
  import opened Sequences
  import opened Attachments
  import opened TextReplace

  // ---- Escaping, one character at a time ----

  function AttrChar(c: char): string {
    if c == '&' then "&amp;" else if c == '"' then "&quot;" else if c == '<' then "&lt;" else if c == '>' then "&gt;" else [c]
  }

  function TextChar(c: char): string {
    if c == '"' then "\"" else AttrChar(c)
  }

  lemma AnglesAbsent(s: string)
    requires '<' !in s && '>' !in s
    ensures Replace(Replace(s, '<', "&lt;"), '>', "&gt;") == s
  {
    ReplaceAbsent(s, '<', "&lt;");
    ReplaceAbsent(s, '>', "&gt;");
  }

  lemma TextCharEscape(x: char)
    ensures EscapeText([x]) == TextChar(x)
  {
    ReplaceOne(x, '&', "&amp;");
    if x == '&' {
      AnglesAbsent("&amp;");
    } else {
      ReplaceOne(x, '<', "&lt;");
      ReplaceAbsent("&lt;", '>', "&gt;");
      ReplaceOne(x, '>', "&gt;");
    }
  }

  lemma AttrCharEscape(x: char)
    ensures EscapeAttr([x]) == AttrChar(x)
  {
    ReplaceOne(x, '&', "&amp;");
    if x == '"' {
      ReplaceOne(x, '"', "&quot;");
      AnglesAbsent("&quot;");
    } else {
      ReplaceAbsent(Replace([x], '&', "&amp;"), '"', "&quot;");
      TextCharEscape(x);
    }
  }

  /** The chained replacements act on each character by itself. */
  lemma EscapeTextStep(x: char, s: string)
    ensures EscapeText([x] + s) == TextChar(x) + EscapeText(s)
  {
    TextCharEscape(x);
    EscapeTextConcat([x], s);
  }

  lemma EscapeAttrStep(x: char, s: string)
    ensures EscapeAttr([x] + s) == AttrChar(x) + EscapeAttr(s)
  {
    AttrCharEscape(x);
    EscapeAttrConcat([x], s);
  }

  lemma EscapeTextConcat(a: string, b: string)
    ensures EscapeText(a + b) == EscapeText(a) + EscapeText(b)
  {
    ReplaceConcat(a, b, '&', "&amp;");
    var a1, b1 := Replace(a, '&', "&amp;"), Replace(b, '&', "&amp;");
    ReplaceConcat(a1, b1, '<', "&lt;");
    ReplaceConcat(Replace(a1, '<', "&lt;"), Replace(b1, '<', "&lt;"), '>', "&gt;");
  }

  lemma EscapeAttrConcat(a: string, b: string)
    ensures EscapeAttr(a + b) == EscapeAttr(a) + EscapeAttr(b)
  {
    ReplaceConcat(a, b, '&', "&amp;");
    var a1, b1 := Replace(a, '&', "&amp;"), Replace(b, '&', "&amp;");
    ReplaceConcat(a1, b1, '"', "&quot;");
    var a2, b2 := Replace(a1, '"', "&quot;"), Replace(b1, '"', "&quot;");
    ReplaceConcat(a2, b2, '<', "&lt;");
    ReplaceConcat(Replace(a2, '<', "&lt;"), Replace(b2, '<', "&lt;"), '>', "&gt;");
  }

  /** What a character is written as reads back as that character. */
  lemma FirstCharRead(w: string, x: char, t: string)
    requires w == AttrChar(x) || w == TextChar(x)
    ensures FirstChar(w + t) == (x, |w|)
  {
    var s := w + t;
    assert s[0] == w[0];
    if x == '&' {
      assert "&amp;" <= s;
    } else if x == '<' {
      assert s[1] == 'l' && "&lt;" <= s;
    } else if x == '>' {
      assert s[1] == 'g' && "&gt;" <= s;
    } else if x == '"' && w == "&quot;" {
      assert s[1] == 'q' && "&quot;" <= s;
    }
  }

  lemma UnescapeCons(w: string, x: char, e: string, t: string, rest: string, u: string)
    requires (w == AttrChar(x) || w == TextChar(x)) && Unescape(e + t) == rest + u
    ensures Unescape(w + e + t) == [x] + rest + u
  {
    assert w + e + t == w + (e + t) && (w + (e + t))[|w|..] == e + t;
    FirstCharRead(w, x, e + t);
    Regroup([x], rest, u);
  }

  /** Reading escaped text gives the text back, whatever follows it. */
  lemma {:induction false} UnescapeText(s: string, t: string)
    ensures Unescape(EscapeText(s) + t) == s + Unescape(t)
  {
    if s == "" {
      assert EscapeText(s) + t == t;
    } else {
      var x, rest := s[0], s[1..];
      assert s == [x] + rest;
      EscapeTextStep(x, rest);
      UnescapeText(rest, t);
      UnescapeCons(TextChar(x), x, EscapeText(rest), t, rest, Unescape(t));
    }
  }

  lemma {:induction false} UnescapeAttr(s: string, t: string)
    ensures Unescape(EscapeAttr(s) + t) == s + Unescape(t)
  {
    if s == "" {
      assert EscapeAttr(s) + t == t;
    } else {
      var x, rest := s[0], s[1..];
      assert s == [x] + rest;
      EscapeAttrStep(x, rest);
      UnescapeAttr(rest, t);
      UnescapeCons(AttrChar(x), x, EscapeAttr(rest), t, rest, Unescape(t));
    }
  }

  lemma {:induction false} UnescapeBare(s: string, t: string)
    requires '&' !in s
    ensures Unescape(s + t) == s + Unescape(t)
  {
    if s == "" {
      assert s + t == t;
    } else {
      UnescapeBare(s[1..], t);
      assert (s + t)[0] == s[0] && (s + t)[1..] == s[1..] + t;
    }
  }

  /** Escaping leaves text that needs none as it is. */
  lemma {:induction false} EscapeBare(s: string)
    requires Bare(s)
    ensures EscapeAttr(s) == s && EscapeText(s) == s
  {
    ReplaceAbsent(s, '&', "&amp;");
    ReplaceAbsent(s, '"', "&quot;");
    ReplaceAbsent(s, '<', "&lt;");
    ReplaceAbsent(s, '>', "&gt;");
  }

  /** Escaped text can break out of neither a tag nor a quoted value. */
  lemma {:induction false} EscapedIsSafe(s: string)
    ensures '<' !in EscapeText(s) && '<' !in EscapeAttr(s) && '"' !in EscapeAttr(s)
  {
    if s != "" {
      EscapedIsSafe(s[1..]);
      assert s == [s[0]] + s[1..];
      EscapeTextStep(s[0], s[1..]);
      EscapeAttrStep(s[0], s[1..]);
    }
  }

  // ---- Attributes ----

  lemma {:induction false} TakeUntilFirst(a: string, c: char, b: string)
    requires c !in a
    ensures TakeUntil(a + ([c] + b), c) == Some((a, b))
  {
    var t := a + ([c] + b);
    if a == "" {
      assert t == [c] + b && t[1..] == b;
    } else {
      TakeUntilFirst(a[1..], c, b);
      assert t[0] == a[0] && t[1..] == a[1..] + ([c] + b);
      assert a == [a[0]] + a[1..];
    }
  }

  lemma StripPrefix(prefix: string, rest: string)
    ensures Strip(prefix + rest, prefix) == Some(rest)
  {
    assert (prefix + rest)[|prefix|..] == rest;
  }

  lemma AttrRegroup(name: string, value: string, more: string, rest: string)
    ensures " " + name + "=\"" + value + "\"" + more + rest == " " + (name + ("=" + ("\"" + (value + ("\"" + (more + rest))))))
  {
    assert "=\"" == "=" + "\"";
  }

  lemma {:induction false} WriteAttrsCons(attrs: Attrs, rest: string)
    requires attrs != []
    ensures WriteAttrs(attrs) + rest ==
            " " + (attrs[0].0 + ("=" + ("\"" + (EscapeAttr(attrs[0].1) + ("\"" + (WriteAttrs(attrs[1..]) + rest))))))
  {
    AttrRegroup(attrs[0].0, EscapeAttr(attrs[0].1), WriteAttrs(attrs[1..]), rest);
  }

  lemma ReadFirstAttr(name: string, value: string, rest: string)
    requires '=' !in name && '"' !in value
    ensures ReadAttrs(" " + (name + ("=" + ("\"" + (value + ("\"" + rest)))))) ==
            ([(name, Unescape(value))] + ReadAttrs(rest).0, ReadAttrs(rest).1)
  {
    var quoted := "\"" + (value + ("\"" + rest));
    var t := " " + (name + ("=" + quoted));
    assert t[1..] == name + ("=" + quoted) && t[0] == ' ';
    TakeUntilFirst(name, '=', quoted);
    assert quoted[0] == '"' && quoted[1..] == value + ("\"" + rest);
    TakeUntilFirst(value, '"', rest);
  }

  lemma {:induction false} AttrsRead(attrs: Attrs, rest: string)
    requires (forall i | 0 <= i < |attrs| :: '=' !in attrs[i].0) && (rest == "" || rest[0] != ' ')
    ensures ReadAttrs(WriteAttrs(attrs) + rest) == (attrs, rest)
  {
    if attrs == [] {
      assert WriteAttrs(attrs) + rest == rest;
    } else {
      var name, value := attrs[0].0, attrs[0].1;
      AttrsRead(attrs[1..], rest);
      WriteAttrsCons(attrs, rest);
      EscapedIsSafe(value);
      ReadFirstAttr(name, EscapeAttr(value), WriteAttrs(attrs[1..]) + rest);
      UnescapeAttr(value, "");
      assert EscapeAttr(value) + "" == EscapeAttr(value) && value + "" == value;
      assert attrs == [(name, value)] + attrs[1..];
    }
  }

  lemma {:induction false} AttrsHoldNoTag(attrs: Attrs)
    requires forall i | 0 <= i < |attrs| :: '<' !in attrs[i].0
    ensures '<' !in WriteAttrs(attrs)
  {
    if attrs != [] {
      AttrsHoldNoTag(attrs[1..]);
      EscapedIsSafe(attrs[0].1);
    }
  }

  lemma AttrNames(p: Printer, index: nat, a: Attachment)
    ensures forall i | 0 <= i < |AttrsOf(p, index, a)| :: '=' !in AttrsOf(p, index, a)[i].0 && '<' !in AttrsOf(p, index, a)[i].0
  {
  }

  lemma {:induction false} ValueOfConcat(a: Attrs, b: Attrs, name: string)
    ensures ValueOf(a + b, name) == if ValueOf(a, name).Some? then ValueOf(a, name) else ValueOf(b, name)
  {
    if a == [] {
      assert a + b == b;
    } else {
      ValueOfConcat(a[1..], b, name);
      assert (a + b)[0] == a[0] && (a + b)[1..] == a[1..] + b;
    }
  }

  /** One attribute, if its value is there. */
  function One(name: string, value: Option<string>): Attrs {
    if value.Some? then [(name, value.value)] else []
  }

  lemma ValueOfOne(name: string, value: Option<string>, wanted: string)
    ensures ValueOf(One(name, value), wanted) == if name == wanted then value else None
  {
    if value.Some? { assert One(name, value)[1..] == []; }
  }

  lemma ValueOfFour(n1: string, v1: string, n2: string, v2: string, n3: string, v3: string, n4: string, v4: string, wanted: string)
    ensures ValueOf([(n1, v1), (n2, v2), (n3, v3), (n4, v4)], wanted) ==
            if wanted == n1 then Some(v1) else if wanted == n2 then Some(v2) else if wanted == n3 then Some(v3)
            else if wanted == n4 then Some(v4) else None
  {
    ValueOfCons(n4, v4, [], wanted);
    ValueOfCons(n3, v3, [(n4, v4)], wanted);
    ValueOfCons(n2, v2, [(n3, v3), (n4, v4)], wanted);
    ValueOfCons(n1, v1, [(n2, v2), (n3, v3), (n4, v4)], wanted);
    assert [(n4, v4)] == [(n4, v4)] + [] && [(n3, v3), (n4, v4)] == [(n3, v3)] + [(n4, v4)];
    assert [(n2, v2), (n3, v3), (n4, v4)] == [(n2, v2)] + [(n3, v3), (n4, v4)];
    assert [(n1, v1), (n2, v2), (n3, v3), (n4, v4)] == [(n1, v1)] + [(n2, v2), (n3, v3), (n4, v4)];
  }

  lemma ValueOfCons(name: string, value: string, rest: Attrs, wanted: string)
    ensures ValueOf([(name, value)] + rest, wanted) == if wanted == name then Some(value) else ValueOf(rest, wanted)
  {
    assert ([(name, value)] + rest)[1..] == rest;
  }

  function Duration(p: Printer, a: Attachment): Option<string> {
    if a.kind.Audio? && a.durationSecs.Some? then Some(p.number(a.durationSecs.value) + "s") else None
  }

  function Size(p: Printer, a: Attachment): Option<string> {
    if a.sizeBytes.Some? then Some(p.size(a.sizeBytes.value)) else None
  }

  lemma ValueOfParts(head: Attrs, n1: string, v1: Option<string>, n2: string, v2: Option<string>, n3: string, v3: Option<string>, wanted: string)
    ensures ValueOf(head + One(n1, v1) + One(n2, v2) + One(n3, v3), wanted) ==
            if ValueOf(head, wanted).Some? then ValueOf(head, wanted)
            else if wanted == n1 && v1.Some? then v1 else if wanted == n2 && v2.Some? then v2 else if wanted == n3 then v3 else None
  {
    ValueOfConcat(head + One(n1, v1) + One(n2, v2), One(n3, v3), wanted);
    ValueOfConcat(head + One(n1, v1), One(n2, v2), wanted);
    ValueOfConcat(head, One(n1, v1), wanted);
    ValueOfOne(n1, v1, wanted);
    ValueOfOne(n2, v2, wanted);
    ValueOfOne(n3, v3, wanted);
  }

  /** What each attribute of an entry says, whichever name is asked for. */
  lemma AttrsSay(p: Printer, n: nat, a: Attachment, wanted: string)
    ensures ValueOf(AttrsOf(p, n, a), wanted) ==
            if wanted == "index" then Some(p.number(n)) else if wanted == "type" then Some(KindName(a.kind))
            else if wanted == "filename" then Some(FileName(a)) else if wanted == "mime" then Some(a.mime)
            else if wanted == "project_path" && a.localPath.Some? then a.localPath
            else if wanted == "duration" && Duration(p, a).Some? then Duration(p, a)
            else if wanted == "size" then Size(p, a) else None
  {
    var head := [("index", p.number(n)), ("type", KindName(a.kind)), ("filename", FileName(a)), ("mime", a.mime)];
    assert AttrsOf(p, n, a) == head + One("project_path", a.localPath) + One("duration", Duration(p, a)) + One("size", Size(p, a));
    ValueOfParts(head, "project_path", a.localPath, "duration", Duration(p, a), "size", Size(p, a), wanted);
    ValueOfFour("index", p.number(n), "type", KindName(a.kind), "filename", FileName(a), "mime", a.mime, wanted);
  }

  /** Names of the same length differ in their first letter. */
  lemma NamesDiffer()
    ensures "type" != "mime" && "type" != "size" && "mime" != "size" && "filename" != "duration"
  {
    assert "type"[0] == 't' && "mime"[0] == 'm' && "size"[0] == 's';
    assert "filename"[0] == 'f' && "duration"[0] == 'd';
  }

  lemma PathOfAttrs(p: Printer, index: nat, a: Attachment)
    ensures ValueOf(AttrsOf(p, index, a), "project_path") == a.localPath
  {
    AttrsSay(p, index, a, "project_path");
  }

  // ---- Bodies ----

  lemma WrittenRead(p: Printer, a: Attachment)
    requires Tame(p)
    ensures Unescape(Written(p, a)) == Content(p, a) && '<' !in Written(p, a)
  {
    var text := if a.extractedText.Some? then a.extractedText.value else "";
    EscapedIsSafe(text);
    UnescapeText(text, "");
    assert EscapeText(text) + "" == EscapeText(text) && text + "" == text;
    UnescapeBare(p.transcript, EscapeText(text));
    FixedRead(p.noTranscript);
    FixedRead(p.noText);
    FixedRead(p.imageSeen);
    FixedRead(p.imageSaved);
    FixedRead(p.imageMissing);
  }

  lemma FixedRead(s: string)
    requires Bare(s)
    ensures Unescape(s) == s
  {
    UnescapeBare(s, "");
    assert s + "" == s;
  }

  lemma BodyRead(p: Printer, a: Attachment)
    requires Tame(p)
    ensures '<' !in Body(p, a) && WithoutPathLine(p, Unescape(Body(p, a)), a.localPath) == Some(Content(p, a))
  {
    WrittenRead(p, a);
    if a.localPath.Some? {
      EscapedIsSafe(a.localPath.value);
      PathLineRead(p.saved, a.localPath.value, Written(p, a), Content(p, a));
      StripPrefix(p.saved + a.localPath.value + "\n", Content(p, a));
    }
  }

  lemma PathLineRead(saved: string, path: string, written: string, content: string)
    requires '&' !in saved && Unescape(written) == content
    ensures Unescape(saved + EscapeText(path) + "\n" + written) == (saved + path + "\n") + content
  {
    var line := "\n" + written;
    Regroup4(saved, EscapeText(path), "\n", written);
    UnescapeBare(saved, EscapeText(path) + line);
    UnescapeText(path, line);
    UnescapeBare("\n", written);
    Regroup4(saved, path, "\n", content);
  }

  lemma Regroup4(a: string, b: string, c: string, d: string)
    ensures a + b + c + d == a + (b + (c + d))
  {
  }

  // ---- Entries ----

  lemma CloseRegroup(body: string, rest: string)
    ensures body + (CLOSE + rest) == (body + "\n") + ("<" + ("/attachment>" + rest))
  {
    assert CLOSE == "\n" + ("<" + "/attachment>");
  }

  lemma ReadBodyOf(p: Printer, attrs: Attrs, body: string, content: string, rest: string)
    requires '<' !in body && WithoutPathLine(p, Unescape(body), ValueOf(attrs, "project_path")) == Some(content)
    ensures ReadBody(p, attrs, body + (CLOSE + rest)) == Some((Entry(attrs, content), rest))
  {
    var raw, after := body + "\n", "/attachment>" + rest;
    CloseRegroup(body, rest);
    TakeUntilFirst(raw, '<', after);
    assert raw[..|raw| - 1] == body;
    StripPrefix("/attachment>", rest);
  }

  lemma EntryRead(p: Printer, index: nat, a: Attachment, rest: string)
    requires Tame(p)
    ensures ReadEntry(p, "\n" + (Format(p, index, a) + rest)) == Some((EntryOf(p, index, a), rest))
  {
    var attrs, body := AttrsOf(p, index, a), Body(p, a);
    var afterTag := body + (CLOSE + rest);
    var afterOpen := WriteAttrs(attrs) + (">\n" + afterTag);
    EntryRegroup(WriteAttrs(attrs), body, rest);
    StripPrefix("\n<attachment", afterOpen);
    AttrNames(p, index, a);
    AttrsRead(attrs, ">\n" + afterTag);
    StripPrefix(">\n", afterTag);
    BodyRead(p, a);
    PathOfAttrs(p, index, a);
    ReadBodyOf(p, attrs, body, Content(p, a), rest);
  }

  lemma EntryRegroup(written: string, body: string, rest: string)
    ensures "\n" + (("<attachment" + written + ">\n" + body + CLOSE) + rest) ==
            "\n<attachment" + (written + (">\n" + (body + (CLOSE + rest))))
  {
    assert "\n" + "<attachment" == "\n<attachment";
  }

  /** Text `f` is read as entry `e`, whatever follows. */
  ghost predicate ReadsAs(p: Printer, f: string, e: Entry) {
    forall rest: string :: ReadEntry(p, "\n" + (f + rest)) == Some((e, rest)) && "\n" + (f + rest) != END
  }

  /** What holds of the end of the block, and of each entry in front of what it holds of, holds of the block. */
  lemma {:induction false} BlockInduction(readsAs: (string, seq<Entry>) -> bool, fs: seq<string>, es: seq<Entry>, i: nat)
    requires |fs| == |es| && i <= |fs| && readsAs(END, [])
    requires forall j, rest, more | 0 <= j < |fs| && readsAs(rest, more) :: readsAs("\n" + (fs[j] + rest), [es[j]] + more)
    ensures readsAs(Block(fs, i), es[i..])
    decreases |fs| - i
  {
    if i < |fs| {
      BlockInduction(readsAs, fs, es, i + 1);
      assert es[i..] == [es[i]] + es[i + 1..];
    } else {
      assert es[i..] == [];
    }
  }

  lemma EndRead(p: Printer)
    ensures ReadEntries(p, END) == Some([])
  {
  }

  lemma BlockReadCons(p: Printer, f: string, e: Entry, rest: string, es: seq<Entry>)
    requires ReadsAs(p, f, e) && ReadEntries(p, rest) == Some(es)
    ensures ReadEntries(p, "\n" + (f + rest)) == Some([e] + es)
  {
    assert ReadEntry(p, "\n" + (f + rest)) == Some((e, rest));
  }

  lemma EntriesRead(p: Printer, atts: seq<Attachment>)
    requires Tame(p)
    ensures ReadEntries(p, Block(Formats(p, atts), 0)) == Some(EntriesOf(p, atts))
  {
    var fs, es := Formats(p, atts), EntriesOf(p, atts);
    var readsAs := (block: string, read: seq<Entry>) => ReadEntries(p, block) == Some(read);
    EndRead(p);
    forall j, rest, more | 0 <= j < |fs| && readsAs(rest, more) ensures readsAs("\n" + (fs[j] + rest), [es[j]] + more) {
      FormatsReadAs(p, atts, j);
      BlockReadCons(p, fs[j], es[j], rest, more);
    }
    BlockInduction(readsAs, fs, es, 0);
    assert es[0..] == es;
  }

  lemma FormatsReadAs(p: Printer, atts: seq<Attachment>, j: nat)
    requires Tame(p) && j < |atts|
    ensures ReadsAs(p, Formats(p, atts)[j], EntriesOf(p, atts)[j])
  {
    FormatReadsAs(p, j + 1, atts[j]);
  }

  lemma FormatReadsAs(p: Printer, index: nat, a: Attachment)
    requires Tame(p)
    ensures ReadsAs(p, Format(p, index, a), EntryOf(p, index, a))
  {
    forall rest: string
      ensures ReadEntry(p, "\n" + (Format(p, index, a) + rest)) == Some((EntryOf(p, index, a), rest)) && "\n" + (Format(p, index, a) + rest) != END
    {
      EntryRead(p, index, a, rest);
      NotTheEnd(p, index, a, rest);
    }
  }

  lemma NotTheEnd(p: Printer, index: nat, a: Attachment, rest: string)
    ensures "\n" + (Format(p, index, a) + rest) != END
  {
    var t := "\n" + (Format(p, index, a) + rest);
    assert Format(p, index, a)[1] == 'a';
    assert t[2] == 'a';
    assert END[2] == '/';
  }

  // ---- The marker ----

  const OPEN := "<attachments>"

  /** The opening tag of the block starts nowhere in `t`. */
  predicate NoOpen(t: string) {
    t == "" || (!(OPEN <= t) && NoOpen(t[1..]))
  }

  lemma {:induction false} NoOpenAt(t: string, k: nat)
    requires NoOpen(t) && k <= |t|
    ensures !(OPEN <= t[k..])
  {
    if k > 0 {
      NoOpenAt(t[1..], k - 1);
      assert t[1..][k - 1..] == t[k..];
    } else {
      assert t[0..] == t;
    }
  }

  lemma {:induction false} NoOpenAfter(a: string, b: string)
    requires '<' !in a && NoOpen(b)
    ensures NoOpen(a + b)
  {
    if a == "" {
      assert a + b == b;
    } else {
      NoOpenAfter(a[1..], b);
      assert (a + b)[1..] == a[1..] + b && (a + b)[0] == a[0];
    }
  }

  /** A tag that is not the opening tag of the block: an entry's, or a closing one. */
  lemma NoOpenTag(tag: string, rest: string)
    requires tag != "" && '<' !in tag && NoOpen(rest) && !(OPEN <= "<" + (tag + rest))
    ensures NoOpen("<" + (tag + rest))
  {
    NoOpenAfter(tag, rest);
    assert ("<" + (tag + rest))[1..] == tag + rest;
  }

  lemma BlockRegroup(written: string, body: string, rest: string)
    ensures "\n" + (("<attachment" + written + ">\n" + body + CLOSE) + rest) ==
            "\n" + ("<" + (("attachment" + written + ">\n" + body + "\n") + ("<" + ("/attachment>" + rest))))
  {
    assert CLOSE == "\n" + "<" + "/attachment>";
    assert "<" + "attachment" == "<attachment";
    TagRegroup("<", "attachment", written + ">\n" + body, "\n", "/attachment>", rest);
    assert "<attachment" + written + ">\n" + body == "<attachment" + (written + ">\n" + body);
    assert "attachment" + written + ">\n" + body == "attachment" + (written + ">\n" + body);
  }

  lemma TagRegroup(open: string, name: string, mid: string, line: string, close: string, rest: string)
    ensures open + name + mid + (line + open + close) + rest == open + ((name + mid + line) + (open + (close + rest)))
  {
  }

  lemma EntryHasNoOpen(p: Printer, index: nat, a: Attachment, rest: string)
    requires Tame(p) && NoOpen(rest)
    ensures NoOpen("\n" + (Format(p, index, a) + rest))
  {
    var written, body := WriteAttrs(AttrsOf(p, index, a)), Body(p, a);
    AttrNames(p, index, a);
    AttrsHoldNoTag(AttrsOf(p, index, a));
    BodyRead(p, a);
    BlockRegroup(written, body, rest);
    EntryTagsHaveNoOpen(written, body, rest);
  }

  lemma EntryTagsHaveNoOpen(written: string, body: string, rest: string)
    requires '<' !in written && '<' !in body && NoOpen(rest) && written != "" && written[0] == ' '
    ensures NoOpen("\n" + ("<" + (("attachment" + written + ">\n" + body + "\n") + ("<" + ("/attachment>" + rest)))))
  {
    var inner, close := "attachment" + written + ">\n" + body + "\n", "<" + ("/attachment>" + rest);
    assert close[1] == '/' && OPEN[1] == 'a';
    NoOpenTag("/attachment>", rest);
    var t := "<" + (inner + close);
    assert inner[10] == ' ';
    assert t[11] == ' ' && OPEN[11] == 's';
    NoOpenTag(inner, close);
    NoOpenAfter("\n", t);
  }

  lemma EndHasNoOpen()
    ensures NoOpen(END)
  {
    var tail := "/attachments>";
    assert END == "\n" + ("<" + (tail + ""));
    assert ("<" + (tail + ""))[1] == '/' && OPEN[1] == 'a';
    NoOpenTag(tail, "");
    NoOpenAfter("\n", "<" + (tail + ""));
  }

  lemma {:induction false} BlockHasNoOpen(p: Printer, atts: seq<Attachment>, i: nat)
    requires Tame(p) && i <= |atts|
    ensures NoOpen(Block(Formats(p, atts), i))
    decreases |atts| - i
  {
    if i == |atts| {
      EndHasNoOpen();
    } else {
      BlockHasNoOpen(p, atts, i + 1);
      EntryHasNoOpen(p, i + 1, atts[i], Block(Formats(p, atts), i + 1));
    }
  }

  /** After the code's own marker the marker never starts again. */
  lemma NoLaterMark(content: string, block: string, k: nat)
    requires NoOpen(block) && |content| < k <= |content + (MARK + block)|
    ensures !(MARK <= (content + (MARK + block))[k..])
  {
    var text, tail := content + (MARK + block), "attachments>" + block;
    var t := text[k..];
    MarkRegroup(content, block);
    if MARK <= t {
      NoOpenAfter("attachments>", block);
      var off := k + 2 - (|content| + 3);
      assert t[2..] == text[k + 2..] == tail[off..];
      NoOpenAt(tail, off);
      OpenInMark(t);
    }
  }

  lemma MarkRegroup(content: string, block: string)
    ensures content + (MARK + block) == (content + "\n\n<") + ("attachments>" + block)
  {
    assert MARK == "\n\n<" + "attachments>";
  }

  lemma OpenInMark(t: string)
    requires MARK <= t
    ensures OPEN <= t[2..]
  {
    assert OPEN == MARK[2..];
  }

  lemma {:induction false} MarkFound(content: string, block: string, k: nat)
    requires NoOpen(block) && |content| <= k <= |content + (MARK + block)|
    ensures LastMark(content + (MARK + block), k) == Some(|content|)
    decreases k
  {
    var text := content + (MARK + block);
    if k == |content| {
      assert text[k..] == MARK + block;
    } else {
      NoLaterMark(content, block, k);
      MarkFound(content, block, k - 1);
    }
  }

  lemma {:induction false} TextSplits(text: string, fs: seq<string>, n: nat)
    requires n <= |fs|
    ensures PushAll(text, fs, n) + Block(fs, n) == text + Block(fs, 0)
  {
    if n > 0 {
      TextSplits(text, fs, n - 1);
      PushEntry(PushAll(text, fs, n - 1), fs[n - 1], Block(fs, n), text + Block(fs, 0));
    }
  }

  lemma PushEntry(text: string, entry: string, rest: string, whole: string)
    requires text + ("\n" + (entry + rest)) == whole
    ensures text + "\n" + entry + rest == whole
  {
    Regroup4(text, "\n", entry, rest);
  }

  /**
   * For arbitrary content and attachment strings, the augmented text alone gives back the content and the
   * entries: their number, order, kind, displayed name, type, path, numbers and body.
   */
  lemma AugmentedDecodes(p: Printer, content: string, atts: seq<Attachment>)
    requires Tame(p)
    ensures Decode(p, Augmented(p, content, atts)) == Some((content, EntriesOf(p, atts)))
  {
    var block := Block(Formats(p, atts), 0);
    TextSplits(content + MARK, Formats(p, atts), |atts|);
    Regroup(content, MARK, block);
    BlockHasNoOpen(p, atts, 0);
    EntriesRead(p, atts);
    BlockFound(p, content, block, EntriesOf(p, atts));
  }

  lemma BlockFound(p: Printer, content: string, block: string, es: seq<Entry>)
    requires NoOpen(block) && ReadEntries(p, block) == Some(es)
    ensures Decode(p, content + (MARK + block)) == Some((content, es))
  {
    var text := content + (MARK + block);
    MarkFound(content, block, |text|);
    assert text[..|content|] == content && text[|content| + |MARK|..] == block;
  }

  /** What the text does not tell apart: a document without text, and one whose text is the placeholder. */
  lemma PlaceholderCollides(p: Printer, content: string, a: Attachment)
    requires Tame(p) && a.kind.Document?
    ensures Augmented(p, content, [a.(extractedText := None)]) == Augmented(p, content, [a.(extractedText := Some(p.noText))])
  {
    EscapeBare(p.noText);
    var x, y := [a.(extractedText := None)], [a.(extractedText := Some(p.noText))];
    assert Format(p, 1, x[0]) == Format(p, 1, y[0]);
    assert Formats(p, x) == Formats(p, y);
  }
}
