/**
 What the EDS parser makes of single characters, told with the characters themselves: which
 are white space, which end unquoted text, which may not stand before `=`.

 White space written into an accepted text, between any of its parts, changes nothing but
 line numbers; and each message of the parser comes with the texts that cause it and the
 line it names.
 */
module EdsSpacing {
  import opened Wire
  import opened EdsParser
  import opened EdsLayout
  import opened EdsWriter

  // ---------------------------------------------------------------- characters

  /** The characters of the Unicode White_Space property. */
  const WHITE: string :=
    "\t\n\U{000B}\U{000C}\r \U{0085}\U{00A0}\U{1680}" +
    "\U{2000}\U{2001}\U{2002}\U{2003}\U{2004}\U{2005}\U{2006}\U{2007}\U{2008}\U{2009}\U{200A}" +
    "\U{2028}\U{2029}\U{202F}\U{205F}\U{3000}"

  predicate IsIndent(s: string) {
    forall i | 0 <= i < |s| :: s[i] in WHITE
  }

  /** Text without any of the characters. */
  predicate Lacks(s: string, chars: string) {
    forall i | 0 <= i < |s| :: s[i] !in chars
  }

  lemma WhiteIsWhitespace(c: char)
    ensures IsWhitespace(c) <==> c in WHITE
  {
    var w := WHITE;
    assert |w| == 25;
    assert w[0] == '\t' && w[1] == '\n' && w[2] as int == 0x0B && w[3] as int == 0x0C && w[4] == '\r' && w[5] == ' ';
    assert w[6] as int == 0x85 && w[7] as int == 0xA0 && w[8] as int == 0x1680;
    assert forall i | 9 <= i < 20 :: w[i] as int == 0x2000 + i - 9;
    assert w[20] as int == 0x2028 && w[21] as int == 0x2029 && w[22] as int == 0x202F && w[23] as int == 0x205F
           && w[24] as int == 0x3000;
    if 0x2000 <= c as int <= 0x200A {
      assert w[c as int - 0x2000 + 9] == c;
    }
  }

  lemma IndentIsWhitespace(s: string)
    requires IsIndent(s)
    ensures forall i | 0 <= i < |s| :: IsWhitespace(s[i])
  {
    forall i | 0 <= i < |s| ensures IsWhitespace(s[i]) {
      WhiteIsWhitespace(s[i]);
    }
  }

  /** Exactly these characters end unquoted text and the name of an entry. */
  lemma SpecialCharacters(c: char)
    ensures EndsToken(c) <==> c in ",;\"$\n"
    ensures SpoilsKeyword(c) <==> c in ";[\","
  {
    var ends, spoils := ",;\"$\n", ";[\",";
    assert ends[0] == ',' && ends[1] == ';' && ends[2] == '"' && ends[3] == '$' && ends[4] == '\n';
    assert spoils[0] == ';' && spoils[1] == '[' && spoils[2] == '"' && spoils[3] == ',';
  }

  // ---------------------------------------------------------------- trimming

  predicate AllWhitespace(s: string) {
    forall i | 0 <= i < |s| :: IsWhitespace(s[i])
  }

  lemma {:induction false} TrimStartOfIndented(p: string, s: string)
    requires AllWhitespace(p)
    ensures TrimStart(p + s) == TrimStart(s)
  {
    if p == "" {
      assert p + s == s;
    } else {
      assert (p + s)[1..] == p[1..] + s;
      TrimStartOfIndented(p[1..], s);
    }
  }

  lemma {:induction false} TrimEndOfIndented(s: string, q: string)
    requires AllWhitespace(q)
    ensures TrimEnd(s + q) == TrimEnd(s)
  {
    if q == "" {
      assert s + q == s;
    } else {
      assert (s + q)[..|s + q| - 1] == s + q[..|q| - 1];
      TrimEndOfIndented(s, q[..|q| - 1]);
    }
  }

  lemma {:induction false} TrimStartThen(s: string, q: string)
    ensures TrimStart(s + q) == if TrimStart(s) == "" then TrimStart(q) else TrimStart(s) + q
  {
    if s == "" {
      assert s + q == q;
    } else {
      assert (s + q)[1..] == s[1..] + q;
      if IsWhitespace(s[0]) {
        TrimStartThen(s[1..], q);
      }
    }
  }

  /** White space around a text is trimmed. */
  lemma TrimOfIndented(p: string, s: string, q: string)
    requires IsIndent(p) && IsIndent(q)
    ensures Trim(p + (s + q)) == Trim(s)
  {
    IndentIsWhitespace(p);
    IndentIsWhitespace(q);
    TrimStartOfIndented(p, s + q);
    TrimStartThen(s, q);
    TrimEndOfIndented(TrimStart(s), q);
    TrimStartOfIndented(q, "");
    assert q + "" == q;
  }

  /** The blank before something may be continued, or begin earlier. */
  lemma {:induction false} BlankConcat(a: string, b: string)
    requires IsBlank(a) && IsBlank(b)
    ensures IsBlank(a + b)
    decreases |a|
  {
    if a == "" {
      assert a + b == b;
    } else if IsWhitespace(a[0]) && IsBlank(a[1..]) {
      BlankConcat(a[1..], b);
      assert (a + b)[1..] == a[1..] + b;
    } else {
      AfterLineIsShorter(a);
      LineThen(a, AfterLine(a) + b);
      BlankConcat(AfterLine(a), b);
      Associative(Line(a), AfterLine(a), b);
      CommentAndBlank(Line(a), AfterLine(a) + b);
    }
  }

  lemma {:induction false} WhitespaceIsBlank(p: string)
    requires AllWhitespace(p)
    ensures IsBlank(p)
  {
    if p != "" {
      WhitespaceIsBlank(p[1..]);
    }
  }

  lemma IndentIsBlank(p: string)
    requires IsIndent(p)
    ensures IsBlank(p)
  {
    IndentIsWhitespace(p);
    WhitespaceIsBlank(p);
  }

  // ---------------------------------------------------------------- spacing a field

  /** White space written before and after a part of the text. */
  datatype Pad = Pad(left: string, right: string)

  predicate IsPad(p: Pad) {
    IsIndent(p.left) && IsIndent(p.right)
  }

  function Begun(p: string, f: Layout): Layout {
    if f.chunks == [] then Layout([], p + f.trail)
    else Layout([f.chunks[0].(lead := p + f.chunks[0].lead)] + f.chunks[1..], f.trail)
  }

  lemma ChunkBegun(p: string, chunk: Chunk, tail: string)
    requires IsIndent(p) && IsChunk(chunk, tail)
    ensures var c := chunk.(lead := p + chunk.lead); IsChunk(c, tail) && ChunkText(c) == p + ChunkText(chunk)
  {
    IndentIsBlank(p);
    BlankConcat(p, chunk.lead);
    match chunk
    case Quoted(lead, body) => Associative(p, lead, "\"" + (BodyText(body) + "\""));
    case Bare(lead, text) => Associative(p, lead, text);
  }

  lemma ChunksBegun(p: string, chunk: Chunk, more: seq<Chunk>, trail: string)
    requires IsIndent(p) && AreChunks([chunk] + more, trail)
    ensures var chunks := [chunk.(lead := p + chunk.lead)] + more;
      && AreChunks(chunks, trail)
      && ChunksText(chunks) + trail == p + (ChunksText([chunk] + more) + trail)
      && HasString(chunks) == HasString([chunk] + more) && Strings(chunks) == Strings([chunk] + more)
      && Words(chunks) == Words([chunk] + more)
  {
    var c := chunk.(lead := p + chunk.lead);
    assert ([chunk] + more)[1..] == more && ([c] + more)[1..] == more;
    ChunkBegun(p, chunk, ChunksText(more) + trail);
    Associative(p, ChunkText(chunk), ChunksText(more));
    Associative(p, ChunksText([chunk] + more), trail);
  }

  lemma BegunMeansTheSame(p: string, f: Layout)
    requires IsIndent(p) && IsLayout(f)
    ensures IsLayout(Begun(p, f)) && FieldText(Begun(p, f)) == p + FieldText(f)
    ensures FieldMeaning(Begun(p, f)) == FieldMeaning(f)
  {
    if f.chunks == [] {
      IndentIsBlank(p);
      BlankConcat(p, f.trail);
      assert "" + f.trail == f.trail && "" + (p + f.trail) == p + f.trail;
    } else {
      assert [f.chunks[0]] + f.chunks[1..] == f.chunks;
      ChunksBegun(p, f.chunks[0], f.chunks[1..], f.trail);
    }
  }

  /** White space after the last chunk: it joins unquoted text up to the end of the line. */
  lemma {:induction false} ChunksEnded(chunks: seq<Chunk>, trail: string, q: string)
      returns (c: seq<Chunk>, t: string, pad: string)
    requires AreChunks(chunks, trail) && AllWhitespace(q)
    ensures AreChunks(c, t) && ChunksText(c) + t == ChunksText(chunks) + trail + q
    ensures HasString(c) == HasString(chunks) && Strings(c) == Strings(chunks)
    ensures AllWhitespace(pad) && Words(c) == Words(chunks) + pad
  {
    WhitespaceIsBlank(q);
    if chunks == [] {
      BlankConcat(trail, q);
      c, t, pad := [], trail + q, "";
      assert "" + trail == trail && "" + (trail + q) == trail + q;
    } else if chunks[0].Bare? && ChunksText(chunks[1..]) + trail == "" {
      LastBare(chunks, trail);
      assert chunks == [chunks[0]];
      c, t, pad := BareEnded(chunks[0], q);
      assert ChunkText(chunks[0]) + "" == ChunkText(chunks[0]);
    } else {
      var more, rest;
      more, rest, pad := ChunksEnded(chunks[1..], trail, q);
      c, t := [chunks[0]] + more, rest;
      ChunkKept(chunks[0], chunks[1..], trail, more, rest, q);
      assert c[1..] == more;
      WordsKept(chunks, c, pad);
    }
  }

  lemma LastBare(chunks: seq<Chunk>, trail: string)
    requires chunks != [] && AreChunks(chunks, trail) && ChunksText(chunks[1..]) + trail == ""
    ensures chunks[1..] == [] && trail == ""
  {
    if |chunks| > 1 {
      ChunksAreThere(chunks[1..], trail);
    }
  }

  lemma ChunksAreThere(chunks: seq<Chunk>, trail: string)
    requires chunks != [] && AreChunks(chunks, trail)
    ensures ChunksText(chunks) != ""
  {
    assert ChunkText(chunks[0]) != "";
  }

  lemma BareEnded(chunk: Chunk, q: string) returns (c: seq<Chunk>, t: string, pad: string)
    requires chunk.Bare? && AreChunks([chunk], "") && IsBlank(q)
    ensures AreChunks(c, t) && ChunksText(c) + t == ChunksText([chunk]) + q
    ensures HasString(c) == HasString([chunk]) && Strings(c) == Strings([chunk])
    ensures AllWhitespace(pad) && Words(c) == Words([chunk]) + pad
  {
    pad := Padding(q);
    PaddingSplits(q);
    var first := chunk.(text := chunk.text + pad);
    c, t := [first], q[|pad|..];
    OneWordEnded(chunk.lead, chunk.text, pad, t);
    OneChunk(first);
    OneChunk(chunk);
    assert pad + t == q;
    OneBareEnded(chunk.lead, chunk.text, pad, t);
    assert HasString([chunk]) == HasString(c) == false;
    NoStrings([chunk]);
    NoStrings(c);
  }

  lemma OneWordEnded(lead: string, text: string, pad: string, t: string)
    requires AreChunks([Bare(lead, text)], "") && IsBlank(t) && StartsEnded(t)
    requires forall i | 0 <= i < |pad| :: !EndsToken(pad[i])
    ensures AreChunks([Bare(lead, text + pad)], t)
  {
    var chunks := [Bare(lead, text + pad)];
    assert [Bare(lead, text)][1..] == [];
    assert chunks[1..] == [] && "" + t == t;
  }

  lemma OneBareEnded(lead: string, text: string, pad: string, t: string)
    ensures lead + (text + pad) + t == lead + text + (pad + t)
  {
  }

  lemma ChunkKept(chunk: Chunk, chunks: seq<Chunk>, trail: string, more: seq<Chunk>, rest: string, q: string)
    requires AreChunks([chunk] + chunks, trail) && AreChunks(more, rest)
    requires ChunksText(more) + rest == ChunksText(chunks) + trail + q
    requires chunk.Bare? ==> ChunksText(chunks) + trail != ""
    ensures AreChunks([chunk] + more, rest)
    ensures ChunksText([chunk] + more) + rest == ChunksText([chunk] + chunks) + trail + q
  {
    assert ([chunk] + chunks)[1..] == chunks && ([chunk] + more)[1..] == more;
    Associative(ChunkText(chunk), ChunksText(more), rest);
    Associative(ChunkText(chunk), ChunksText(chunks), trail);
    Associative(ChunkText(chunk), ChunksText(chunks) + trail, q);
  }

  lemma WordsKept(chunks: seq<Chunk>, c: seq<Chunk>, pad: string)
    requires chunks != [] && c != [] && c[0] == chunks[0]
    requires HasString(c[1..]) == HasString(chunks[1..]) && Strings(c[1..]) == Strings(chunks[1..])
    requires Words(c[1..]) == Words(chunks[1..]) + pad
    ensures HasString(c) == HasString(chunks) && Strings(c) == Strings(chunks)
    ensures Words(c) == Words(chunks) + pad
  {
    var text := match chunks[0] case Bare(_, text) => text case _ => "";
    Associative(text, Words(chunks[1..]), pad);
    assert Words(c) == text + Words(c[1..]) && Words(chunks) == text + Words(chunks[1..]);
  }

  /** White space on both sides of a field. */
  lemma FieldSpaced(f: Layout, p: Pad) returns (g: Layout)
    requires IsLayout(f) && IsPad(p)
    ensures IsLayout(g) && FieldText(g) == p.left + (FieldText(f) + p.right) && FieldMeaning(g) == FieldMeaning(f)
  {
    var b := Begun(p.left, f);
    BegunMeansTheSame(p.left, f);
    IndentIsWhitespace(p.right);
    var chunks, trail, pad := ChunksEnded(b.chunks, b.trail, p.right);
    g := Layout(chunks, trail);
    Associative(p.left, FieldText(f), p.right);
    forall i | 0 <= i < |pad| ensures pad[i] in WHITE {
      WhiteIsWhitespace(pad[i]);
    }
    TrimOfIndented("", Words(b.chunks), pad);
    assert "" + (Words(b.chunks) + pad) == Words(b.chunks) + pad;
  }

  function SpacedFieldsText(fields: seq<Layout>, pads: seq<Pad>): string
    requires |pads| == |fields|
  {
    if fields == [] then ""
    else
      var first := pads[0].left + (FieldText(fields[0]) + pads[0].right);
      if |fields| == 1 then first + ";" else first + ("," + SpacedFieldsText(fields[1..], pads[1..]))
  }

  predicate ArePads(pads: seq<Pad>) {
    forall i | 0 <= i < |pads| :: IsPad(pads[i])
  }

  lemma {:induction false} FieldsSpaced(fields: seq<Layout>, pads: seq<Pad>) returns (r: seq<Layout>)
    requires AreLayouts(fields) && |pads| == |fields| && ArePads(pads)
    ensures AreLayouts(r) && FieldsText(r) == SpacedFieldsText(fields, pads)
    ensures FieldsMeaning(r) == FieldsMeaning(fields)
  {
    var f := FieldSpaced(fields[0], pads[0]);
    if |fields| == 1 {
      r := [f];
      assert fields[1..] == r[1..];
    } else {
      var more := FieldsSpaced(fields[1..], pads[1..]);
      r := [f] + more;
      assert r[1..] == more;
    }
  }

  // ---------------------------------------------------------------- spacing a text

  /** White space written into an item: after the blank before it, around the name of the
      section or entry, and around each field. */
  datatype Spacing = Spacing(lead: string, name: Pad, fields: seq<Pad>)

  predicate Fits(s: Spacing, item: Item) {
    && IsIndent(s.lead) && IsPad(s.name) && ArePads(s.fields)
    && match item
       case Header(_, _) => '\n' !in s.name.left && '\n' !in s.name.right
       case Statement(_, _, fields) => |s.fields| == |fields|
  }

  predicate FitAll(spacing: seq<Spacing>, items: seq<Item>) {
    |spacing| == |items| && forall i | 0 <= i < |items| :: Fits(spacing[i], items[i])
  }

  function SpacedItemText(item: Item, s: Spacing): string
    requires Fits(s, item)
  {
    match item
    case Header(lead, name) =>
      lead + s.lead + ("[" + (s.name.left + (name + s.name.right) + "]"))
    case Statement(lead, keyword, fields) =>
      lead + s.lead + (s.name.left + (keyword + s.name.right) + ("=" + SpacedFieldsText(fields, s.fields)))
  }

  function SpacedItemsText(items: seq<Item>, spacing: seq<Spacing>): string
    requires FitAll(spacing, items)
  {
    if items == [] then ""
    else SpacedItemText(items[0], spacing[0]) + SpacedItemsText(items[1..], spacing[1..])
  }

  /** The text of a document with the white space written into it. */
  function SpacedText(d: Document, spacing: seq<Spacing>): string
    requires FitAll(spacing, d.items)
  {
    SpacedItemsText(d.items, spacing) + EndText(d)
  }

  lemma LeadSpaced(lead: string, indent: string)
    requires IsBlank(lead) && IsIndent(indent)
    ensures IsBlank(lead + indent)
  {
    IndentIsBlank(indent);
    BlankConcat(lead, indent);
  }

  lemma NameSpaced(p: Pad, name: string)
    requires IsPad(p) && IsName(name) && '\n' !in p.left && '\n' !in p.right
    ensures IsName(p.left + (name + p.right)) && Trim(p.left + (name + p.right)) == Trim(name)
  {
    TrimOfIndented(p.left, name, p.right);
    IndentLacks(p.left, ']');
    IndentLacks(p.right, ']');
  }

  lemma IndentLacks(p: string, c: char)
    requires IsIndent(p) && !IsWhitespace(c)
    ensures c !in p
  {
    IndentIsWhitespace(p);
  }

  lemma IndentIsPlain(p: string)
    requires IsIndent(p)
    ensures forall i | 0 <= i < |p| :: p[i] != '=' && !SpoilsKeyword(p[i])
  {
    IndentIsWhitespace(p);
  }

  /** Where a keyword with white space around it begins and ends for the parser. */
  lemma KeywordSpaced(lead: string, p: Pad, keyword: string, s: string) returns (l: string, k: string)
    requires IsBlank(lead) && IsPad(p) && IsKeyword(keyword)
    ensures IsBlank(l) && IsKeyword(k) && Trim(k) == Trim(keyword)
    ensures lead + (p.left + (keyword + p.right) + s) == l + (k + s)
  {
    IndentIsPlain(p.right);
    LeadSpaced(lead, p.left);
    if keyword == "" {
      LeadSpaced(lead + p.left, p.right);
      l, k := lead + p.left + p.right, "";
      assert keyword + p.right == p.right && "" + s == s;
      Associate4(lead, p.left, p.right, s);
    } else {
      l, k := lead + p.left, keyword + p.right;
      TrimOfIndented("", keyword, p.right);
      assert "" + (keyword + p.right) == keyword + p.right;
      Associative(p.left, k, s);
      Associative(lead, p.left, k + s);
    }
  }

  lemma Associate4(a: string, b: string, c: string, d: string)
    ensures a + (b + c + d) == a + b + c + d
  {
  }

  lemma ItemSpaced(item: Item, s: Spacing) returns (r: Item)
    requires IsItem(item) && Fits(s, item)
    ensures IsItem(r) && r.Statement? == item.Statement?
    ensures r.lead + ItemText(r) == SpacedItemText(item, s)
    ensures forall sections: seq<Section> :: (item.Statement? ==> sections != []) ==>
              PlainlyExtended(r, sections) == PlainlyExtended(item, sections)
  {
    LeadSpaced(item.lead, s.lead);
    match item
    case Header(lead, name) =>
      NameSpaced(s.name, name);
      r := Header(lead + s.lead, s.name.left + (name + s.name.right));
    case Statement(lead, keyword, fields) =>
      var l, k := KeywordSpaced(lead + s.lead, s.name, keyword, "=" + SpacedFieldsText(fields, s.fields));
      var f := FieldsSpaced(fields, s.fields);
      r := Statement(l, k, f);
  }

  lemma {:induction false} ItemsSpaced(items: seq<Item>, spacing: seq<Spacing>, sections: seq<Section>)
      returns (r: seq<Item>)
    requires AreItems(items, sections) && FitAll(spacing, items)
    ensures AreItems(r, sections) && ItemsText(r) == SpacedItemsText(items, spacing)
    ensures PlainMeaning(r, sections) == PlainMeaning(items, sections)
  {
    if items == [] {
      r := [];
    } else {
      var item := ItemSpaced(items[0], spacing[0]);
      var more := ItemsSpaced(items[1..], spacing[1..], PlainlyExtended(items[0], sections));
      r := [item] + more;
      assert r[1..] == more;
      Associative(item.lead, ItemText(item), ItemsText(more));
    }
  }

  /** White space written into an accepted text changes nothing but lines.  Every accepted
      text is the text of such a document. */
  lemma SpacingPlaysNoPart(d: Document, spacing: seq<Spacing>)
    requires WellFormed(d) && FitAll(spacing, d.items)
    ensures Parsing(Text(d)).Good? && Parsing(SpacedText(d, spacing)).Good?
    ensures Unlined(Parsing(SpacedText(d, spacing)).value) == Unlined(Parsing(Text(d)).value)
  {
    var items := ItemsSpaced(d.items, spacing, []);
    var e := d.(items := items);
    ParseOfPrint(d);
    ParseOfPrint(e);
    PlainMeaningIsMeaning(d.items, "", []);
    PlainMeaningIsMeaning(items, "", []);
  }

  // ---------------------------------------------------------------- what can be parsed

  predicate IsSpelledName(name: string) {
    Lacks(name, "]\n") && (name != "" ==> name[0] !in WHITE && name[|name| - 1] !in WHITE)
  }

  predicate IsSpelledKeyword(k: string) {
    Lacks(k, "=;[\",") && (k != "" ==> k[0] != '$' && k[0] !in WHITE && k[|k| - 1] !in WHITE)
  }

  predicate IsSpelledWord(t: string) {
    t != "" && Lacks(t, ",;\"$\n") && t[0] !in WHITE && t[|t| - 1] !in WHITE
  }

  predicate IsSpelledEntry(e: Entry) {
    && IsSpelledKeyword(e.keyword) && e.fields != []
    && forall i | 0 <= i < |e.fields| :: e.fields[i].Token? ==> IsSpelledWord(e.fields[i].text)
  }

  predicate IsSpelledSection(s: Section) {
    IsSpelledName(s.name) && forall i | 0 <= i < |s.entries| :: IsSpelledEntry(s.entries[i])
  }

  lemma EndsAreTrimmed(s: string)
    ensures IsTrimmed(s) <==> (s != "" ==> s[0] !in WHITE && s[|s| - 1] !in WHITE)
  {
    if s != "" {
      WhiteIsWhitespace(s[0]);
      WhiteIsWhitespace(s[|s| - 1]);
    }
  }

  lemma NameSpelled(name: string)
    ensures IsSpelledName(name) <==> IsName(name) && IsTrimmed(name)
  {
    EndsAreTrimmed(name);
    assert forall c: char :: c in "]\n" <==> c == ']' || c == '\n' by {
      assert "]\n"[0] == ']' && "]\n"[1] == '\n';
    }
  }

  lemma KeywordChars(c: char)
    ensures c in "=;[\"," <==> c == '=' || SpoilsKeyword(c)
  {
    var s := "=;[\",";
    assert s[0] == '=' && s[1] == ';' && s[2] == '[' && s[3] == '"' && s[4] == ',';
  }

  lemma KeywordLacks(k: string)
    ensures Lacks(k, "=;[\",") <==> forall i | 0 <= i < |k| :: k[i] != '=' && !SpoilsKeyword(k[i])
  {
    forall i | 0 <= i < |k| ensures k[i] in "=;[\"," <==> k[i] == '=' || SpoilsKeyword(k[i]) {
      KeywordChars(k[i]);
    }
  }

  lemma KeywordSpelled(k: string)
    ensures IsSpelledKeyword(k) <==> IsKeyword(k) && IsTrimmed(k)
  {
    EndsAreTrimmed(k);
    KeywordLacks(k);
  }

  lemma WordSpelled(t: string)
    ensures IsSpelledWord(t) <==> EdsWriter.IsWord(t)
  {
    EndsAreTrimmed(t);
    forall i | 0 <= i < |t| ensures t[i] in ",;\"$\n" <==> EndsToken(t[i]) {
      SpecialCharacters(t[i]);
    }
  }

  lemma EntrySpelled(e: Entry)
    ensures IsSpelledEntry(e) <==> WritableEntry(e)
  {
    KeywordSpelled(e.keyword);
    forall i | 0 <= i < |e.fields| && e.fields[i].Token?
      ensures IsSpelledWord(e.fields[i].text) <==> EdsWriter.IsWord(e.fields[i].text)
    {
      WordSpelled(e.fields[i].text);
    }
  }

  lemma SectionSpelled(s: Section)
    ensures IsSpelledSection(s) <==> WritableSection(s)
  {
    NameSpelled(s.name);
    forall i | 0 <= i < |s.entries| ensures IsSpelledEntry(s.entries[i]) <==> WritableEntry(s.entries[i]) {
      EntrySpelled(s.entries[i]);
    }
  }

  /** The sections some text can stand for, told with the characters their names, keywords
      and tokens may have. */
  lemma ResultsAreTheSpelledSections(sections: seq<Section>)
    ensures (forall i | 0 <= i < |sections| :: IsSpelledSection(sections[i]))
       <==> exists text: string :: Parsing(text).Good? && Unlined(Parsing(text).value) == Unlined(sections)
  {
    forall i | 0 <= i < |sections| ensures IsSpelledSection(sections[i]) <==> WritableSection(sections[i]) {
      SectionSpelled(sections[i]);
    }
    ResultsAreTheWritableSections(sections);
  }

  predicate HasQuoted(chunks: seq<Chunk>) {
    exists i | 0 <= i < |chunks| :: chunks[i].Quoted?
  }

  /** A field is a string exactly when something in it is quoted, and its text is then that
      of its strings, whatever unquoted text stands among them. */
  lemma StringsWin(f: Layout)
    ensures FieldMeaning(f).Str? <==> HasQuoted(f.chunks)
    ensures FieldMeaning(f).Str? ==> FieldMeaning(f).text == Strings(f.chunks)
  {
    QuotedIsString(f.chunks);
  }

  lemma {:induction false} QuotedIsString(chunks: seq<Chunk>)
    ensures HasString(chunks) <==> HasQuoted(chunks)
  {
    if chunks != [] {
      QuotedIsString(chunks[1..]);
      assert forall i | 1 <= i < |chunks| :: chunks[i] == chunks[1..][i - 1];
      assert HasQuoted(chunks[1..]) ==> HasQuoted(chunks) by {
        if HasQuoted(chunks[1..]) {
          var i :| 0 <= i < |chunks[1..]| && chunks[1..][i].Quoted?;
          assert chunks[i + 1].Quoted?;
        }
      }
    }
  }

  // ---------------------------------------------------------------- errors

  /** Lines are counted by their ends. */
  lemma {:induction false} NewlinesCounts(s: string)
    ensures Newlines(s) == multiset(s)['\n']
  {
    if s != "" {
      NewlinesCounts(s[1..]);
      assert s == [s[0]] + s[1..];
    }
  }

  /** The cursor behind some items. */
  lemma AfterItems(items: seq<Item>, before: string, s: string, last: int) returns (sections: seq<Section>)
    requires AreItems(items, []) && before == ItemsText(items) && last == 1 + Newlines(before + s)
    ensures Parsing(before + s) == ReadSections(At(last, s), sections)
  {
    sections := ItemsMeaning(items, "", []);
    NothingBefore(before + s);
    ItemsRead(items, "", s, last, []);
    ParsingStarts(before + s, last);
  }

  lemma NothingBefore(s: string)
    ensures "" + s == s
  {
  }

  lemma ParsingStarts(text: string, last: int)
    requires last == 1 + Newlines(text)
    ensures Parsing(text) == ReadSections(At(last, text), [])
  {
    assert At(last, text) == Cur(text, 1);
  }

  lemma BlankBefore(before: string, b: string, s: string, last: int)
    requires IsBlank(b) && Stops(s) && last == 1 + Newlines(before + (b + s))
    ensures SkipBlank(At(last, b + s)) == At(last, s)
    ensures At(last, s).line == 1 + Newlines(before + b)
  {
    BlankSkipped(b, s, last);
    LineAt(before, b, s);
  }

  lemma HeaderFailsAt(c: Cur, d: Cur, sections: seq<Section>, problem: Problem)
    requires SkipBlank(c) == d && d.rest != "" && d.rest[0] == '[' && ReadName(After(d), "") == Bad(problem)
    ensures ReadSections(c, sections) == Bad(problem)
  {
  }

  lemma EntryFailsAt(c: Cur, d: Cur, sections: seq<Section>, problem: Problem)
    requires SkipBlank(c) == d && d.rest != "" && d.rest[0] != '[' && ReadEntry(d, d.line) == Bad(problem)
    ensures ReadSections(c, sections) == Bad(problem)
  {
  }

  /** A header or an entry that fails behind some items fails the whole text. */
  lemma FailsBehindItems(items: seq<Item>, before: string, b: string, s: string, last: int, line: int, problem: Problem)
    requires AreItems(items, []) && before == ItemsText(items) && IsBlank(b) && Stops(s) && s != ""
    requires last == 1 + Newlines(before + (b + s)) && line == 1 + Newlines(before + b)
    requires if s[0] == '[' then ReadName(After(At(last, s)), "") == Bad(problem)
             else ReadEntry(At(last, s), line) == Bad(problem)
    ensures Parsing(before + (b + s)) == Bad(problem)
  {
    BlankBefore(before, b, s, last);
    var sections := AfterItems(items, before, b + s, last);
    if s[0] == '[' {
      HeaderFailsAt(At(last, b + s), At(last, s), sections, problem);
    } else {
      EntryFailsAt(At(last, b + s), At(last, s), sections, problem);
    }
  }

  lemma {:induction false} NameUnclosed(name: string, end: string, last: int, acc: string)
    requires Lacks(name, "]\n") && (end != "" ==> end[0] == '\n')
    ensures ReadName(At(last, name + end), acc)
         == Bad(UnterminatedHeader(last - Newlines(end) + (if end == "" then 0 else 1)))
  {
    if name == "" {
      assert name + end == end;
    } else {
      Step(name, end, last);
      var c := name[0];
      assert c != ']' && c != '\n' by {
        assert "]\n"[0] == ']' && "]\n"[1] == '\n';
      }
      NameUnclosed(name[1..], end, last, acc + [c]);
    }
  }

  lemma LineOfHeader(before: string, b: string, name: string, end: string)
    requires Lacks(name, "]\n")
    ensures 1 + Newlines(before + (b + ("[" + (name + end)))) - Newlines(end) == 1 + Newlines(before + b)
  {
    LineAt(before, b, "[" + (name + end));
    NewlinesConcat(name, end);
    NoNewlines(name);
    assert Newlines("[" + (name + end)) == Newlines(name + end);
  }

  ghost predicate LeavesHeaderOpen(s: string, end: string)
    requires s != ""
  {
    forall last: int ::
      ReadName(After(At(last, s)), "") == Bad(UnterminatedHeader(last - Newlines(end) + (if end == "" then 0 else 1)))
  }

  lemma HeaderUnclosed(s: string, name: string, end: string)
    requires s == "[" + (name + end) && Lacks(name, "]\n") && (end != "" ==> end[0] == '\n')
    ensures s != "" && s[0] == '[' && LeavesHeaderOpen(s, end)
  {
    forall last: int
      ensures ReadName(After(At(last, s)), "")
           == Bad(UnterminatedHeader(last - Newlines(end) + (if end == "" then 0 else 1)))
    {
      CharThen('[', name + end, last);
      NameUnclosed(name, end, last, "");
    }
  }

  lemma OpenHeaderFails(items: seq<Item>, before: string, b: string, s: string, end: string)
    requires AreItems(items, []) && before == ItemsText(items) && IsBlank(b)
    requires s != "" && s[0] == '[' && LeavesHeaderOpen(s, end)
    requires 1 + Newlines(before + (b + s)) - Newlines(end) == 1 + Newlines(before + b)
    ensures Parsing(before + (b + s))
         == Bad(UnterminatedHeader(1 + Newlines(before + b) + (if end == "" then 0 else 1)))
  {
    FailsBehindItems(items, before, b, s, 1 + Newlines(before + (b + s)), 1 + Newlines(before + b),
                     UnterminatedHeader(1 + Newlines(before + b) + (if end == "" then 0 else 1)));
  }

  /** A header that is not closed on its line; a line end counts as read. */
  lemma HeaderMustClose(items: seq<Item>, b: string, name: string, end: string, header: string)
    requires AreItems(items, []) && IsBlank(b) && Lacks(name, "]\n") && (end != "" ==> end[0] == '\n')
    requires header == "[" + (name + end)
    ensures Parsing(ItemsText(items) + (b + header))
         == Bad(UnterminatedHeader(1 + Newlines(ItemsText(items) + b) + (if end == "" then 0 else 1)))
  {
    LineOfHeader(ItemsText(items), b, name, end);
    HeaderUnclosed(header, name, end);
    OpenHeaderFails(items, ItemsText(items), b, header, end);
  }

  lemma {:induction false} NoNewlines(s: string)
    requires Lacks(s, "]\n")
    ensures Newlines(s) == 0
  {
    assert "]\n"[1] == '\n';
    if s != "" {
      NoNewlines(s[1..]);
    }
  }

  function First(s: string): Option<char> {
    if s == "" then None else Some(s[0])
  }

  lemma {:induction false} KeywordSpoiled(k: string, end: string, last: int, acc: string)
    requires Lacks(k, "=;[\",") && (end != "" ==> end[0] in ";[\",")
    ensures ReadKeyword(At(last, k + end), acc)
         == Bad(ExpectedEquals(last - Newlines(end), Trim(acc + k), First(end)))
  {
    if k == "" {
      assert k + end == end && acc + k == acc;
      if end != "" {
        SpecialCharacters(end[0]);
      }
    } else {
      Step(k, end, last);
      KeywordChars(k[0]);
      KeywordSpoiled(k[1..], end, last, acc + [k[0]]);
      assert acc + [k[0]] + k[1..] == acc + k;
    }
  }

  ghost predicate LacksEquals(s: string, k: string, end: string) {
    forall line: int, last: int ::
      ReadEntry(At(last, s), line) == Bad(ExpectedEquals(last - Newlines(end), Trim(k), First(end)))
  }

  lemma EntryWithoutEquals(s: string, k: string, end: string)
    requires s == k + end && Lacks(k, "=;[\",") && (end != "" ==> end[0] in ";[\",")
    ensures LacksEquals(s, k, end)
  {
    forall line: int, last: int
      ensures ReadEntry(At(last, s), line) == Bad(ExpectedEquals(last - Newlines(end), Trim(k), First(end)))
    {
      KeywordSpoiled(k, end, last, "");
      NothingBefore(k);
    }
  }

  lemma NameWithoutEqualsFails(items: seq<Item>, before: string, b: string, s: string, k: string, end: string,
                               last: int, line: int, problem: Problem)
    requires AreItems(items, []) && before == ItemsText(items) && IsBlank(b)
    requires s != "" && s[0] != '[' && Stops(s) && LacksEquals(s, k, end)
    requires last == 1 + Newlines(before + (b + s)) && line == 1 + Newlines(before + b)
    requires problem == ExpectedEquals(last - Newlines(end), Trim(k), First(end))
    ensures Parsing(before + (b + s)) == Bad(problem)
  {
    assert ReadEntry(At(last, s), line) == Bad(problem) by {
      LacksEqualsAt(s, k, end, last, line, problem);
    }
    EntryFailsBehindItems(items, before, b, s, last, line, problem);
  }

  lemma LacksEqualsAt(s: string, k: string, end: string, last: int, line: int, problem: Problem)
    requires LacksEquals(s, k, end) && problem == ExpectedEquals(last - Newlines(end), Trim(k), First(end))
    ensures ReadEntry(At(last, s), line) == Bad(problem)
  {
  }

  lemma EntryFailsBehindItems(items: seq<Item>, before: string, b: string, s: string, last: int, line: int,
                              problem: Problem)
    requires AreItems(items, []) && before == ItemsText(items) && IsBlank(b) && Stops(s) && s != "" && s[0] != '['
    requires last == 1 + Newlines(before + (b + s)) && line == 1 + Newlines(before + b)
    requires ReadEntry(At(last, s), line) == Bad(problem)
    ensures Parsing(before + (b + s)) == Bad(problem)
  {
    FailsBehindItems(items, before, b, s, last, line, problem);
  }

  /** A name of an entry that the end of the text or one of `;[",` follows. */
  lemma NameNeedsEquals(items: seq<Item>, b: string, k: string, end: string, entry: string)
    requires AreItems(items, []) && IsBlank(b) && entry == k + end
    requires Lacks(k, "=;[\",") && (end != "" ==> end[0] in ";[\",")
    requires if k != "" then k[0] != '$' && k[0] !in WHITE else end != "" && end[0] != '['
    ensures Parsing(ItemsText(items) + (b + entry))
         == Bad(ExpectedEquals(1 + Newlines(ItemsText(items) + b + k), Trim(k), First(end)))
  {
    NameStops(k, end);
    LineOfName(ItemsText(items), b, k, end);
    EntryWithoutEquals(entry, k, end);
    NameWithoutEqualsFails(items, ItemsText(items), b, entry, k, end, 1 + Newlines(ItemsText(items) + (b + entry)),
                           1 + Newlines(ItemsText(items) + b),
                           ExpectedEquals(1 + Newlines(ItemsText(items) + b + k), Trim(k), First(end)));
  }

  lemma LineOfName(before: string, b: string, k: string, end: string)
    ensures 1 + Newlines(before + (b + (k + end))) - Newlines(end) == 1 + Newlines(before + b + k)
  {
    LineAt(before + b, k, end);
    Associative(before, b, k + end);
  }

  lemma NameStops(k: string, end: string)
    requires Lacks(k, "=;[\",") && (end != "" ==> end[0] in ";[\",")
    requires if k != "" then k[0] != '$' && k[0] !in WHITE else end != "" && end[0] != '['
    ensures Stops(k + end) && k + end != "" && (k + end)[0] != '['
  {
    if k != "" {
      WhiteIsWhitespace(k[0]);
      KeywordChars(k[0]);
    } else {
      SpecialCharacters(end[0]);
    }
  }

  lemma EntryTooEarly(c: Cur, d: Cur, e: Entry, rest: Cur)
    requires SkipBlank(c) == d && d.rest != "" && d.rest[0] != '[' && ReadEntry(d, d.line) == Good((e, rest))
    ensures ReadSections(c, []) == Bad(BeforeAnySection(rest.line, e.keyword))
  {
  }

  ghost predicate ReadsEntry(s: string, k: string, fields: seq<Field>, rest: string) {
    && s != "" && s[0] != '[' && Stops(s)
    && forall line: int, last: int :: ReadEntry(At(last, s), line) == Good((Entry(k, fields, line), At(last, rest)))
  }

  lemma PrintReadsEntry(s: string, k: string, fields: seq<Layout>, rest: string)
    requires IsKeyword(k) && AreLayouts(fields) && s == k + ("=" + FieldsText(fields)) + rest
    ensures ReadsEntry(s, Trim(k), FieldsMeaning(fields), rest)
  {
    StatementStops(k, FieldsText(fields), rest);
    forall line: int, last: int
      ensures ReadEntry(At(last, s), line) == Good((Entry(Trim(k), FieldsMeaning(fields), line), At(last, rest)))
    {
      EntryRead(k, fields, rest, last, line);
    }
  }

  lemma EntryComesTooEarly(b: string, s: string, d: Cur, e: Entry, rest: Cur, last: int)
    requires IsBlank(b) && s != "" && s[0] != '[' && Stops(s)
    requires d == At(last, s) && ReadEntry(d, d.line) == Good((e, rest)) && last == 1 + Newlines(b + s)
    ensures Parsing(b + s) == Bad(BeforeAnySection(rest.line, e.keyword))
  {
    assert SkipBlank(At(last, b + s)) == d by {
      BlankSkipped(b, s, last);
    }
    EntryTooEarly(At(last, b + s), d, e, rest);
    ParsingStarts(b + s, last);
  }

  /** An entry before any header; the line is the one its `;` is in. */
  lemma EntryNeedsSection(b: string, k: string, fields: seq<Layout>, rest: string, entry: string)
    requires IsBlank(b) && IsKeyword(k) && AreLayouts(fields) && entry == k + ("=" + FieldsText(fields))
    ensures Parsing(b + (entry + rest)) == Bad(BeforeAnySection(1 + Newlines(b + entry), Trim(k)))
  {
    PrintReadsEntry(entry + rest, k, fields, rest);
    LineAt(b, entry, rest);
    var last := 1 + Newlines(b + (entry + rest));
    var d := At(last, entry + rest);
    EntryComesTooEarly(b, entry + rest, d, Entry(Trim(k), FieldsMeaning(fields), d.line), At(last, rest), last);
  }

  // ---------------------------------------------------------------- errors within fields

  /** Fields that a comma ends. */
  function CommaText(fields: seq<Layout>): string {
    if fields == [] then "" else FieldText(fields[0]) + ("," + CommaText(fields[1..]))
  }

  lemma {:induction false} CommasRead(layouts: seq<Layout>, tail: string, last: int,
                                      fields: seq<Field>, keyword: string, line: int)
    requires forall i | 0 <= i < |layouts| :: IsLayout(layouts[i])
    ensures ReadFields(At(last, CommaText(layouts) + tail), fields, None, "", keyword, line)
         == ReadFields(At(last, tail), fields + FieldsMeaning(layouts), None, "", keyword, line)
  {
    if layouts == [] {
      assert CommaText(layouts) + tail == tail && fields + FieldsMeaning(layouts) == fields;
    } else {
      NextFieldRead(layouts[0], CommaText(layouts[1..]), tail, last, fields, keyword, line);
      CommasRead(layouts[1..], tail, last, fields + [FieldMeaning(layouts[0])], keyword, line);
      AppendMeaning(fields, layouts);
    }
  }

  lemma KeywordThenProblem(c: Cur, k: string, d: Cur, line: int, problem: Problem)
    requires ReadKeyword(c, "") == Good((k, d)) && ReadFields(d, [], None, "", Trim(k), line) == Bad(problem)
    ensures ReadEntry(c, line) == Bad(problem)
  {
  }

  /** An entry that fails in its fields fails the whole text. */
  lemma FieldsFail(items: seq<Item>, before: string, b: string, k: string, text: string, last: int, line: int,
                   problem: Problem)
    requires AreItems(items, []) && before == ItemsText(items) && IsBlank(b) && IsKeyword(k)
    requires last == 1 + Newlines(before + (b + (k + ("=" + text)))) && line == 1 + Newlines(before + b)
    requires ReadFields(At(last, text), [], None, "", Trim(k), line) == Bad(problem)
    ensures Parsing(before + (b + (k + ("=" + text)))) == Bad(problem)
  {
    var s := k + ("=" + text);
    assert s + "" == s;
    StatementStops(k, text, "");
    KeywordRead(k, text, last, "");
    assert "" + k == k;
    KeywordThenProblem(At(last, s), k, At(last, text), line, problem);
    FailsBehindItems(items, before, b, s, last, line, problem);
  }

  /** Text of whole fields and of one that nothing ends, perhaps with a comment behind it. */
  predicate EndsInField(text: string, done: seq<Layout>, f: Layout, comment: Option<string>) {
    && text == CommaText(done) + (FieldText(f) + CommentText(comment))
    && (forall i | 0 <= i < |done| :: IsLayout(done[i])) && IsLayout(f)
    && (comment.Some? ==> '\n' !in comment.value)
  }

  ghost predicate LeavesEntryOpen(text: string) {
    forall keyword: string, line: int, last: int ::
      ReadFields(At(last, text), [], None, "", keyword, line) == Bad(NoTerminator(line, keyword))
  }

  lemma LaterFieldUnended(text: string, done: seq<Layout>, f: Layout, comment: Option<string>)
    requires EndsInField(text, done, f, comment)
    ensures LeavesEntryOpen(text)
  {
    forall keyword: string, line: int, last: int
      ensures ReadFields(At(last, text), [], None, "", keyword, line) == Bad(NoTerminator(line, keyword))
    {
      CommasRead(done, FieldText(f) + CommentText(comment), last, [], keyword, line);
      FieldUnended(f, comment, last, [] + FieldsMeaning(done), keyword, line);
    }
  }

  lemma OpenEntryFails(items: seq<Item>, before: string, b: string, k: string, text: string, last: int, line: int)
    requires AreItems(items, []) && before == ItemsText(items) && IsBlank(b) && IsKeyword(k) && LeavesEntryOpen(text)
    requires last == 1 + Newlines(before + (b + (k + ("=" + text)))) && line == 1 + Newlines(before + b)
    ensures Parsing(before + (b + (k + ("=" + text)))) == Bad(NoTerminator(line, Trim(k)))
  {
    FieldsFail(items, before, b, k, text, last, line, NoTerminator(line, Trim(k)));
  }

  /** An entry without its `;`; the line is the one its name starts in. */
  lemma EntryNeedsSemicolon(items: seq<Item>, before: string, b: string, k: string, fields: string, done: seq<Layout>,
                            f: Layout, comment: Option<string>)
    requires AreItems(items, []) && before == ItemsText(items) && IsBlank(b) && IsKeyword(k)
    requires EndsInField(fields, done, f, comment)
    ensures Parsing(before + (b + (k + ("=" + fields)))) == Bad(NoTerminator(1 + Newlines(before + b), Trim(k)))
  {
    LaterFieldUnended(fields, done, f, comment);
    OpenEntryFails(items, before, b, k, fields, 1 + Newlines(before + (b + (k + ("=" + fields)))),
                   1 + Newlines(before + b));
  }

  lemma FieldUnended(f: Layout, comment: Option<string>, last: int, fields: seq<Field>, keyword: string, line: int)
    requires IsLayout(f) && (comment.Some? ==> '\n' !in comment.value)
    ensures ReadFields(At(last, FieldText(f) + CommentText(comment)), fields, None, "", keyword, line)
         == Bad(NoTerminator(line, keyword))
  {
    var end := CommentText(comment);
    ChunksRead(f.chunks, f.trail, end, last, fields, None, "", keyword, line);
    ChunksAreTrailed(f.chunks, f.trail);
    EndSkipped(f.trail, end, last);
    Associative(ChunksText(f.chunks), f.trail, end);
  }

  lemma {:induction false} BodyUnclosed(body: seq<Char>, end: string, last: int, acc: string)
    requires IsBody(body) && (end == "" || end == "\\")
    ensures ReadString(At(last, BodyText(body) + end), acc) == Bad(UnterminatedString(last))
  {
    if body == [] {
      assert BodyText(body) + end == end;
      if end != "" {
        assert end + "" == end && "\\"[1..] == "";
        Step(end, "", last);
      }
    } else {
      var first, rest := CharText(body[0]), BodyText(body[1..]);
      CharRead(body[0], rest + end, last);
      BodyUnclosed(body[1..], end, last, acc + [Meant(body[0])]);
      OneCharMore(first, Meant(body[0]), rest + end, last, acc, Bad(UnterminatedString(last)));
      Associative(first, rest, end);
    }
  }

  /** The beginning of a string. */
  function OpenText(lead: string, body: seq<Char>, end: string): string {
    lead + ("\"" + (BodyText(body) + end))
  }

  /** Text of whole fields, chunks of another, and a string without its closing quote, perhaps
      behind a last backslash. */
  predicate EndsInString(text: string, done: seq<Layout>, chunks: seq<Chunk>, lead: string, body: seq<Char>,
                         end: string) {
    && text == CommaText(done) + (ChunksText(chunks) + OpenText(lead, body, end))
    && (forall i | 0 <= i < |done| :: IsLayout(done[i]))
    && AreChunks(chunks, lead) && IsBody(body) && (end == "" || end == "\\")
  }

  ghost predicate LeavesStringOpen(text: string) {
    forall keyword: string, line: int, last: int ::
      ReadFields(At(last, text), [], None, "", keyword, line) == Bad(UnterminatedString(last))
  }

  lemma LaterStringUnclosed(text: string, done: seq<Layout>, chunks: seq<Chunk>, lead: string, body: seq<Char>,
                            end: string)
    requires EndsInString(text, done, chunks, lead, body, end)
    ensures LeavesStringOpen(text)
  {
    forall keyword: string, line: int, last: int
      ensures ReadFields(At(last, text), [], None, "", keyword, line) == Bad(UnterminatedString(last))
    {
      CommasRead(done, ChunksText(chunks) + OpenText(lead, body, end), last, [], keyword, line);
      StringUnclosed(chunks, lead, body, end, last, [] + FieldsMeaning(done), keyword, line);
    }
  }

  lemma OpenStringFails(items: seq<Item>, before: string, b: string, k: string, text: string, last: int)
    requires AreItems(items, []) && before == ItemsText(items) && IsBlank(b) && IsKeyword(k)
    requires last == 1 + Newlines(before + (b + (k + ("=" + text))))
    requires LeavesStringOpen(text)
    ensures Parsing(before + (b + (k + ("=" + text)))) == Bad(UnterminatedString(last))
  {
    FieldsFail(items, before, b, k, text, last, 1 + Newlines(before + b), UnterminatedString(last));
  }

  /** A string that is not closed, whatever chunks of its field come before it; the line is
      the last one of the text. */
  lemma StringMustClose(items: seq<Item>, b: string, k: string, fields: string, done: seq<Layout>, chunks: seq<Chunk>,
                        lead: string, body: seq<Char>, end: string, last: int)
    requires AreItems(items, []) && IsBlank(b) && IsKeyword(k)
    requires EndsInString(fields, done, chunks, lead, body, end)
    requires last == 1 + Newlines(ItemsText(items) + (b + (k + ("=" + fields))))
    ensures Parsing(ItemsText(items) + (b + (k + ("=" + fields)))) == Bad(UnterminatedString(last))
  {
    LaterStringUnclosed(fields, done, chunks, lead, body, end);
    OpenStringFails(items, ItemsText(items), b, k, fields, last);
  }

  lemma StringUnclosed(chunks: seq<Chunk>, lead: string, body: seq<Char>, end: string, last: int,
                       fields: seq<Field>, keyword: string, line: int)
    requires AreChunks(chunks, lead) && IsBody(body) && (end == "" || end == "\\")
    ensures ReadFields(At(last, ChunksText(chunks) + OpenText(lead, body, end)), fields, None, "", keyword, line)
         == Bad(UnterminatedString(last))
  {
    var open := "\"" + (BodyText(body) + end);
    ChunksAreTrailed(chunks, lead);
    ChunksRead(chunks, lead, open, last, fields, None, "", keyword, line);
    BlankSkipped(lead, open, last);
    CharThen('"', BodyText(body) + end, last);
    var strings := AllStrings(None, chunks);
    BodyUnclosed(body, end, last, if strings.Some? then strings.value else "");
  }
}
