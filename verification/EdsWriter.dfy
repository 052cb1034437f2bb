/**
 Which sections an EDS text can stand for, and a text for each of them.

 Lines apart, the results of the parser are exactly the `Writable` sections: each of them is
 what the parser returns for the text `Written` prints, and it returns no others.  Fields are
 also read the same whatever white space and comments stand around them.
 */
module EdsWriter {
  import opened Wire
  import opened EdsParser
  import opened EdsLayout

  // ---------------------------------------------------------------- trimming

  predicate IsTrimmed(s: string) {
    s == "" || (!IsWhitespace(s[0]) && !IsWhitespace(s[|s| - 1]))
  }

  lemma {:induction false} TrimEndIsPrefix(s: string)
    ensures TrimEnd(s) <= s
    ensures TrimEnd(s) != "" ==> !IsWhitespace(TrimEnd(s)[|TrimEnd(s)| - 1])
  {
    if s != "" && IsWhitespace(s[|s| - 1]) {
      TrimEndIsPrefix(s[..|s| - 1]);
    }
  }

  lemma {:induction false} TrimStartIsSuffix(s: string)
    ensures |TrimStart(s)| <= |s| && TrimStart(s) == s[|s| - |TrimStart(s)|..]
    ensures TrimStart(s) != "" ==> !IsWhitespace(TrimStart(s)[0])
  {
    if s != "" && IsWhitespace(s[0]) {
      TrimStartIsSuffix(s[1..]);
    }
  }

  /** A trimmed string is part of the string, and has nothing to trim. */
  lemma TrimIsTrimmed(s: string)
    ensures IsTrimmed(Trim(s))
    ensures forall i | 0 <= i < |Trim(s)| :: Trim(s)[i] in s
    ensures Trim(s) != "" && !IsWhitespace(s[0]) ==> Trim(s)[0] == s[0]
  {
    TrimStartIsSuffix(s);
    TrimEndIsPrefix(TrimStart(s));
  }

  lemma {:induction false} TrimEndPadded(t: string, pad: string)
    requires t != "" ==> !IsWhitespace(t[|t| - 1])
    requires forall i | 0 <= i < |pad| :: IsWhitespace(pad[i])
    ensures TrimEnd(t + pad) == t
  {
    if pad == "" {
      assert t + pad == t;
    } else {
      assert (t + pad)[..|t + pad| - 1] == t + pad[..|pad| - 1];
      TrimEndPadded(t, pad[..|pad| - 1]);
    }
  }

  lemma TrimPadded(t: string, pad: string)
    requires IsTrimmed(t) && t != ""
    requires forall i | 0 <= i < |pad| :: IsWhitespace(pad[i])
    ensures Trim(t + pad) == t
  {
    TrimEndPadded(t, pad);
  }

  lemma TrimOfTrimmed(t: string)
    requires IsTrimmed(t)
    ensures Trim(t) == t
  {
    if t != "" {
      TrimPadded(t, "");
      assert t + "" == t;
    }
  }

  // ---------------------------------------------------------------- single fields

  /** White space that the token loop keeps, up to the end of the line or a comment. */
  function Padding(blank: string): string {
    if blank == "" || blank[0] == '\n' || blank[0] == '$' then "" else [blank[0]] + Padding(blank[1..])
  }

  lemma {:induction false} PaddingSplits(blank: string)
    requires IsBlank(blank)
    ensures Padding(blank) <= blank && IsBlank(blank[|Padding(blank)|..]) && StartsEnded(blank[|Padding(blank)|..])
    ensures forall i | 0 <= i < |Padding(blank)| :: IsWhitespace(Padding(blank)[i]) && !EndsToken(Padding(blank)[i])
  {
    if blank != "" && blank[0] != '\n' && blank[0] != '$' {
      PaddingSplits(blank[1..]);
      assert blank[1..][|Padding(blank[1..])|..] == blank[|Padding(blank)|..];
    }
  }

  /** Unquoted text that is a field of its own. */
  predicate IsWord(t: string) {
    t != "" && IsTrimmed(t) && forall i | 0 <= i < |t| :: !EndsToken(t[i])
  }

  lemma OneChunk(chunk: Chunk)
    ensures ChunksText([chunk]) == ChunkText(chunk)
    ensures HasString([chunk]) <==> chunk.Quoted?
    ensures chunk.Quoted? ==> Strings([chunk]) == BodyMeaning(chunk.body)
    ensures chunk.Bare? ==> Words([chunk]) == chunk.text
  {
    assert [chunk][1..] == [];
    assert ChunkText(chunk) + "" == ChunkText(chunk);
    if chunk.Quoted? {
      assert BodyMeaning(chunk.body) + "" == BodyMeaning(chunk.body);
    } else {
      assert chunk.text + "" == chunk.text;
    }
  }

  lemma OneWord(before: string, text: string, trail: string)
    requires IsBlank(before) && IsBare(text) && IsBlank(trail) && StartsEnded(trail)
    ensures var f := Layout([Bare(before, text)], trail);
      && IsLayout(f) && FieldText(f) == before + text + trail
      && FieldMeaning(f) == if Trim(text) == "" then Empty else Token(Trim(text))
  {
    OneChunk(Bare(before, text));
    var chunks := [Bare(before, text)];
    assert chunks[1..] == [] && "" + trail == trail;
  }

  /** A word with any white space and comments before and after it. */
  lemma WordAmongBlanks(before: string, t: string, after: string) returns (f: Layout)
    requires IsBlank(before) && IsWord(t) && IsBlank(after)
    ensures IsLayout(f) && FieldText(f) == before + (t + after) && FieldMeaning(f) == Token(t)
  {
    var pad := Padding(after);
    PaddingSplits(after);
    var trail := after[|pad|..];
    f := Layout([Bare(before, t + pad)], trail);
    TrimPadded(t, pad);
    OneWord(before, t + pad, trail);
    assert pad + trail == after;
    Associative(t, pad, trail);
    Associative(before, t + pad, trail);
  }

  /** Strings joined across any white space and comments. */
  lemma {:induction false} StringsAmongBlanks(chunks: seq<Chunk>, after: string)
    requires chunks != [] && IsBlank(after)
    requires forall i | 0 <= i < |chunks| :: chunks[i].Quoted? && IsBlank(chunks[i].lead) && IsBody(chunks[i].body)
    ensures IsLayout(Layout(chunks, after)) && FieldMeaning(Layout(chunks, after)) == Str(Strings(chunks))
  {
    if |chunks| > 1 {
      StringsAmongBlanks(chunks[1..], after);
    }
  }

  /** Quotes, backslashes and line ends behind a backslash. */
  function Escape(s: string): (body: seq<Char>)
    ensures |body| == |s|
  {
    if s == "" then []
    else
      [if s[0] == '"' || s[0] == '\\' then Escaped(s[0]) else if s[0] == '\n' then Escaped('n') else Plain(s[0])]
      + Escape(s[1..])
  }

  /** Every string can be quoted, on one line. */
  lemma {:induction false} EscapeIsRead(s: string)
    ensures IsBody(Escape(s)) && BodyMeaning(Escape(s)) == s && '\n' !in BodyText(Escape(s))
  {
    if s != "" {
      EscapeIsRead(s[1..]);
      assert Escape(s)[1..] == Escape(s[1..]);
    }
  }

  // ---------------------------------------------------------------- sections without lines

  function UnlinedEntries(entries: seq<Entry>): (r: seq<Entry>)
    ensures |r| == |entries|
  {
    if entries == [] then [] else [entries[0].(line := 0)] + UnlinedEntries(entries[1..])
  }

  function Unlined(sections: seq<Section>): (r: seq<Section>)
    ensures |r| == |sections|
  {
    if sections == [] then []
    else [sections[0].(entries := UnlinedEntries(sections[0].entries))] + Unlined(sections[1..])
  }

  lemma {:induction false} UnlinedEntriesConcat(a: seq<Entry>, b: seq<Entry>)
    ensures UnlinedEntries(a + b) == UnlinedEntries(a) + UnlinedEntries(b)
  {
    if a == [] {
      assert a + b == b;
    } else {
      assert (a + b)[1..] == a[1..] + b;
      UnlinedEntriesConcat(a[1..], b);
    }
  }

  lemma {:induction false} UnlinedConcat(a: seq<Section>, b: seq<Section>)
    ensures Unlined(a + b) == Unlined(a) + Unlined(b)
  {
    if a == [] {
      assert a + b == b;
    } else {
      assert (a + b)[1..] == a[1..] + b;
      UnlinedConcat(a[1..], b);
    }
  }

  lemma UnlinedOne(s: Section, e: Entry)
    ensures Unlined([s]) == [s.(entries := UnlinedEntries(s.entries))]
    ensures UnlinedEntries([e]) == [e.(line := 0)]
  {
  }

  lemma UnlinedPush(sections: seq<Section>, e: Entry)
    requires sections != []
    ensures Unlined(Push(sections, e)) == Push(Unlined(sections), e.(line := 0))
  {
    var front, last := sections[..|sections| - 1], sections[|sections| - 1];
    assert sections == front + [last];
    UnlinedConcat(front, [last]);
    UnlinedConcat(front, [last.(entries := last.entries + [e])]);
    UnlinedEntriesConcat(last.entries, [e]);
    UnlinedOne(last, e);
    UnlinedOne(last.(entries := last.entries + [e]), e);
    assert Unlined(sections)[..|sections| - 1] == Unlined(front);
  }

  function PlainlyExtended(item: Item, sections: seq<Section>): (r: seq<Section>)
    requires item.Statement? ==> sections != []
    ensures r != []
  {
    match item
    case Header(_, name) => sections + [Section(Trim(name), [])]
    case Statement(_, keyword, fields) => Push(sections, Entry(Trim(keyword), FieldsMeaning(fields), 0))
  }

  /** The meaning of items, lines apart: the text before them plays no part. */
  function PlainMeaning(items: seq<Item>, sections: seq<Section>): seq<Section>
    requires items != [] && items[0].Statement? ==> sections != []
  {
    if items == [] then sections else PlainMeaning(items[1..], PlainlyExtended(items[0], sections))
  }

  lemma UnlinedExtended(item: Item, before: string, sections: seq<Section>)
    requires item.Statement? ==> sections != []
    ensures Unlined(Extended(item, before, sections)) == PlainlyExtended(item, Unlined(sections))
  {
    match item
    case Header(_, name) =>
      UnlinedConcat(sections, [Section(Trim(name), [])]);
    case Statement(lead, keyword, fields) =>
      UnlinedPush(sections, Entry(Trim(keyword), FieldsMeaning(fields), 1 + Newlines(before + lead)));
  }

  lemma {:induction false} PlainMeaningIsMeaning(items: seq<Item>, before: string, sections: seq<Section>)
    requires items != [] && items[0].Statement? ==> sections != []
    ensures Unlined(ItemsMeaning(items, before, sections)) == PlainMeaning(items, Unlined(sections))
  {
    if items != [] {
      UnlinedExtended(items[0], before, sections);
      PlainMeaningIsMeaning(items[1..], before + (items[0].lead + ItemText(items[0])),
                            Extended(items[0], before, sections));
    }
  }

  // ---------------------------------------------------------------- writing

  predicate WritableEntry(e: Entry) {
    && IsKeyword(e.keyword) && IsTrimmed(e.keyword) && e.fields != []
    && forall i | 0 <= i < |e.fields| :: e.fields[i].Token? ==> IsWord(e.fields[i].text)
  }

  predicate WritableSection(s: Section) {
    && IsName(s.name) && IsTrimmed(s.name)
    && forall i | 0 <= i < |s.entries| :: WritableEntry(s.entries[i])
  }

  predicate Writable(sections: seq<Section>) {
    forall i | 0 <= i < |sections| :: WritableSection(sections[i])
  }

  function WrittenField(f: Field): Layout {
    match f
    case Empty => Layout([], "")
    case Str(s) => Layout([Quoted(" ", Escape(s))], "")
    case Token(t) => Layout([Bare(" ", t)], "")
  }

  function WrittenFields(fields: seq<Field>): seq<Layout> {
    if fields == [] then [] else [WrittenField(fields[0])] + WrittenFields(fields[1..])
  }

  function WrittenEntries(entries: seq<Entry>, more: seq<Item>): seq<Item> {
    if entries == [] then more
    else [WrittenEntry(entries[0])] + WrittenEntries(entries[1..], more)
  }

  function WrittenSections(sections: seq<Section>): seq<Item> {
    if sections == [] then []
    else
      [Header("\n", sections[0].name)] + WrittenEntries(sections[0].entries, WrittenSections(sections[1..]))
  }

  /** A text for the sections. */
  function Written(sections: seq<Section>): Document {
    Document(WrittenSections(sections), "\n", None)
  }

  lemma FieldIsWritten(f: Field)
    requires f.Token? ==> IsWord(f.text)
    ensures IsLayout(WrittenField(f)) && FieldMeaning(WrittenField(f)) == f
  {
    match f
    case Empty =>
    case Str(s) =>
      EscapeIsRead(s);
      OneChunk(Quoted(" ", Escape(s)));
    case Token(t) =>
      TrimOfTrimmed(t);
      OneWord(" ", t, "");
  }

  lemma {:induction false} FieldsAreWritten(fields: seq<Field>)
    requires forall i | 0 <= i < |fields| :: fields[i].Token? ==> IsWord(fields[i].text)
    ensures fields != [] ==> AreLayouts(WrittenFields(fields))
    ensures FieldsMeaning(WrittenFields(fields)) == fields
  {
    if fields != [] {
      FieldIsWritten(fields[0]);
      FieldsAreWritten(fields[1..]);
      assert WrittenFields(fields)[1..] == WrittenFields(fields[1..]);
    }
  }

  /** The item one entry is written as. */
  function WrittenEntry(e: Entry): Item {
    Statement("\n", e.keyword, WrittenFields(e.fields))
  }

  lemma EntryIsWritten(e: Entry, rest: seq<Item>, sections: seq<Section>, name: string, done: seq<Entry>)
    requires WritableEntry(e) && AreItems(rest, [Section(name, done)])
    ensures AreItems([WrittenEntry(e)] + rest, [Section(name, done)])
    ensures PlainMeaning([WrittenEntry(e)] + rest, sections + [Section(name, done)])
         == PlainMeaning(rest, sections + [Section(name, done + [e.(line := 0)])])
  {
    var items := [WrittenEntry(e)] + rest;
    FieldsAreWritten(e.fields);
    TrimOfTrimmed(e.keyword);
    assert items[1..] == rest;
    assert Push(sections + [Section(name, done)], e.(line := 0)) == sections + [Section(name, done + [e.(line := 0)])];
  }

  lemma AppendEntry(done: seq<Entry>, e: Entry, more: seq<Entry>)
    ensures done + [e] + more == done + ([e] + more)
  {
  }

  lemma {:induction false} EntriesAreWritten(entries: seq<Entry>, more: seq<Item>, sections: seq<Section>,
                                             name: string, done: seq<Entry>)
    requires forall i | 0 <= i < |entries| :: WritableEntry(entries[i])
    requires AreItems(more, [Section(name, done)])
    ensures AreItems(WrittenEntries(entries, more), [Section(name, done)])
    ensures PlainMeaning(WrittenEntries(entries, more), sections + [Section(name, done)])
         == PlainMeaning(more, sections + [Section(name, done + UnlinedEntries(entries))])
  {
    if entries == [] {
      assert done + UnlinedEntries(entries) == done;
    } else {
      var e := entries[0];
      EntriesAreWritten(entries[1..], more, sections, name, done + [e.(line := 0)]);
      EntryIsWritten(e, WrittenEntries(entries[1..], more), sections, name, done);
      AppendEntry(done, e.(line := 0), UnlinedEntries(entries[1..]));
    }
  }

  lemma SectionIsWritten(s: Section, more: seq<Item>, before: seq<Section>)
    requires WritableSection(s) && AreItems(more, before + [s])
    ensures var items := [Header("\n", s.name)] + WrittenEntries(s.entries, more);
      && AreItems(items, before)
      && PlainMeaning(items, before)
         == PlainMeaning(more, before + [s.(entries := UnlinedEntries(s.entries))])
  {
    var items := WrittenEntries(s.entries, more);
    TrimOfTrimmed(s.name);
    EntriesAreWritten(s.entries, more, before, s.name, []);
    assert ([Header("\n", s.name)] + items)[1..] == items;
    assert [] + UnlinedEntries(s.entries) == UnlinedEntries(s.entries);
  }

  lemma {:induction false} SectionsAreWritten(sections: seq<Section>, before: seq<Section>)
    requires Writable(sections)
    ensures AreItems(WrittenSections(sections), before)
    ensures PlainMeaning(WrittenSections(sections), before) == before + Unlined(sections)
  {
    if sections == [] {
      assert before + Unlined(sections) == before;
    } else {
      var s, more := sections[0], WrittenSections(sections[1..]);
      var written := s.(entries := UnlinedEntries(s.entries));
      SectionsAreWritten(sections[1..], before + [written]);
      SectionIsWritten(s, more, before);
      Associate(before, written, Unlined(sections[1..]));
    }
  }

  lemma Associate(a: seq<Section>, s: Section, b: seq<Section>)
    ensures a + [s] + b == a + ([s] + b)
  {
  }

  /** Parsing what was written for some sections gives them back. */
  lemma ParseOfWritten(sections: seq<Section>)
    requires Writable(sections)
    ensures Parsing(Text(Written(sections))).Good?
    ensures Unlined(Parsing(Text(Written(sections))).value) == Unlined(sections)
  {
    var d := Written(sections);
    SectionsAreWritten(sections, []);
    ParseOfPrint(d);
    PlainMeaningIsMeaning(d.items, "", []);
  }

  // ---------------------------------------------------------------- nothing else is parsed

  lemma {:induction false} WordsAreBare(chunks: seq<Chunk>, trail: string)
    requires AreChunks(chunks, trail)
    ensures forall i | 0 <= i < |Words(chunks)| :: !EndsToken(Words(chunks)[i])
    ensures Words(chunks) != "" ==> !IsWhitespace(Words(chunks)[0])
  {
    if chunks != [] {
      WordsAreBare(chunks[1..], trail);
    }
  }

  lemma FieldIsWritable(f: Layout)
    requires IsLayout(f)
    ensures FieldMeaning(f).Token? ==> IsWord(FieldMeaning(f).text)
  {
    WordsAreBare(f.chunks, f.trail);
    TrimIsTrimmed(Words(f.chunks));
  }

  lemma {:induction false} FieldsAreWritable(fields: seq<Layout>)
    requires AreLayouts(fields)
    ensures |FieldsMeaning(fields)| == |fields|
    ensures var r := FieldsMeaning(fields); forall i | 0 <= i < |r| :: r[i].Token? ==> IsWord(r[i].text)
  {
    FieldIsWritable(fields[0]);
    if |fields| > 1 {
      FieldsAreWritable(fields[1..]);
    } else {
      assert FieldsMeaning(fields[1..]) == [];
    }
  }

  lemma KeywordIsWritable(keyword: string)
    requires IsKeyword(keyword)
    ensures IsKeyword(Trim(keyword)) && IsTrimmed(Trim(keyword))
  {
    TrimIsTrimmed(keyword);
    if keyword == "" {
      assert Trim(keyword) == "";
    }
  }

  lemma NameIsWritable(name: string)
    requires IsName(name)
    ensures IsName(Trim(name)) && IsTrimmed(Trim(name))
  {
    TrimIsTrimmed(name);
  }

  lemma ExtendedIsWritable(item: Item, before: string, sections: seq<Section>)
    requires IsItem(item) && (item.Statement? ==> sections != []) && Writable(sections)
    ensures Writable(Extended(item, before, sections))
  {
    match item
    case Header(_, name) => NameIsWritable(name);
    case Statement(_, keyword, fields) =>
      KeywordIsWritable(keyword);
      FieldsAreWritable(fields);
  }

  lemma {:induction false} MeaningIsWritable(items: seq<Item>, before: string, sections: seq<Section>)
    requires AreItems(items, sections) && Writable(sections)
    ensures Writable(ItemsMeaning(items, before, sections))
  {
    if items != [] {
      ExtendedIsWritable(items[0], before, sections);
      MeaningIsWritable(items[1..], before + (items[0].lead + ItemText(items[0])),
                        Extended(items[0], before, sections));
    }
  }

  lemma ParsedIsWritable(text: string)
    requires Parsing(text).Good?
    ensures Writable(Parsing(text).value)
  {
    AcceptsExactlyPrints(text);
    var d: Document :| WellFormed(d) && Text(d) == text;
    ParseOfPrint(d);
    MeaningIsWritable(d.items, "", []);
  }

  lemma {:induction false} UnlinedEntriesWritable(a: seq<Entry>, b: seq<Entry>)
    requires UnlinedEntries(a) == UnlinedEntries(b)
    requires forall i | 0 <= i < |a| :: WritableEntry(a[i])
    ensures forall i | 0 <= i < |b| :: WritableEntry(b[i])
  {
    if b != [] {
      assert a[0].(line := 0) == UnlinedEntries(a)[0] == UnlinedEntries(b)[0] == b[0].(line := 0);
      assert UnlinedEntries(a)[1..] == UnlinedEntries(a[1..]) && UnlinedEntries(b)[1..] == UnlinedEntries(b[1..]);
      UnlinedEntriesWritable(a[1..], b[1..]);
    }
  }

  lemma {:induction false} UnlinedWritable(a: seq<Section>, b: seq<Section>)
    requires Unlined(a) == Unlined(b) && Writable(a)
    ensures Writable(b)
  {
    if b != [] {
      assert Unlined(a)[0] == Unlined(b)[0];
      UnlinedEntriesWritable(a[0].entries, b[0].entries);
      assert Unlined(a)[1..] == Unlined(a[1..]) && Unlined(b)[1..] == Unlined(b[1..]);
      UnlinedWritable(a[1..], b[1..]);
    }
  }

  /** Lines apart, the results of the parser are exactly the writable sections. */
  lemma ResultsAreTheWritableSections(sections: seq<Section>)
    ensures Writable(sections)
       <==> exists text: string :: Parsing(text).Good? && Unlined(Parsing(text).value) == Unlined(sections)
  {
    if Writable(sections) {
      ParseOfWritten(sections);
    }
    forall text: string | Parsing(text).Good? && Unlined(Parsing(text).value) == Unlined(sections)
      ensures Writable(sections)
    {
      ParsedIsWritable(text);
      UnlinedWritable(Parsing(text).value, sections);
    }
  }

  /** Writing the sections of an accepted text and parsing again loses only the lines. */
  lemma RewritingLosesOnlyLines(text: string)
    requires Parsing(text).Good?
    ensures var again := Parsing(Text(Written(Parsing(text).value)));
      again.Good? && Unlined(again.value) == Unlined(Parsing(text).value)
  {
    ParsedIsWritable(text);
    ParseOfWritten(Parsing(text).value);
  }
}
