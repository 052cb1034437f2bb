/**
 The texts the EDS parser accepts, as what they are written from: headers, entries, fields,
 strings with their escapes, unquoted words, and the white space and comments between them.

 `Text` prints such a document and `Meaning` says which sections it stands for, with each
 entry's line counted in the printed text.  Parsing a printed document gives its meaning,
 and every text that parses is the print of some document, so the accepted texts are exactly
 the printed ones.
 */
module EdsLayout {
  import opened Wire
  import opened EdsParser

  // ---------------------------------------------------------------- documents

  /** A character of a quoted string: as it is, or after a backslash. */
  datatype Char = Plain(c: char) | Escaped(c: char)

  /** A piece of a field: a quoted string, or unquoted text up to a separator, a quote, a
      comment or the end of the line; `lead` is the white space and comments before it. */
  datatype Chunk = Quoted(lead: string, body: seq<Char>) | Bare(lead: string, text: string)

  datatype Layout = Layout(chunks: seq<Chunk>, trail: string)

  datatype Item =
    | Header(lead: string, name: string)
    | Statement(lead: string, keyword: string, fields: seq<Layout>)

  /** `trail` ends the text, perhaps with a comment that has no end of line. */
  datatype Document = Document(items: seq<Item>, trail: string, comment: Option<string>)

  // ---------------------------------------------------------------- printing

  function CharText(c: Char): string {
    match c
    case Plain(c) => [c]
    case Escaped(c) => ['\\', c]
  }

  function BodyText(body: seq<Char>): string {
    if body == [] then "" else CharText(body[0]) + BodyText(body[1..])
  }

  function ChunkText(chunk: Chunk): string {
    match chunk
    case Quoted(lead, body) => lead + ("\"" + (BodyText(body) + "\""))
    case Bare(lead, text) => lead + text
  }

  function ChunksText(chunks: seq<Chunk>): string {
    if chunks == [] then "" else ChunkText(chunks[0]) + ChunksText(chunks[1..])
  }

  function FieldText(f: Layout): string {
    ChunksText(f.chunks) + f.trail
  }

  function FieldsText(fields: seq<Layout>): string {
    if fields == [] then ""
    else if |fields| == 1 then FieldText(fields[0]) + ";"
    else FieldText(fields[0]) + ("," + FieldsText(fields[1..]))
  }

  /** An item after its white space. */
  function ItemText(item: Item): string {
    match item
    case Header(_, name) => "[" + (name + "]")
    case Statement(_, keyword, fields) => keyword + ("=" + FieldsText(fields))
  }

  function ItemsText(items: seq<Item>): string {
    if items == [] then "" else items[0].lead + (ItemText(items[0]) + ItemsText(items[1..]))
  }

  function CommentText(comment: Option<string>): string {
    if comment.Some? then "$" + comment.value else ""
  }

  function EndText(d: Document): string {
    d.trail + CommentText(d.comment)
  }

  function Text(d: Document): string {
    ItemsText(d.items) + EndText(d)
  }

  // ---------------------------------------------------------------- well-formedness

  function AfterLine(s: string): string {
    if s == "" then "" else if s[0] == '\n' then s[1..] else AfterLine(s[1..])
  }

  lemma AfterLineIsShorter(s: string)
    requires s != ""
    ensures |AfterLine(s)| < |s|
  {
  }

  /** White space and complete comments. */
  predicate IsBlank(s: string)
    decreases |s|
  {
    || s == ""
    || (s[0] == '$' && '\n' in s && (AfterLineIsShorter(s); IsBlank(AfterLine(s))))
    || (IsWhitespace(s[0]) && IsBlank(s[1..]))
  }

  predicate IsBody(body: seq<Char>) {
    forall i | 0 <= i < |body| :: body[i].Plain? ==> body[i].c != '"' && body[i].c != '\\'
  }

  predicate IsBare(text: string) {
    && text != ""
    && text[0] != '$' && !IsWhitespace(text[0])
    && forall i | 0 <= i < |text| :: !EndsToken(text[i])
  }

  predicate StartsEnded(s: string) {
    s == "" || EndsToken(s[0])
  }

  /** Unquoted text is maximal: what follows it ends the token. */
  predicate AreChunks(chunks: seq<Chunk>, trail: string) {
    if chunks == [] then IsBlank(trail)
    else
      && IsBlank(chunks[0].lead)
      && (match chunks[0]
          case Quoted(_, body) => IsBody(body)
          case Bare(_, text) => IsBare(text) && StartsEnded(ChunksText(chunks[1..]) + trail))
      && AreChunks(chunks[1..], trail)
  }

  predicate IsLayout(f: Layout) {
    AreChunks(f.chunks, f.trail)
  }

  /** The fields of an entry: at least one. */
  predicate AreLayouts(fields: seq<Layout>) {
    fields != [] && IsLayout(fields[0]) && (|fields| > 1 ==> AreLayouts(fields[1..]))
  }

  predicate IsName(name: string) {
    forall i | 0 <= i < |name| :: name[i] != ']' && name[i] != '\n'
  }

  predicate IsKeyword(keyword: string) {
    && (keyword != "" ==> keyword[0] != '$' && !IsWhitespace(keyword[0]))
    && forall i | 0 <= i < |keyword| :: keyword[i] != '=' && !SpoilsKeyword(keyword[i])
  }

  predicate IsItem(item: Item) {
    && IsBlank(item.lead)
    && match item
       case Header(_, name) => IsName(name)
       case Statement(_, keyword, fields) =>
         IsKeyword(keyword) && AreLayouts(fields)
  }

  /** No entry comes before the first header, unless there are sections already. */
  predicate AreItems(items: seq<Item>, sections: seq<Section>) {
    && (forall i | 0 <= i < |items| :: IsItem(items[i]))
    && (items != [] && items[0].Statement? ==> sections != [])
  }

  predicate WellFormed(d: Document) {
    && AreItems(d.items, [])
    && IsBlank(d.trail)
    && (d.comment.Some? ==> '\n' !in d.comment.value)
  }

  // ---------------------------------------------------------------- meaning

  function Newlines(s: string): nat {
    if s == "" then 0 else (if s[0] == '\n' then 1 else 0) + Newlines(s[1..])
  }

  function Meant(c: Char): char {
    match c
    case Plain(c) => c
    case Escaped(c) => if c == 'n' then '\n' else c
  }

  function BodyMeaning(body: seq<Char>): string {
    if body == [] then "" else [Meant(body[0])] + BodyMeaning(body[1..])
  }

  predicate HasString(chunks: seq<Chunk>) {
    chunks != [] && (chunks[0].Quoted? || HasString(chunks[1..]))
  }

  /** Adjacent strings are joined. */
  function Strings(chunks: seq<Chunk>): string {
    if chunks == [] then ""
    else (match chunks[0] case Quoted(_, body) => BodyMeaning(body) case _ => "") + Strings(chunks[1..])
  }

  function Words(chunks: seq<Chunk>): string {
    if chunks == [] then ""
    else (match chunks[0] case Bare(_, text) => text case _ => "") + Words(chunks[1..])
  }

  function FieldMeaning(f: Layout): Field {
    if HasString(f.chunks) then Str(Strings(f.chunks))
    else if Trim(Words(f.chunks)) == "" then Empty
    else Token(Trim(Words(f.chunks)))
  }

  function FieldsMeaning(fields: seq<Layout>): seq<Field> {
    if fields == [] then [] else [FieldMeaning(fields[0])] + FieldsMeaning(fields[1..])
  }

  /** Sections so far, extended by one item printed after the text `before`. */
  function Extended(item: Item, before: string, sections: seq<Section>): (r: seq<Section>)
    requires item.Statement? ==> sections != []
    ensures r != []
  {
    match item
    case Header(_, name) => sections + [Section(Trim(name), [])]
    case Statement(lead, keyword, fields) =>
      Push(sections, Entry(Trim(keyword), FieldsMeaning(fields), 1 + Newlines(before + lead)))
  }

  function ItemsMeaning(items: seq<Item>, before: string, sections: seq<Section>): seq<Section>
    requires items != [] && items[0].Statement? ==> sections != []
  {
    if items == [] then sections
    else
      ItemsMeaning(items[1..], before + (items[0].lead + ItemText(items[0])),
                   Extended(items[0], before, sections))
  }

  function Meaning(d: Document): seq<Section>
    requires WellFormed(d)
  {
    ItemsMeaning(d.items, "", [])
  }

  // ---------------------------------------------------------------- scanning printed text

  /** The cursor where the text still to read is rest, in a text whose last line is last. */
  function At(last: int, rest: string): Cur {
    Cur(rest, last - Newlines(rest))
  }

  /** One step of the cursor along a printed text. */
  lemma Step(s: string, tail: string, last: int)
    requires s != ""
    ensures (s + tail)[0] == s[0]
    ensures After(At(last, s + tail)) == At(last, s[1..] + tail)
  {
    assert (s + tail)[1..] == s[1..] + tail;
  }

  lemma {:induction false} CommentSkipped(s: string, tail: string, last: int)
    requires '\n' in s
    ensures SkipComment(At(last, s + tail)) == At(last, AfterLine(s) + tail)
  {
    Step(s, tail, last);
    if s[0] != '\n' {
      CommentSkipped(s[1..], tail, last);
    }
  }

  /** Whether the cursor stops here: at the end, or at something that is not blank. */
  predicate Stops(s: string) {
    s != "" ==> s[0] != '$' && !IsWhitespace(s[0])
  }

  lemma {:induction false} BlankSkipped(s: string, tail: string, last: int)
    requires IsBlank(s) && Stops(tail)
    ensures SkipBlank(At(last, s + tail)) == At(last, tail)
    decreases |s|
  {
    if s == "" {
      assert s + tail == tail;
    } else {
      Step(s, tail, last);
      if s[0] == '$' {
        CommentSkipped(s, tail, last);
        AfterLineIsShorter(s);
        BlankSkipped(AfterLine(s), tail, last);
      } else {
        BlankSkipped(s[1..], tail, last);
      }
    }
  }

  lemma {:induction false} NameRead(name: string, tail: string, last: int, acc: string)
    requires IsName(name)
    ensures ReadName(At(last, name + ("]" + tail)), acc) == Good((acc + name, At(last, tail)))
  {
    if name == "" {
      assert name + ("]" + tail) == "]" + tail && acc + name == acc;
    } else {
      Step(name, "]" + tail, last);
      NameRead(name[1..], tail, last, acc + [name[0]]);
      assert acc + [name[0]] + name[1..] == acc + name;
    }
  }

  lemma {:induction false} KeywordRead(keyword: string, tail: string, last: int, acc: string)
    requires forall i | 0 <= i < |keyword| :: keyword[i] != '=' && !SpoilsKeyword(keyword[i])
    ensures ReadKeyword(At(last, keyword + ("=" + tail)), acc) == Good((acc + keyword, At(last, tail)))
  {
    if keyword == "" {
      assert keyword + ("=" + tail) == "=" + tail && acc + keyword == acc;
    } else {
      Step(keyword, "=" + tail, last);
      KeywordRead(keyword[1..], tail, last, acc + [keyword[0]]);
      assert acc + [keyword[0]] + keyword[1..] == acc + keyword;
    }
  }

  lemma CharRead(c: Char, tail: string, last: int)
    requires c.Plain? ==> c.c != '\\'
    ensures ReadChar(At(last, CharText(c) + tail)) == Some((Meant(c), At(last, tail)))
  {
    var text := CharText(c);
    Step(text, tail, last);
    if c.Plain? {
      assert text[1..] + tail == tail;
    } else {
      assert (text + tail)[1] == c.c && text[1..][1..] == "";
      Step(text[1..], tail, last);
      assert text[1..][1..] + tail == tail;
    }
  }

  lemma Associative(a: string, b: string, c: string)
    ensures a + b + c == a + (b + c)
  {
  }

  lemma OneCharMore(first: string, c: char, tail: string, last: int, acc: string, r: Parsed<(string, Cur)>)
    requires first != "" && first[0] != '"'
    requires ReadChar(At(last, first + tail)) == Some((c, At(last, tail)))
    requires ReadString(At(last, tail), acc + [c]) == r
    ensures ReadString(At(last, first + tail), acc) == r
  {
  }

  lemma {:induction false} BodyRead(body: seq<Char>, tail: string, last: int, acc: string)
    requires IsBody(body)
    ensures ReadString(At(last, BodyText(body) + ("\"" + tail)), acc)
         == Good((acc + BodyMeaning(body), At(last, tail)))
  {
    var end := "\"" + tail;
    if body == [] {
      assert BodyText(body) + end == end && acc + BodyMeaning(body) == acc;
    } else {
      var first, rest, more := CharText(body[0]), BodyText(body[1..]), BodyMeaning(body[1..]);
      CharRead(body[0], rest + end, last);
      BodyRead(body[1..], tail, last, acc + [Meant(body[0])]);
      Associative(acc, [Meant(body[0])], more);
      OneCharMore(first, Meant(body[0]), rest + end, last, acc, Good((acc + BodyMeaning(body), At(last, tail))));
      Associative(first, rest, end);
    }
  }

  lemma {:induction false} TokenRead(text: string, tail: string, last: int, acc: string)
    requires forall i | 0 <= i < |text| :: !EndsToken(text[i])
    requires StartsEnded(tail)
    ensures ReadToken(At(last, text + tail), acc) == (acc + text, At(last, tail))
  {
    if text == "" {
      assert text + tail == tail && acc + text == acc;
    } else {
      Step(text, tail, last);
      TokenRead(text[1..], tail, last, acc + [text[0]]);
      assert acc + [text[0]] + text[1..] == acc + text;
    }
  }

  // ---------------------------------------------------------------- fields

  function AddString(strings: Option<string>, s: string): Option<string> {
    Some((if strings.Some? then strings.value else "") + s)
  }

  lemma CharThen(c: char, tail: string, last: int)
    ensures ([c] + tail)[0] == c && After(At(last, [c] + tail)) == At(last, tail)
  {
    Step([c], tail, last);
    assert [c][1..] + tail == tail;
  }

  lemma QuotedRead(lead: string, body: seq<Char>, tail: string, last: int,
                   fields: seq<Field>, strings: Option<string>, token: string, keyword: string, line: int)
    requires IsBlank(lead) && IsBody(body)
    ensures ReadFields(At(last, lead + ("\"" + (BodyText(body) + ("\"" + tail)))), fields, strings, token, keyword, line)
         == ReadFields(At(last, tail), fields, AddString(strings, BodyMeaning(body)), token, keyword, line)
  {
    var inside := BodyText(body) + ("\"" + tail);
    BlankSkipped(lead, "\"" + inside, last);
    CharThen('"', inside, last);
    BodyRead(body, tail, last, if strings.Some? then strings.value else "");
  }

  lemma BareRead(lead: string, text: string, tail: string, last: int,
                 fields: seq<Field>, strings: Option<string>, token: string, keyword: string, line: int)
    requires IsBlank(lead) && IsBare(text) && StartsEnded(tail)
    ensures ReadFields(At(last, lead + (text + tail)), fields, strings, token, keyword, line)
         == ReadFields(At(last, tail), fields, strings, token + text, keyword, line)
  {
    BlankSkipped(lead, text + tail, last);
    Step(text, tail, last);
    TokenRead(text[1..], tail, last, token + [text[0]]);
    assert token + [text[0]] + text[1..] == token + text;
  }

  /** What a chunk adds to the strings of its field, and to its unquoted text. */
  function ChunkStrings(strings: Option<string>, chunk: Chunk): Option<string> {
    match chunk
    case Quoted(_, body) => AddString(strings, BodyMeaning(body))
    case Bare(_, _) => strings
  }

  function ChunkWords(token: string, chunk: Chunk): string {
    match chunk
    case Quoted(_, _) => token
    case Bare(_, text) => token + text
  }

  predicate IsChunk(chunk: Chunk, tail: string) {
    && IsBlank(chunk.lead)
    && match chunk
       case Quoted(_, body) => IsBody(body)
       case Bare(_, text) => IsBare(text) && StartsEnded(tail)
  }

  lemma ChunkRead(chunk: Chunk, tail: string, last: int,
                  fields: seq<Field>, strings: Option<string>, token: string, keyword: string, line: int)
    requires IsChunk(chunk, tail)
    ensures ReadFields(At(last, ChunkText(chunk) + tail), fields, strings, token, keyword, line)
         == ReadFields(At(last, tail), fields, ChunkStrings(strings, chunk), ChunkWords(token, chunk), keyword, line)
  {
    match chunk
    case Quoted(lead, body) =>
      QuotedRead(lead, body, tail, last, fields, strings, token, keyword, line);
      Associative(lead, "\"" + (BodyText(body) + "\""), tail);
      Associative("\"", BodyText(body) + "\"", tail);
      Associative(BodyText(body), "\"", tail);
    case Bare(lead, text) =>
      BareRead(lead, text, tail, last, fields, strings, token, keyword, line);
      Associative(lead, text, tail);
  }

  lemma EndedConcat(s: string, tail: string)
    requires StartsEnded(s) && StartsEnded(tail)
    ensures StartsEnded(s + tail)
  {
  }

  function AllStrings(strings: Option<string>, chunks: seq<Chunk>): Option<string> {
    if HasString(chunks) then AddString(strings, Strings(chunks)) else strings
  }

  lemma {:induction false} NoStrings(chunks: seq<Chunk>)
    requires !HasString(chunks)
    ensures Strings(chunks) == ""
  {
    if chunks != [] {
      NoStrings(chunks[1..]);
    }
  }

  lemma OneChunkMore(chunks: seq<Chunk>, strings: Option<string>, token: string)
    requires chunks != []
    ensures AllStrings(ChunkStrings(strings, chunks[0]), chunks[1..]) == AllStrings(strings, chunks)
    ensures ChunkWords(token, chunks[0]) + Words(chunks[1..]) == token + Words(chunks)
  {
    if !HasString(chunks[1..]) {
      NoStrings(chunks[1..]);
    }
    match chunks[0]
    case Quoted(_, body) =>
      Associative(if strings.Some? then strings.value else "", BodyMeaning(body), Strings(chunks[1..]));
      assert BodyMeaning(body) + "" == BodyMeaning(body) && "" + Words(chunks[1..]) == Words(chunks[1..]);
    case Bare(_, text) =>
      assert "" + Strings(chunks[1..]) == Strings(chunks[1..]);
      Associative(token, text, Words(chunks[1..]));
  }

  lemma {:induction false} ChunksRead(chunks: seq<Chunk>, trail: string, tail: string, last: int,
                                      fields: seq<Field>, strings: Option<string>, token: string,
                                      keyword: string, line: int)
    requires AreChunks(chunks, trail) && StartsEnded(tail)
    ensures ReadFields(At(last, ChunksText(chunks) + (trail + tail)), fields, strings, token, keyword, line)
         == ReadFields(At(last, trail + tail), fields, AllStrings(strings, chunks), token + Words(chunks), keyword, line)
  {
    if chunks == [] {
      assert ChunksText(chunks) + (trail + tail) == trail + tail && token + Words(chunks) == token;
    } else {
      var first, more := chunks[0], ChunksText(chunks[1..]);
      var rest := more + (trail + tail);
      if first.Bare? {
        EndedConcat(more + trail, tail);
        Associative(more, trail, tail);
      }
      ChunkRead(first, rest, last, fields, strings, token, keyword, line);
      ChunksRead(chunks[1..], trail, tail, last, fields, ChunkStrings(strings, first), ChunkWords(token, first),
                 keyword, line);
      OneChunkMore(chunks, strings, token);
      Associative(ChunkText(first), more, trail + tail);
    }
  }

  lemma SeparatorRead(trail: string, c: char, tail: string, last: int, fields: seq<Field>,
                      strings: Option<string>, token: string, keyword: string, line: int)
    requires IsBlank(trail) && (c == ',' || c == ';')
    ensures ReadFields(At(last, trail + ([c] + tail)), fields, strings, token, keyword, line)
         == if c == ';' then Good((fields + [Completed(strings, token)], At(last, tail)))
            else ReadFields(At(last, tail), fields + [Completed(strings, token)], None, "", keyword, line)
  {
    BlankSkipped(trail, [c] + tail, last);
    CharThen(c, tail, last);
  }

  lemma FieldRead(f: Layout, c: char, tail: string, last: int, fields: seq<Field>, keyword: string, line: int)
    requires IsLayout(f) && (c == ',' || c == ';')
    ensures ReadFields(At(last, FieldText(f) + ([c] + tail)), fields, None, "", keyword, line)
         == if c == ';' then Good((fields + [FieldMeaning(f)], At(last, tail)))
            else ReadFields(At(last, tail), fields + [FieldMeaning(f)], None, "", keyword, line)
  {
    var words := Words(f.chunks);
    ChunksAreTrailed(f.chunks, f.trail);
    ChunksRead(f.chunks, f.trail, [c] + tail, last, fields, None, "", keyword, line);
    SeparatorRead(f.trail, c, tail, last, fields, AllStrings(None, f.chunks), "" + words, keyword, line);
    assert "" + words == words && "" + Strings(f.chunks) == Strings(f.chunks);
    Associative(ChunksText(f.chunks), f.trail, [c] + tail);
  }

  lemma {:induction false} ChunksAreTrailed(chunks: seq<Chunk>, trail: string)
    requires AreChunks(chunks, trail)
    ensures IsBlank(trail)
  {
    if chunks != [] {
      ChunksAreTrailed(chunks[1..], trail);
    }
  }

  lemma LastFieldRead(f: Layout, tail: string, last: int, fields: seq<Field>, keyword: string, line: int)
    requires IsLayout(f)
    ensures ReadFields(At(last, FieldText(f) + ";" + tail), fields, None, "", keyword, line)
         == Good((fields + [FieldMeaning(f)], At(last, tail)))
  {
    FieldRead(f, ';', tail, last, fields, keyword, line);
    Associative(FieldText(f), ";", tail);
  }

  lemma NextFieldRead(f: Layout, more: string, tail: string, last: int, fields: seq<Field>, keyword: string, line: int)
    requires IsLayout(f)
    ensures ReadFields(At(last, FieldText(f) + ("," + more) + tail), fields, None, "", keyword, line)
         == ReadFields(At(last, more + tail), fields + [FieldMeaning(f)], None, "", keyword, line)
  {
    FieldRead(f, ',', more + tail, last, fields, keyword, line);
    Associative(FieldText(f), "," + more, tail);
    Associative(",", more, tail);
  }

  lemma AppendMeaning(fields: seq<Field>, layouts: seq<Layout>)
    requires layouts != []
    ensures fields + [FieldMeaning(layouts[0])] + FieldsMeaning(layouts[1..]) == fields + FieldsMeaning(layouts)
  {
  }

  lemma {:induction false} FieldsRead(layouts: seq<Layout>, tail: string, last: int,
                                      fields: seq<Field>, keyword: string, line: int)
    requires AreLayouts(layouts)
    ensures ReadFields(At(last, FieldsText(layouts) + tail), fields, None, "", keyword, line)
         == Good((fields + FieldsMeaning(layouts), At(last, tail)))
  {
    AppendMeaning(fields, layouts);
    if |layouts| == 1 {
      LastFieldRead(layouts[0], tail, last, fields, keyword, line);
      assert fields + [FieldMeaning(layouts[0])] + FieldsMeaning(layouts[1..]) == fields + [FieldMeaning(layouts[0])];
    } else {
      NextFieldRead(layouts[0], FieldsText(layouts[1..]), tail, last, fields, keyword, line);
      FieldsRead(layouts[1..], tail, last, fields + [FieldMeaning(layouts[0])], keyword, line);
    }
  }

  lemma KeywordThenFields(keyword: string, text: string, tail: string, last: int, line: int, fields: seq<Field>)
    requires IsKeyword(keyword)
    requires ReadFields(At(last, text + tail), [], None, "", Trim(keyword), line) == Good((fields, At(last, tail)))
    ensures ReadEntry(At(last, keyword + ("=" + text) + tail), line)
         == Good((Entry(Trim(keyword), fields, line), At(last, tail)))
  {
    KeywordRead(keyword, text + tail, last, "");
    assert "" + keyword == keyword;
    Associative(keyword, "=" + text, tail);
    Associative("=", text, tail);
  }

  lemma EntryRead(keyword: string, layouts: seq<Layout>, tail: string, last: int, line: int)
    requires IsKeyword(keyword)
    requires AreLayouts(layouts)
    ensures ReadEntry(At(last, keyword + ("=" + FieldsText(layouts)) + tail), line)
         == Good((Entry(Trim(keyword), FieldsMeaning(layouts), line), At(last, tail)))
  {
    FieldsRead(layouts, tail, last, [], Trim(keyword), line);
    assert [] + FieldsMeaning(layouts) == FieldsMeaning(layouts);
    KeywordThenFields(keyword, FieldsText(layouts), tail, last, line, FieldsMeaning(layouts));
  }

  // ---------------------------------------------------------------- printing, then parsing

  lemma HeaderRead(lead: string, name: string, tail: string, last: int, sections: seq<Section>)
    requires IsBlank(lead) && IsName(name)
    ensures ReadSections(At(last, lead + ("[" + (name + "]") + tail)), sections)
         == ReadSections(At(last, tail), sections + [Section(Trim(name), [])])
  {
    var inside := name + ("]" + tail);
    BlankSkipped(lead, "[" + inside, last);
    CharThen('[', inside, last);
    NameRead(name, tail, last, "");
    assert "" + name == name;
    Associative("[", name + "]", tail);
    Associative(name, "]", tail);
  }

  lemma StatementStops(keyword: string, text: string, tail: string)
    requires IsKeyword(keyword)
    ensures var s := keyword + ("=" + text) + tail; s != "" && s[0] != '[' && Stops(s)
  {
  }

  lemma EntryPushed(c: Cur, d: Cur, sections: seq<Section>, e: Parsed<(Entry, Cur)>)
    requires SkipBlank(c) == d && d.rest != "" && d.rest[0] != '['
    requires ReadEntry(d, d.line) == e && e.Good? && sections != []
    ensures ReadSections(c, sections) == ReadSections(e.value.1, Push(sections, e.value.0))
  {
  }

  lemma EntryPushedAfterBlank(lead: string, c: Cur, d: Cur, last: int, sections: seq<Section>, e: Parsed<(Entry, Cur)>)
    requires c == At(last, lead + d.rest) && d == At(last, d.rest)
    requires IsBlank(lead) && d.rest != "" && d.rest[0] != '[' && Stops(d.rest) && sections != []
    requires ReadEntry(d, d.line) == e && e.Good?
    ensures ReadSections(c, sections) == ReadSections(e.value.1, Push(sections, e.value.0))
  {
    BlankSkipped(lead, d.rest, last);
    EntryPushed(c, d, sections, e);
  }

  lemma StatementRead(lead: string, keyword: string, layouts: seq<Layout>, s: string, tail: string, last: int,
                      line: int, sections: seq<Section>)
    requires IsBlank(lead) && IsKeyword(keyword) && AreLayouts(layouts) && sections != []
    requires s == keyword + ("=" + FieldsText(layouts)) + tail && line == last - Newlines(s)
    ensures ReadSections(At(last, lead + s), sections)
         == ReadSections(At(last, tail), Push(sections, Entry(Trim(keyword), FieldsMeaning(layouts), line)))
  {
    StatementStops(keyword, FieldsText(layouts), tail);
    EntryRead(keyword, layouts, tail, last, line);
    EntryPushedAfterBlank(lead, At(last, lead + s), At(last, s), last, sections,
                          Good((Entry(Trim(keyword), FieldsMeaning(layouts), line), At(last, tail))));
  }

  lemma {:induction false} NewlinesConcat(a: string, b: string)
    ensures Newlines(a + b) == Newlines(a) + Newlines(b)
  {
    if a == "" {
      assert a + b == b;
    } else {
      assert (a + b)[1..] == a[1..] + b;
      NewlinesConcat(a[1..], b);
    }
  }

  lemma LineAt(before: string, lead: string, s: string)
    ensures 1 + Newlines(before + (lead + s)) - Newlines(s) == 1 + Newlines(before + lead)
  {
    Associative(before, lead, s);
    NewlinesConcat(before + lead, s);
  }

  lemma ItemRead(item: Item, before: string, tail: string, last: int, sections: seq<Section>)
    requires IsItem(item) && (item.Statement? ==> sections != [])
    requires last == 1 + Newlines(before + (item.lead + (ItemText(item) + tail)))
    ensures ReadSections(At(last, item.lead + (ItemText(item) + tail)), sections)
         == ReadSections(At(last, tail), Extended(item, before, sections))
  {
    match item
    case Header(lead, name) => HeaderRead(lead, name, tail, last, sections);
    case Statement(lead, keyword, fields) =>
      LineAt(before, lead, ItemText(item) + tail);
      StatementRead(lead, keyword, fields, ItemText(item) + tail, tail, last, 1 + Newlines(before + lead), sections);
  }

  lemma {:induction false} OpenCommentSkipped(s: string, last: int)
    requires '\n' !in s
    ensures SkipComment(At(last, s)).rest == ""
  {
    if s != "" {
      Step(s, "", last);
      assert s + "" == s && s[1..] + "" == s[1..];
      OpenCommentSkipped(s[1..], last);
    }
  }

  lemma {:induction false} EndSkipped(s: string, comment: string, last: int)
    requires IsBlank(s) && (comment != "" ==> comment[0] == '$' && '\n' !in comment)
    ensures SkipBlank(At(last, s + comment)).rest == ""
    decreases |s|
  {
    if s == "" {
      assert s + comment == comment;
      OpenCommentSkipped(comment, last);
    } else {
      Step(s, comment, last);
      if s[0] == '$' {
        CommentSkipped(s, comment, last);
        AfterLineIsShorter(s);
        EndSkipped(AfterLine(s), comment, last);
      } else {
        EndSkipped(s[1..], comment, last);
      }
    }
  }

  /** Items are read one after another, whatever the text after them is. */
  lemma {:induction false} ItemsRead(items: seq<Item>, before: string, end: string, last: int, sections: seq<Section>)
    requires AreItems(items, sections)
    requires last == 1 + Newlines(before + (ItemsText(items) + end))
    ensures ReadSections(At(last, ItemsText(items) + end), sections)
         == ReadSections(At(last, end), ItemsMeaning(items, before, sections))
  {
    if items == [] {
      assert ItemsText(items) + end == end;
    } else {
      var item, text, more := items[0], ItemText(items[0]), ItemsText(items[1..]);
      Associative(item.lead, text + more, end);
      Associative(text, more, end);
      Associative(before, item.lead + text, more + end);
      Associative(item.lead, text, more + end);
      ItemRead(item, before, more + end, last, sections);
      ItemsRead(items[1..], before + (item.lead + text), end, last, Extended(item, before, sections));
    }
  }

  /** Parsing a printed document gives exactly the sections it stands for. */
  lemma ParseOfPrint(d: Document)
    requires WellFormed(d)
    ensures Parsing(Text(d)) == Good(Meaning(d))
  {
    var text, end := Text(d), EndText(d);
    var last := 1 + Newlines(text);
    EndSkipped(d.trail, CommentText(d.comment), last);
    assert "" + text == text;
    ItemsRead(d.items, "", end, last, []);
  }

  // ---------------------------------------------------------------- every accepted text is a print

  /** The first line with its end. */
  function Line(s: string): string {
    if s == "" then "" else if s[0] == '\n' then [s[0]] else [s[0]] + Line(s[1..])
  }

  lemma {:induction false} LineThen(s: string, t: string)
    requires '\n' in s
    ensures s == Line(s) + AfterLine(s) && Line(s) != "" && Line(s)[0] == s[0]
    ensures '\n' in Line(s) && AfterLine(Line(s) + t) == t
  {
    if s[0] == '\n' {
      assert ([s[0]] + t)[1..] == t;
    } else {
      LineThen(s[1..], t);
      assert (Line(s) + t)[1..] == Line(s[1..]) + t;
    }
  }

  lemma CommentAndBlank(line: string, b: string)
    requires line != "" && line[0] == '$' && '\n' in line && AfterLine(line + b) == b && IsBlank(b)
    ensures IsBlank(line + b)
  {
  }

  lemma {:induction false} CommentTaken(s: string, last: int)
    ensures SkipComment(At(last, s)) == At(last, AfterLine(s))
    ensures '\n' !in s ==> AfterLine(s) == ""
  {
    if s != "" {
      CharThen(s[0], s[1..], last);
      assert [s[0]] + s[1..] == s;
      CommentTaken(s[1..], last);
    }
  }

  /** Blank text before the rest; only at the end may a comment lack its end of line. */
  predicate IsSplit(s: string, b: string, comment: Option<string>, rest: string) {
    && IsBlank(b)
    && s == b + (CommentText(comment) + rest)
    && (comment.Some? ==> '\n' !in comment.value && rest == "")
  }

  lemma SplitMore(p: string, s: string, b: string, comment: Option<string>, rest: string)
    requires IsSplit(s, b, comment, rest) && IsBlank(p + b)
    ensures IsSplit(p + s, p + b, comment, rest)
  {
    Associative(p, b, CommentText(comment) + rest);
  }

  lemma {:induction false} BlankTaken(s: string, last: int) returns (b: string, comment: Option<string>)
    ensures var r := SkipBlank(At(last, s));
      IsSplit(s, b, comment, r.rest) && r == At(last, r.rest)
    decreases |s|
  {
    b, comment := "", None;
    if s != "" && s[0] == '$' {
      CommentTaken(s, last);
      AfterLineIsShorter(s);
      if '\n' in s {
        b, comment := BlankTaken(AfterLine(s), last);
        LineThen(s, b);
        CommentAndBlank(Line(s), b);
        SplitMore(Line(s), AfterLine(s), b, comment, SkipBlank(At(last, AfterLine(s))).rest);
        b := Line(s) + b;
      } else {
        comment := Some(s[1..]);
        assert s == "$" + s[1..];
      }
    } else if s != "" && IsWhitespace(s[0]) {
      CharThen(s[0], s[1..], last);
      assert [s[0]] + s[1..] == s;
      b, comment := BlankTaken(s[1..], last);
      assert ([s[0]] + b)[1..] == b;
      SplitMore([s[0]], s[1..], b, comment, SkipBlank(At(last, s[1..])).rest);
      b := [s[0]] + b;
    }
  }

  lemma {:induction false} NameTaken(s: string, last: int, acc: string) returns (name: string)
    requires ReadName(At(last, s), acc).Good?
    ensures var rest := ReadName(At(last, s), acc).value.1;
      IsName(name) && rest == At(last, rest.rest) && s == name + ("]" + rest.rest)
    decreases |s|
  {
    CharThen(s[0], s[1..], last);
    assert [s[0]] + s[1..] == s;
    if s[0] == ']' {
      name := "";
    } else {
      name := NameTaken(s[1..], last, acc + [s[0]]);
      name := [s[0]] + name;
    }
  }

  lemma {:induction false} KeywordTaken(s: string, last: int, acc: string) returns (keyword: string)
    requires ReadKeyword(At(last, s), acc).Good?
    ensures var rest := ReadKeyword(At(last, s), acc).value.1;
      && rest == At(last, rest.rest) && s == keyword + ("=" + rest.rest)
      && forall i | 0 <= i < |keyword| :: keyword[i] != '=' && !SpoilsKeyword(keyword[i])
    decreases |s|
  {
    CharThen(s[0], s[1..], last);
    assert [s[0]] + s[1..] == s;
    if s[0] == '=' {
      keyword := "";
    } else {
      keyword := KeywordTaken(s[1..], last, acc + [s[0]]);
      keyword := [s[0]] + keyword;
    }
  }

  lemma CharTaken(s: string, last: int) returns (c: Char)
    requires s != "" && ReadChar(At(last, s)).Some?
    ensures var r := ReadChar(At(last, s)).value;
      r.1 == At(last, r.1.rest) && s == CharText(c) + r.1.rest && (c.Plain? ==> c.c == s[0] && c.c != '\\')
  {
    CharThen(s[0], s[1..], last);
    assert [s[0]] + s[1..] == s;
    if s[0] == '\\' {
      c := Escaped(s[1]);
      CharThen(s[1], s[2..], last);
      assert [s[1]] + s[2..] == s[1..];
    } else {
      c := Plain(s[0]);
    }
  }

  lemma {:induction false} BodyTaken(s: string, last: int, acc: string) returns (body: seq<Char>)
    requires ReadString(At(last, s), acc).Good?
    ensures var rest := ReadString(At(last, s), acc).value.1;
      IsBody(body) && rest == At(last, rest.rest) && s == BodyText(body) + ("\"" + rest.rest)
    decreases |s|
  {
    if s[0] == '"' {
      CharThen(s[0], s[1..], last);
      assert [s[0]] + s[1..] == s;
      body := [];
      assert BodyText(body) + ("\"" + s[1..]) == s;
    } else {
      var r := ReadChar(At(last, s)).value;
      var c := CharTaken(s, last);
      var more := BodyTaken(r.1.rest, last, acc + [r.0]);
      body := [c] + more;
      assert body[1..] == more;
      Associative(CharText(c), BodyText(more), "\"" + ReadString(At(last, s), acc).value.1.rest);
    }
  }

  lemma {:induction false} TokenTaken(s: string, last: int, acc: string) returns (text: string)
    ensures var rest := ReadToken(At(last, s), acc).1;
      && rest == At(last, rest.rest) && s == text + rest.rest && StartsEnded(rest.rest)
      && forall i | 0 <= i < |text| :: !EndsToken(text[i])
    decreases |s|
  {
    if s == "" || EndsToken(s[0]) {
      text := "";
    } else {
      CharThen(s[0], s[1..], last);
      assert [s[0]] + s[1..] == s;
      text := TokenTaken(s[1..], last, acc + [s[0]]);
      text := [s[0]] + text;
    }
  }

  function WithChunk(chunk: Chunk, layouts: seq<Layout>): seq<Layout>
    requires layouts != []
  {
    [Layout([chunk] + layouts[0].chunks, layouts[0].trail)] + layouts[1..]
  }

  lemma WithChunkText(chunk: Chunk, f: Layout)
    requires IsChunk(chunk, FieldText(f)) && IsLayout(f)
    ensures var g := Layout([chunk] + f.chunks, f.trail);
      IsLayout(g) && FieldText(g) == ChunkText(chunk) + FieldText(f)
  {
    var chunks := [chunk] + f.chunks;
    assert chunks[1..] == f.chunks;
    Associative(ChunkText(chunk), ChunksText(f.chunks), f.trail);
  }

  lemma ChunkMore(chunk: Chunk, layouts: seq<Layout>)
    requires AreLayouts(layouts) && IsChunk(chunk, FieldText(layouts[0]))
    ensures AreLayouts(WithChunk(chunk, layouts))
    ensures FieldsText(WithChunk(chunk, layouts)) == ChunkText(chunk) + FieldsText(layouts)
  {
    var f := layouts[0];
    WithChunkText(chunk, f);
    assert WithChunk(chunk, layouts)[1..] == layouts[1..];
    Associative(ChunkText(chunk), FieldText(f), if |layouts| == 1 then ";" else "," + FieldsText(layouts[1..]));
  }

  lemma FieldMore(b: string, layouts: seq<Layout>)
    requires AreLayouts(layouts) && IsBlank(b)
    ensures var more := [Layout([], b)] + layouts;
      AreLayouts(more) && FieldsText(more) == b + ("," + FieldsText(layouts))
  {
    var more := [Layout([], b)] + layouts;
    assert more[1..] == layouts;
    assert "" + b == b;
  }

  lemma FieldStartsEnded(layouts: seq<Layout>, tail: string)
    requires layouts != [] && StartsEnded(FieldsText(layouts) + tail)
    ensures StartsEnded(FieldText(layouts[0]))
  {
    var text := FieldText(layouts[0]);
    if text != "" {
      assert (FieldsText(layouts) + tail)[0] == text[0];
    }
  }

  /** Where the fields of an entry end, and that they are laid out up to there. */
  predicate AreTaken(layouts: seq<Layout>, s: string, rest: string) {
    AreLayouts(layouts) && s == FieldsText(layouts) + rest
  }

  lemma QuotedTaken(b: string, body: seq<Char>, layouts: seq<Layout>, s: string, rest: string)
    requires IsBlank(b) && IsBody(body) && AreTaken(layouts, s, rest)
    ensures AreTaken(WithChunk(Quoted(b, body), layouts), b + ("\"" + (BodyText(body) + ("\"" + s))), rest)
  {
    var chunk := Quoted(b, body);
    ChunkMore(chunk, layouts);
    Associative(b, "\"" + (BodyText(body) + "\""), s);
    Associative("\"", BodyText(body) + "\"", s);
    Associative(BodyText(body), "\"", s);
    Associative(ChunkText(chunk), FieldsText(layouts), rest);
  }

  lemma BareTaken(b: string, text: string, layouts: seq<Layout>, s: string, rest: string)
    requires IsBlank(b) && IsBare(text) && AreTaken(layouts, s, rest) && StartsEnded(s)
    ensures AreTaken(WithChunk(Bare(b, text), layouts), b + (text + s), rest)
  {
    var chunk := Bare(b, text);
    FieldStartsEnded(layouts, rest);
    ChunkMore(chunk, layouts);
    Associative(b, text, s);
    Associative(ChunkText(chunk), FieldsText(layouts), rest);
  }

  lemma CommaTaken(b: string, layouts: seq<Layout>, s: string, rest: string)
    requires IsBlank(b) && AreTaken(layouts, s, rest)
    ensures AreTaken([Layout([], b)] + layouts, b + ("," + s), rest)
  {
    FieldMore(b, layouts);
    Associative(b, "," + FieldsText(layouts), rest);
    Associative(",", FieldsText(layouts), rest);
  }

  lemma SemicolonTaken(b: string, rest: string)
    requires IsBlank(b)
    ensures AreTaken([Layout([], b)], b + (";" + rest), rest)
  {
    assert "" + b == b;
    Associative(b, ";", rest);
  }

  lemma {:induction false} FieldsTaken(s: string, last: int, fields: seq<Field>, strings: Option<string>,
                                       token: string, keyword: string, line: int) returns (layouts: seq<Layout>)
    requires ReadFields(At(last, s), fields, strings, token, keyword, line).Good?
    ensures var rest := ReadFields(At(last, s), fields, strings, token, keyword, line).value.1;
      rest == At(last, rest.rest) && AreTaken(layouts, s, rest.rest)
    decreases |s|
  {
    var d := SkipBlank(At(last, s)).rest;
    var rest := ReadFields(At(last, s), fields, strings, token, keyword, line).value.1.rest;
    var b, _ := BlankTaken(s, last);
    assert "" + d == d;
    CharThen(d[0], d[1..], last);
    assert [d[0]] + d[1..] == d;
    if d[0] == '"' {
      var so := if strings.Some? then strings.value else "";
      var r := ReadString(At(last, d[1..]), so).value;
      var body := BodyTaken(d[1..], last, so);
      layouts := FieldsTaken(r.1.rest, last, fields, Some(r.0), token, keyword, line);
      QuotedTaken(b, body, layouts, r.1.rest, rest);
      layouts := WithChunk(Quoted(b, body), layouts);
    } else if d[0] == ';' {
      layouts := [Layout([], b)];
      SemicolonTaken(b, rest);
    } else if d[0] == ',' {
      layouts := FieldsTaken(d[1..], last, fields + [Completed(strings, token)], None, "", keyword, line);
      CommaTaken(b, layouts, d[1..], rest);
      layouts := [Layout([], b)] + layouts;
    } else {
      var t := ReadToken(At(last, d[1..]), token + [d[0]]);
      var more := TokenTaken(d[1..], last, token + [d[0]]);
      layouts := FieldsTaken(t.1.rest, last, fields, strings, t.0, keyword, line);
      Associative([d[0]], more, t.1.rest);
      BareTaken(b, [d[0]] + more, layouts, t.1.rest, rest);
      layouts := WithChunk(Bare(b, [d[0]] + more), layouts);
    }
  }

  lemma EntryTaken(s: string, last: int, line: int) returns (keyword: string, layouts: seq<Layout>)
    requires s != "" && s[0] != '[' && Stops(s) && ReadEntry(At(last, s), line).Good?
    ensures var rest := ReadEntry(At(last, s), line).value.1;
      && rest == At(last, rest.rest) && IsKeyword(keyword) && AreLayouts(layouts)
      && s == keyword + ("=" + FieldsText(layouts)) + rest.rest
  {
    var k := ReadKeyword(At(last, s), "").value;
    keyword := KeywordTaken(s, last, "");
    layouts := FieldsTaken(k.1.rest, last, [], None, "", Trim(k.0), line);
    var rest := ReadEntry(At(last, s), line).value.1.rest;
    if keyword != "" {
      assert s[0] == keyword[0];
    }
    Associative("=", FieldsText(layouts), rest);
    Associative(keyword, "=" + FieldsText(layouts), rest);
  }

  lemma ItemMore(item: Item, items: seq<Item>, end: string, s: string, sections: seq<Section>, extended: seq<Section>)
    requires IsItem(item) && (item.Statement? ==> sections != []) && AreItems(items, extended)
    requires s == ItemsText(items) + end
    ensures AreItems([item] + items, sections)
    ensures item.lead + (ItemText(item) + s) == ItemsText([item] + items) + end
  {
    var more := [item] + items;
    assert more[1..] == items;
    Associative(ItemText(item), ItemsText(items), end);
    Associative(item.lead, ItemText(item) + ItemsText(items), end);
  }

  lemma HeaderTaken(s: string, last: int, sections: seq<Section>) returns (b: string, name: string, rest: string)
    requires ReadSections(At(last, s), sections).Good?
    requires var d := SkipBlank(At(last, s)).rest; d != "" && d[0] == '['
    ensures IsBlank(b) && IsName(name) && |rest| < |s| && s == b + (ItemText(Header(b, name)) + rest)
    ensures exists extended: seq<Section> :: extended != [] && ReadSections(At(last, rest), extended).Good?
  {
    var d := SkipBlank(At(last, s)).rest;
    var open;
    b, open := BlankTaken(s, last);
    assert "" + d == d;
    CharThen('[', d[1..], last);
    assert ['['] + d[1..] == d;
    var r := ReadName(At(last, d[1..]), "").value;
    name := NameTaken(d[1..], last, "");
    rest := r.1.rest;
    Associative(name, "]", rest);
    Associative("[", name + "]", rest);
    assert ReadSections(At(last, rest), sections + [Section(Trim(r.0), [])]).Good?;
  }

  lemma StatementTaken(s: string, last: int, sections: seq<Section>)
      returns (b: string, keyword: string, layouts: seq<Layout>, rest: string)
    requires ReadSections(At(last, s), sections).Good?
    requires var d := SkipBlank(At(last, s)).rest; d != "" && d[0] != '['
    ensures IsItem(Statement(b, keyword, layouts)) && sections != [] && |rest| < |s|
    ensures s == b + (ItemText(Statement(b, keyword, layouts)) + rest)
    ensures exists extended: seq<Section> :: extended != [] && ReadSections(At(last, rest), extended).Good?
  {
    var d := SkipBlank(At(last, s)).rest;
    var open;
    b, open := BlankTaken(s, last);
    assert "" + d == d;
    var line := last - Newlines(d);
    var e := ReadEntry(At(last, d), line).value;
    rest := e.1.rest;
    keyword, layouts := EntryTaken(d, last, line);
    assert ReadSections(At(last, rest), Push(sections, e.0)).Good?;
  }

  lemma {:induction false} ItemsTaken(s: string, last: int, sections: seq<Section>)
      returns (items: seq<Item>, trail: string, comment: Option<string>)
    requires ReadSections(At(last, s), sections).Good?
    ensures AreItems(items, sections) && IsBlank(trail) && (comment.Some? ==> '\n' !in comment.value)
    ensures s == ItemsText(items) + (trail + CommentText(comment))
    decreases |s|
  {
    var d := SkipBlank(At(last, s)).rest;
    if d == "" {
      trail, comment := BlankTaken(s, last);
      items := [];
      assert CommentText(comment) + "" == CommentText(comment);
      assert "" + (trail + CommentText(comment)) == trail + CommentText(comment);
    } else {
      var item, rest;
      if d[0] == '[' {
        var b, name, r := HeaderTaken(s, last, sections);
        item, rest := Header(b, name), r;
      } else {
        var b, keyword, layouts, r := StatementTaken(s, last, sections);
        item, rest := Statement(b, keyword, layouts), r;
      }
      var extended: seq<Section> :| extended != [] && ReadSections(At(last, rest), extended).Good?;
      items, trail, comment := ItemsTaken(rest, last, extended);
      ItemMore(item, items, trail + CommentText(comment), rest, sections, extended);
      items := [item] + items;
    }
  }

  /** The accepted texts are exactly the printed documents. */
  lemma AcceptsExactlyPrints(text: string)
    ensures Parsing(text).Good? <==> exists d: Document :: WellFormed(d) && Text(d) == text
  {
    if Parsing(text).Good? {
      var items, trail, comment := ItemsTaken(text, 1 + Newlines(text), []);
      var d := Document(items, trail, comment);
      assert WellFormed(d) && Text(d) == text;
    }
    forall d: Document | WellFormed(d) && Text(d) == text ensures Parsing(text).Good? {
      ParseOfPrint(d);
    }
  }

  // ---------------------------------------------------------------- the lines of errors

  lemma FewerNewlines(a: string, b: string)
    ensures Newlines(b) <= Newlines(a + b)
  {
    NewlinesConcat(a, b);
  }

  /** What is read after the front of a text starts no earlier than the text. */
  lemma LaterLine(a: string, b: string, s: string, last: int, low: int)
    requires s == a + b && low <= At(last, s).line
    ensures low <= At(last, b).line <= last
  {
    FewerNewlines(a, b);
  }

  lemma {:induction false} NameProblem(s: string, last: int, acc: string)
    ensures var r := ReadName(At(last, s), acc);
      r.Bad? ==> At(last, s).line <= r.problem.line <= last
    decreases |s|
  {
    if s != "" {
      CharThen(s[0], s[1..], last);
      assert [s[0]] + s[1..] == s;
      NameProblem(s[1..], last, acc + [s[0]]);
    }
  }

  lemma {:induction false} KeywordProblem(s: string, last: int, acc: string)
    ensures var r := ReadKeyword(At(last, s), acc);
      r.Bad? ==> At(last, s).line <= r.problem.line <= last
    decreases |s|
  {
    if s != "" {
      CharThen(s[0], s[1..], last);
      assert [s[0]] + s[1..] == s;
      KeywordProblem(s[1..], last, acc + [s[0]]);
    }
  }

  lemma {:induction false} StringProblem(s: string, last: int, acc: string)
    ensures var r := ReadString(At(last, s), acc);
      r.Bad? ==> At(last, s).line <= r.problem.line <= last
    decreases |s|
  {
    if s != "" && s[0] != '"' && ReadChar(At(last, s)).Some? {
      var r := ReadChar(At(last, s)).value;
      var c := CharTaken(s, last);
      FewerNewlines(CharText(c), r.1.rest);
      StringProblem(r.1.rest, last, acc + [r.0]);
    }
  }

  lemma {:induction false} FieldsProblem(s: string, last: int, low: int, fields: seq<Field>, strings: Option<string>,
                                         token: string, keyword: string, line: int)
    requires low <= At(last, s).line && low <= line <= last
    ensures var r := ReadFields(At(last, s), fields, strings, token, keyword, line);
      r.Bad? ==> low <= r.problem.line <= last
    decreases |s|
  {
    var d := SkipBlank(At(last, s)).rest;
    var b, _ := BlankTaken(s, last);
    if d != "" {
      assert "" + d == d;
      CharThen(d[0], d[1..], last);
      assert [d[0]] + d[1..] == d && b + d == b + [d[0]] + d[1..];
      LaterLine(b + [d[0]], d[1..], s, last, low);
      if d[0] == '"' {
        var so := if strings.Some? then strings.value else "";
        var r := ReadString(At(last, d[1..]), so);
        StringProblem(d[1..], last, so);
        if r.Good? {
          var body := BodyTaken(d[1..], last, so);
          Associative(BodyText(body), "\"", r.value.1.rest);
          LaterLine(BodyText(body) + "\"", r.value.1.rest, d[1..], last, low);
          FieldsProblem(r.value.1.rest, last, low, fields, Some(r.value.0), token, keyword, line);
        }
      } else if d[0] == ',' {
        FieldsProblem(d[1..], last, low, fields + [Completed(strings, token)], None, "", keyword, line);
      } else if d[0] != ';' {
        var t := ReadToken(At(last, d[1..]), token + [d[0]]);
        var text := TokenTaken(d[1..], last, token + [d[0]]);
        LaterLine(text, t.1.rest, d[1..], last, low);
        FieldsProblem(t.1.rest, last, low, fields, strings, t.0, keyword, line);
      }
    }
  }

  lemma EntryProblem(s: string, last: int, low: int)
    requires low <= At(last, s).line
    ensures var r := ReadEntry(At(last, s), At(last, s).line);
      r.Bad? ==> low <= r.problem.line <= last
  {
    var k := ReadKeyword(At(last, s), "");
    KeywordProblem(s, last, "");
    if k.Good? {
      var keyword := KeywordTaken(s, last, "");
      Associative(keyword, "=", k.value.1.rest);
      LaterLine(keyword + "=", k.value.1.rest, s, last, low);
      FieldsProblem(k.value.1.rest, last, low, [], None, "", Trim(k.value.0), At(last, s).line);
    }
  }

  lemma LineAfterHeader(b: string, name: string, rest: string, last: int, low: int)
    requires low <= At(last, b + ("[" + (name + ("]" + rest)))).line
    ensures low <= At(last, rest).line
  {
    FewerNewlines(b, "[" + (name + ("]" + rest)));
    FewerNewlines("[", name + ("]" + rest));
    FewerNewlines(name, "]" + rest);
    FewerNewlines("]", rest);
  }

  lemma AfterHeader(s: string, last: int, low: int) returns (rest: string)
    requires low <= At(last, s).line
    requires var d := SkipBlank(At(last, s)).rest; d != "" && d[0] == '[' && ReadName(After(At(last, d)), "").Good?
    ensures var d := SkipBlank(At(last, s)).rest;
      ReadName(After(At(last, d)), "").value.1 == At(last, rest) && |rest| < |s| && low <= At(last, rest).line
  {
    var d := SkipBlank(At(last, s)).rest;
    var b, _ := BlankTaken(s, last);
    assert "" + d == d;
    CharThen('[', d[1..], last);
    assert ['['] + d[1..] == d;
    var name := NameTaken(d[1..], last, "");
    rest := ReadName(At(last, d[1..]), "").value.1.rest;
    LineAfterHeader(b, name, rest, last, low);
  }

  lemma AfterEntry(d: string, last: int, low: int) returns (rest: string)
    requires low <= At(last, d).line && d != "" && d[0] != '[' && Stops(d)
    requires ReadEntry(At(last, d), At(last, d).line).Good?
    ensures ReadEntry(At(last, d), At(last, d).line).value.1 == At(last, rest)
    ensures |rest| < |d| && low <= At(last, rest).line <= last
  {
    var keyword, layouts := EntryTaken(d, last, At(last, d).line);
    rest := ReadEntry(At(last, d), At(last, d).line).value.1.rest;
    LaterLine(keyword + ("=" + FieldsText(layouts)), rest, d, last, low);
  }

  lemma {:induction false} SectionsProblem(s: string, last: int, low: int, sections: seq<Section>)
    requires low <= At(last, s).line
    ensures var r := ReadSections(At(last, s), sections);
      r.Bad? ==> low <= r.problem.line <= last
    decreases |s|
  {
    var d := SkipBlank(At(last, s)).rest;
    var b, _ := BlankTaken(s, last);
    if d != "" {
      assert "" + d == d;
      LaterLine(b, d, s, last, low);
      if d[0] == '[' {
        CharThen('[', d[1..], last);
        assert ['['] + d[1..] == d;
        LaterLine("[", d[1..], d, last, low);
        NameProblem(d[1..], last, "");
        var name := ReadName(At(last, d[1..]), "");
        if name.Good? {
          var rest := AfterHeader(s, last, low);
          SectionsProblem(rest, last, low, sections + [Section(Trim(name.value.0), [])]);
        }
      } else {
        EntryProblem(d, last, low);
        var e := ReadEntry(At(last, d), At(last, d).line);
        if e.Good? {
          var rest := AfterEntry(d, last, low);
          if sections != [] {
            SectionsProblem(rest, last, low, Push(sections, e.value.0));
          }
        }
      }
    }
  }

  /** Every error names a line of the text. */
  lemma ErrorsNameALine(text: string)
    ensures Parsing(text).Bad? ==> 1 <= Parsing(text).problem.line <= 1 + Newlines(text)
  {
    SectionsProblem(text, 1 + Newlines(text), 1, []);
  }
}
