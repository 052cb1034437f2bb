/**
 The text of Electronic Data Sheets: `[Section]` headers, `Keyword = field, field;`
 entries, `$` comments to the end of the line, quoted strings.

 The functions say where a scan stops and what it has read, over a cursor value; the
 class is the cursor the program advances, character by character, and each of its loops
 is proved to do what the function of the same step says.  What texts these functions
 accept, and with which result, is the subject of EdsLayout.
 */
module EdsParser {
  import opened Wire

  datatype Field = Empty | Str(text: string) | Token(text: string)
  datatype Entry = Entry(keyword: string, fields: seq<Field>, line: int)
  datatype Section = Section(name: string, entries: seq<Entry>)

  /** The messages of the parser, each with the line it names. */
  datatype Problem =
    | UnterminatedHeader(line: int)
    | ExpectedEquals(line: int, keyword: string, found: Option<char>)
    | UnterminatedString(line: int)
    | NoTerminator(line: int, keyword: string)
    | BeforeAnySection(line: int, keyword: string)

  datatype Parsed<+T> = Good(value: T) | Bad(problem: Problem)

  // ---------------------------------------------------------------- characters

  /** The Unicode White_Space property. */
  predicate IsWhitespace(c: char) {
    || 0x09 <= c as int <= 0x0D || c == ' ' || c as int == 0x85 || c as int == 0xA0
    || c as int == 0x1680 || 0x2000 <= c as int <= 0x200A || c as int == 0x2028 || c as int == 0x2029
    || c as int == 0x202F || c as int == 0x205F || c as int == 0x3000
  }

  function TrimStart(s: string): string {
    if s == "" then "" else if IsWhitespace(s[0]) then TrimStart(s[1..]) else s
  }

  function TrimEnd(s: string): string {
    if s == "" then "" else if IsWhitespace(s[|s| - 1]) then TrimEnd(s[..|s| - 1]) else s
  }

  function Trim(s: string): string {
    TrimEnd(TrimStart(s))
  }

  /** Characters that end the unquoted text the token loop keeps together. */
  predicate EndsToken(c: char) {
    c == ',' || c == ';' || c == '"' || c == '$' || c == '\n'
  }

  /** Characters that may not occur before the `=` of an entry. */
  predicate SpoilsKeyword(c: char) {
    c == ';' || c == '[' || c == '"' || c == ','
  }

  // ---------------------------------------------------------------- scanning

  /** The unread text and the number of the line it starts in. */
  datatype Cur = Cur(rest: string, line: int)

  function After(c: Cur): Cur
    requires c.rest != ""
  {
    Cur(c.rest[1..], if c.rest[0] == '\n' then c.line + 1 else c.line)
  }

  function SkipComment(c: Cur): (r: Cur)
    ensures |r.rest| <= |c.rest|
    ensures c.rest != "" ==> |r.rest| < |c.rest|
    decreases |c.rest|
  {
    if c.rest == "" then c
    else if c.rest[0] == '\n' then After(c)
    else SkipComment(After(c))
  }

  function SkipBlank(c: Cur): (r: Cur)
    ensures |r.rest| <= |c.rest|
    ensures r.rest != "" ==> r.rest[0] != '$' && !IsWhitespace(r.rest[0])
    decreases |c.rest|
  {
    if c.rest == "" then c
    else if c.rest[0] == '$' then SkipBlank(SkipComment(c))
    else if IsWhitespace(c.rest[0]) then SkipBlank(After(c))
    else c
  }

  /** The rest of a section header, after its `[`. */
  function ReadName(c: Cur, name: string): (r: Parsed<(string, Cur)>)
    ensures r.Good? ==> |r.value.1.rest| < |c.rest|
    decreases |c.rest|
  {
    if c.rest == "" then Bad(UnterminatedHeader(c.line))
    else if c.rest[0] == ']' then Good((name, After(c)))
    else if c.rest[0] == '\n' then Bad(UnterminatedHeader(After(c).line))
    else ReadName(After(c), name + [c.rest[0]])
  }

  function ReadKeyword(c: Cur, keyword: string): (r: Parsed<(string, Cur)>)
    ensures r.Good? ==> |r.value.1.rest| < |c.rest|
    decreases |c.rest|
  {
    if c.rest == "" then Bad(ExpectedEquals(c.line, Trim(keyword), None))
    else if c.rest[0] == '=' then Good((keyword, After(c)))
    else if SpoilsKeyword(c.rest[0]) then Bad(ExpectedEquals(c.line, Trim(keyword), Some(c.rest[0])))
    else ReadKeyword(After(c), keyword + [c.rest[0]])
  }

  /** What a character after a backslash stands for. */
  function Unescaped(c: char): char {
    if c == 'n' then '\n' else c
  }

  /** One character of a string, which may be escaped. */
  function ReadChar(c: Cur): (r: Option<(char, Cur)>)
    requires c.rest != ""
    ensures r.Some? ==> |r.value.1.rest| < |c.rest|
  {
    if c.rest[0] != '\\' then Some((c.rest[0], After(c)))
    else if |c.rest| == 1 then None
    else Some((Unescaped(c.rest[1]), After(After(c))))
  }

  /** The rest of a quoted string, after its opening quote. */
  function ReadString(c: Cur, s: string): (r: Parsed<(string, Cur)>)
    ensures r.Good? ==> |r.value.1.rest| < |c.rest|
    decreases |c.rest|
  {
    if c.rest == "" then Bad(UnterminatedString(c.line))
    else if c.rest[0] == '"' then Good((s, After(c)))
    else
      var r := ReadChar(c);
      if r.None? then Bad(UnterminatedString(c.line)) else ReadString(r.value.1, s + [r.value.0])
  }

  function ReadToken(c: Cur, token: string): (r: (string, Cur))
    ensures |r.1.rest| <= |c.rest|
    decreases |c.rest|
  {
    if c.rest == "" || EndsToken(c.rest[0]) then (token, c)
    else ReadToken(After(c), token + [c.rest[0]])
  }

  /** The field a separator completes: strings win over unquoted text. */
  function Completed(strings: Option<string>, token: string): Field {
    if strings.Some? then Str(strings.value)
    else if Trim(token) == "" then Empty
    else Token(Trim(token))
  }

  /** The fields of an entry up to its `;`, after its `=`. */
  function ReadFields(c: Cur, fields: seq<Field>, strings: Option<string>, token: string,
                      keyword: string, line: int): (r: Parsed<(seq<Field>, Cur)>)
    ensures r.Good? ==> |r.value.1.rest| < |c.rest|
    decreases |c.rest|
  {
    var d := SkipBlank(c);
    if d.rest == "" then Bad(NoTerminator(line, keyword))
    else if d.rest[0] == '"' then
      var s := ReadString(After(d), if strings.Some? then strings.value else "");
      if s.Bad? then Bad(s.problem)
      else ReadFields(s.value.1, fields, Some(s.value.0), token, keyword, line)
    else if d.rest[0] == ';' then Good((fields + [Completed(strings, token)], After(d)))
    else if d.rest[0] == ',' then
      ReadFields(After(d), fields + [Completed(strings, token)], None, "", keyword, line)
    else
      var t := ReadToken(After(d), token + [d.rest[0]]);
      ReadFields(t.1, fields, strings, t.0, keyword, line)
  }

  function ReadEntry(c: Cur, line: int): (r: Parsed<(Entry, Cur)>)
    ensures r.Good? ==> |r.value.1.rest| < |c.rest|
  {
    var k := ReadKeyword(c, "");
    if k.Bad? then Bad(k.problem)
    else
      var keyword := Trim(k.value.0);
      var f := ReadFields(k.value.1, [], None, "", keyword, line);
      if f.Bad? then Bad(f.problem)
      else Good((Entry(keyword, f.value.0, line), f.value.1))
  }

  /** Pushing an entry onto the last section. */
  function Push(sections: seq<Section>, e: Entry): seq<Section>
    requires sections != []
  {
    var last := sections[|sections| - 1];
    sections[..|sections| - 1] + [last.(entries := last.entries + [e])]
  }

  /** The sections of the unread text, appended to the sections read so far. */
  function ReadSections(c: Cur, sections: seq<Section>): Parsed<seq<Section>>
    decreases |c.rest|
  {
    var d := SkipBlank(c);
    if d.rest == "" then Good(sections)
    else if d.rest[0] == '[' then
      var name := ReadName(After(d), "");
      if name.Bad? then Bad(name.problem)
      else ReadSections(name.value.1, sections + [Section(Trim(name.value.0), [])])
    else
      var e := ReadEntry(d, d.line);
      if e.Bad? then Bad(e.problem)
      else if sections == [] then Bad(BeforeAnySection(e.value.1.line, e.value.0.keyword))
      else ReadSections(e.value.1, Push(sections, e.value.0))
  }

  function Parsing(text: string): Parsed<seq<Section>> {
    ReadSections(Cur(text, 1), [])
  }

  // ---------------------------------------------------------------- the cursor

  class Cursor {
    var rest: string
    var line: int

    constructor (text: string)
      ensures At() == Cur(text, 1)
    {
      rest, line := text, 1;
    }

    ghost function At(): Cur
      reads this
    {
      Cur(rest, line)
    }

    method Next() returns (c: Option<char>)
      modifies this
      ensures old(rest) == "" ==> c == None && At() == old(At())
      ensures old(rest) != "" ==> c == Some(old(rest)[0]) && At() == After(old(At()))
    {
      if rest == "" {
        return None;
      }
      c := Some(rest[0]);
      rest := rest[1..];
      if c.value == '\n' {
        line := line + 1;
      }
    }

    method Peek() returns (c: Option<char>)
      ensures c == if rest == "" then None else Some(rest[0])
    {
      c := if rest == "" then None else Some(rest[0]);
    }

    method SkipAComment()
      modifies this
      ensures At() == SkipComment(old(At()))
    {
      while true
        invariant SkipComment(At()) == SkipComment(old(At()))
        decreases |rest|
      {
        var c := Next();
        if c == None || c == Some('\n') {
          break;
        }
      }
    }

    method SkipBlanks()
      modifies this
      ensures At() == SkipBlank(old(At()))
    {
      while true
        invariant SkipBlank(At()) == SkipBlank(old(At()))
        decreases |rest|
      {
        var c := Peek();
        if c == None {
          break;
        } else if c.value == '$' {
          SkipAComment();
        } else if IsWhitespace(c.value) {
          var _ := Next();
        } else {
          break;
        }
      }
    }

    /** The header loop of parse. */
    method ParseName() returns (r: Parsed<string>)
      modifies this
      ensures var name := ReadName(old(At()), "");
              if name.Bad? then r == Bad(name.problem)
              else r == Good(name.value.0) && At() == name.value.1
    {
      var name := "";
      while true
        invariant ReadName(At(), name) == ReadName(old(At()), "")
        decreases |rest|
      {
        var c := Next();
        if c == Some(']') {
          return Good(name);
        } else if c == Some('\n') || c == None {
          return Bad(UnterminatedHeader(line));
        }
        name := name + [c.value];
      }
    }

    /** The keyword loop of parse_entry. */
    method ParseKeyword() returns (r: Parsed<string>)
      modifies this
      ensures var k := ReadKeyword(old(At()), "");
              if k.Bad? then r == Bad(k.problem)
              else r == Good(Trim(k.value.0)) && At() == k.value.1
    {
      var keyword := "";
      while true
        invariant ReadKeyword(At(), keyword) == ReadKeyword(old(At()), "")
        decreases |rest|
      {
        var c := Next();
        if c == Some('=') {
          return Good(Trim(keyword));
        } else if c == None || SpoilsKeyword(c.value) {
          return Bad(ExpectedEquals(line, Trim(keyword), c));
        }
        keyword := keyword + [c.value];
      }
    }

    /** The string loop of parse_entry: appends to what the field has so far. */
    method ParseString(before: string) returns (r: Parsed<string>)
      modifies this
      ensures var s := ReadString(old(At()), before);
              if s.Bad? then r == Bad(s.problem)
              else r == Good(s.value.0) && At() == s.value.1
    {
      var s := before;
      while true
        invariant ReadString(At(), s) == ReadString(old(At()), before)
        decreases |rest|
      {
        var c := Next();
        if c == Some('"') {
          return Good(s);
        } else if c == Some('\\') {
          c := Next();
          if c == None {
            return Bad(UnterminatedString(line));
          } else if c.value == 'n' {
            s := s + ['\n'];
          } else {
            s := s + [c.value];
          }
        } else if c.Some? {
          s := s + [c.value];
        } else {
          return Bad(UnterminatedString(line));
        }
      }
    }

    /** The token loop of parse_entry: peeks, so the character that ends it stays unread. */
    method ParseToken(before: string) returns (token: string)
      modifies this
      ensures (token, At()) == ReadToken(old(At()), before)
    {
      token := before;
      while true
        invariant ReadToken(At(), token) == ReadToken(old(At()), before)
        decreases |rest|
      {
        var c := Peek();
        if c == None || EndsToken(c.value) {
          break;
        }
        token := token + [c.value];
        var _ := Next();
      }
    }

    method ParseFields(keyword: string, start: int) returns (r: Parsed<seq<Field>>)
      modifies this
      ensures var f := ReadFields(old(At()), [], None, "", keyword, start);
              if f.Bad? then r == Bad(f.problem)
              else r == Good(f.value.0) && At() == f.value.1
    {
      var fields: seq<Field> := [];
      var strings: Option<string> := None;
      var token := "";
      while true
        invariant ReadFields(At(), fields, strings, token, keyword, start)
                  == ReadFields(old(At()), [], None, "", keyword, start)
        decreases |rest|
      {
        SkipBlanks();
        var c := Next();
        if c == None {
          return Bad(NoTerminator(start, keyword));
        } else if c.value == '"' {
          var s := ParseString(if strings.Some? then strings.value else "");
          if s.Bad? {
            return Bad(s.problem);
          }
          strings := Some(s.value);
        } else if c.value == ',' || c.value == ';' {
          fields := fields + [Completed(strings, token)];
          strings, token := None, "";
          if c.value == ';' {
            return Good(fields);
          }
        } else {
          token := ParseToken(token + [c.value]);
        }
      }
    }

    method ParseEntry(start: int) returns (r: Parsed<Entry>)
      modifies this
      ensures var e := ReadEntry(old(At()), start);
              if e.Bad? then r == Bad(e.problem)
              else r == Good(e.value.0) && At() == e.value.1
    {
      var keyword := ParseKeyword();
      if keyword.Bad? {
        return Bad(keyword.problem);
      }
      var fields := ParseFields(keyword.value, start);
      if fields.Bad? {
        return Bad(fields.problem);
      }
      r := Good(Entry(keyword.value, fields.value, start));
    }
  }

  method Parse(text: string) returns (r: Parsed<seq<Section>>)
    ensures r == Parsing(text)
  {
    var cur := new Cursor(text);
    var sections: seq<Section> := [];
    while true
      invariant fresh(cur) && ReadSections(cur.At(), sections) == Parsing(text)
      decreases |cur.rest|
    {
      cur.SkipBlanks();
      var c := cur.Peek();
      if c == None {
        break;
      } else if c.value == '[' {
        var _ := cur.Next();
        var name := cur.ParseName();
        if name.Bad? {
          return Bad(name.problem);
        }
        sections := sections + [Section(Trim(name.value), [])];
      } else {
        var e := cur.ParseEntry(cur.line);
        if e.Bad? {
          return Bad(e.problem);
        }
        if sections == [] {
          return Bad(BeforeAnySection(cur.line, e.value.keyword));
        }
        sections := Push(sections, e.value);
      }
    }
    r := Good(sections);
  }
}
