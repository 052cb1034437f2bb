/**
 Connection paths as text: the hex notation that Display writes and FromStr reads, and the
 path strings of EDS files, whose `ParamN` and `[ParamN]` references stand for the default
 value of a parameter.
 */
module PathText {
  import opened Wire
  import opened EdsParser

  // ---------------------------------------------------------------- words

  function Flushed(word: string): seq<string> {
    if word == "" then [] else [word]
  }

  /** str::split_whitespace, with the word read so far. */
  function SplitFrom(s: string, word: string): seq<string> {
    if s == "" then Flushed(word)
    else if IsWhitespace(s[0]) then Flushed(word) + SplitFrom(s[1..], "")
    else SplitFrom(s[1..], word + [s[0]])
  }

  function Split(s: string): seq<string> {
    SplitFrom(s, "")
  }

  predicate IsWord(w: string) {
    w != "" && forall i | 0 <= i < |w| :: !IsWhitespace(w[i])
  }

  predicate IsGap(s: string) {
    forall i | 0 <= i < |s| :: IsWhitespace(s[i])
  }

  /** Words, each with the white space before it. */
  datatype Spaced = Spaced(gap: string, word: string)

  /** Words are set apart, and white space may also start and end the text. */
  predicate AreSpaced(words: seq<Spaced>, first: bool) {
    words != [] ==>
      && IsGap(words[0].gap) && IsWord(words[0].word)
      && (!first ==> words[0].gap != "")
      && AreSpaced(words[1..], false)
  }

  function SpacedText(words: seq<Spaced>, end: string): string {
    if words == [] then end else words[0].gap + (words[0].word + SpacedText(words[1..], end))
  }

  function WordsOf(words: seq<Spaced>): seq<string> {
    if words == [] then [] else [words[0].word] + WordsOf(words[1..])
  }

  lemma {:induction false} GapSkipped(gap: string, s: string)
    requires IsGap(gap)
    ensures SplitFrom(gap + s, "") == SplitFrom(s, "")
  {
    if gap == "" {
      assert gap + s == s;
    } else {
      assert (gap + s)[1..] == gap[1..] + s;
      GapSkipped(gap[1..], s);
      assert Flushed("") + SplitFrom(s, "") == SplitFrom(s, "");
    }
  }

  lemma {:induction false} WordTaken(w: string, s: string, word: string)
    requires forall i | 0 <= i < |w| :: !IsWhitespace(w[i])
    ensures SplitFrom(w + s, word) == SplitFrom(s, word + w)
  {
    if w == "" {
      assert w + s == s && word + w == word;
    } else {
      assert (w + s)[1..] == w[1..] + s;
      WordTaken(w[1..], s, word + [w[0]]);
      assert word + [w[0]] + w[1..] == word + w;
    }
  }

  lemma WordEnded(w: string, s: string)
    requires w != "" && (s != "" ==> IsWhitespace(s[0]))
    ensures SplitFrom(s, w) == [w] + SplitFrom(s, "")
  {
    if s != "" {
      assert Flushed("") + SplitFrom(s[1..], "") == SplitFrom(s[1..], "");
    }
  }

  lemma {:induction false} SplitOfSpaced(words: seq<Spaced>, end: string, first: bool)
    requires AreSpaced(words, first) && IsGap(end)
    ensures Split(SpacedText(words, end)) == WordsOf(words)
  {
    if words == [] {
      GapSkipped(end, "");
      assert end + "" == end;
    } else {
      var rest := SpacedText(words[1..], end);
      GapSkipped(words[0].gap, words[0].word + rest);
      WordTaken(words[0].word, rest, "");
      assert "" + words[0].word == words[0].word;
      SplitOfSpaced(words[1..], end, false);
      assert rest != "" ==> IsWhitespace(rest[0]) by {
        if |words| > 1 {
          assert rest[0] == words[1].gap[0];
        }
      }
      WordEnded(words[0].word, rest);
    }
  }

  // ---------------------------------------------------------------- hex bytes

  function HexDigit(d: nat): char
    requires d < 16
  {
    if d < 10 then ('0' as int + d) as char else ('A' as int + d - 10) as char
  }

  function HexByte(b: byte): string {
    [HexDigit(b / 16), HexDigit(b % 16)]
  }

  function Digit(c: char): Option<nat> {
    if '0' <= c <= '9' then Some(c as int - '0' as int)
    else if 'A' <= c <= 'F' then Some(c as int - 'A' as int + 10)
    else if 'a' <= c <= 'f' then Some(c as int - 'a' as int + 10)
    else None
  }

  function HexFrom(s: string, value: nat): Option<byte> {
    if value > 0xFF then None
    else if s == "" then Some(value)
    else if Digit(s[0]).None? then None
    else HexFrom(s[1..], 16 * value + Digit(s[0]).value)
  }

  /** A plus sign before digits is accepted. */
  function Unsigned(s: string): string {
    if |s| > 1 && s[0] == '+' then s[1..] else s
  }

  /** u8::from_str_radix(s, 16). */
  function ReadHex(s: string): Option<byte> {
    if Unsigned(s) == "" then None else HexFrom(Unsigned(s), 0)
  }

  lemma TwoDigits(x: char, y: char, high: nat, low: nat)
    requires Digit(x) == Some(high) && Digit(y) == Some(low) && 16 * high + low <= 0xFF && x != '+'
    ensures ReadHex([x, y]) == Some(16 * high + low)
  {
    assert [x, y][1..] == [y] && [y][1..] == "";
    assert HexFrom([y], high) == HexFrom("", 16 * high + low);
  }

  lemma HexByteIsRead(b: byte)
    ensures ReadHex(HexByte(b)) == Some(b) && IsWord(HexByte(b))
  {
    TwoDigits(HexDigit(b / 16), HexDigit(b % 16), b / 16, b % 16);
  }

  function Shown(path: bytes): string {
    if path == [] then ""
    else if |path| == 1 then HexByte(path[0])
    else HexByte(path[0]) + (" " + Shown(path[1..]))
  }

  lemma {:induction false} ShownAppend(path: bytes, b: byte)
    ensures Shown(path + [b]) == Shown(path) + (if path == [] then "" else " ") + HexByte(b)
  {
    if path == [] {
      assert path + [b] == [b];
      assert "" + "" + HexByte(b) == HexByte(b);
    } else {
      assert (path + [b])[1..] == path[1..] + [b];
      ShownAppend(path[1..], b);
    }
  }

  /** Display of ConnectionPath. */
  method Display(path: bytes) returns (s: string)
    ensures s == Shown(path)
  {
    s := "";
    for i := 0 to |path|
      invariant s == Shown(path[..i])
    {
      ShownAppend(path[..i], path[i]);
      assert path[..i + 1] == path[..i] + [path[i]];
      if i > 0 {
        s := s + " ";
      } else {
        assert s + "" == s;
      }
      s := s + HexByte(path[i]);
    }
    assert path[..|path|] == path;
  }

  function ReadHexWords(words: seq<string>): Option<bytes> {
    if words == [] then Some([])
    else if ReadHex(words[0]).None? then None
    else
      var more := ReadHexWords(words[1..]);
      if more.None? then None else Some([ReadHex(words[0]).value] + more.value)
  }

  /** FromStr of ConnectionPath; None stands for its error. */
  function FromStr(s: string): Option<bytes> {
    ReadHexWords(Split(s))
  }

  function ShownWords(path: bytes, gap: string): seq<Spaced> {
    if path == [] then [] else [Spaced(gap, HexByte(path[0]))] + ShownWords(path[1..], " ")
  }

  lemma {:induction false} ShownIsSpaced(path: bytes, gap: string, first: bool)
    requires IsGap(gap) && (!first ==> gap != "")
    ensures AreSpaced(ShownWords(path, gap), first)
    ensures SpacedText(ShownWords(path, gap), "") == if path == [] then "" else gap + Shown(path)
    ensures ReadHexWords(WordsOf(ShownWords(path, gap))) == Some(path)
  {
    if path != [] {
      HexByteIsRead(path[0]);
      ShownIsSpaced(path[1..], " ", false);
      assert ShownWords(path, gap)[1..] == ShownWords(path[1..], " ");
      assert HexByte(path[0]) + "" == HexByte(path[0]);
      assert [path[0]] + path[1..] == path;
    }
  }

  /** Every path is read back from its display. */
  lemma FromStrOfShown(path: bytes)
    ensures FromStr(Shown(path)) == Some(path)
  {
    ShownIsSpaced(path, "", true);
    SplitOfSpaced(ShownWords(path, ""), "", true);
    assert "" + Shown(path) == Shown(path);
  }

  // ---------------------------------------------------------------- paths of EDS files

  /** A parameter as far as a path needs it: its default as an integer, and its size. */
  datatype Param = Param(default: Option<nat>, size: nat)

  function DropLeading(s: string, c: char): string {
    if s != "" && s[0] == c then DropLeading(s[1..], c) else s
  }

  function DropTrailing(s: string, c: char): string {
    if s != "" && s[|s| - 1] == c then DropTrailing(s[..|s| - 1], c) else s
  }

  function DecimalFrom(s: string, value: nat): Option<u32> {
    if value >= 0x1_0000_0000 then None
    else if s == "" then Some(value)
    else if !('0' <= s[0] <= '9') then None
    else DecimalFrom(s[1..], 10 * value + (s[0] as int - '0' as int))
  }

  /** str::parse of a u32. */
  function ReadDecimal(s: string): Option<u32> {
    if Unsigned(s) == "" then None else DecimalFrom(Unsigned(s), 0)
  }

  function Lower(c: char): char {
    if 'A' <= c <= 'Z' then (c as int + 32) as char else c
  }

  /** numbered(text, "Param"): case is ignored. */
  function Numbered(text: string): Option<u32> {
    if |text| >= 5 && Lower(text[0]) == 'p' && Lower(text[1]) == 'a' && Lower(text[2]) == 'r'
       && Lower(text[3]) == 'a' && Lower(text[4]) == 'm'
    then ReadDecimal(text[5..])
    else None
  }

  /** The low k bytes, little-endian. */
  function Le(v: nat, k: nat): (b: bytes)
    ensures |b| == k
  {
    if k == 0 then [] else [v % 0x100] + Le(v / 0x100, k - 1)
  }

  function FromLe(b: bytes): nat {
    if b == [] then 0 else b[0] as int + 0x100 * FromLe(b[1..])
  }

  function Clamped(size: nat): nat {
    if size < 1 then 1 else if size > 8 then 8 else size
  }

  /** What one word of a path string stands for; None stands for an error. */
  function WordBytes(word: string, params: map<u32, Param>): Option<bytes> {
    var n := Numbered(DropTrailing(DropLeading(word, '['), ']'));
    if n.Some? then
      if n.value !in params || params[n.value].default.None? then None
      else Some(Le(params[n.value].default.value, 8)[..Clamped(params[n.value].size)])
    else if ReadHex(word).None? then None
    else Some([ReadHex(word).value])
  }

  function WordsBytes(words: seq<string>, params: map<u32, Param>): Option<bytes> {
    if words == [] then Some([])
    else if WordBytes(words[0], params).None? then None
    else
      var more := WordsBytes(words[1..], params);
      if more.None? then None else Some(WordBytes(words[0], params).value + more.value)
  }

  function Resolved(text: string, params: map<u32, Param>): Option<bytes> {
    WordsBytes(Split(text), params)
  }

  function Joined(path: bytes, more: Option<bytes>): Option<bytes> {
    if more.None? then None else Some(path + more.value)
  }

  lemma JoinedWord(path: bytes, words: seq<string>, params: map<u32, Param>)
    requires words != []
    ensures var b := WordBytes(words[0], params);
            Joined(path, WordsBytes(words, params))
            == if b.None? then None else Joined(path + b.value, WordsBytes(words[1..], params))
  {
    var b, more := WordBytes(words[0], params), WordsBytes(words[1..], params);
    if b.Some? && more.Some? {
      assert path + b.value + more.value == path + (b.value + more.value);
    }
  }

  lemma JoinedEmpty(more: Option<bytes>)
    ensures Joined([], more) == more
  {
    if more.Some? {
      assert [] + more.value == more.value;
    }
  }

  /** Eds::resolve_path. */
  method ResolvePath(text: string, params: map<u32, Param>) returns (r: Option<bytes>)
    ensures r == Resolved(text, params)
  {
    var path: bytes := [];
    var words := Split(text);
    assert words[0..] == words;
    JoinedEmpty(WordsBytes(words, params));
    for i := 0 to |words|
      invariant Joined(path, WordsBytes(words[i..], params)) == Resolved(text, params)
    {
      JoinedWord(path, words[i..], params);
      assert words[i..][1..] == words[i + 1..];
      var b := WordBytes(words[i], params);
      if b.None? {
        return None;
      }
      path := path + b.value;
    }
    assert path + [] == path;
    r := Some(path);
  }

  /** One element of a path string as an EDS author writes it. */
  datatype Element = Byte(b: byte) | Ref(n: u32, bracketed: bool)

  function Decimal(n: nat): string {
    var digit := ('0' as int + n % 10) as char;
    if n < 10 then [digit] else Decimal(n / 10) + [digit]
  }

  function Reference(n: u32): string {
    "Param" + Decimal(n)
  }

  function ElementText(e: Element): string {
    match e
    case Byte(b) => HexByte(b)
    case Ref(n, bracketed) => if bracketed then "[" + (Reference(n) + "]") else Reference(n)
  }

  /** A byte stands for itself, a reference for the default value of its parameter in as many
      little-endian bytes as the parameter has, but at least 1 and at most 8. */
  function ElementBytes(e: Element, params: map<u32, Param>): Option<bytes> {
    match e
    case Byte(b) => Some([b])
    case Ref(n, _) =>
      if n in params && params[n].default.Some?
      then Some(Le(params[n].default.value, Clamped(params[n].size))) else None
  }

  function PathMeaning(elements: seq<Element>, params: map<u32, Param>): Option<bytes> {
    if elements == [] then Some([])
    else
      var first, more := ElementBytes(elements[0], params), PathMeaning(elements[1..], params);
      if first.None? || more.None? then None else Some(first.value + more.value)
  }

  predicate AreDigits(s: string) {
    forall i | 0 <= i < |s| :: '0' <= s[i] <= '9'
  }

  lemma {:induction false} DecimalIsRead(n: nat, rest: string)
    requires n < 0x1_0000_0000
    ensures Decimal(n) != "" && AreDigits(Decimal(n))
    ensures DecimalFrom(Decimal(n) + rest, 0) == DecimalFrom(rest, n)
  {
    var digit := ('0' as int + n % 10) as char;
    assert ([digit] + rest)[1..] == rest;
    if n >= 10 {
      DecimalIsRead(n / 10, [digit] + rest);
      assert Decimal(n) + rest == Decimal(n / 10) + ([digit] + rest);
    }
  }

  lemma NumberedReference(n: u32)
    ensures Numbered(Reference(n)) == Some(n)
    ensures |Reference(n)| > 5 && Reference(n)[0] == 'P' && Reference(n)[|Reference(n)| - 1] != ']'
    ensures IsWord(Reference(n))
  {
    DecimalIsRead(n, "");
    assert Decimal(n) + "" == Decimal(n);
    assert Reference(n)[5..] == Decimal(n);
  }

  lemma {:induction false} LePrefix(v: nat, j: nat, k: nat)
    requires j <= k
    ensures Le(v, k)[..j] == Le(v, j)
  {
    if j > 0 {
      LePrefix(v / 0x100, j - 1, k - 1);
      assert Le(v, k)[..j] == [v % 0x100] + Le(v / 0x100, k - 1)[..j - 1];
    }
  }

  function Power(k: nat): nat {
    if k == 0 then 1 else 0x100 * Power(k - 1)
  }

  /** The bytes of a default value lose nothing exactly when the value fits the size. */
  lemma {:induction false} LeIsExact(v: nat, k: nat)
    ensures FromLe(Le(v, k)) == v <==> v < Power(k)
    ensures FromLe(Le(v, k)) < Power(k)
  {
    if k > 0 {
      LeIsExact(v / 0x100, k - 1);
      assert Le(v, k)[1..] == Le(v / 0x100, k - 1);
    }
  }

  lemma Unbracketed(s: string)
    requires s != "" && s[0] != '[' && s[|s| - 1] != ']'
    ensures DropTrailing(DropLeading(s, '['), ']') == s
    ensures DropTrailing(DropLeading("[" + (s + "]"), '['), ']') == s
  {
    assert ("[" + (s + "]"))[1..] == s + "]";
    assert (s + "]")[..|s|] == s;
  }

  lemma ElementIsRead(e: Element, params: map<u32, Param>)
    ensures IsWord(ElementText(e)) && WordBytes(ElementText(e), params) == ElementBytes(e, params)
  {
    match e
    case Byte(b) =>
      HexByteIsRead(b);
      HexIsNotNumbered(HexByte(b));
    case Ref(n, _) =>
      NumberedReference(n);
      Unbracketed(Reference(n));
      if n in params && params[n].default.Some? {
        LePrefix(params[n].default.value, Clamped(params[n].size), 8);
      }
  }

  lemma {:induction false} HexDigitsOnly(s: string, value: nat)
    requires HexFrom(s, value).Some?
    ensures forall i | 0 <= i < |s| :: Digit(s[i]).Some?
  {
    if s != "" {
      HexDigitsOnly(s[1..], 16 * value + Digit(s[0]).value);
    }
  }

  /** No hex byte is taken for a reference. */
  lemma HexIsNotNumbered(word: string)
    requires ReadHex(word).Some?
    ensures Numbered(DropTrailing(DropLeading(word, '['), ']')).None?
  {
    HexDigitsOnly(Unsigned(word), 0);
    assert word[|word| - 1] == Unsigned(word)[|Unsigned(word)| - 1];
    Unbracketed(word);
  }

  /** The elements, spaced out as in words. */
  predicate Spell(words: seq<Spaced>, elements: seq<Element>) {
    |words| == |elements| && forall i | 0 <= i < |words| :: words[i].word == ElementText(elements[i])
  }

  lemma {:induction false} WordsAreRead(words: seq<Spaced>, elements: seq<Element>, params: map<u32, Param>)
    requires Spell(words, elements)
    ensures WordsBytes(WordsOf(words), params) == PathMeaning(elements, params)
  {
    if words != [] {
      ElementIsRead(elements[0], params);
      WordsAreRead(words[1..], elements[1..], params);
    }
  }

  /** A path string resolves to its elements, whatever white space is between them; it fails
      exactly when a parameter it refers to is missing or has no default. */
  lemma PathStringResolves(words: seq<Spaced>, elements: seq<Element>, end: string, params: map<u32, Param>)
    requires Spell(words, elements) && AreSpaced(words, true) && IsGap(end)
    ensures Resolved(SpacedText(words, end), params) == PathMeaning(elements, params)
  {
    SplitOfSpaced(words, end, true);
    WordsAreRead(words, elements, params);
  }

  lemma {:induction false} HexWordsResolve(words: seq<string>, params: map<u32, Param>)
    requires ReadHexWords(words).Some?
    ensures WordsBytes(words, params) == ReadHexWords(words)
  {
    if words != [] {
      HexIsNotNumbered(words[0]);
      HexWordsResolve(words[1..], params);
    }
  }

  /** The EDS notation extends the hex notation: what FromStr accepts means the same here. */
  lemma HexPathsResolveAlike(text: string, params: map<u32, Param>)
    requires FromStr(text).Some?
    ensures Resolved(text, params) == FromStr(text)
  {
    HexWordsResolve(Split(text), params);
  }
}
