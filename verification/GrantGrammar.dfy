/** The closed GRANT and REVOKE forms: a parser, and the spellings it accepts. */
module GrantGrammar {
  import opened Wrappers
  import opened SqlText

  /** What a statement says, with vocabulary in upper case and identifiers as written. */
  datatype Form = Form(privileges: seq<string>, typeName: string, name: string, role: string)

  /** One of the two statement forms: its verb, its preposition and its object types. */
  datatype Shape = Shape(verb: string, prep: string, types: set<string>, anyType: bool)

  const FILE_FORMAT := "FILE FORMAT"

  // ----- The parser

  function MorePrivileges(s: string): (r: (seq<string>, string))
    ensures |r.1| <= |s|
    decreases |s|
  {
    var next := SkipSpaces(s);
    if next == "" || next[0] != ',' then ([], s) else
      match Word(SkipSpaces(next[1..]))
      case None => ([], s)
      case Some((word, rest)) => var more := MorePrivileges(rest); ([word] + more.0, more.1)
  }

  /** Comma-separated words and the text after them. */
  function Privileges(s: string): Option<(seq<string>, string)> {
    match Word(s)
    case None => None
    case Some((word, rest)) => var more := MorePrivileges(rest); Some(([word] + more.0, more.1))
  }

  function TypeName(s: string, shape: Shape): Option<(string, string)> {
    match Word(s)
    case None => None
    case Some((word, rest)) =>
      if Upper(word) == "FILE" && FILE_FORMAT in shape.types && !shape.anyType then
        match Gap(rest)
        case None => None
        case Some(next) =>
          match Word(next)
          case None => None
          case Some((second, rest2)) => if Upper(second) == "FORMAT" then Some((FILE_FORMAT, rest2)) else None
      else if shape.anyType || Upper(word) in shape.types then Some((Upper(word), rest)) else None
  }

  /** The text up to and including the object type. */
  datatype Head = Head(privileges: seq<string>, typeName: string, rest: string)

  function AfterOn(s: string, privileges: seq<string>, shape: Shape): Option<Head> {
    match Keyword(s, "ON")
    case None => None
    case Some(s1) =>
      match Gap(s1)
      case None => None
      case Some(s2) =>
        match TypeName(s2, shape)
        case None => None
        case Some((typeName, rest)) => Some(Head(privileges, typeName, rest))
  }

  function ParseHead(s: string, shape: Shape): Option<Head> {
    match Keyword(s, shape.verb)
    case None => None
    case Some(s1) =>
      match Gap(s1)
      case None => None
      case Some(s2) =>
        match Privileges(s2)
        case None => None
        case Some((privileges, s3)) =>
          match Gap(s3)
          case None => None
          case Some(s4) => AfterOn(s4, privileges, shape)
  }

  /** The end of a statement: what precedes the preposition, the spaces there, and the role. */
  datatype Tail = Tail(before: string, gap: string, role: string)

  function ParseTail(s: string, shape: Shape): Option<Tail> {
    match EndToken(s)
    case None => None
    case Some(last) =>
      match EndToken(last.before)
      case None => None
      case Some(keyword) =>
        match EndToken(keyword.before)
        case None => None
        case Some(prep) =>
          if Upper(keyword.token) == "ROLE" && Upper(prep.token) == shape.prep then
            Some(Tail(prep.before, prep.gap, last.token)) else None
  }

  /**
   * A whole statement. With no name before the preposition, three or more spaces there still match:
   * the pattern then takes the last but one of them for the name.
   */
  function ParseForm(s: string, shape: Shape): Option<Form> {
    match ParseTail(s, shape)
    case None => None
    case Some(tail) =>
      match ParseHead(tail.before, shape)
      case None => None
      case Some(head) =>
        if head.rest == "" then
          if |tail.gap| >= 3 then Some(Form(head.privileges, head.typeName, [tail.gap[|tail.gap| - 2]], tail.role))
          else None
        else
          match Gap(head.rest)
          case None => None
          case Some(name) => Some(Form(head.privileges, head.typeName, name, tail.role))
  }

  // ----- Spellings

  datatype More = More(before: string, after: string, word: string)

  datatype TypeText = OneWord(word: string) | TwoWords(first: string, gap: string, second: string)

  /** A statement in all its written detail. */
  datatype Layout = Layout(
    verb: string, gap1: string, first: string, more: seq<More>, gap2: string, on: string, gap3: string,
    typeText: TypeText,
    gap4: string, name: string, gap5: string, prep: string, gap6: string, roleWord: string, gap7: string, role: string)

  function SpellMore(more: seq<More>): string {
    if more == [] then "" else more[0].before + "," + more[0].after + more[0].word + SpellMore(more[1..])
  }

  function SpellType(t: TypeText): string {
    match t
    case OneWord(word) => word
    case TwoWords(first, gap, second) => first + gap + second
  }

  function SpellOn(l: Layout): string {
    l.on + l.gap3 + SpellType(l.typeText) + l.gap4 + l.name
  }

  function SpellHead(l: Layout): string {
    l.verb + l.gap1 + l.first + SpellMore(l.more) + l.gap2 + SpellOn(l)
  }

  function Spell(l: Layout): string {
    SpellHead(l) + l.gap5 + l.prep + l.gap6 + l.roleWord + l.gap7 + l.role
  }

  predicate IsGap(s: string) {
    s != "" && Spaces(s)
  }

  predicate IsWord(s: string) {
    s != "" && Letters(s)
  }

  predicate IsToken(s: string) {
    s != "" && NoSpaces(s)
  }

  predicate ValidMore(more: seq<More>) {
    forall i :: 0 <= i < |more| ==> Spaces(more[i].before) && Spaces(more[i].after) && IsWord(more[i].word)
  }

  function NameOfType(t: TypeText): string {
    match t
    case OneWord(word) => Upper(word)
    case TwoWords(_, _, _) => FILE_FORMAT
  }

  predicate ValidType(t: TypeText, shape: Shape) {
    match t
    case OneWord(word) =>
      && IsWord(word) && (shape.anyType || Upper(word) in shape.types)
      && !(Upper(word) == "FILE" && FILE_FORMAT in shape.types && !shape.anyType)
    case TwoWords(first, gap, second) =>
      && IsWord(first) && IsGap(gap) && IsWord(second) && !shape.anyType
      && FILE_FORMAT in shape.types && Upper(first) == "FILE" && Upper(second) == "FORMAT"
  }

  predicate ValidHead(l: Layout, shape: Shape) {
    && Upper(l.verb) == shape.verb && IsGap(l.gap1) && IsWord(l.first) && ValidMore(l.more)
    && IsGap(l.gap2) && Upper(l.on) == "ON" && IsGap(l.gap3) && ValidType(l.typeText, shape)
    && IsGap(l.gap4) && Trimmed(l.name)
  }

  predicate ValidTail(l: Layout, shape: Shape) {
    && IsGap(l.gap5) && IsToken(l.prep) && Upper(l.prep) == shape.prep
    && IsGap(l.gap6) && IsToken(l.roleWord) && Upper(l.roleWord) == "ROLE"
    && IsGap(l.gap7) && IsToken(l.role)
  }

  predicate ValidLayout(l: Layout, shape: Shape) {
    ValidHead(l, shape) && ValidTail(l, shape)
  }

  function WordsOf(more: seq<More>): seq<string> {
    if more == [] then [] else [more[0].word] + WordsOf(more[1..])
  }

  /** What a spelling says; no space and no case of the vocabulary remains in it. */
  function FormOf(l: Layout): Form {
    Form([l.first] + WordsOf(l.more), NameOfType(l.typeText), l.name, l.role)
  }

  // ----- Every spelling parses

  lemma GapThen(w: string, s: string)
    requires IsGap(w) && s != "" && !IsSpace(s[0])
    ensures Gap(w + s) == Some(s)
  {
    GapIs(w, s);
  }

  /** After the privileges comes a gap, then something that is no comma. */
  predicate Stops(rest: string) {
    rest != "" && IsSpace(rest[0]) && (SkipSpaces(rest) == "" || SkipSpaces(rest)[0] != ',')
  }

  lemma NoMorePrivileges(rest: string)
    requires Stops(rest)
    ensures MorePrivileges(rest) == ([], rest)
  {
  }

  lemma OneMorePrivilege(m: More, tail: string)
    requires Spaces(m.before) && Spaces(m.after) && IsWord(m.word) && (tail == "" || !IsLetter(tail[0]))
    ensures var more := MorePrivileges(tail);
            MorePrivileges(m.before + "," + m.after + m.word + tail) == ([m.word] + more.0, more.1)
  {
    hide Spaces, Letters, IsSpace, IsLetter, SkipSpaces, Word;
    var word := m.word + tail;
    var next := "," + (m.after + word);
    assert m.before + "," + m.after + m.word + tail == m.before + next;
    CommaIsNoSpace(m.after + word);
    WordStart(m.word, tail);
    SkipSpacesIs(m.before, next);
    assert next[1..] == m.after + word;
    SkipSpacesIs(m.after, word);
    WordIs(m.word, tail);
  }

  lemma CommaIsNoSpace(rest: string)
    ensures !IsSpace(("," + rest)[0]) && ("," + rest)[0] == ','
  {
  }

  lemma SpellMoreStarts(more: seq<More>, rest: string)
    requires ValidMore(more) && Stops(rest)
    ensures SpellMore(more) + rest != "" && !IsLetter((SpellMore(more) + rest)[0])
  {
    if more == [] {
      assert SpellMore(more) + rest == rest;
    } else {
      var m := more[0];
      var s := m.before + "," + m.after + m.word + SpellMore(more[1..]) + rest;
      assert s[0] == if m.before == "" then ',' else m.before[0];
    }
  }

  lemma {:induction false} PrivilegesFollow(more: seq<More>, rest: string)
    requires ValidMore(more) && Stops(rest)
    ensures MorePrivileges(SpellMore(more) + rest) == (WordsOf(more), rest)
  {
    hide MorePrivileges, Stops, IsWord, Spaces;
    if more == [] {
      assert SpellMore(more) + rest == rest;
      NoMorePrivileges(rest);
    } else {
      var m, tail := more[0], SpellMore(more[1..]) + rest;
      PrivilegesFollow(more[1..], rest);
      SpellMoreStarts(more[1..], rest);
      OneMorePrivilege(m, tail);
      assert SpellMore(more) + rest == m.before + "," + m.after + m.word + tail;
    }
  }

  lemma PrivilegesSpelled(first: string, more: seq<More>, rest: string)
    requires IsWord(first) && ValidMore(more) && Stops(rest)
    ensures Privileges(first + SpellMore(more) + rest) == Some(([first] + WordsOf(more), rest))
  {
    hide MorePrivileges, Stops, SpellMore, WordsOf, ValidMore;
    assert first + SpellMore(more) + rest == first + (SpellMore(more) + rest);
    SpellMoreStarts(more, rest);
    WordIs(first, SpellMore(more) + rest);
    PrivilegesFollow(more, rest);
  }

  lemma TypeSpelled(t: TypeText, shape: Shape, rest: string)
    requires ValidType(t, shape) && (rest == "" || IsSpace(rest[0]))
    ensures TypeName(SpellType(t) + rest, shape) == Some((NameOfType(t), rest))
  {
    hide Letters, Spaces, Gap, Word, Upper;
    match t
    case OneWord(word) => WordIs(word, rest);
    case TwoWords(first, gap, second) =>
      WordStart(second, rest);
      GapStart(gap, second + rest);
      assert first + gap + second + rest == first + (gap + (second + rest));
      WordIs(first, gap + (second + rest));
      GapThen(gap, second + rest);
      WordIs(second, rest);
  }

  lemma WordStart(word: string, rest: string)
    requires IsWord(word)
    ensures word + rest != "" && !IsSpace((word + rest)[0])
  {
  }

  lemma GapStart(gap: string, rest: string)
    requires IsGap(gap)
    ensures gap + rest != "" && !IsLetter((gap + rest)[0]) && IsSpace((gap + rest)[0])
  {
  }

  lemma TypeStart(t: TypeText, shape: Shape, rest: string)
    requires ValidType(t, shape)
    ensures SpellType(t) + rest != "" && !IsSpace((SpellType(t) + rest)[0])
  {
    hide Letters, Spaces, Upper;
    match t
    case OneWord(word) => WordStart(word, rest);
    case TwoWords(first, gap, second) =>
      WordStart(first, gap + second + rest);
      assert first + gap + second + rest == first + (gap + second + rest);
  }

  lemma OnStart(on: string, rest: string)
    requires Upper(on) == "ON"
    ensures on + rest != "" && !IsSpace((on + rest)[0]) && (on + rest)[0] != ','
  {
    assert Upper(on)[0] == 'O';
    assert UpperChar(on[0]) == 'O';
  }

  lemma OnSpelled(l: Layout, shape: Shape, privileges: seq<string>)
    requires ValidHead(l, shape)
    ensures AfterOn(SpellOn(l), privileges, shape) == Some(Head(privileges, NameOfType(l.typeText), l.gap4 + l.name))
  {
    hide Keyword, Gap, TypeName, Upper, SpellType, NameOfType, ValidType, IsWord, IsGap, Trimmed, ValidMore;
    var named := l.gap4 + l.name;
    var typed := SpellType(l.typeText) + named;
    GapStart(l.gap4, l.name);
    TypeStart(l.typeText, shape, named);
    assert SpellOn(l) == l.on + (l.gap3 + typed);
    KeywordIs(l.on, "ON", l.gap3 + typed);
    GapThen(l.gap3, typed);
    TypeSpelled(l.typeText, shape, named);
  }

  lemma StopsBeforeOn(l: Layout, shape: Shape)
    requires ValidHead(l, shape)
    ensures Stops(l.gap2 + SpellOn(l)) && Gap(l.gap2 + SpellOn(l)) == Some(SpellOn(l))
  {
    hide Upper, SpellType, ValidType, IsWord, Trimmed, ValidMore, Gap;
    OnStart(l.on, l.gap3 + SpellType(l.typeText) + l.gap4 + l.name);
    assert SpellOn(l) == l.on + (l.gap3 + SpellType(l.typeText) + l.gap4 + l.name);
    GapThen(l.gap2, SpellOn(l));
    GapStart(l.gap2, SpellOn(l));
    SkipSpacesIs(l.gap2, SpellOn(l));
  }

  lemma HeadSpelled(l: Layout, shape: Shape)
    requires ValidHead(l, shape)
    ensures ParseHead(SpellHead(l), shape)
            == Some(Head([l.first] + WordsOf(l.more), NameOfType(l.typeText), l.gap4 + l.name))
  {
    hide Keyword, Gap, Upper, SpellOn, SpellMore, WordsOf, NameOfType, ValidType, IsWord, IsGap, Trimmed, Stops,
      Privileges, AfterOn, ValidMore;
    var on := l.gap2 + SpellOn(l);
    var privileged := l.first + SpellMore(l.more) + on;
    StopsBeforeOn(l, shape);
    WordStart(l.first, SpellMore(l.more) + on);
    assert privileged == l.first + (SpellMore(l.more) + on);
    assert SpellHead(l) == l.verb + (l.gap1 + privileged);
    KeywordIs(l.verb, shape.verb, l.gap1 + privileged);
    GapThen(l.gap1, privileged);
    PrivilegesSpelled(l.first, l.more, on);
    OnSpelled(l, shape, [l.first] + WordsOf(l.more));
  }

  lemma TokenEnds(text: string, token: string)
    requires IsToken(token)
    ensures EndsOnToken(text + token)
  {
    assert (text + token)[|text + token| - 1] == token[|token| - 1];
  }

  lemma NameEnds(l: Layout)
    requires Trimmed(l.name)
    ensures EndsOnToken(SpellHead(l))
  {
    hide SpellMore, SpellType;
    var s := SpellHead(l);
    assert s[|s| - 1] == l.name[|l.name| - 1];
  }

  lemma TailSpelled(l: Layout, shape: Shape)
    requires ValidTail(l, shape) && EndsOnToken(SpellHead(l))
    ensures ParseTail(Spell(l), shape) == Some(Tail(SpellHead(l), l.gap5, l.role))
  {
    hide SpellHead, EndToken, Upper, EndsOnToken, Spaces, NoSpaces;
    var s1 := SpellHead(l) + l.gap5 + l.prep;
    var s2 := s1 + l.gap6 + l.roleWord;
    TokenEnds(SpellHead(l) + l.gap5, l.prep);
    TokenEnds(s1 + l.gap6, l.roleWord);
    EndTokenIs(s2, l.gap7, l.role);
    EndTokenIs(s1, l.gap6, l.roleWord);
    EndTokenIs(SpellHead(l), l.gap5, l.prep);
  }

  /** Every spelling parses to what it says: case, spacing and layout do not matter. */
  lemma SpellingParses(l: Layout, shape: Shape)
    requires ValidLayout(l, shape)
    ensures ParseForm(Spell(l), shape) == Some(FormOf(l))
  {
    hide Spell, SpellHead, ParseTail, ParseHead, ValidHead, ValidTail, Gap, NameOfType, WordsOf, Trimmed, IsSpace,
      EndsOnToken;
    NameGap(l, shape);
    NameEnds(l);
    TailSpelled(l, shape);
    HeadSpelled(l, shape);
  }

  lemma NameGap(l: Layout, shape: Shape)
    requires ValidHead(l, shape)
    ensures Trimmed(l.name) && l.gap4 + l.name != "" && Gap(l.gap4 + l.name) == Some(l.name)
  {
    hide Gap, ValidType, ValidMore, Upper, IsWord;
    GapThen(l.gap4, l.name);
  }

  // ----- Everything that parses is a spelling

  lemma KeywordReads(s: string, word: string)
    requires Keyword(s, word).Some?
    ensures s == s[..|word|] + Keyword(s, word).value && Upper(s[..|word|]) == word
  {
  }

  lemma GapReads(s: string) returns (gap: string)
    requires Gap(s).Some?
    ensures IsGap(gap) && s == gap + Gap(s).value && (Gap(s).value == "" || !IsSpace(Gap(s).value[0]))
  {
    hide IsSpace;
    gap := s[..Lead(IsSpace, s)];
  }

  lemma SkipSpacesReads(s: string) returns (gap: string)
    ensures Spaces(gap) && s == gap + SkipSpaces(s)
  {
    hide IsSpace;
    gap := s[..Lead(IsSpace, s)];
  }

  lemma WordReads(s: string)
    requires Word(s).Some?
    ensures var (word, rest) := Word(s).value; IsWord(word) && s == word + rest && (rest == "" || !IsLetter(rest[0]))
  {
    hide IsLetter;
  }

  lemma {:induction false} MorePrivilegesRead(s: string) returns (more: seq<More>)
    ensures ValidMore(more) && WordsOf(more) == MorePrivileges(s).0 && s == SpellMore(more) + MorePrivileges(s).1
    decreases |s|
  {
    hide IsWord, Spaces, SkipSpaces;
    more := [];
    var next := SkipSpaces(s);
    assert SpellMore([]) + s == s;
    if next != "" && next[0] == ',' {
      var after := SkipSpaces(next[1..]);
      if Word(after).Some? {
        var (word, rest) := Word(after).value;
        var before := SkipSpacesReads(s);
        var gap := SkipSpacesReads(next[1..]);
        WordReads(after);
        SkipShrinks(s);
        SkipShrinks(next[1..]);
        var tail := MorePrivilegesRead(rest);
        var m := More(before, gap, word);
        more := [m] + tail;
        assert more[1..] == tail;
        assert next == "," + (gap + (word + rest));
        SpellsAs(m, tail, s, MorePrivileges(s).1, rest);
      }
    }
  }

  lemma SkipShrinks(s: string)
    ensures |SkipSpaces(s)| <= |s|
  {
  }

  lemma SpellsAs(m: More, tail: seq<More>, s: string, end: string, rest: string)
    requires s == m.before + ("," + (m.after + (m.word + rest))) && rest == SpellMore(tail) + end
    ensures s == SpellMore([m] + tail) + end
  {
    hide SpellMore;
    SpellMoreCons(m, tail);
    assert m.before + ("," + (m.after + (m.word + rest))) == m.before + "," + m.after + m.word + rest;
    assert m.before + "," + m.after + m.word + (SpellMore(tail) + end)
           == m.before + "," + m.after + m.word + SpellMore(tail) + end;
  }

  lemma SpellMoreCons(m: More, tail: seq<More>)
    ensures SpellMore([m] + tail) == m.before + "," + m.after + m.word + SpellMore(tail)
  {
    assert ([m] + tail)[1..] == tail;
  }

  lemma PrivilegesRead(s: string) returns (first: string, more: seq<More>)
    requires Privileges(s).Some?
    ensures IsWord(first) && ValidMore(more) && Privileges(s).value.0 == [first] + WordsOf(more)
    ensures s == first + SpellMore(more) + Privileges(s).value.1
  {
    hide IsWord, ValidMore, WordsOf, SpellMore, MorePrivileges;
    WordReads(s);
    first := Word(s).value.0;
    more := MorePrivilegesRead(Word(s).value.1);
    assert first + (SpellMore(more) + Privileges(s).value.1) == first + SpellMore(more) + Privileges(s).value.1;
  }

  lemma TypeReads(s: string, shape: Shape) returns (t: TypeText)
    requires TypeName(s, shape).Some?
    ensures ValidType(t, shape) && TypeName(s, shape).value.0 == NameOfType(t)
            && s == SpellType(t) + TypeName(s, shape).value.1
  {
    hide IsWord, IsGap, Word, Gap, Upper;
    WordReads(s);
    var (word, rest) := Word(s).value;
    if Upper(word) == "FILE" && FILE_FORMAT in shape.types && !shape.anyType {
      var gap := GapReads(rest);
      var next := Gap(rest).value;
      WordReads(next);
      var (second, rest2) := Word(next).value;
      t := TwoWords(word, gap, second);
      assert word + (gap + (second + rest2)) == word + gap + second + rest2;
    } else {
      t := OneWord(word);
    }
  }

  /** The written parts of a head, without the name. */
  datatype HeadParts = HeadParts(verb: string, gap1: string, first: string, more: seq<More>, gap2: string, on: string,
                                 gap3: string, typeText: TypeText)

  predicate ValidParts(h: HeadParts, shape: Shape) {
    && Upper(h.verb) == shape.verb && IsGap(h.gap1) && IsWord(h.first) && ValidMore(h.more)
    && IsGap(h.gap2) && Upper(h.on) == "ON" && IsGap(h.gap3) && ValidType(h.typeText, shape)
  }

  function SpellParts(h: HeadParts): string {
    h.verb + h.gap1 + h.first + SpellMore(h.more) + h.gap2 + h.on + h.gap3 + SpellType(h.typeText)
  }

  lemma OnReads(s: string, privileges: seq<string>, shape: Shape) returns (on: string, gap3: string, t: TypeText)
    requires AfterOn(s, privileges, shape).Some?
    ensures var head := AfterOn(s, privileges, shape).value;
            && Upper(on) == "ON" && IsGap(gap3) && ValidType(t, shape)
            && head.privileges == privileges && head.typeName == NameOfType(t)
            && s == on + gap3 + SpellType(t) + head.rest
  {
    hide Keyword, Gap, TypeName, Upper, SpellType, NameOfType, ValidType, IsGap;
    KeywordReads(s, "ON");
    var s1 := Keyword(s, "ON").value;
    on := s[..2];
    gap3 := GapReads(s1);
    var s2 := Gap(s1).value;
    t := TypeReads(s2, shape);
    var rest := TypeName(s2, shape).value.1;
    assert on + (gap3 + (SpellType(t) + rest)) == on + gap3 + SpellType(t) + rest;
  }

  lemma HeadReads(s: string, shape: Shape) returns (h: HeadParts)
    requires ParseHead(s, shape).Some?
    ensures var head := ParseHead(s, shape).value;
            && ValidParts(h, shape) && s == SpellParts(h) + head.rest
            && head.privileges == [h.first] + WordsOf(h.more) && head.typeName == NameOfType(h.typeText)
  {
    hide Keyword, Gap, Privileges, AfterOn, Upper, SpellType, SpellMore, NameOfType, ValidType, ValidMore, IsGap,
      IsWord, WordsOf;
    KeywordReads(s, shape.verb);
    var s1 := Keyword(s, shape.verb).value;
    var verb := s[..|shape.verb|];
    var gap1 := GapReads(s1);
    var s2 := Gap(s1).value;
    var first, more := PrivilegesRead(s2);
    var s3 := Privileges(s2).value.1;
    var gap2 := GapReads(s3);
    var s4 := Gap(s3).value;
    var on, gap3, t := OnReads(s4, Privileges(s2).value.0, shape);
    h := HeadParts(verb, gap1, first, more, gap2, on, gap3, t);
    HeadAssembles(h, s, s1, s2, s3, s4, ParseHead(s, shape).value.rest);
  }

  lemma HeadAssembles(h: HeadParts, s: string, s1: string, s2: string, s3: string, s4: string, rest: string)
    requires s == h.verb + s1 && s1 == h.gap1 + s2 && s2 == h.first + SpellMore(h.more) + s3 && s3 == h.gap2 + s4
    requires s4 == h.on + h.gap3 + SpellType(h.typeText) + rest
    ensures s == SpellParts(h) + rest
  {
    hide SpellMore, SpellType;
    var a, b := h.first + SpellMore(h.more), h.on + h.gap3 + SpellType(h.typeText);
    assert h.verb + (h.gap1 + (a + (h.gap2 + (b + rest)))) == h.verb + h.gap1 + a + h.gap2 + b + rest;
    assert h.verb + h.gap1 + a == h.verb + h.gap1 + h.first + SpellMore(h.more);
    var c := h.verb + h.gap1 + h.first + SpellMore(h.more) + h.gap2;
    assert c + b == c + h.on + h.gap3 + SpellType(h.typeText);
  }

  lemma TailReads(s: string, shape: Shape) returns (prep: string, gap6: string, roleWord: string, gap7: string)
    requires ParseTail(s, shape).Some?
    ensures var tail := ParseTail(s, shape).value;
            && s == tail.before + tail.gap + prep + gap6 + roleWord + gap7 + tail.role
            && IsGap(tail.gap) && IsToken(prep) && Upper(prep) == shape.prep && IsGap(gap6)
            && IsToken(roleWord) && Upper(roleWord) == "ROLE" && IsGap(gap7) && IsToken(tail.role)
            && EndsOnToken(tail.before)
  {
    hide EndToken, Upper, Spaces, NoSpaces, EndsOnToken;
    EndTokenReads(s);
    var last := EndToken(s).value;
    EndTokenReads(last.before);
    var keyword := EndToken(last.before).value;
    EndTokenReads(keyword.before);
    var p := EndToken(keyword.before).value;
    prep, gap6, roleWord, gap7 := p.token, keyword.gap, keyword.token, last.gap;
  }

  function LayoutOf(h: HeadParts, gap4: string, name: string, gap5: string, prep: string, gap6: string,
                    roleWord: string, gap7: string, role: string): Layout
  {
    Layout(h.verb, h.gap1, h.first, h.more, h.gap2, h.on, h.gap3, h.typeText, gap4, name, gap5, prep, gap6, roleWord,
           gap7, role)
  }

  lemma SpellHeadParts(h: HeadParts, gap4: string, name: string, gap5: string, prep: string, gap6: string,
                       roleWord: string, gap7: string, role: string)
    ensures SpellHead(LayoutOf(h, gap4, name, gap5, prep, gap6, roleWord, gap7, role)) == SpellParts(h) + gap4 + name
  {
    hide SpellMore, SpellType;
    var a := h.verb + h.gap1 + h.first + SpellMore(h.more) + h.gap2;
    var b := SpellType(h.typeText);
    assert a + (h.on + h.gap3 + b + gap4 + name) == a + h.on + h.gap3 + b + gap4 + name;
  }

  // ----- Statements without a name

  /** A statement whose object type is followed directly by at least three spaces and the preposition. */
  datatype Nameless = Nameless(
    head: HeadParts, gap5: string, prep: string, gap6: string, roleWord: string, gap7: string, role: string)

  predicate ValidNameless(n: Nameless, shape: Shape) {
    && ValidParts(n.head, shape) && IsGap(n.gap5) && |n.gap5| >= 3
    && IsToken(n.prep) && Upper(n.prep) == shape.prep && IsGap(n.gap6)
    && IsToken(n.roleWord) && Upper(n.roleWord) == "ROLE" && IsGap(n.gap7) && IsToken(n.role)
  }

  function SpellNameless(n: Nameless): string {
    SpellParts(n.head) + n.gap5 + n.prep + n.gap6 + n.roleWord + n.gap7 + n.role
  }

  /** Its last but one space before the preposition is read as the name. */
  function NamelessForm(n: Nameless): Form
    requires |n.gap5| >= 3
  {
    Form([n.head.first] + WordsOf(n.head.more), NameOfType(n.head.typeText), [n.gap5[|n.gap5| - 2]], n.role)
  }

  lemma PartsOn(h: HeadParts, shape: Shape, privileges: seq<string>)
    requires ValidParts(h, shape)
    ensures AfterOn(h.on + h.gap3 + SpellType(h.typeText), privileges, shape)
            == Some(Head(privileges, NameOfType(h.typeText), ""))
  {
    hide Keyword, Gap, TypeName, Upper, SpellType, NameOfType, ValidType, IsWord, IsGap, ValidMore;
    var typed := SpellType(h.typeText) + "";
    TypeStart(h.typeText, shape, "");
    assert h.on + h.gap3 + SpellType(h.typeText) == h.on + (h.gap3 + typed);
    KeywordIs(h.on, "ON", h.gap3 + typed);
    GapThen(h.gap3, typed);
    TypeSpelled(h.typeText, shape, "");
  }

  lemma PartsStop(h: HeadParts, shape: Shape)
    requires ValidParts(h, shape)
    ensures var on := h.on + h.gap3 + SpellType(h.typeText); Stops(h.gap2 + on) && Gap(h.gap2 + on) == Some(on)
  {
    hide Upper, SpellType, ValidType, IsWord, ValidMore, Gap;
    var on := h.on + h.gap3 + SpellType(h.typeText);
    OnStart(h.on, h.gap3 + SpellType(h.typeText));
    assert on == h.on + (h.gap3 + SpellType(h.typeText));
    GapThen(h.gap2, on);
    GapStart(h.gap2, on);
    SkipSpacesIs(h.gap2, on);
  }

  lemma PartsSpelled(h: HeadParts, shape: Shape)
    requires ValidParts(h, shape)
    ensures ParseHead(SpellParts(h), shape) == Some(Head([h.first] + WordsOf(h.more), NameOfType(h.typeText), ""))
  {
    hide Keyword, Gap, Upper, SpellMore, SpellType, WordsOf, NameOfType, ValidType, IsWord, IsGap, Stops, Privileges,
      AfterOn, ValidMore;
    var on := h.gap2 + (h.on + h.gap3 + SpellType(h.typeText));
    var privileged := h.first + SpellMore(h.more) + on;
    PartsStop(h, shape);
    WordStart(h.first, SpellMore(h.more) + on);
    assert privileged == h.first + (SpellMore(h.more) + on);
    assert SpellParts(h) == h.verb + (h.gap1 + privileged);
    KeywordIs(h.verb, shape.verb, h.gap1 + privileged);
    GapThen(h.gap1, privileged);
    PrivilegesSpelled(h.first, h.more, on);
    PartsOn(h, shape, [h.first] + WordsOf(h.more));
  }

  lemma TypeEnds(t: TypeText, shape: Shape)
    requires ValidType(t, shape)
    ensures SpellType(t) != "" && !IsSpace(SpellType(t)[|SpellType(t)| - 1])
  {
    hide Upper;
  }

  lemma PartsEnd(h: HeadParts, shape: Shape)
    requires ValidParts(h, shape)
    ensures EndsOnToken(SpellParts(h))
  {
    hide SpellMore, SpellType, ValidType, ValidMore, IsGap, IsWord, Upper;
    TypeEnds(h.typeText, shape);
    var s := SpellParts(h);
    assert s[|s| - 1] == SpellType(h.typeText)[|SpellType(h.typeText)| - 1];
  }

  lemma NamelessTail(n: Nameless, shape: Shape)
    requires ValidNameless(n, shape) && EndsOnToken(SpellParts(n.head))
    ensures ParseTail(SpellNameless(n), shape) == Some(Tail(SpellParts(n.head), n.gap5, n.role))
  {
    hide SpellParts, ValidParts, EndToken, Upper, EndsOnToken, Spaces, NoSpaces;
    var s1 := SpellParts(n.head) + n.gap5 + n.prep;
    var s2 := s1 + n.gap6 + n.roleWord;
    TokenEnds(SpellParts(n.head) + n.gap5, n.prep);
    TokenEnds(s1 + n.gap6, n.roleWord);
    EndTokenIs(s2, n.gap7, n.role);
    EndTokenIs(s1, n.gap6, n.roleWord);
    EndTokenIs(SpellParts(n.head), n.gap5, n.prep);
  }

  /** A nameless statement with enough spaces is accepted, with a space for its name. */
  lemma NamelessParses(n: Nameless, shape: Shape)
    requires ValidNameless(n, shape)
    ensures ParseForm(SpellNameless(n), shape) == Some(NamelessForm(n))
  {
    hide SpellParts, SpellNameless, ParseTail, ParseHead, Upper, IsGap, IsToken, WordsOf, NameOfType, ValidParts,
      EndsOnToken;
    PartsEnd(n.head, shape);
    NamelessTail(n, shape);
    PartsSpelled(n.head, shape);
  }

  // ----- Exactly what is accepted

  /** Whether text follows the object type before the preposition: the guard of the branch with a written name. */
  predicate NameWritten(s: string, shape: Shape)
    requires ParseForm(s, shape).Some?
  {
    ParseHead(ParseTail(s, shape).value.before, shape).value.rest != ""
  }

  lemma NamedReads(s: string, shape: Shape) returns (l: Layout)
    requires ParseForm(s, shape).Some? && NameWritten(s, shape)
    ensures ValidLayout(l, shape) && s == Spell(l) && FormOf(l) == ParseForm(s, shape).value
  {
    hide ParseTail, ParseHead, SpellParts, SpellHead, NameOfType, WordsOf, Upper, ValidMore, ValidType, IsWord, IsToken,
      Gap, EndsOnToken, Spaces, Trimmed;
    var tail := ParseTail(s, shape).value;
    var prep, gap6, roleWord, gap7 := TailReads(s, shape);
    var h := HeadReads(tail.before, shape);
    var head := ParseHead(tail.before, shape).value;
    var gap4 := GapReads(head.rest);
    var name := Gap(head.rest).value;
    EndingName(SpellParts(h), head.rest, gap4, name);
    l := LayoutOf(h, gap4, name, tail.gap, prep, gap6, roleWord, gap7, tail.role);
    SpellHeadParts(h, gap4, name, tail.gap, prep, gap6, roleWord, gap7, tail.role);
    assert SpellParts(h) + (gap4 + name) == SpellParts(h) + gap4 + name;
  }

  /** A name runs from the first character after the gap to the end of a text that ends on a token. */
  lemma EndingName(parts: string, rest: string, gap4: string, name: string)
    requires rest == gap4 + name && IsGap(gap4) && (name == "" || !IsSpace(name[0])) && EndsOnToken(parts + rest)
    ensures Trimmed(name)
  {
    LastOf(parts, rest);
    assert gap4 + "" == gap4;
    if name != "" {
      LastOf(gap4, name);
    }
  }

  lemma LastOf(a: string, b: string)
    requires b != ""
    ensures (a + b)[|a + b| - 1] == b[|b| - 1]
  {
  }

  lemma NamelessReads(s: string, shape: Shape) returns (n: Nameless)
    requires ParseForm(s, shape).Some? && !NameWritten(s, shape)
    ensures ValidNameless(n, shape) && s == SpellNameless(n) && NamelessForm(n) == ParseForm(s, shape).value
  {
    hide ParseTail, ParseHead, SpellParts, NameOfType, WordsOf, Upper, ValidParts, IsWord, IsToken, IsGap, Gap,
      EndsOnToken;
    var tail := ParseTail(s, shape).value;
    var prep, gap6, roleWord, gap7 := TailReads(s, shape);
    var h := HeadReads(tail.before, shape);
    n := Nameless(h, tail.gap, prep, gap6, roleWord, gap7, tail.role);
    assert SpellParts(h) + "" == SpellParts(h);
  }

  ghost predicate Spelled(s: string, shape: Shape, f: Form) {
    exists l :: ValidLayout(l, shape) && s == Spell(l) && f == FormOf(l)
  }

  ghost predicate SpelledNameless(s: string, shape: Shape, f: Form) {
    exists n :: ValidNameless(n, shape) && |n.gap5| >= 3 && s == SpellNameless(n) && f == NamelessForm(n)
  }

  /** A statement is accepted with a result exactly when it spells it, or spells it without a name. */
  lemma AcceptedExactly(s: string, shape: Shape, f: Form)
    ensures ParseForm(s, shape) == Some(f) <==> Spelled(s, shape, f) || SpelledNameless(s, shape, f)
  {
    hide ParseForm, ValidLayout, Spell, FormOf, ValidParts, SpellNameless, NamelessForm, NameWritten;
    if ParseForm(s, shape) == Some(f) {
      if NameWritten(s, shape) {
        var l := NamedReads(s, shape);
      } else {
        var n := NamelessReads(s, shape);
      }
    }
    if Spelled(s, shape, f) {
      var l :| ValidLayout(l, shape) && s == Spell(l) && f == FormOf(l);
      SpellingParses(l, shape);
    }
    if SpelledNameless(s, shape, f) {
      var n :| ValidNameless(n, shape) && |n.gap5| >= 3 && s == SpellNameless(n) && f == NamelessForm(n);
      NamelessParses(n, shape);
    }
  }

  /** What parses is a spelling of its result exactly when its name is written out. */
  lemma ParsedIsSpelled(s: string, shape: Shape)
    ensures ParseForm(s, shape).Some? ==> (Spelled(s, shape, ParseForm(s, shape).value) <==> NameWritten(s, shape))
  {
    hide ParseForm, ValidLayout, Spell, FormOf, ValidNameless, SpellNameless, NamelessForm, NameWritten;
    if ParseForm(s, shape).Some? {
      if NameWritten(s, shape) {
        var l := NamedReads(s, shape);
      } else {
        NamelessNotSpelled(s, shape);
      }
    }
  }

  lemma NamelessNotSpelled(s: string, shape: Shape)
    requires ParseForm(s, shape).Some? && !NameWritten(s, shape)
    ensures !Spelled(s, shape, ParseForm(s, shape).value)
  {
    hide ParseForm, Spell, ValidParts, SpellNameless, NameWritten, ValidHead, ValidTail;
    var n := NamelessReads(s, shape);
    forall l | ValidLayout(l, shape) ensures FormOf(l) != NamelessForm(n) {
      NameIsTrimmed(l, shape);
      BlankIsNotTrimmed(n, shape);
    }
  }

  lemma NameIsTrimmed(l: Layout, shape: Shape)
    requires ValidLayout(l, shape)
    ensures Trimmed(l.name)
  {
    hide ValidTail, ValidType, ValidMore, Upper;
  }

  lemma BlankIsNotTrimmed(n: Nameless, shape: Shape)
    requires ValidNameless(n, shape)
    ensures !Trimmed([n.gap5[|n.gap5| - 2]])
  {
    hide ValidParts, Upper;
  }
}
