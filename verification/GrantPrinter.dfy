/** Printing manifest rows, and reading the print back. */
module GrantPrinter {
  import opened Wrappers
  import opened Sequences
  import opened Splitting
  import opened SqlText
  import opened SqlComments
  import opened GrantGrammar
  import opened GrantManifest

  /** Privileges separated by a comma and a space. */
  function Listed(order: seq<string>): string
    requires order != []
  {
    if |order| == 1 then order[0] else order[0] + ", " + Listed(order[1..])
  }

  function FormatRow(verb: string, prep: string, r: ManifestRow, order: seq<string>): string
    requires order != []
  {
    verb + " " + Listed(order) + " ON " + r.objectType + " " + r.objectName + " " + prep + " ROLE " + r.roleName
  }

  function FormatGrant(r: ManifestRow, order: seq<string>): string
    requires order != []
  {
    FormatRow("GRANT", "TO", r, order)
  }

  function FormatRevoke(r: ManifestRow, order: seq<string>): string
    requires order != []
  {
    FormatRow("REVOKE", "FROM", r, order)
  }

  /** A listing of the row's privileges; the sorted one is among them. */
  predicate Lists(order: seq<string>, r: ManifestRow) {
    order != [] && (set p | p in order) == r.privileges
  }

  predicate UpperWord(s: string) {
    IsWord(s) && Upper(s) == s
  }

  predicate PlainChar(c: char) {
    c != ';' && c != '-' && c != '/' && c != '*'
  }

  predicate Plain(s: string) {
    forall i :: 0 <= i < |s| ==> PlainChar(s[i])
  }

  /** Text that neither ends a statement nor opens a comment. */
  predicate Quotable(s: string) {
    Without(s, ';') && CommentFree(s)
  }

  predicate WellFormedRow(r: ManifestRow, shape: Shape) {
    && (forall p :: p in r.privileges ==> UpperWord(p))
    && r.objectType in shape.types
    && (r.objectType == FILE_FORMAT || (UpperWord(r.objectType) && r.objectType != "FILE"))
    && Trimmed(r.objectName) && !IsBareName(r.objectName) && Quotable(r.objectName)
    && IsToken(r.roleName) && Quotable(r.roleName)
  }

  // ----- The print is a spelling

  function MoreOf(words: seq<string>): seq<More> {
    if words == [] then [] else [More("", " ", words[0])] + MoreOf(words[1..])
  }

  function TypeTextOf(objectType: string): TypeText {
    if objectType == FILE_FORMAT then TwoWords("FILE", " ", "FORMAT") else OneWord(objectType)
  }

  function LayoutFor(verb: string, prep: string, r: ManifestRow, order: seq<string>): Layout
    requires order != []
  {
    Layout(verb, " ", order[0], MoreOf(order[1..]), " ", "ON", " ", TypeTextOf(r.objectType),
           " ", r.objectName, " ", prep, " ", "ROLE", " ", r.roleName)
  }

  lemma {:induction false} ListedSpelled(order: seq<string>)
    requires order != []
    ensures Listed(order) == order[0] + SpellMore(MoreOf(order[1..]))
    decreases |order|
  {
    if |order| > 1 {
      var rest := order[1..];
      ListedSpelled(rest);
      var m := More("", " ", rest[0]);
      SpellMoreCons(m, MoreOf(rest[1..]));
      assert MoreOf(rest) == [m] + MoreOf(rest[1..]);
      assert "" + "," + " " + rest[0] + SpellMore(MoreOf(rest[1..])) == ", " + (rest[0] + SpellMore(MoreOf(rest[1..])));
      assert order[0] + ", " + Listed(rest) == order[0] + (", " + Listed(rest));
    } else {
      assert order[1..] == [] && order[0] + "" == order[0];
    }
  }

  lemma {:induction false} ListedWords(words: seq<string>)
    requires forall i :: 0 <= i < |words| ==> IsWord(words[i])
    ensures ValidMore(MoreOf(words)) && WordsOf(MoreOf(words)) == words
  {
    hide IsWord;
    if words != [] {
      ListedWords(words[1..]);
      var m := More("", " ", words[0]);
      assert MoreOf(words)[1..] == MoreOf(words[1..]);
      assert words == [words[0]] + words[1..];
      OneSpace();
    }
  }

  lemma OneSpace()
    ensures IsGap(" ") && Spaces("")
  {
  }

  lemma TypeTextSpelled(objectType: string)
    ensures SpellType(TypeTextOf(objectType)) == objectType
  {
    assert "FILE" + " " + "FORMAT" == FILE_FORMAT;
  }

  lemma FileFormatWords()
    ensures IsWord("FILE") && IsWord("FORMAT") && Upper("FILE") == "FILE" && Upper("FORMAT") == "FORMAT"
  {
  }

  lemma TypeTextValid(r: ManifestRow, shape: Shape)
    requires WellFormedRow(r, shape) && !shape.anyType
    ensures ValidType(TypeTextOf(r.objectType), shape) && NameOfType(TypeTextOf(r.objectType)) == r.objectType
  {
    hide Upper, IsWord, IsGap, Quotable, IsBareName, Trimmed, IsToken;
    OneSpace();
    FileFormatWords();
  }

  lemma FormatIsSpelling(verb: string, prep: string, r: ManifestRow, order: seq<string>)
    requires order != []
    ensures Spell(LayoutFor(verb, prep, r, order)) == FormatRow(verb, prep, r, order)
  {
    hide Listed, SpellMore, MoreOf, SpellType, TypeTextOf;
    ListedSpelled(order);
    TypeTextSpelled(r.objectType);
    var l := LayoutFor(verb, prep, r, order);
    var a := verb + " " + Listed(order);
    assert SpellHead(l) == a + " " + SpellOn(l);
    FormatTail(a, r, prep);
  }

  lemma FormatTail(a: string, r: ManifestRow, prep: string)
    ensures a + " " + ("ON" + " " + r.objectType + " " + r.objectName) + " " + prep + " " + "ROLE" + " " + r.roleName
            == a + " ON " + r.objectType + " " + r.objectName + " " + prep + " ROLE " + r.roleName
  {
    var b := r.objectType + " " + r.objectName;
    assert "ON" + " " + r.objectType + " " + r.objectName == "ON " + b;
    assert a + " " + ("ON " + b) == a + " ON " + b;
    assert a + " ON " + b == a + " ON " + r.objectType + " " + r.objectName;
    var c := a + " ON " + b + " " + prep;
    assert c + " " + "ROLE" + " " == c + " ROLE ";
  }

  lemma RoleWord()
    ensures IsToken("ROLE") && Upper("ROLE") == "ROLE" && Upper("ON") == "ON"
  {
  }

  predicate PlainShape(shape: Shape) {
    !shape.anyType && Upper(shape.verb) == shape.verb && IsToken(shape.prep) && Upper(shape.prep) == shape.prep
  }

  lemma OurShapes()
    ensures PlainShape(GRANT_SHAPE) && PlainShape(REVOKE_SHAPE)
  {
    hide ALLOWED_OBJECT_TYPES;
  }

  lemma OrderedWords(r: ManifestRow, order: seq<string>)
    requires Lists(order, r) && forall p :: p in r.privileges ==> UpperWord(p)
    ensures (forall i :: 0 <= i < |order| ==> IsWord(order[i])) && UpperSet(order) == r.privileges
  {
    hide IsWord, Upper;
    forall i | 0 <= i < |order| ensures IsWord(order[i]) {
      assert order[i] in (set p | p in order);
      assert order[i] in r.privileges && UpperWord(order[i]);
    }
    forall p ensures p in UpperSet(order) <==> p in r.privileges {
      if p in r.privileges {
        assert p in (set q | q in order);
        assert UpperWord(p) && Upper(p) in UpperSet(order);
      }
      if p in UpperSet(order) {
        var q :| q in order && p == Upper(q);
        assert q in (set x | x in order);
        assert q in r.privileges && UpperWord(q);
      }
    }
  }

  lemma FormatValid(shape: Shape, r: ManifestRow, order: seq<string>)
    requires WellFormedRow(r, shape) && Lists(order, r) && PlainShape(shape)
    ensures ValidLayout(LayoutFor(shape.verb, shape.prep, r, order), shape)
    ensures RowOf(FormOf(LayoutFor(shape.verb, shape.prep, r, order))) == r
  {
    hide Upper, IsWord, IsGap, ValidMore, ValidType, MoreOf, WordsOf, NameOfType, TypeTextOf, UpperSet, Quotable,
      IsBareName, Trimmed, IsToken, UpperWord;
    OrderedWords(r, order);
    ListedWords(order[1..]);
    TypeTextValid(r, shape);
    OneSpace();
    RoleWord();
    assert [order[0]] + order[1..] == order;
  }

  /** Parsing a printed row returns the row's form. */
  lemma FormatParses(shape: Shape, r: ManifestRow, order: seq<string>)
    requires WellFormedRow(r, shape) && Lists(order, r) && PlainShape(shape)
    ensures var parsed := ParseForm(FormatRow(shape.verb, shape.prep, r, order), shape);
            parsed.Some? && RowOf(parsed.value) == r && parsed.value.name == r.objectName
  {
    hide WellFormedRow, ParseForm, FormatRow, Spell, ValidLayout, RowOf, MoreOf, TypeTextOf, WordsOf, NameOfType;
    FormatIsSpelling(shape.verb, shape.prep, r, order);
    FormatValid(shape, r, order);
    SpellingParses(LayoutFor(shape.verb, shape.prep, r, order), shape);
  }

  // ----- The print as one statement of a text

  lemma PlainConcat(a: string, b: string)
    requires Plain(a) && Plain(b)
    ensures Plain(a + b)
  {
  }

  lemma PlainQuotable(a: string)
    requires Plain(a)
    ensures Quotable(a)
  {
  }

  lemma PlainWord(word: string)
    requires IsWord(word)
    ensures Plain(word)
  {
  }

  lemma {:induction false} PlainListed(order: seq<string>)
    requires order != [] && forall i :: 0 <= i < |order| ==> IsWord(order[i])
    ensures Plain(Listed(order))
    decreases |order|
  {
    hide IsWord, Plain;
    PlainWord(order[0]);
    if |order| > 1 {
      PlainListed(order[1..]);
      PlainComma();
      PlainConcat(order[0], ", ");
      PlainConcat(order[0] + ", ", Listed(order[1..]));
    }
  }

  lemma PlainComma()
    ensures Plain(", ") && Plain(" ") && Plain(" ON ") && Plain(" ROLE ")
  {
  }

  lemma PlainTypes(r: ManifestRow, shape: Shape)
    requires WellFormedRow(r, shape)
    ensures Plain(r.objectType)
  {
    hide Upper, Quotable, IsBareName, Trimmed, IsToken, IsWord;
    if r.objectType != FILE_FORMAT { PlainWord(r.objectType); }
  }

  lemma AroundSpace(a: string, b: string)
    requires Quotable(a) && Quotable(b)
    requires a == "" || b == "" || a[|a| - 1] == ' ' || b[0] == ' '
    ensures Quotable(a + b)
  {
    hide Without;
    WithoutConcat(a, b);
    CommentFreeConcat(a, b);
  }

  lemma WithoutConcat(a: string, b: string)
    requires Without(a, ';') && Without(b, ';')
    ensures Without(a + b, ';')
  {
  }

  lemma PlainFront(verb: string, r: ManifestRow, order: seq<string>, shape: Shape)
    requires WellFormedRow(r, shape) && Lists(order, r) && Plain(verb)
    ensures Plain(verb + " " + Listed(order) + " ON " + r.objectType + " ")
  {
    hide Plain, Listed, UpperWord, Quotable, IsBareName, Trimmed, IsToken;
    OrderedWords(r, order);
    PlainListed(order);
    PlainTypes(r, shape);
    PlainComma();
    PlainConcat(verb, " ");
    PlainConcat(verb + " ", Listed(order));
    PlainConcat(verb + " " + Listed(order), " ON ");
    PlainConcat(verb + " " + Listed(order) + " ON ", r.objectType);
    PlainConcat(verb + " " + Listed(order) + " ON " + r.objectType, " ");
  }

  lemma FormatQuotable(shape: Shape, r: ManifestRow, order: seq<string>)
    requires WellFormedRow(r, shape) && Lists(order, r) && Plain(shape.verb) && Plain(shape.prep)
    ensures Quotable(FormatRow(shape.verb, shape.prep, r, order))
  {
    hide Plain, Listed, Quotable, UpperWord, IsBareName, IsToken, Lists;
    NotEmpty(order, r);
    var front := shape.verb + " " + Listed(order) + " ON " + r.objectType + " ";
    var middle := " " + shape.prep + " ROLE ";
    PlainFront(shape.verb, r, order, shape);
    PlainComma();
    PlainConcat(" ", shape.prep);
    PlainConcat(" " + shape.prep, " ROLE ");
    PlainQuotable(front);
    PlainQuotable(middle);
    assert front[|front| - 1] == ' ' && middle[0] == ' ' && middle[|middle| - 1] == ' ';
    AroundSpace(front, r.objectName);
    AroundSpace(front + r.objectName, middle);
    assert (front + r.objectName + middle)[|front + r.objectName + middle| - 1] == ' ';
    AroundSpace(front + r.objectName + middle, r.roleName);
    assert front + r.objectName + middle == front + r.objectName + " " + shape.prep + " ROLE ";
  }

  lemma NotEmpty(order: seq<string>, r: ManifestRow)
    requires Lists(order, r)
    ensures order != []
  {
  }

  lemma ShapesPlain()
    ensures Plain(GRANT_SHAPE.verb) && Plain(GRANT_SHAPE.prep) && Plain(REVOKE_SHAPE.verb) && Plain(REVOKE_SHAPE.prep)
  {
    hide ALLOWED_OBJECT_TYPES;
  }

  lemma FormatTrimmed(verb: string, prep: string, r: ManifestRow, order: seq<string>)
    requires order != [] && IsToken(r.roleName) && verb != "" && !IsSpace(verb[0])
    ensures Trimmed(FormatRow(verb, prep, r, order)) && FormatRow(verb, prep, r, order)[0] == verb[0]
  {
    hide Listed, IsSpace;
    var s := FormatRow(verb, prep, r, order);
    assert s[|s| - 1] == r.roleName[|r.roleName| - 1];
    var rest := " " + Listed(order) + " ON " + r.objectType + " " + r.objectName + " " + prep + " ROLE " + r.roleName;
    assert s == verb + rest;
  }

  lemma StripTrimmed(s: string)
    requires Trimmed(s)
    ensures Strip(s) == s
  {
    hide Strip;
    assert "" + s + "" == s;
    StripIs("", s, "");
  }

  lemma StartsElsewhere(s: string, word: string)
    requires s != "" && word != "" && UpperChar(s[0]) != word[0]
    ensures Keyword(s, word) == None
  {
    assert |s| >= |word| ==> Upper(s[..|word|])[0] == UpperChar(s[0]);
  }

  lemma NoUseSchema(s: string)
    requires s != "" && (s[0] == 'G' || s[0] == 'R')
    ensures !IsUseSchema(s)
  {
    hide Keyword, Gap, Upper;
    StartsElsewhere(s, "USE");
  }

  lemma NoGrant(s: string)
    requires s != "" && s[0] == 'R'
    ensures !StartsGrant(s) && ParseForm(s, GRANT_SHAPE).None?
  {
    hide ALLOWED_OBJECT_TYPES, ParseTail, Gap, Privileges, AfterOn, Keyword;
    StartsElsewhere(s, "GRANT ");
    if ParseTail(s, GRANT_SHAPE).Some? {
      BeforeTail(s);
    }
  }

  /** A head can only begin where the statement begins. */
  lemma BeforeTail(s: string)
    requires ParseTail(s, GRANT_SHAPE).Some? && s != "" && s[0] == 'R'
    ensures ParseHead(ParseTail(s, GRANT_SHAPE).value.before, GRANT_SHAPE).None?
  {
    hide ALLOWED_OBJECT_TYPES, ParseTail, Gap, Privileges, AfterOn, Keyword;
    var before := ParseTail(s, GRANT_SHAPE).value.before;
    var prep, gap6, roleWord, gap7 := TailReads(s, GRANT_SHAPE);
    if before == "" {
      NoKeyword("GRANT");
    } else {
      assert before[0] == s[0];
      StartsElsewhere(before, "GRANT");
    }
  }

  lemma NoKeyword(word: string)
    requires word != ""
    ensures Keyword("", word) == None
  {
  }

  lemma GrantPrinted(r: ManifestRow, order: seq<string>)
    requires WellFormedRow(r, GRANT_SHAPE) && Lists(order, r)
    ensures StatementOutcome(FormatGrant(r, order)) == Outcome({r}, {}, GrantProblems(r, FormatGrant(r, order)))
  {
    hide ALLOWED_OBJECT_TYPES, ParseForm, Strip, IsUseSchema, GrantProblems, RowOf, IsBareName, Trimmed, FormatRow,
      Quotable, UpperWord, IsToken;
    var s := FormatGrant(r, order);
    OurShapes();
    FormatTrimmed("GRANT", "TO", r, order);
    StripTrimmed(s);
    NotBlank(s);
    NoUseSchema(s);
    FormatParses(GRANT_SHAPE, r, order);
  }

  lemma NotBlank(s: string)
    requires Trimmed(s)
    ensures s != ""
  {
  }

  lemma RevokePrinted(r: ManifestRow, order: seq<string>)
    requires WellFormedRow(r, REVOKE_SHAPE) && Lists(order, r)
    ensures StatementOutcome(FormatRevoke(r, order)) == Outcome({}, {r}, RevokeProblems(r, FormatRevoke(r, order)))
  {
    hide ALLOWED_OBJECT_TYPES, ParseForm, Strip, IsUseSchema, RevokeProblems, RowOf, IsBareName, Trimmed, FormatRow,
      Quotable, UpperWord, StartsGrant, IsToken;
    var s := FormatRevoke(r, order);
    OurShapes();
    FormatTrimmed("REVOKE", "FROM", r, order);
    StripTrimmed(s);
    NotBlank(s);
    NoUseSchema(s);
    NoGrant(s);
    FormatParses(REVOKE_SHAPE, r, order);
  }

  // ----- Many statements

  /** A row to print as a grant or as a revoke, with the listing of its privileges. */
  datatype Item = GrantItem(row: ManifestRow, order: seq<string>) | RevokeItem(row: ManifestRow, order: seq<string>)

  predicate ValidItem(i: Item) {
    match i
    case GrantItem(r, order) => WellFormedRow(r, GRANT_SHAPE) && Lists(order, r)
    case RevokeItem(r, order) => WellFormedRow(r, REVOKE_SHAPE) && Lists(order, r)
  }

  function TextOf(i: Item): string
    requires i.order != []
  {
    match i
    case GrantItem(r, order) => FormatGrant(r, order)
    case RevokeItem(r, order) => FormatRevoke(r, order)
  }

  predicate AllValid(items: seq<Item>) {
    forall k :: 0 <= k < |items| ==> ValidItem(items[k])
  }

  function Texts(items: seq<Item>): seq<string>
    requires AllValid(items)
  {
    if items == [] then [] else Texts(items[..|items| - 1]) + [TextOf(items[|items| - 1])]
  }

  function ItemOutcome(i: Item): Outcome
    requires i.order != []
  {
    match i
    case GrantItem(r, _) => Outcome({r}, {}, GrantProblems(r, TextOf(i)))
    case RevokeItem(r, _) => Outcome({}, {r}, RevokeProblems(r, TextOf(i)))
  }

  function GrantRows(items: seq<Item>): set<ManifestRow> {
    set i | i in items && i.GrantItem? :: i.row
  }

  function RevokeRows(items: seq<Item>): set<ManifestRow> {
    set i | i in items && i.RevokeItem? :: i.row
  }

  /** The guards' findings on the printed rows, in order. */
  function Findings(items: seq<Item>): seq<Problem>
    requires AllValid(items)
  {
    if items == [] then [] else Findings(items[..|items| - 1]) + ItemOutcome(items[|items| - 1]).problems
  }

  lemma ItemParses(i: Item)
    requires ValidItem(i)
    ensures StatementOutcome(TextOf(i)) == ItemOutcome(i)
  {
    hide StatementOutcome, WellFormedRow, FormatGrant, FormatRevoke, GrantProblems, RevokeProblems;
    match i
    case GrantItem(r, order) => GrantPrinted(r, order);
    case RevokeItem(r, order) => RevokePrinted(r, order);
  }

  lemma ItemQuotable(i: Item)
    requires ValidItem(i)
    ensures Quotable(TextOf(i))
  {
    hide WellFormedRow, FormatRow, Quotable, ALLOWED_OBJECT_TYPES, Plain;
    ShapesPlain();
    match i
    case GrantItem(r, order) => FormatQuotable(GRANT_SHAPE, r, order);
    case RevokeItem(r, order) => FormatQuotable(REVOKE_SHAPE, r, order);
  }

  lemma {:induction false} ItemsParse(items: seq<Item>)
    requires AllValid(items)
    ensures OutcomeOf(Texts(items)) == Outcome(GrantRows(items), RevokeRows(items), Findings(items))
  {
    hide StatementOutcome, ItemOutcome, TextOf, ValidItem, OutcomeOf;
    if items == [] {
      NoOutcome();
    } else {
      var init, last := items[..|items| - 1], items[|items| - 1];
      ItemsParse(init);
      ItemParses(last);
      ItemOrder(last);
      OutcomeAppend(Texts(init), TextOf(last));
      RowsAppend(init, last);
      assert items == init + [last];
    }
  }

  lemma ItemOrder(i: Item)
    requires ValidItem(i)
    ensures i.order != []
  {
  }

  lemma NoOutcome()
    ensures OutcomeOf([]) == NOTHING
  {
  }

  lemma RowsAppend(init: seq<Item>, last: Item)
    requires last.order != []
    ensures GrantRows(init + [last]) == GrantRows(init) + ItemOutcome(last).grants
    ensures RevokeRows(init + [last]) == RevokeRows(init) + ItemOutcome(last).revokes
  {
    hide TextOf, GrantProblems, RevokeProblems;
    assert forall i :: i in init + [last] <==> i in init || i == last;
  }

  lemma {:induction false} TextsQuotable(items: seq<Item>)
    requires AllValid(items)
    ensures |Texts(items)| == |items| && forall k :: 0 <= k < |items| ==> Quotable(Texts(items)[k])
  {
    hide Quotable, TextOf, ValidItem;
    if items != [] {
      TextsQuotable(items[..|items| - 1]);
      ItemQuotable(items[|items| - 1]);
    }
  }

  lemma {:induction false} JoinedCommentFree(texts: seq<string>)
    requires forall k :: 0 <= k < |texts| ==> CommentFree(texts[k])
    ensures CommentFree(Joined(texts, ';'))
  {
    hide CommentFree;
    if |texts| == 0 {
      EmptyCommentFree();
    } else if |texts| > 1 {
      JoinedCommentFree(texts[1..]);
      SemicolonCommentFree(texts[0], Joined(texts[1..], ';'));
    }
  }

  lemma EmptyCommentFree()
    ensures CommentFree("")
  {
  }

  lemma SemicolonCommentFree(a: string, b: string)
    requires CommentFree(a) && CommentFree(b)
    ensures CommentFree(a + [';'] + b)
  {
    hide CommentFree;
    OneCommentFree();
    CommentFreeConcat(a, ";");
    assert (a + ";")[|a + ";"| - 1] == ';';
    CommentFreeConcat(a + ";", b);
  }

  lemma OneCommentFree()
    ensures CommentFree(";")
  {
  }

  /** Any printed rows, joined by semicolons, parse back to exactly those rows, with only the guards' findings. */
  lemma PrintParses(items: seq<Item>)
    requires items != [] && AllValid(items)
    ensures ParseOutcome(Joined(Texts(items), ';')) == Outcome(GrantRows(items), RevokeRows(items), Findings(items))
  {
    hide ValidItem, TextOf, OutcomeOf, Uncomment, Split, Joined, GrantRows, RevokeRows, Findings, Texts, CommentFree,
      Without;
    var texts := Texts(items);
    TextsQuotable(items);
    JoinedCommentFree(texts);
    CommentFreeStays(Joined(texts, ';'));
    JoinedSplit(texts, ';');
    ItemsParse(items);
  }
}
