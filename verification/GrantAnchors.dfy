/** The small deciders of the manifest parser and of the role audits, against conditions written out. */
module GrantAnchors {
  import opened Wrappers
  import opened Sequences
  import opened Splitting
  import opened SqlText
  import opened Text
  import opened GrantGrammar
  import opened GrantManifest

  // ----- Letters

  /** A small letter becomes the capital at its place in the alphabet; everything else stays. */
  lemma UpperCharExact(c: char)
    ensures forall k :: 0 <= k < |SMALL| == |CAPITALS| && c == SMALL[k] ==> UpperChar(c) == CAPITALS[k]
    ensures c !in SMALL ==> UpperChar(c) == c
  {
    hide CAPITALS, SMALL;
    SmallListed(c);
    AlphabetCodes();
  }

  /** White space by code, as Python strips it. */
  lemma SpaceExactly(c: char)
    ensures IsSpace(c) <==> 9 <= c as int <= 13 || 28 <= c as int <= 32
  {
  }

  // ----- The statement parser's deciders

  /** What is left out of the manifest without a finding is empty, or selects the application schema. */
  ghost predicate SelectsSchema(statement: string) {
    exists use, gap1, schema, gap2, app ::
      && statement == use + gap1 + schema + gap2 + app && IsGap(gap1) && IsGap(gap2)
      && Upper(use) == "USE" && Upper(schema) == "SCHEMA" && Upper(app) == "APP"
  }

  lemma UseSchemaSpelled(use: string, gap1: string, schema: string, gap2: string, app: string)
    requires IsGap(gap1) && IsGap(gap2) && Upper(use) == "USE" && Upper(schema) == "SCHEMA" && Upper(app) == "APP"
    ensures IsUseSchema(use + gap1 + schema + gap2 + app)
  {
    hide Keyword, Gap, IsGap;
    var s2 := schema + (gap2 + app);
    assert use + gap1 + schema + gap2 + app == use + (gap1 + s2);
    KeywordIs(use, "USE", gap1 + s2);
    FirstOf(schema, gap2 + app, "SCHEMA");
    GapThen(gap1, s2);
    KeywordIs(schema, "SCHEMA", gap2 + app);
    FirstOf(app, "", "APP");
    assert app + "" == app;
    GapThen(gap2, app);
  }

  /** A text that starts with a word starts with no space. */
  lemma FirstOf(word: string, rest: string, upper: string)
    requires Upper(word) == upper && upper != "" && !IsSpace(upper[0])
    ensures word + rest != "" && !IsSpace((word + rest)[0])
  {
    assert Upper(word)[0] == UpperChar(word[0]);
  }

  lemma IsUseSchemaExactly(statement: string)
    ensures IsUseSchema(statement) <==> SelectsSchema(statement)
  {
    hide Keyword, Gap, IsGap, Upper;
    if IsUseSchema(statement) {
      KeywordReads(statement, "USE");
      var s1 := Keyword(statement, "USE").value;
      var gap1 := GapReads(s1);
      var s2 := Gap(s1).value;
      KeywordReads(s2, "SCHEMA");
      var s3 := Keyword(s2, "SCHEMA").value;
      var gap2 := GapReads(s3);
      assert statement == statement[..3] + gap1 + s2[..6] + gap2 + Gap(s3).value;
    }
    if SelectsSchema(statement) {
      var use, gap1, schema, gap2, app :|
        && statement == use + gap1 + schema + gap2 + app && IsGap(gap1) && IsGap(gap2)
        && Upper(use) == "USE" && Upper(schema) == "SCHEMA" && Upper(app) == "APP";
      UseSchemaSpelled(use, gap1, schema, gap2, app);
    }
  }

  /** A statement is skipped, without rows and without findings, exactly when it is blank or selects the schema. */
  lemma SkippedExactly(raw: string)
    ensures StatementOutcome(raw) == NOTHING <==> Strip(raw) == "" || SelectsSchema(Strip(raw))
  {
    hide ParseForm, IsUseSchema, SelectsSchema, StartsGrant, StartsRevoke, IsBareName, Strip, GrantProblems,
      RevokeProblems;
    IsUseSchemaExactly(Strip(raw));
  }

  /** A name that begins with a word, a gap and more text may be the rest of an object type. */
  lemma BareNameExactly(name: string)
    ensures IsBareName(name)
            <==> exists word, gap, rest ::
                   name == word + gap + rest && IsWord(word) && IsGap(gap) && rest != "" && !IsSpace(rest[0])
  {
    hide Gap, Word, IsGap, IsWord;
    if IsBareName(name) {
      WordReads(name);
      var (word, after) := Word(name).value;
      var gap := GapReads(after);
      assert name == word + gap + Gap(after).value;
    }
    if word, gap, rest :| name == word + gap + rest && IsWord(word) && IsGap(gap) && rest != "" && !IsSpace(rest[0]) {
      assert name == word + (gap + rest);
      SpaceIsNoLetter(gap, rest);
      WordOf(word, gap + rest);
      GapThen(gap, rest);
    }
  }

  lemma SpaceIsNoLetter(gap: string, rest: string)
    requires IsGap(gap)
    ensures gap + rest != "" && !IsLetter((gap + rest)[0])
  {
  }

  lemma WordOf(word: string, rest: string)
    requires IsWord(word) && rest != "" && !IsLetter(rest[0])
    ensures Word(word + rest) == Some((word, rest))
  {
    WordIs(word, rest);
  }

  /** The guards on a grant: its role, and the one privilege set that three object types allow. */
  lemma GrantGuards(r: ManifestRow, statement: string)
    ensures forall p :: p in GrantProblems(r, statement)
                        <==> || (p == UnauthorizedGrantee(statement)
                                 && r.roleName != "PUBLIC_WEB" && r.roleName != "ROASTPILOT_AGENT")
                             || (p == ProcedurePrivilege(statement)
                                 && r.objectType == "PROCEDURE" && r.privileges != {"USAGE"})
                             || (p == FileFormatPrivilege(statement)
                                 && r.objectType == "FILE FORMAT" && r.privileges != {"USAGE"})
                             || (p == StagePrivileges(statement)
                                 && r.objectType == "STAGE" && r.privileges != {"READ", "WRITE"})
  {
  }

  /** The guards on a revoke. */
  lemma RevokeGuards(r: ManifestRow, statement: string)
    ensures forall p :: p in RevokeProblems(r, statement)
                        <==> || (p == UnauthorizedGrantee(statement)
                                 && r.roleName != "PUBLIC_WEB" && r.roleName != "ROASTPILOT_AGENT")
                             || (p == RevokePrivileges(statement)
                                 && r.privileges != {"INSERT", "UPDATE", "DELETE"})
  {
  }

  lemma LayoutVerb(l: Layout, shape: Shape)
    requires ValidLayout(l, shape)
    ensures Keyword(Spell(l), shape.verb).Some?
  {
    hide Keyword, ValidMore, ValidType, ValidTail, Upper, IsToken, IsGap, SpellOn, SpellMore;
    var s := Spell(l);
    assert s[..|l.verb|] == l.verb;
    assert s == l.verb + s[|l.verb|..];
    KeywordIs(l.verb, shape.verb, s[|l.verb|..]);
  }

  lemma NamelessVerb(n: Nameless, shape: Shape)
    requires ValidNameless(n, shape)
    ensures Keyword(SpellNameless(n), shape.verb).Some?
  {
    hide Keyword, ValidMore, ValidType, Upper, IsToken, IsGap, SpellType, SpellMore;
    var s := SpellNameless(n);
    assert s[..|n.head.verb|] == n.head.verb;
    assert s == n.head.verb + s[|n.head.verb|..];
    KeywordIs(n.head.verb, shape.verb, s[|n.head.verb|..]);
  }

  /** What spells a statement begins with the shape's verb. */
  lemma SpelledVerb(s: string, shape: Shape, f: Form)
    requires Spelled(s, shape, f) || SpelledNameless(s, shape, f)
    ensures Keyword(s, shape.verb).Some?
  {
    hide Keyword, ValidLayout, ValidNameless, Spell, SpellNameless, FormOf, NamelessForm;
    if Spelled(s, shape, f) {
      var l :| ValidLayout(l, shape) && s == Spell(l) && f == FormOf(l);
      LayoutVerb(l, shape);
    } else {
      var n :| ValidNameless(n, shape) && |n.gap5| >= 3 && s == SpellNameless(n) && f == NamelessForm(n);
      NamelessVerb(n, shape);
    }
  }

  lemma NotSkipped(s: string, verb: string)
    requires Keyword(s, verb).Some? && verb != "" && verb[0] != 'U'
    ensures s != "" && !IsUseSchema(s)
  {
    assert Upper(s[..|verb|])[0] == UpperChar(s[0]);
  }

  /** The form a statement spells, and the manifest row it stands for. */
  ghost predicate Records(s: string, shape: Shape, f: Form, r: ManifestRow) {
    && (Spelled(s, shape, f) || SpelledNameless(s, shape, f)) && !IsBareName(f.name)
    && r.objectType == f.typeName && r.objectName == f.name && r.roleName == f.role
    && forall p :: p in r.privileges <==> exists q :: q in f.privileges && p == Upper(q)
  }

  lemma RowOfExact(f: Form, r: ManifestRow)
    ensures r == RowOf(f)
            <==> && r.objectType == f.typeName && r.objectName == f.name && r.roleName == f.role
                 && forall p :: p in r.privileges <==> exists q :: q in f.privileges && p == Upper(q)
  {
    hide Upper;
    assert forall p :: p in UpperSet(f.privileges) <==> exists q :: q in f.privileges && p == Upper(q);
    if forall p :: p in r.privileges <==> exists q :: q in f.privileges && p == Upper(q) {
      assert r.privileges == UpperSet(f.privileges);
    }
  }

  /** A grant is recorded exactly when the statement spells it and its name does not read on as an object type. */
  lemma GrantRecordedExactly(raw: string, r: ManifestRow)
    ensures r in StatementOutcome(raw).grants <==> exists f :: Records(Strip(raw), GRANT_SHAPE, f, r)
  {
    hide ParseForm, IsUseSchema, StartsGrant, StartsRevoke, IsBareName, Strip, GrantProblems, RevokeProblems, Spelled,
      SpelledNameless, RowOf, Upper, Keyword;
    var s := Strip(raw);
    forall f ensures ParseForm(s, GRANT_SHAPE) == Some(f) && !IsBareName(f.name) && r == RowOf(f)
                     <==> Records(s, GRANT_SHAPE, f, r)
    {
      AcceptedExactly(s, GRANT_SHAPE, f);
      RowOfExact(f, r);
    }
    if ParseForm(s, GRANT_SHAPE).Some? {
      var f := ParseForm(s, GRANT_SHAPE).value;
      AcceptedExactly(s, GRANT_SHAPE, f);
      SpelledVerb(s, GRANT_SHAPE, f);
      NotSkipped(s, "GRANT");
      assert Records(s, GRANT_SHAPE, f, r) <==> !IsBareName(f.name) && r == RowOf(f);
    }
  }

  lemma NoGrantVerb(s: string)
    requires Keyword(s, "REVOKE").Some?
    ensures s != "" && !IsUseSchema(s) && !StartsGrant(s) && Keyword(s, "GRANT").None?
  {
    assert Upper(s[..6])[0] == UpperChar(s[0]);
  }

  /** The same for revokes. */
  lemma RevokeRecordedExactly(raw: string, r: ManifestRow)
    ensures r in StatementOutcome(raw).revokes <==> exists f :: Records(Strip(raw), REVOKE_SHAPE, f, r)
  {
    hide ParseForm, IsUseSchema, StartsGrant, StartsRevoke, IsBareName, Strip, GrantProblems, RevokeProblems, Spelled,
      SpelledNameless, RowOf, Upper, Keyword;
    var s := Strip(raw);
    forall f ensures ParseForm(s, REVOKE_SHAPE) == Some(f) && !IsBareName(f.name) && r == RowOf(f)
                     <==> Records(s, REVOKE_SHAPE, f, r)
    {
      AcceptedExactly(s, REVOKE_SHAPE, f);
      RowOfExact(f, r);
    }
    if ParseForm(s, REVOKE_SHAPE).Some? {
      var f := ParseForm(s, REVOKE_SHAPE).value;
      AcceptedExactly(s, REVOKE_SHAPE, f);
      SpelledVerb(s, REVOKE_SHAPE, f);
      NoGrantVerb(s);
      NotAGrant(s);
      assert Records(s, REVOKE_SHAPE, f, r) <==> !IsBareName(f.name) && r == RowOf(f);
    }
  }

  lemma NotAGrant(s: string)
    requires Keyword(s, "GRANT").None?
    ensures ParseForm(s, GRANT_SHAPE).None?
  {
    hide ParseForm, Keyword, Spelled, SpelledNameless;
    if ParseForm(s, GRANT_SHAPE).Some? {
      var f := ParseForm(s, GRANT_SHAPE).value;
      AcceptedExactly(s, GRANT_SHAPE, f);
      SpelledVerb(s, GRANT_SHAPE, f);
      assert false;
    }
  }

  // ----- The types of a statement

  /** A grant names one of seven one-word types, or FILE FORMAT in two words. */
  lemma GrantTypesExactly(t: TypeText)
    ensures ValidType(t, GRANT_SHAPE)
            <==> match t
                 case OneWord(word) =>
                   IsWord(word)
                   && Upper(word) in {"DATABASE", "SCHEMA", "WAREHOUSE", "VIEW", "TABLE", "STAGE", "PROCEDURE"}
                 case TwoWords(first, gap, second) =>
                   IsWord(first) && IsGap(gap) && IsWord(second) && Upper(first) == "FILE" && Upper(second) == "FORMAT"
  {
    hide Upper, IsGap;
    if t.OneWord? && Upper(t.word) == "FILE FORMAT" { SpaceInFileFormat(t.word); }
  }

  lemma SpaceInFileFormat(word: string)
    requires Upper(word) == "FILE FORMAT"
    ensures !IsWord(word)
  {
    assert Upper(word)[4] == UpperChar(word[4]);
  }

  /** A revoke names a table. */
  lemma RevokeTypesExactly(t: TypeText)
    ensures ValidType(t, REVOKE_SHAPE) <==> t.OneWord? && IsWord(t.word) && Upper(t.word) == "TABLE"
  {
    hide Upper, IsWord;
  }

  // ----- Findings on a statement that is not recorded

  ghost predicate Spells(s: string, shape: Shape) {
    exists f :: Spelled(s, shape, f) || SpelledNameless(s, shape, f)
  }

  lemma SpellsExactly(s: string, shape: Shape)
    ensures ParseForm(s, shape).Some? <==> Spells(s, shape)
  {
    hide ParseForm, Spelled, SpelledNameless;
    forall f ensures ParseForm(s, shape) == Some(f) <==> Spelled(s, shape, f) || SpelledNameless(s, shape, f) {
      AcceptedExactly(s, shape, f);
    }
    if ParseForm(s, shape).Some? { assert ParseForm(s, shape) == Some(ParseForm(s, shape).value); }
  }

  /** The finding on a statement that is neither skipped nor of one of the two forms. */
  lemma FindingExactly(raw: string)
    requires Strip(raw) != "" && !SelectsSchema(Strip(raw))
    requires !Spells(Strip(raw), GRANT_SHAPE) && !Spells(Strip(raw), REVOKE_SHAPE)
    ensures var s := Strip(raw);
            var (grant, revoke) := (StartsWithGrant(s), StartsWithRevoke(s));
            StatementOutcome(raw).problems
            == if (grant && Spells(s, ANY_GRANT)) || (!grant && revoke && Spells(s, ANY_REVOKE))
               then [UnrecognizedObjectType(s)]
               else if !grant && revoke then [UnrecognizedRevoke(s)]
               else [UnrecognizedStatement(s)]
  {
    hide ParseForm, IsUseSchema, SelectsSchema, StartsGrant, StartsRevoke, Strip, Spells, StartsWithGrant,
      StartsWithRevoke;
    var s := Strip(raw);
    IsUseSchemaExactly(s);
    SpellsExactly(s, GRANT_SHAPE);
    SpellsExactly(s, REVOKE_SHAPE);
    SpellsExactly(s, ANY_GRANT);
    SpellsExactly(s, ANY_REVOKE);
    StartsExactly(s);
  }

  /** The word and one space, in any case. */
  predicate StartsWithGrant(s: string) {
    |s| >= 6 && Upper(s[..6]) == "GRANT "
  }

  /** The word in any case, not continued by a letter, a digit or an underscore. */
  predicate StartsWithRevoke(s: string) {
    && |s| >= 6 && Upper(s[..6]) == "REVOKE"
    && (|s| > 6 ==> s[6] !in CAPITALS && s[6] !in SMALL && s[6] !in DIGITS && s[6] != '_')
  }

  lemma StartsExactly(s: string)
    ensures StartsGrant(s) <==> StartsWithGrant(s)
    ensures StartsRevoke(s) <==> StartsWithRevoke(s)
  {
    hide CAPITALS, SMALL, DIGITS, Upper;
    if |s| > 6 {
      CapitalListed(s[6]);
      SmallListed(s[6]);
      DigitListed(s[6]);
    }
  }

  // ----- The report

  lemma Mapped(rows: seq<ManifestRow>, f: ManifestRow -> Violation, r: ManifestRow)
    requires forall a, b :: f(a) == f(b) ==> a == b
    ensures f(r) in Map(f, rows) <==> r in rows
  {
    if f(r) in Map(f, rows) {
      var i :| 0 <= i < |rows| && Map(f, rows)[i] == f(r);
      assert rows[i] == r;
    }
    if r in rows {
      var i :| 0 <= i < |rows| && rows[i] == r;
      assert Map(f, rows)[i] == f(r);
    }
  }

  /** What is missing is expected and was not parsed; what is extra was parsed and is not expected. */
  lemma ReportExactly(parsed: Outcome, grants: set<ManifestRow>, revokes: set<ManifestRow>,
                      byGrant: set<ManifestRow> -> seq<ManifestRow>, byRevoke: set<ManifestRow> -> seq<ManifestRow>,
                      r: ManifestRow)
    requires Sorts(byGrant) && Sorts(byRevoke)
    ensures var report := Report(parsed, grants, revokes, byGrant, byRevoke);
            && (MissingGrant(r) in report <==> r in grants && r !in parsed.grants)
            && (ExtraGrant(r) in report <==> r in parsed.grants && r !in grants)
            && (MissingRevoke(r) in report <==> r in revokes && r !in parsed.revokes)
            && (ExtraRevoke(r) in report <==> r in parsed.revokes && r !in revokes)
  {
    Mapped(byGrant(grants - parsed.grants), (x: ManifestRow) => MissingGrant(x), r);
    Mapped(byGrant(parsed.grants - grants), (x: ManifestRow) => ExtraGrant(x), r);
    Mapped(byRevoke(revokes - parsed.revokes), (x: ManifestRow) => MissingRevoke(x), r);
    Mapped(byRevoke(parsed.revokes - revokes), (x: ManifestRow) => ExtraRevoke(x), r);
  }
}
