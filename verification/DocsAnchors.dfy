/** The leaves of the change classifier, against their meaning: status codes, characters, sides of a diff. */
module DocsAnchors {
  import opened Wrappers
  import opened Text
  import opened Splitting
  import opened NameStatus
  import opened DocsOnly

  const HEX_DIGITS := "0123456789abcdef"

  /** The characters of a path component, listed. */
  lemma PathCharExactly(c: char)
    ensures PathChar(c) <==> c in CAPITALS || c in SMALL || c in DIGITS || c in "._-"
  {
    hide CAPITALS, SMALL, DIGITS;
    CapitalListed(c);
    SmallListed(c);
    DigitListed(c);
  }

  /** Walking up or in place is refused; a plain file under docs is accepted. */
  lemma DotComponentsRefused(dots: string, name: string)
    requires (dots == "." || dots == "..") && PathChars(name)
    ensures !IsDocsMarkdownPath("docs/" + dots + "/" + name)
    ensures IsDocsMarkdownPath("docs/" + name) <==> |name| >= 4 && EndsWith(name, ".md")
  {
    hide Split, Joined;
    assert PathChars("docs") && PathChars(dots);
    ComponentsWithout(["docs", dots, name]);
    ComponentsWithout(["docs", name]);
    ThreeParts("docs", dots, name);
    TwoParts("docs", name);
    assert "docs" + "/" == "docs/";
    assert ["docs", dots, name][1] == dots && ["docs", name][1] == name;
  }

  lemma TwoParts(a: string, b: string)
    requires AllWithout([a, b], '/')
    ensures Split(a + "/" + b, '/') == [a, b]
  {
    hide Split;
    JoinedOne(b, '/');
    JoinedCons(a, [b], '/');
    assert [a] + [b] == [a, b] && a + ['/'] + b == a + "/" + b;
    JoinedSplit([a, b], '/');
  }

  lemma ThreeParts(a: string, b: string, c: string)
    requires AllWithout([a, b, c], '/')
    ensures Split(a + "/" + b + "/" + c, '/') == [a, b, c]
  {
    hide Split, Joined;
    JoinedOne(c, '/');
    JoinedCons(b, [c], '/');
    JoinedCons(a, [b, c], '/');
    assert [b] + [c] == [b, c] && [a] + [b, c] == [a, b, c];
    assert a + ['/'] + (b + ['/'] + c) == a + "/" + b + "/" + c;
    JoinedSplit([a, b, c], '/');
  }

  lemma HexAt(c: char)
    ensures c in HEX_DIGITS <==> '0' <= c <= '9' || 'a' <= c <= 'f'
  {
    var code := c as int;
    if '0' <= c <= '9' { assert HEX_DIGITS[code - 48] == c; }
    if 'a' <= c <= 'f' { assert HEX_DIGITS[code - 97 + 10] == c; }
  }

  /** A commit is named by forty small hexadecimal digits. */
  lemma ShaExactly(s: string)
    ensures IsSha(s) <==> |s| == 40 && forall i :: 0 <= i < |s| ==> s[i] in HEX_DIGITS
  {
    hide HEX_DIGITS;
    forall i | 0 <= i < |s| ensures s[i] in HEX_DIGITS <==> '0' <= s[i] <= '9' || 'a' <= s[i] <= 'f' { HexAt(s[i]); }
  }

  /** The statuses of renames and copies: the letter and a similarity from 000 to 999. */
  lemma PairExactly(status: string)
    ensures IsPair(status)
            <==> exists n: nat :: n < 1000 && (status == "R" + FixedWidth(n, 3) || status == "C" + FixedWidth(n, 3))
  {
    hide FixedWidth;
    if IsPair(status) {
      var a, b, c := DigitValue(status[1]), DigitValue(status[2]), DigitValue(status[3]);
      ThreeDigits(a, b, c);
      assert DigitChar(a) == status[1] && DigitChar(b) == status[2] && DigitChar(c) == status[3];
      assert status == [status[0]] + FixedWidth(100 * a + 10 * b + c, 3);
    }
    if n: nat :| n < 1000 && (status == "R" + FixedWidth(n, 3) || status == "C" + FixedWidth(n, 3)) {
      var digits := FixedWidth(n, 3);
      assert status[1] == digits[0] && status[2] == digits[1] && status[3] == digits[2];
    }
  }

  lemma ThreeDigits(a: nat, b: nat, c: nat)
    requires a < 10 && b < 10 && c < 10
    ensures FixedWidth(100 * a + 10 * b + c, 3) == [DigitChar(a), DigitChar(b), DigitChar(c)]
  {
    hide FixedWidth;
    NextDigit(0, a, 0);
    NextDigit(a, b, 1);
    NextDigit(10 * a + b, c, 2);
    NoDigits();
  }

  lemma NextDigit(n: nat, d: nat, w: nat)
    requires d < 10
    ensures FixedWidth(10 * n + d, w + 1) == FixedWidth(n, w) + [DigitChar(d)]
  {
    assert (10 * n + d) / 10 == n && (10 * n + d) % 10 == d;
  }

  lemma NoDigits()
    ensures FixedWidth(0, 0) == ""
  {
  }

  /**
   * Whatever the status, the old path is regular in the merge base unless the file is new, and the new path is
   * regular in the head unless the file is gone.
   */
  lemma SidesExactly(e: Entry, git: Git, mergeBase: string, head: string)
    requires WellFormed(e)
    ensures RegularOnEachSide(e, git, mergeBase, head)
            <==> && (e.status != "A" ==> RegularAt(git, mergeBase, e.paths[0]))
                 && (e.status != "D" ==> RegularAt(git, head, e.paths[|e.paths| - 1]))
  {
    hide RegularAt;
  }

  /** The paths of a docs-only diff: none that it names, on either side, is anything but a documentation file. */
  lemma OnlyDocsPaths(git: Git, mergeBase: string, head: string, entries: seq<Entry>, k: nat, i: nat)
    requires OnlyDocs(git, mergeBase, head) && AllWellFormed(entries) && entries != []
    requires git.nameStatus == Some(Print(entries)) && k < |entries| && i < |entries[k].paths|
    ensures IsDocsMarkdownPath(entries[k].paths[i])
    ensures RegularAt(git, mergeBase, entries[k].paths[i]) || RegularAt(git, head, entries[k].paths[i])
  {
    hide RegularAt, IsDocsMarkdownPath, Print, AllWellFormed, WellFormed, RegularOnEachSide;
    var named :| git.nameStatus == Some(Print(named)) && named != [] && AllWellFormed(named)
      && forall j :: 0 <= j < |named| ==> DocsEntry(named[j], git, mergeBase, head);
    ParseInvertsPrint(git.nameStatus.value, entries);
    ParseInvertsPrint(git.nameStatus.value, named);
    assert named == entries && DocsEntry(entries[k], git, mergeBase, head);
    SidesExactly(entries[k], git, mergeBase, head);
    PathCount(entries[k]);
  }

  lemma PathCount(e: Entry)
    requires WellFormed(e)
    ensures |e.paths| == 1 ==> e.status == "A" || e.status == "M" || e.status == "D"
    ensures |e.paths| == 1 || (|e.paths| == 2 && e.status != "A" && e.status != "D")
  {
  }
}
