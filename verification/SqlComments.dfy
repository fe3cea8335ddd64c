/** Removing SQL comments, and where that is invisible. */
module SqlComments {
  import opened Wrappers
  import opened SqlText

  predicate StartsWith(s: string, prefix: string) {
    |s| >= |prefix| && s[..|prefix|] == prefix
  }

  predicate NotNewline(c: char) {
    c != '\n'
  }

  /** The position after a line comment's text, including its newline if it has one. */
  function LineEnd(s: string): (k: nat)
    ensures k <= |s|
  {
    var k := Lead(NotNewline, s);
    if k < |s| then k + 1 else k
  }

  /** The position after the first `*` + `/`, if any. */
  function BlockEnd(s: string): (k: Option<nat>)
    ensures k.Some? ==> 2 <= k.value <= |s|
  {
    if |s| < 2 then None
    else if s[0] == '*' && s[1] == '/' then Some(2)
    else if BlockEnd(s[1..]).Some? then Some(BlockEnd(s[1..]).value + 1)
    else None
  }

  /** The length of the comment that a text starts with, if it starts with one. */
  function CommentLength(s: string): (k: Option<nat>)
    ensures k.Some? ==> 2 <= k.value <= |s|
  {
    if StartsWith(s, "--") then Some(2 + LineEnd(s[2..]))
    else if StartsWith(s, "/*") && BlockEnd(s[2..]).Some? then Some(2 + BlockEnd(s[2..]).value)
    else None
  }

  /** The text without its comments, found from left to right. */
  function Uncomment(s: string): string
    decreases |s|
  {
    if s == "" then "" else
      match CommentLength(s)
      case Some(k) => Uncomment(s[k..])
      case None => [s[0]] + Uncomment(s[1..])
  }

  /** The text ends outside every comment, and no comment can begin across its end. */
  predicate Complete(s: string)
    decreases |s|
  {
    if s == "" then true
    else if StartsWith(s, "--") then LineClosed(s[2..]) && Complete(s[2 + LineEnd(s[2..])..])
    else if StartsWith(s, "/*") then BlockEnd(s[2..]).Some? && Complete(s[2 + BlockEnd(s[2..]).value..])
    else if |s| == 1 then s[0] != '-' && s[0] != '/'
    else Complete(s[1..])
  }

  predicate LineClosed(s: string) {
    Lead(NotNewline, s) < |s|
  }

  lemma {:induction false} BlockEndStays(s: string, t: string)
    requires BlockEnd(s).Some?
    ensures BlockEnd(s + t) == BlockEnd(s)
  {
    if !(s[0] == '*' && s[1] == '/') {
      assert (s + t)[1..] == s[1..] + t;
      BlockEndStays(s[1..], t);
    }
  }

  lemma LineEndStays(s: string, t: string)
    requires LineClosed(s)
    ensures LineEnd(s + t) == LineEnd(s)
  {
    var k := Lead(NotNewline, s);
    assert s + t == s[..k] + (s[k..] + t);
    LeadIs(NotNewline, s[..k], s[k..] + t);
  }

  lemma LineStays(s: string, t: string)
    requires StartsWith(s, "--") && LineClosed(s[2..])
    ensures CommentLength(s + t) == CommentLength(s) == Some(2 + LineEnd(s[2..]))
  {
    assert (s + t)[2..] == s[2..] + t && (s + t)[..2] == s[..2];
    LineEndStays(s[2..], t);
  }

  lemma BlockStays(s: string, t: string)
    requires StartsWith(s, "/*") && BlockEnd(s[2..]).Some?
    ensures CommentLength(s + t) == CommentLength(s) == Some(2 + BlockEnd(s[2..]).value)
  {
    assert (s + t)[2..] == s[2..] + t && (s + t)[..2] == s[..2];
    BlockEndStays(s[2..], t);
  }

  lemma CodeStays(s: string, t: string)
    requires s != "" && !StartsWith(s, "--") && !StartsWith(s, "/*") && (|s| == 1 ==> s[0] != '-' && s[0] != '/')
    ensures CommentLength(s + t) == None == CommentLength(s)
  {
    assert |s| >= 2 ==> (s + t)[..2] == s[..2];
    assert (s + t)[0] == s[0];
  }

  lemma UncommentSkips(s: string, k: nat)
    requires s != "" && CommentLength(s) == Some(k)
    ensures Uncomment(s) == Uncomment(s[k..])
  {
  }

  lemma UncommentKeeps(s: string)
    requires s != "" && CommentLength(s).None?
    ensures Uncomment(s) == [s[0]] + Uncomment(s[1..])
  {
  }

  lemma DropInside(s: string, t: string, k: nat)
    requires k <= |s|
    ensures (s + t)[k..] == s[k..] + t
  {
  }

  /** Whatever follows a complete text, the two are uncommented separately. */
  lemma {:induction false} UncommentSplits(s: string, t: string)
    requires Complete(s)
    ensures Uncomment(s + t) == Uncomment(s) + Uncomment(t)
    decreases |s|
  {
    hide CommentLength, LineEnd, BlockEnd, Uncomment, StartsWith, LineClosed;
    if s == "" {
      assert s + t == t;
      UncommentNothing();
    } else if StartsWith(s, "--") || StartsWith(s, "/*") {
      if StartsWith(s, "--") { LineStays(s, t); } else { BlockStays(s, t); }
      var k := CommentLength(s).value;
      UncommentSkips(s, k);
      UncommentSkips(s + t, k);
      DropInside(s, t, k);
      UncommentSplits(s[k..], t);
    } else {
      CodeStays(s, t);
      UncommentKeeps(s);
      UncommentKeeps(s + t);
      DropInside(s, t, 1);
      if |s| > 1 { UncommentSplits(s[1..], t); } else { UncommentNothing(); assert s[1..] == ""; assert "" + t == t; }
      assert [s[0]] + (Uncomment(s[1..]) + Uncomment(t)) == [s[0]] + Uncomment(s[1..]) + Uncomment(t);
    }
  }

  lemma UncommentNothing()
    ensures Uncomment("") == ""
  {
  }

  predicate NoClose(text: string) {
    forall i :: 0 <= i < |text| - 1 ==> !(text[i] == '*' && text[i + 1] == '/')
  }

  /** A line comment with its newline, or a block comment. */
  ghost predicate IsComment(c: string) {
    || (exists text :: c == "--" + text + "\n" && forall i :: 0 <= i < |text| ==> text[i] != '\n')
    || (exists text :: c == "/*" + text + "*/" && NoClose(text))
  }

  lemma LineCommentVanishes(text: string)
    requires forall i :: 0 <= i < |text| ==> text[i] != '\n'
    ensures Complete("--" + text + "\n") && Uncomment("--" + text + "\n") == ""
  {
    hide Complete, Uncomment;
    var c := "--" + text + "\n";
    assert c[2..] == text + "\n" && c[..2] == "--";
    LeadIs(NotNewline, text, "\n");
    assert c[|c|..] == "";
    LineVanishes(c);
  }

  lemma LineVanishes(c: string)
    requires StartsWith(c, "--") && LineClosed(c[2..]) && LineEnd(c[2..]) == |c| - 2
    ensures Complete(c) && Uncomment(c) == ""
  {
    hide LineEnd, LineClosed;
    assert c[|c|..] == "";
    UncommentNothing();
  }

  lemma {:induction false} FirstClose(text: string)
    requires NoClose(text)
    ensures BlockEnd(text + "*/") == Some(|text| + 2)
  {
    if text == "" {
      assert text + "*/" == "*/";
    } else {
      assert (text + "*/")[1..] == text[1..] + "*/";
      FirstClose(text[1..]);
      assert (text + "*/")[1] == if |text| > 1 then text[1] else '*';
    }
  }

  lemma BlockCommentVanishes(text: string)
    requires NoClose(text)
    ensures Complete("/*" + text + "*/") && Uncomment("/*" + text + "*/") == ""
  {
    hide Complete, Uncomment;
    var c := "/*" + text + "*/";
    assert c[2..] == text + "*/" && c[..2] == "/*";
    FirstClose(text);
    BlockVanishes(c);
  }

  lemma BlockVanishes(c: string)
    requires StartsWith(c, "/*") && BlockEnd(c[2..]) == Some((|c| - 2) as nat)
    ensures Complete(c) && Uncomment(c) == ""
  {
    hide BlockEnd;
    assert c[|c|..] == "";
    UncommentNothing();
  }

  /** A comment put anywhere outside other comments changes nothing. */
  lemma CommentInvisible(before: string, comment: string, after: string)
    requires Complete(before) && IsComment(comment)
    ensures Uncomment(before + comment + after) == Uncomment(before + after)
  {
    hide Uncomment, Complete;
    if text :| comment == "--" + text + "\n" && forall i :: 0 <= i < |text| ==> text[i] != '\n' {
      LineCommentVanishes(text);
    } else {
      var text :| comment == "/*" + text + "*/" && NoClose(text);
      BlockCommentVanishes(text);
    }
    UncommentSplits(before, comment + after);
    UncommentSplits(comment, after);
    UncommentSplits(before, after);
    assert before + comment + after == before + (comment + after);
    assert "" + Uncomment(after) == Uncomment(after);
  }

  // ----- Text without comments

  predicate Opens(a: char, b: char) {
    (a == '-' && b == '-') || (a == '/' && b == '*')
  }

  /** No two neighbouring characters open a comment. */
  predicate CommentFree(s: string) {
    forall i :: 0 <= i < |s| - 1 ==> !Opens(s[i], s[i + 1])
  }

  lemma {:induction false} CommentFreeStays(s: string)
    requires CommentFree(s)
    ensures Uncomment(s) == s
  {
    if s != "" {
      assert !StartsWith(s, "--") by { assert |s| >= 2 ==> s[..2][0] == s[0] && s[..2][1] == s[1]; }
      assert !StartsWith(s, "/*") by { assert |s| >= 2 ==> s[..2][0] == s[0] && s[..2][1] == s[1]; }
      forall i | 0 <= i < |s[1..]| - 1 ensures !Opens(s[1..][i], s[1..][i + 1]) {
        assert !Opens(s[i + 1], s[i + 2]);
      }
      CommentFreeStays(s[1..]);
    }
  }

  lemma CommentFreeConcat(a: string, b: string)
    requires CommentFree(a) && CommentFree(b)
    requires a == "" || b == "" || !Opens(a[|a| - 1], b[0])
    ensures CommentFree(a + b)
  {
    forall i | 0 <= i < |a + b| - 1 ensures !Opens((a + b)[i], (a + b)[i + 1]) {
      if i >= |a| { assert (a + b)[i] == b[i - |a|] && (a + b)[i + 1] == b[i + 1 - |a|]; }
    }
  }
}
