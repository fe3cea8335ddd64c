/** Splitting text at a separator, and its inverse. */
module Splitting {
  import opened Sequences

  predicate Without(s: string, sep: char) {
    forall i :: 0 <= i < |s| ==> s[i] != sep
  }

  predicate AllWithout(fields: seq<string>, sep: char) {
    forall i :: 0 <= i < |fields| ==> Without(fields[i], sep)
  }

  /** How many leading characters differ from the separator. */
  function HeadLength(s: string, sep: char): (k: nat)
    ensures k <= |s| && Without(s[..k], sep) && (k < |s| ==> s[k] == sep)
  {
    if s == "" || s[0] == sep then 0 else
      var k := HeadLength(s[1..], sep);
      assert forall i :: 0 < i <= k ==> s[i] == s[1..][i - 1];
      k + 1
  }

  /** `s.split(sep)`: never empty, and "" splits into one empty field. */
  function Split(s: string, sep: char): (fields: seq<string>)
    ensures fields != []
    decreases |s|
  {
    var k := HeadLength(s, sep);
    if k == |s| then [s] else [s[..k]] + Split(s[k + 1..], sep)
  }

  /** Every field followed by the separator. */
  function Terminated(fields: seq<string>, sep: char): string {
    if fields == [] then "" else fields[0] + [sep] + Terminated(fields[1..], sep)
  }

  /** Fields with the separator between them. */
  function Joined(fields: seq<string>, sep: char): string {
    if fields == [] then "" else if |fields| == 1 then fields[0] else fields[0] + [sep] + Joined(fields[1..], sep)
  }

  lemma {:induction false} SplitWithout(s: string, sep: char)
    ensures AllWithout(Split(s, sep), sep)
    decreases |s|
  {
    var k := HeadLength(s, sep);
    if k < |s| { SplitWithout(s[k + 1..], sep); }
  }

  lemma JoinedOne(field: string, sep: char)
    ensures Joined([field], sep) == field
  {
  }

  lemma JoinedCons(field: string, rest: seq<string>, sep: char)
    requires rest != []
    ensures Joined([field] + rest, sep) == field + [sep] + Joined(rest, sep)
  {
    assert ([field] + rest)[1..] == rest;
  }

  lemma {:induction false} SplitJoined(s: string, sep: char)
    ensures Joined(Split(s, sep), sep) == s
    decreases |s|
  {
    hide Joined, HeadLength;
    JoinedOne(s, sep);
    var k := HeadLength(s, sep);
    if k < |s| {
      var rest := s[k + 1..];
      SplitJoined(rest, sep);
      JoinedCons(s[..k], Split(rest, sep), sep);
      assert s == s[..k] + [sep] + rest;
    }
  }

  lemma HeadOf(field: string, sep: char, rest: string)
    requires Without(field, sep)
    ensures HeadLength(field + [sep] + rest, sep) == |field|
  {
    var s := field + [sep] + rest;
    var k := HeadLength(s, sep);
    assert s[|field|] == sep;
    assert forall i :: 0 <= i < k ==> s[..k][i] == s[i];
    assert forall i :: 0 <= i < |field| ==> s[i] == field[i];
  }

  lemma HeadOfLast(field: string, sep: char)
    requires Without(field, sep)
    ensures HeadLength(field, sep) == |field|
  {
    hide HeadLength;
    var k := HeadLength(field, sep);
  }

  /** Splitting undoes joining, whenever no field contains the separator. */
  lemma {:induction false} JoinedSplit(fields: seq<string>, sep: char)
    requires fields != [] && AllWithout(fields, sep)
    ensures Split(Joined(fields, sep), sep) == fields
  {
    if |fields| == 1 {
      HeadOfLast(fields[0], sep);
    } else {
      var rest := Joined(fields[1..], sep);
      HeadOf(fields[0], sep, rest);
      JoinedSplit(fields[1..], sep);
      var s := fields[0] + [sep] + rest;
      assert s[..|fields[0]|] == fields[0] && s[|fields[0]| + 1..] == rest;
    }
  }

  lemma {:induction false} TerminatedJoined(fields: seq<string>, sep: char)
    requires fields != []
    ensures Terminated(fields, sep) == Joined(fields, sep) + [sep]
  {
    if |fields| > 1 {
      TerminatedJoined(fields[1..], sep);
    } else {
      assert fields[0] + [sep] + "" == fields[0] + [sep];
    }
  }

}
