/** The parser of NUL-delimited name-status output and its printer. Text here is bytes, one character each. */
module NameStatus {
  import opened Wrappers
  import opened Sequences
  import opened Splitting
  import opened Text

  datatype Entry = Entry(status: string, paths: seq<string>)

  const NUL: char := '\0'

  predicate IsSingle(status: string) {
    status == "A" || status == "M" || status == "D"
  }

  /** A rename or copy with its three-digit similarity. */
  predicate IsPair(status: string) {
    |status| == 4 && (status[0] == 'R' || status[0] == 'C') && IsDigit(status[1]) && IsDigit(status[2])
    && IsDigit(status[3])
  }

  /** An entry that git may print: a known status with its number of NUL-free paths. */
  predicate WellFormed(e: Entry) {
    && (IsSingle(e.status) ==> |e.paths| == 1)
    && (IsPair(e.status) ==> |e.paths| == 2)
    && (IsSingle(e.status) || IsPair(e.status))
    && AllWithout(e.paths, NUL)
  }

  predicate AllWellFormed(entries: seq<Entry>) {
    forall i :: 0 <= i < |entries| ==> WellFormed(entries[i])
  }

  function FieldsOf(entries: seq<Entry>): seq<string> {
    if entries == [] then [] else [entries[0].status] + entries[0].paths + FieldsOf(entries[1..])
  }

  function Print(entries: seq<Entry>): string {
    Terminated(FieldsOf(entries), NUL)
  }

  // ----- Parsing

  /** The entries that a list of fields spells out. */
  function ParseFields(fields: seq<string>): Option<seq<Entry>>
    decreases |fields|
  {
    if fields == [] then Some([])
    else if IsSingle(fields[0]) then
      if |fields| < 2 then None else Prepend(Entry(fields[0], [fields[1]]), ParseFields(fields[2..]))
    else if IsPair(fields[0]) then
      if |fields| < 3 then None else Prepend(Entry(fields[0], [fields[1], fields[2]]), ParseFields(fields[3..]))
    else None
  }

  function Prepend(e: Entry, rest: Option<seq<Entry>>): Option<seq<Entry>> {
    if rest.Some? then Some([e] + rest.value) else None
  }

  function PrependAll(entries: seq<Entry>, rest: Option<seq<Entry>>): Option<seq<Entry>> {
    if rest.Some? then Some(entries + rest.value) else None
  }

  function ParseOutput(output: string): Option<seq<Entry>> {
    if output == "" || output[|output| - 1] != NUL then None else ParseFields(Split(output[..|output| - 1], NUL))
  }

  method ParseNameStatus(output: string) returns (result: Option<seq<Entry>>)
    ensures result == ParseOutput(output)
  {
    hide IsSingle, IsPair, Split;
    if output == "" || output[|output| - 1] != NUL { return None; }
    var fields := Split(output[..|output| - 1], NUL);
    var entries: seq<Entry> := [];
    var index := 0;
    PrependNothing(ParseFields(fields));
    assert fields[0..] == fields;
    while index < |fields|
      invariant 0 <= index <= |fields|
      invariant ParseFields(fields) == PrependAll(entries, ParseFields(fields[index..]))
    {
      var status := fields[index];
      ghost var rest := fields[index..];
      index := index + 1;
      if IsSingle(status) {
        if index >= |fields| { return None; }
        PrependAppend(entries, Entry(status, [fields[index]]), ParseFields(rest[2..]));
        entries := entries + [Entry(status, [fields[index]])];
        index := index + 1;
        assert rest[2..] == fields[index..];
      } else if IsPair(status) {
        if index + 1 >= |fields| { return None; }
        PrependAppend(entries, Entry(status, [fields[index], fields[index + 1]]), ParseFields(rest[3..]));
        entries := entries + [Entry(status, [fields[index], fields[index + 1]])];
        index := index + 2;
        assert rest[3..] == fields[index..];
      } else {
        return None;
      }
    }
    assert fields[index..] == [] && entries + [] == entries;
    result := Some(entries);
  }

  lemma PrependNothing(rest: Option<seq<Entry>>)
    ensures PrependAll([], rest) == rest
  {
    if rest.Some? { assert [] + rest.value == rest.value; }
  }

  lemma PrependAppend(entries: seq<Entry>, e: Entry, rest: Option<seq<Entry>>)
    ensures PrependAll(entries, Prepend(e, rest)) == PrependAll(entries + [e], rest)
  {
    if rest.Some? { assert entries + ([e] + rest.value) == entries + [e] + rest.value; }
  }

  // ----- Both directions

  predicate Shaped(e: Entry) {
    (IsSingle(e.status) && |e.paths| == 1) || (IsPair(e.status) && |e.paths| == 2)
  }

  predicate AllShaped(entries: seq<Entry>) {
    forall i :: 0 <= i < |entries| ==> Shaped(entries[i])
  }

  lemma SingleIsNotPair(status: string)
    ensures !(IsSingle(status) && IsPair(status))
  {
  }

  /** Parsing the fields of shaped entries returns the entries. */
  lemma {:induction false} FieldsParse(entries: seq<Entry>)
    requires AllShaped(entries)
    ensures ParseFields(FieldsOf(entries)) == Some(entries)
  {
    hide IsSingle, IsPair;
    if entries != [] {
      var e, rest := entries[0], FieldsOf(entries[1..]);
      FieldsParse(entries[1..]);
      SingleIsNotPair(e.status);
      FieldsOfCons(entries);
      var fields := FieldsOf(entries);
      assert entries == [e] + entries[1..];
      assert |e.paths| == 1 ==> fields[2..] == rest && e.paths == [fields[1]];
      assert |e.paths| == 2 ==> fields[3..] == rest && e.paths == [fields[1], fields[2]];
    }
  }

  lemma FieldsOfCons(entries: seq<Entry>)
    requires entries != []
    ensures FieldsOf(entries) == [entries[0].status] + entries[0].paths + FieldsOf(entries[1..])
  {
  }

  /** What parses are the fields of the result, and the result is shaped. */
  lemma {:induction false} ParsedFields(fields: seq<string>)
    requires ParseFields(fields).Some?
    ensures FieldsOf(ParseFields(fields).value) == fields && AllShaped(ParseFields(fields).value)
    decreases |fields|
  {
    hide IsSingle, IsPair, FieldsOf;
    FieldsOfNone();
    if fields != [] {
      var n := if IsSingle(fields[0]) then 2 else 3;
      ParsedFields(fields[n..]);
      FieldsOfCons(ParseFields(fields).value);
      assert ParseFields(fields).value[1..] == ParseFields(fields[n..]).value;
    }
  }

  lemma FieldsOfNone()
    ensures FieldsOf([]) == []
  {
  }

  lemma {:induction false} FieldsWithout(entries: seq<Entry>)
    requires AllShaped(entries)
    ensures AllWithout(FieldsOf(entries), NUL) <==> AllWellFormed(entries)
  {
    hide Without;
    if entries != [] {
      FieldsWithout(entries[1..]);
      StatusWithout(entries[0].status);
      FirstAndRest(entries);
    }
  }

  lemma FirstAndRest(entries: seq<Entry>)
    requires entries != []
    ensures AllWellFormed(entries) <==> WellFormed(entries[0]) && AllWellFormed(entries[1..])
    ensures AllWithout(FieldsOf(entries), NUL)
            <==> Without(entries[0].status, NUL) && AllWithout(entries[0].paths, NUL)
                 && AllWithout(FieldsOf(entries[1..]), NUL)
  {
    hide Without, WellFormed, FieldsOf;
    FieldsOfCons(entries);
    assert entries == [entries[0]] + entries[1..];
    assert forall i :: 0 <= i < |entries[1..]| ==> entries[1..][i] == entries[i + 1];
    assert forall i :: 0 < i < |entries| ==> entries[i] == entries[1..][i - 1];
    ConcatWithout([entries[0].status] + entries[0].paths, FieldsOf(entries[1..]));
    ConcatWithout([entries[0].status], entries[0].paths);
    assert [entries[0].status][0] == entries[0].status;
  }

  lemma ConcatWithout(a: seq<string>, b: seq<string>)
    ensures AllWithout(a + b, NUL) <==> AllWithout(a, NUL) && AllWithout(b, NUL)
  {
    hide Without;
    assert forall i :: 0 <= i < |a| ==> (a + b)[i] == a[i];
    assert forall i :: 0 <= i < |b| ==> (a + b)[|a| + i] == b[i];
  }

  lemma StatusWithout(status: string)
    requires IsSingle(status) || IsPair(status)
    ensures Without(status, NUL)
  {
  }

  /** Output is accepted exactly when it is the print of some non-empty well-formed entries, which are the result. */
  lemma ParseInvertsPrint(output: string, entries: seq<Entry>)
    ensures ParseOutput(output) == Some(entries)
            <==> entries != [] && AllWellFormed(entries) && output == Print(entries)
  {
    hide Split, FieldsOf, Terminated, WellFormed, Joined;
    if ParseOutput(output) == Some(entries) { AcceptedIsPrint(output); }
    if entries != [] && AllWellFormed(entries) && output == Print(entries) { PrintIsAccepted(entries); }
  }

  lemma AcceptedIsPrint(output: string)
    requires ParseOutput(output).Some?
    ensures var entries := ParseOutput(output).value;
            entries != [] && AllWellFormed(entries) && output == Print(entries)
  {
    hide ParseFields, FieldsOf, Terminated, Split;
    var body := output[..|output| - 1];
    var fields := Split(body, NUL);
    ParsedFields(fields);
    SplitJoined(body, NUL);
    SplitWithout(body, NUL);
    TerminatedJoined(fields, NUL);
    FieldsWithout(ParseFields(fields).value);
    FieldsOfNone();
  }

  lemma PrintIsAccepted(entries: seq<Entry>)
    requires entries != [] && AllWellFormed(entries)
    ensures ParseOutput(Print(entries)) == Some(entries)
  {
    hide ParseFields, FieldsOf, Terminated, Split;
    var fields := FieldsOf(entries);
    FieldsOfCons(entries);
    FieldsParse(entries);
    FieldsWithout(entries);
    TerminatedJoined(fields, NUL);
    JoinedSplit(fields, NUL);
    assert Print(entries)[..|Print(entries)| - 1] == Joined(fields, NUL);
  }
}
