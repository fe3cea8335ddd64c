/** JSON values and the recursive searches for Fahrenheit names and raw IP addresses in them. */
module JsonTrees {
  import opened Wrappers
  import opened Text

  datatype Json =
    | JNull
    | JBool(b: bool)
    | JNum(n: real)
    | JStr(s: string)
    | JArr(items: seq<Json>)
    | JObj(fields: seq<Field>)

  datatype Field = Field(key: string, value: Json)

  /** The value under a key; keys are unique in the objects that the programs build. */
  function Lookup(fields: seq<Field>, key: string): Option<Json> {
    if fields == [] then None
    else if fields[0].key == key then Some(fields[0].value)
    else Lookup(fields[1..], key)
  }

  /** Property access on an unknown value: anything but an object has no properties. */
  function Property(j: Json, key: string): Option<Json> {
    if j.JObj? then Lookup(j.fields, key) else None
  }

  predicate PartAt(s: string, part: string, i: nat) {
    i + |part| <= |s| && s[i..i + |part|] == part
  }

  predicate Includes(s: string, part: string) {
    exists i :: 0 <= i <= |s| && PartAt(s, part, i)
  }

  // ----- The two searches

  /** One step down into a tree. */
  datatype Step = Index(i: nat) | Key(name: string)

  function StepText(step: Step): string {
    match step
    case Index(i) => "[" + Decimal(i) + "]"
    case Key(name) => "." + name
  }

  function Render(parent: string, path: seq<Step>): string
    decreases |path|
  {
    if path == [] then parent else Render(parent + StepText(path[0]), path[1..])
  }

  /** What a search reports: a flagged key with its value, or a flagged leaf. */
  datatype Rules = Rules(flagsKey: (string, Json) -> bool, flagsLeaf: Json -> bool)

  function Paths(j: Json, parent: string, rules: Rules): seq<string>
    decreases j, 0
  {
    match j
    case JArr(items) => ItemPaths(items, 0, parent, rules)
    case JObj(fields) => FieldPaths(fields, parent, rules)
    case _ => if rules.flagsLeaf(j) then [parent] else []
  }

  function ItemPaths(items: seq<Json>, index: nat, parent: string, rules: Rules): seq<string>
    decreases items, 0
  {
    if items == [] then [] else
      Paths(items[0], parent + StepText(Index(index)), rules) + ItemPaths(items[1..], index + 1, parent, rules)
  }

  function FieldPaths(fields: seq<Field>, parent: string, rules: Rules): seq<string>
    decreases fields, 0
  {
    if fields == [] then [] else
      var path := parent + StepText(Key(fields[0].key));
      (if rules.flagsKey(fields[0].key, fields[0].value) then [path] else [])
      + Paths(fields[0].value, path, rules) + FieldPaths(fields[1..], parent, rules)
  }

  /** `node` is the value that `path` leads to, at whatever depth. */
  ghost predicate Reaches(j: Json, path: seq<Step>, node: Json)
    decreases |path|
  {
    if path == [] then j == node else
      match path[0]
      case Index(i) => j.JArr? && i < |j.items| && Reaches(j.items[i], path[1..], node)
      case Key(name) =>
        && j.JObj?
        && exists k ::
             0 <= k < |j.fields| && j.fields[k].key == name && Reaches(j.fields[k].value, path[1..], node)
  }

  predicate IsLeaf(j: Json) {
    !j.JArr? && !j.JObj?
  }

  /** The path leads to a flagged leaf, or its last step is a flagged key. */
  ghost predicate Flagged(j: Json, path: seq<Step>, rules: Rules) {
    exists node :: Reaches(j, path, node)
                   && ((IsLeaf(node) && rules.flagsLeaf(node))
                       || (path != [] && path[|path| - 1].Key? && rules.flagsKey(path[|path| - 1].name, node)))
  }

  /** `text` names a flagged path below `parent`. */
  ghost predicate Reported(j: Json, parent: string, rules: Rules, text: string) {
    exists path :: Flagged(j, path, rules) && text == Render(parent, path)
  }

  lemma FlaggedStep(j: Json, step: Step, child: Json, path: seq<Step>, rules: Rules)
    requires match step
             case Index(i) => j.JArr? && i < |j.items| && j.items[i] == child
             case Key(name) => j.JObj? && exists k :: 0 <= k < |j.fields| && j.fields[k] == Field(name, child)
    requires Flagged(child, path, rules)
    ensures Flagged(j, [step] + path, rules)
  {
    var node :| Reaches(child, path, node)
                && ((IsLeaf(node) && rules.flagsLeaf(node))
                    || (path != [] && path[|path| - 1].Key? && rules.flagsKey(path[|path| - 1].name, node)));
    assert ([step] + path)[1..] == path;
    assert Reaches(j, [step] + path, node);
    assert path != [] ==> ([step] + path)[|path|] == path[|path| - 1];
  }

  lemma FlaggedKey(j: Json, k: nat, rules: Rules)
    requires j.JObj? && k < |j.fields| && rules.flagsKey(j.fields[k].key, j.fields[k].value)
    ensures Flagged(j, [Key(j.fields[k].key)], rules)
  {
    var path := [Key(j.fields[k].key)];
    assert Reaches(j.fields[k].value, path[1..], j.fields[k].value);
    assert Reaches(j, path, j.fields[k].value);
  }

  lemma RenderStep(parent: string, step: Step, path: seq<Step>)
    ensures Render(parent, [step] + path) == Render(parent + StepText(step), path)
  {
    assert ([step] + path)[1..] == path;
  }

  /** Whatever the search reports is there. */
  lemma {:induction false} PathsSound(j: Json, parent: string, rules: Rules, text: string)
    requires text in Paths(j, parent, rules)
    ensures Reported(j, parent, rules, text)
    decreases j, 1
  {
    match j
    case JArr(items) => ItemsSound(j, items, 0, parent, rules, text);
    case JObj(fields) => FieldsSound(j, fields, 0, parent, rules, text);
    case _ =>
      assert Reaches(j, [], j);
      assert Flagged(j, [], rules) && text == Render(parent, []);
  }

  lemma {:induction false} ItemsSound(j: Json, items: seq<Json>, index: nat, parent: string, rules: Rules, text: string)
    requires j.JArr? && index <= |j.items| && items == j.items[index..]
    requires text in ItemPaths(items, index, parent, rules)
    ensures Reported(j, parent, rules, text)
    decreases items, 1
  {
    var here := parent + StepText(Index(index));
    if text in Paths(items[0], here, rules) {
      PathsSound(items[0], here, rules, text);
      var path :| Flagged(items[0], path, rules) && text == Render(here, path);
      FlaggedStep(j, Index(index), items[0], path, rules);
      RenderStep(parent, Index(index), path);
    } else {
      ItemsSound(j, items[1..], index + 1, parent, rules, text);
    }
  }

  lemma {:induction false} FieldsSound(j: Json, fields: seq<Field>, k: nat, parent: string, rules: Rules, text: string)
    requires j.JObj? && k <= |j.fields| && fields == j.fields[k..]
    requires text in FieldPaths(fields, parent, rules)
    ensures Reported(j, parent, rules, text)
    decreases fields, 1
  {
    var step := Key(fields[0].key);
    var here := parent + StepText(step);
    if rules.flagsKey(fields[0].key, fields[0].value) && text == here {
      FlaggedKey(j, k, rules);
      RenderStep(parent, step, []);
      assert [step] + [] == [step];
      assert Render(here, []) == here;
    } else if text in Paths(fields[0].value, here, rules) {
      PathsSound(fields[0].value, here, rules, text);
      var path :| Flagged(fields[0].value, path, rules) && text == Render(here, path);
      assert j.fields[k] == Field(fields[0].key, fields[0].value);
      FlaggedStep(j, step, fields[0].value, path, rules);
      RenderStep(parent, step, path);
    } else {
      FieldsSound(j, fields[1..], k + 1, parent, rules, text);
    }
  }

  lemma {:induction false} ItemPathsHave(items: seq<Json>, index: nat, parent: string, rules: Rules, i: nat,
                                         text: string)
    requires i < |items| && text in Paths(items[i], parent + StepText(Index(index + i)), rules)
    ensures text in ItemPaths(items, index, parent, rules)
  {
    if i > 0 {
      ItemPathsHave(items[1..], index + 1, parent, rules, i - 1, text);
    }
  }

  lemma {:induction false} FieldPathsHave(fields: seq<Field>, parent: string, rules: Rules, k: nat, text: string)
    requires k < |fields|
    requires var here := parent + StepText(Key(fields[k].key));
             (rules.flagsKey(fields[k].key, fields[k].value) && text == here)
             || text in Paths(fields[k].value, here, rules)
    ensures text in FieldPaths(fields, parent, rules)
  {
    if k > 0 {
      FieldPathsHave(fields[1..], parent, rules, k - 1, text);
    }
  }

  /** Whatever is flagged, at any depth, is reported. */
  lemma {:induction false} PathsComplete(j: Json, parent: string, rules: Rules, path: seq<Step>)
    requires Flagged(j, path, rules)
    ensures Render(parent, path) in Paths(j, parent, rules)
    decreases |path|
  {
    var node :| Reaches(j, path, node)
                && ((IsLeaf(node) && rules.flagsLeaf(node))
                    || (path != [] && path[|path| - 1].Key? && rules.flagsKey(path[|path| - 1].name, node)));
    if path != [] {
      var rest := path[1..];
      var here := parent + StepText(path[0]);
      var text := Render(parent, path);
      assert rest != [] ==> rest[|rest| - 1] == path[|path| - 1];
      match path[0] {
        case Index(i) =>
          PathsComplete(j.items[i], here, rules, rest);
          ItemPathsHave(j.items, 0, parent, rules, i, text);
        case Key(name) =>
          var k :| 0 <= k < |j.fields| && j.fields[k].key == name && Reaches(j.fields[k].value, rest, node);
          if rest != [] || (IsLeaf(node) && rules.flagsLeaf(node)) {
            PathsComplete(j.fields[k].value, here, rules, rest);
          }
          FieldPathsHave(j.fields, parent, rules, k, text);
      }
    }
  }

  /** The search is exact: it reports precisely the rendered paths of flagged nodes. */
  lemma PathsExact(j: Json, parent: string, rules: Rules, text: string)
    ensures text in Paths(j, parent, rules) <==> Reported(j, parent, rules, text)
  {
    if text in Paths(j, parent, rules) {
      PathsSound(j, parent, rules, text);
    }
    if Reported(j, parent, rules, text) {
      var path :| Flagged(j, path, rules) && text == Render(parent, path);
      PathsComplete(j, parent, rules, path);
    }
  }

  /** A tree passes the search exactly when no node in it is flagged. */
  lemma PathsEmpty(j: Json, parent: string, rules: Rules)
    ensures Paths(j, parent, rules) == [] <==> forall path :: !Flagged(j, path, rules)
  {
    if path :| Flagged(j, path, rules) {
      PathsComplete(j, parent, rules, path);
    }
    if Paths(j, parent, rules) != [] {
      PathsSound(j, parent, rules, Paths(j, parent, rules)[0]);
    }
  }

  // ----- Fahrenheit names

  predicate IsFahrenheitKey(key: string) {
    var lower := ToLower(key);
    EndsWith(lower, "_f") || Includes(lower, "fahrenheit") || (EndsWith(lower, "f") && Includes(lower, "temp"))
  }

  predicate IsFahrenheitUnit(key: string, value: Json) {
    EndsWith(ToLower(key), "unit") && value.JStr? && ToLower(value.s) in {"f", "fahrenheit"}
  }

  const CELSIUS_RULES :=
    Rules((key: string, value: Json) => IsFahrenheitKey(key) || IsFahrenheitUnit(key, value), (leaf: Json) => false)

  function NonCelsiusKeyPaths(payload: Json, parent: string): seq<string> {
    Paths(payload, parent, CELSIUS_RULES)
  }

  // ----- Raw IP addresses; `isIP` is the platform's own literal check

  const RAW_IP_KEY_NAMES := {"ip", "ipaddr", "ipaddress", "ip_address", "client_ip", "remote_ip", "remote_addr"}

  predicate IsDelimiter(c: char) {
    c in " \t\n\r_,;()[]{}<>\"'`/\\|" || c == 11 as char || c == 12 as char
  }

  function FirstDelimiter(s: string): (k: nat)
    ensures k <= |s| && forall i :: 0 <= i < k ==> !IsDelimiter(s[i])
    ensures k < |s| ==> IsDelimiter(s[k])
  {
    if s == "" || IsDelimiter(s[0]) then 0 else
      var k := FirstDelimiter(s[1..]);
      assert forall i :: 1 <= i < k + 1 ==> s[i] == s[1..][i - 1];
      k + 1
  }

  function SkipDelimiters(s: string): (r: string)
    ensures |r| <= |s| && r == s[|s| - |r|..]
    ensures s != "" && IsDelimiter(s[0]) ==> |r| < |s|
  {
    if s != "" && IsDelimiter(s[0]) then SkipDelimiters(s[1..]) else s
  }

  /** `String.split` on runs of delimiters. */
  function Tokens(s: string): seq<string>
    decreases |s|
  {
    var k := FirstDelimiter(s);
    if k == |s| then [s] else [s[..k]] + Tokens(SkipDelimiters(s[k..]))
  }

  function TrimDots(s: string): (r: string)
    decreases |s|
  {
    if s != "" && s[0] == '.' then TrimDots(s[1..])
    else if s != "" && s[|s| - 1] == '.' then TrimDots(s[..|s| - 1])
    else s
  }

  predicate ContainsRawIp(s: string, isIP: string -> bool) {
    exists token :: token in Tokens(s) && isIP(TrimDots(token))
  }

  function IpRules(isIP: string -> bool): Rules {
    Rules((key: string, value: Json) => ToLower(key) in RAW_IP_KEY_NAMES && value != JNull,
          (leaf: Json) => leaf.JStr? && ContainsRawIp(leaf.s, isIP))
  }

  function RawIpPaths(payload: Json, parent: string, isIP: string -> bool): seq<string> {
    Paths(payload, parent, IpRules(isIP))
  }
}
