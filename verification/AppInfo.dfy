/** The application record: two key=value lines written in either order, and read back. */
module AppInfo {
  import opened Wrappers
  import opened Strings

  const APP_INSTANCE := "appInstance"
  const APP_GROUP := "appGroup"

  // ----- strings.TrimSpace

  /** unicode.IsSpace */
  predicate IsSpace(c: char) {
    var n := c as int;
    || 9 <= n <= 13 || n == 32 || n == 0x85 || n == 0xA0
    || n == 0x1680 || 0x2000 <= n <= 0x200A || n == 0x2028 || n == 0x2029 || n == 0x202F || n == 0x205F || n == 0x3000
  }

  function TrimRight(s: string): string {
    if s != "" && IsSpace(s[|s| - 1]) then TrimRight(s[..|s| - 1]) else s
  }

  function TrimLeft(s: string): string {
    if s != "" && IsSpace(s[0]) then TrimLeft(s[1..]) else s
  }

  function TrimSpace(s: string): string {
    TrimRight(TrimLeft(s))
  }

  predicate NoTrailingSpace(s: string) {
    s != "" ==> !IsSpace(s[|s| - 1])
  }

  lemma {:induction false} TrimRightAfter(p: string, v: string)
    requires p != "" && NoTrailingSpace(p)
    ensures TrimRight(p + v) == p + TrimRight(v)
  {
    if v != "" && IsSpace(v[|v| - 1]) {
      TrimRightAfter(p, v[..|v| - 1]);
      assert (p + v)[..|p + v| - 1] == p + v[..|v| - 1];
    } else if v == "" {
      assert p + v == p;
    }
  }

  lemma {:induction false} TrimRightFixed(v: string)
    ensures TrimRight(v) == v <==> NoTrailingSpace(v)
    ensures |TrimRight(v)| <= |v| && TrimRight(v) <= v
  {
    if v != "" && IsSpace(v[|v| - 1]) { TrimRightFixed(v[..|v| - 1]); }
  }

  predicate AllSpace(s: string) {
    forall i :: 0 <= i < |s| ==> IsSpace(s[i])
  }

  lemma {:induction false} TrimRightIs(s: string) returns (trail: string)
    ensures s == TrimRight(s) + trail && AllSpace(trail) && NoTrailingSpace(TrimRight(s))
  {
    trail := "";
    if s != "" && IsSpace(s[|s| - 1]) {
      var n := |s| - 1;
      var t := TrimRightIs(s[..n]);
      assert s == s[..n] + [s[n]];
      trail := t + [s[n]];
    }
  }

  lemma {:induction false} TrimLeftIs(s: string) returns (lead: string)
    ensures s == lead + TrimLeft(s) && AllSpace(lead) && (TrimLeft(s) != "" ==> !IsSpace(TrimLeft(s)[0]))
  {
    lead := "";
    if s != "" && IsSpace(s[0]) {
      var l := TrimLeftIs(s[1..]);
      assert s == [s[0]] + s[1..];
      lead := [s[0]] + l;
    }
  }

  /** Trimming takes white space off both ends, all of it, and nothing else. */
  lemma TrimSpaceIs(s: string) returns (lead: string, trail: string)
    ensures s == lead + TrimSpace(s) + trail && AllSpace(lead) && AllSpace(trail)
    ensures var t := TrimSpace(s); t != "" ==> !IsSpace(t[0]) && !IsSpace(t[|t| - 1])
  {
    lead := TrimLeftIs(s);
    trail := TrimRightIs(TrimLeft(s));
    assert TrimSpace(s) != "" ==> TrimLeft(s)[0] == TrimSpace(s)[0];
  }

  // ----- writing

  function Line(key: string, value: string): string {
    key + "=" + value + "\n"
  }

  function Lines(order: seq<string>, data: map<string, string>): string
    requires forall k :: k in order ==> k in data
  {
    if order == [] then ""
    else Lines(order[..|order| - 1], data) + Line(order[|order| - 1], data[order[|order| - 1]])
  }

  ghost predicate OrderOf(order: seq<string>, keys: set<string>) {
    && (forall k :: k in order <==> k in keys)
    && (forall i, j :: 0 <= i < j < |order| ==> order[i] != order[j])
  }

  /** Writing from the start of the file; without truncation a longer old content keeps its tail. */
  function Overwrite(before: string, text: string, truncate: bool): string {
    if truncate || |before| <= |text| then text else text + before[|text|..]
  }

  /** A file that was longer than the text keeps its characters behind it, unless it is truncated. */
  lemma OverwriteIs(before: string, text: string, truncate: bool)
    ensures var after := Overwrite(before, text, truncate);
            && |after| == (if truncate || |before| < |text| then |text| else |before|)
            && forall i :: 0 <= i < |after| ==> after[i] == if i < |text| then text[i] else before[i]
  {
  }

  /** RecordMapToFile: the map is walked in any order; nothing is written for an empty map. */
  method RecordMapToFile(data: map<string, string>, before: string, truncate: bool) returns (content: string)
    ensures data == map[] ==> content == before
    ensures data != map[] ==> exists order :: OrderOf(order, data.Keys) && content == Overwrite(before, Lines(order, data), truncate)
  {
    if |data| == 0 { return before; }
    var text, todo := "", data.Keys;
    ghost var order := [];
    while todo != {}
      invariant todo <= data.Keys && OrderOf(order, data.Keys - todo)
      invariant text == Lines(order, data)
      decreases todo
    {
      var key :| key in todo;
      text := text + Line(key, data[key]);
      assert (order + [key])[..|order|] == order;
      order := order + [key];
      todo := todo - {key};
    }
    assert data.Keys - {} == data.Keys;
    content := Overwrite(before, text, truncate);
  }

  // ----- reading

  datatype Info = Info(instance: string, group: string)

  /** strings.SplitN(line, "=", 2), when it gives two parts. */
  function KeyValue(line: string): Option<(string, string)> {
    var key := Split(line, '=')[0];
    SplitHead(line, '=');
    if |key| < |line| then Some((key, line[|key| + 1..])) else None
  }

  function SetKey(info: Info, key: string, value: string): Info {
    if key == APP_INSTANCE then info.(instance := value)
    else if key == APP_GROUP then info.(group := value)
    else info
  }

  function Assign(info: Info, line: string): Info {
    match KeyValue(line)
    case None => info
    case Some((key, value)) => SetKey(info, key, value)
  }

  function AssignAll(lines: seq<string>): Info {
    if lines == [] then Info("", "") else Assign(AssignAll(lines[..|lines| - 1]), lines[|lines| - 1])
  }

  function Read(content: string): Info {
    AssignAll(Split(TrimSpace(content), '\n'))
  }

  /** ReadAppInfoFromFile: a file that cannot be read is an error; later lines win, lines without the delimiter are skipped. */
  method ReadAppInfo(file: Result<string>) returns (r: Result<Info>)
    ensures file.Err? ==> r == Err(file.error)
    ensures file.Ok? ==> r == Ok(Read(file.value))
  {
    if file.Err? { return Err(file.error); }
    var slice := Split(TrimSpace(file.value), '\n');
    var info := Info("", "");
    for i := 0 to |slice|
      invariant info == AssignAll(slice[..i])
    {
      assert slice[..i + 1][..i] == slice[..i];
      match KeyValue(slice[i]) {
        case None =>
        case Some(kv) =>
          if kv.0 == APP_INSTANCE {
            info := info.(instance := kv.1);
          } else if kv.0 == APP_GROUP {
            info := info.(group := kv.1);
          }
      }
    }
    assert slice[..|slice|] == slice;
    r := Ok(info);
  }

  // ----- the round trip

  lemma {:induction false} ReadHasNoNewline(lines: seq<string>)
    requires forall l :: l in lines ==> '\n' !in l
    ensures '\n' !in AssignAll(lines).instance && '\n' !in AssignAll(lines).group
  {
    if lines != [] {
      ReadHasNoNewline(lines[..|lines| - 1]);
      var line := lines[|lines| - 1];
      assert line in lines;
      assert forall n, c :: 0 <= n <= |line| && c in line[n..] ==> c in line;
    }
  }

  lemma KeyValueNone(line: string)
    ensures KeyValue(line) == None <==> '=' !in line
  {
    SplitHead(line, '=');
    var head := Split(line, '=')[0];
    if |head| < |line| {
      assert line[|head|] in line;
    } else {
      assert head == line;
    }
  }

  /** Line i is the last one that gives the key a value; -1 if none does. */
  predicate LastWith(lines: seq<string>, key: string, i: int) {
    && -1 <= i < |lines| && (i >= 0 ==> KeyValue(lines[i]).Some? && KeyValue(lines[i]).value.0 == key)
    && forall k :: i < k < |lines| ==> KeyValue(lines[k]).None? || KeyValue(lines[k]).value.0 != key
  }

  function ValueOf(info: Info, key: string): string {
    if key == "appInstance" then info.instance else info.group
  }

  /** The last line with its key decides each of the two; other lines count for nothing. */
  lemma {:induction false} LastLineWins(lines: seq<string>, key: string, i: int)
    requires key in {"appInstance", "appGroup"} && LastWith(lines, key, i)
    ensures ValueOf(AssignAll(lines), key) == if i >= 0 then KeyValue(lines[i]).value.1 else ""
  {
    AppKeysArePlain();
    if i < |lines| - 1 { LastLineWins(lines[..|lines| - 1], key, i); }
  }

  lemma KeyValueOf(key: string, value: string)
    requires '=' !in key
    ensures KeyValue(key + "=" + value) == Some((key, value))
  {
    var line := key + ['='] + value;
    SplitAt(key, '=', value);
    assert key + "=" + value == line;
    assert line[|key| + 1..] == value;
  }

  lemma TrimAfterEquals(p: string, v: string)
    requires p != "" && !IsSpace(p[0]) && NoTrailingSpace(p)
    ensures TrimSpace(p + (v + "\n")) == p + TrimRight(v)
  {
    TrimRightAfter(p, v + "\n");
    assert (v + "\n")[..|v|] == v;
  }

  lemma Regroup(first: string, k2: string, v2: string)
    ensures first + "\n" + Line(k2, v2) == (first + "\n" + k2 + "=") + (v2 + "\n")
  {
  }

  lemma RegroupTrimmed(first: string, k2: string, v2: string)
    ensures (first + "\n" + k2 + "=") + v2 == first + ['\n'] + (k2 + "=" + v2)
  {
  }

  /** What the reader sees of a record: the last value loses its trailing space. */
  lemma TrimmedRecord(first: string, k2: string, v2: string)
    requires first != "" && !IsSpace(first[0])
    ensures TrimSpace(first + "\n" + Line(k2, v2)) == first + ['\n'] + (k2 + "=" + TrimRight(v2))
  {
    Regroup(first, k2, v2);
    TrimAfterEquals(first + "\n" + k2 + "=", v2);
    RegroupTrimmed(first, k2, TrimRight(v2));
  }

  /** What the round trip needs of a key. */
  predicate PlainKey(key: string) {
    key != "" && !IsSpace(key[0]) && '=' !in key && '\n' !in key
  }

  lemma AppKeysArePlain()
    ensures PlainKey(APP_INSTANCE) && PlainKey(APP_GROUP) && APP_INSTANCE != APP_GROUP
  {
    assert APP_INSTANCE[3] != APP_GROUP[3];
  }

  lemma PlainLine(key: string, value: string)
    requires PlainKey(key) && '\n' !in value
    ensures '\n' !in key + "=" + value
  {
  }

  lemma SplitRecord(k1: string, v1: string, k2: string, v2: string)
    requires PlainKey(k1) && PlainKey(k2) && '\n' !in v1 && '\n' !in v2
    ensures Split(TrimSpace(Line(k1, v1) + Line(k2, v2)), '\n') == [k1 + "=" + v1, k2 + "=" + TrimRight(v2)]
  {
    var l1, l2 := k1 + "=" + v1, k2 + "=" + TrimRight(v2);
    TrimmedRecord(l1, k2, v2);
    TrimRightFixed(v2);
    PlainLine(k1, v1);
    PlainLine(k2, TrimRight(v2));
    SplitAt(l1, '\n', l2);
    SplitNone(l2, '\n');
  }

  lemma AssignTwo(l1: string, l2: string)
    ensures AssignAll([l1, l2]) == Assign(Assign(Info("", ""), l1), l2)
  {
    assert [l1, l2][..1] == [l1] && [l1][..0] == [];
    assert AssignAll([l1]) == Assign(AssignAll([]), l1);
  }

  /** Two lines read back: each key gets its value, the last one without its trailing space. */
  lemma ReadTwo(k1: string, v1: string, k2: string, v2: string)
    requires PlainKey(k1) && PlainKey(k2) && '\n' !in v1 && '\n' !in v2
    ensures Read(Line(k1, v1) + Line(k2, v2)) == SetKey(SetKey(Info("", ""), k1, v1), k2, TrimRight(v2))
  {
    SplitRecord(k1, v1, k2, v2);
    AssignTwo(k1 + "=" + v1, k2 + "=" + TrimRight(v2));
    KeyValueOf(k1, v1);
    KeyValueOf(k2, TrimRight(v2));
  }

  /** Whatever is read holds no newline, so a value with one is not read back. */
  lemma NewlineIsLost(text: string)
    ensures '\n' !in Read(text).instance && '\n' !in Read(text).group
  {
    SplitParts(TrimSpace(text), '\n');
    ReadHasNoNewline(Split(TrimSpace(text), '\n'));
  }

  lemma InstanceFirstIff(instance: string, group: string)
    ensures Read(Line(APP_INSTANCE, instance) + Line(APP_GROUP, group)) == Info(instance, group) <==>
            '\n' !in instance && '\n' !in group && NoTrailingSpace(group)
  {
    NewlineIsLost(Line(APP_INSTANCE, instance) + Line(APP_GROUP, group));
    if '\n' !in instance && '\n' !in group {
      AppKeysArePlain();
      ReadTwo(APP_INSTANCE, instance, APP_GROUP, group);
      TrimRightFixed(group);
    }
  }

  lemma GroupFirstIff(instance: string, group: string)
    ensures Read(Line(APP_GROUP, group) + Line(APP_INSTANCE, instance)) == Info(instance, group) <==>
            '\n' !in instance && '\n' !in group && NoTrailingSpace(instance)
  {
    NewlineIsLost(Line(APP_GROUP, group) + Line(APP_INSTANCE, instance));
    if '\n' !in instance && '\n' !in group {
      AppKeysArePlain();
      ReadTwo(APP_GROUP, group, APP_INSTANCE, instance);
      TrimRightFixed(instance);
    }
  }

  lemma LinesOfTwo(a: string, b: string, data: map<string, string>)
    requires a in data && b in data
    ensures Lines([a, b], data) == Line(a, data[a]) + Line(b, data[b])
  {
    assert [a, b][..1] == [a] && [a][..0] == [];
    assert Lines([a], data) == Lines([], data) + Line(a, data[a]);
    assert "" + Line(a, data[a]) == Line(a, data[a]);
  }

  /**
    RecordApplicationToFile with truncation, then ReadAppInfoFromFile: the record survives the order the map
    was walked in exactly when neither value contains a newline and the value written last does not end in
    white space; an equals sign does no harm.
  */
  lemma RoundTripIff(instance: string, group: string, order: seq<string>, before: string)
    requires OrderOf(order, {"appInstance", "appGroup"})
    ensures |order| == 2
    ensures var text := Lines(order, map["appInstance" := instance, "appGroup" := group]);
            Read(Overwrite(before, text, true)) == Info(instance, group) <==>
            '\n' !in instance && '\n' !in group && NoTrailingSpace(if order[1] == "appGroup" then group else instance)
  {
    var data := map[APP_INSTANCE := instance, APP_GROUP := group];
    AppKeysArePlain();
    TwoKeys(order, APP_INSTANCE, APP_GROUP);
    LinesOfTwo(order[0], order[1], data);
    InstanceFirstIff(instance, group);
    GroupFirstIff(instance, group);
  }

  lemma TwoKeys(order: seq<string>, a: string, b: string)
    requires OrderOf(order, {a, b}) && a != b
    ensures order == [a, b] || order == [b, a]
  {
    assert a in order && b in order;
    var last := order[|order| - 1];
    assert order[0] in order && order[1] in order && last in order;
  }

  predicate Clean(v: string) {
    '\n' !in v && NoTrailingSpace(v)
  }

  /** So a record survives every order exactly when both values are clean. */
  lemma SurvivesEveryOrderIff(instance: string, group: string, before: string)
    ensures (forall order :: OrderOf(order, {APP_INSTANCE, APP_GROUP}) ==>
               Read(Overwrite(before, Lines(order, map[APP_INSTANCE := instance, APP_GROUP := group]), true)) == Info(instance, group))
            <==> Clean(instance) && Clean(group)
  {
    AppKeysArePlain();
    assert OrderOf([APP_INSTANCE, APP_GROUP], {APP_INSTANCE, APP_GROUP});
    assert OrderOf([APP_GROUP, APP_INSTANCE], {APP_INSTANCE, APP_GROUP});
    forall order | OrderOf(order, {APP_INSTANCE, APP_GROUP})
      ensures |order| == 2
      ensures Read(Overwrite(before, Lines(order, map[APP_INSTANCE := instance, APP_GROUP := group]), true)) == Info(instance, group) <==>
              '\n' !in instance && '\n' !in group && NoTrailingSpace(if order[1] == APP_GROUP then group else instance)
    {
      RoundTripIff(instance, group, order, before);
    }
  }
}
