/** The document-generation flow around the PDF viewer: the flow's
  * `key:value;...` data, the fuzzy matching of template keys to that data
  * by edit distance, the day-of-month suffix of the current date, and the
  * grouping of `HEADER_...` template keys. */
module PdftronFlow {
  import opened Seqs
  import opened Text
  import opened Objects

  // ---------------------------------------------------------------------
  // Levenshtein distance

  function Min3(a: nat, b: nat, c: nat): (r: nat)
    ensures r <= a && r <= b && r <= c
    ensures r == a || r == b || r == c
  {
    if a <= b && a <= c then a else if b <= c then b else c
  }

  /** The edit distance from s to t: the fewest deletions, insertions and
    * substitutions of single characters that turn s into t. Cell (i, j) of
    * the table holds the distance between the first i characters of s and
    * the first j characters of t. */
  function Distance(s: string, t: string): nat
    decreases |s| + |t|
  {
    if |s| == 0 then |t|
    else if |t| == 0 then |s|
    else
      var cost := if s[|s| - 1] == t[|t| - 1] then 0 else 1;
      Min3(Distance(s[..|s| - 1], t) + 1,
           Distance(s, t[..|t| - 1]) + 1,
           Distance(s[..|s| - 1], t[..|t| - 1]) + cost)
  }

  /** The distance between the first i characters of s and the first j of t. */
  function Cell(s: string, t: string, i: nat, j: nat): nat
    requires i <= |s| && j <= |t|
  {
    Distance(s[..i], t[..j])
  }

  /** Rows below i of the table hold their distances. */
  ghost predicate RowsDone(dp: array2<nat>, s: string, t: string, i: nat)
    reads dp
    requires dp.Length0 == |s| + 1 && dp.Length1 == |t| + 1 && i <= |s| + 1
  {
    forall i', j' :: 0 <= i' < i && 0 <= j' <= |t| ==> dp[i', j'] == Cell(s, t, i', j')
  }

  /** `getLevenshteinDistance`: fills the table row by row. */
  method LevenshteinDistance(s1: string, s2: string) returns (d: nat)
    ensures d == Distance(s1, s2)
  {
    var a := |s1|;
    var b := |s2|;
    var dp := new nat[a + 1, b + 1];
    for i := 0 to a + 1
      invariant forall i' :: 0 <= i' < i ==> dp[i', 0] == i'
    {
      dp[i, 0] := i;
    }
    for j := 0 to b + 1
      invariant forall i' :: 0 < i' <= a ==> dp[i', 0] == i'
      invariant forall j' :: 0 <= j' < j ==> dp[0, j'] == j'
    {
      dp[0, j] := j;
    }
    forall j' | 0 <= j' <= b ensures dp[0, j'] == Cell(s1, s2, 0, j') {
      assert s1[..0] == [];
    }
    for i := 1 to a + 1
      invariant RowsDone(dp, s1, s2, i)
      invariant forall i' :: i <= i' <= a ==> dp[i', 0] == i'
    {
      FillRow(dp, s1, s2, i);
    }
    assert s1[..a] == s1 && s2[..b] == s2;
    d := dp[a, b];
  }

  /** Fills row i of the table from the row above it. */
  method FillRow(dp: array2<nat>, s1: string, s2: string, i: nat)
    requires dp.Length0 == |s1| + 1 && dp.Length1 == |s2| + 1 && 0 < i <= |s1|
    requires RowsDone(dp, s1, s2, i) && dp[i, 0] == i
    modifies dp
    ensures RowsDone(dp, s1, s2, i + 1)
    ensures forall i', j' :: 0 <= i' < dp.Length0 && i' != i && 0 <= j' < dp.Length1 ==> dp[i', j'] == old(dp[i', j'])
  {
    assert dp[i, 0] == Cell(s1, s2, i, 0) by {
      assert s2[..0] == [];
    }
    for j := 1 to |s2| + 1
      invariant RowsDone(dp, s1, s2, i)
      invariant forall j' :: 0 <= j' < j ==> dp[i, j'] == Cell(s1, s2, i, j')
      invariant forall i', j' :: 0 <= i' < dp.Length0 && i' != i && 0 <= j' < dp.Length1 ==> dp[i', j'] == old(dp[i', j'])
    {
      var cost := if s1[i - 1] == s2[j - 1] then 0 else 1;
      DistanceStep(s1, s2, i, j);
      dp[i, j] := Min3(dp[i - 1, j] + 1, dp[i, j - 1] + 1, dp[i - 1, j - 1] + cost);
    }
  }

  /** One cell of the table from its three neighbours. */
  lemma DistanceStep(s: string, t: string, i: nat, j: nat)
    requires 0 < i <= |s| && 0 < j <= |t|
    ensures Cell(s, t, i, j) ==
      Min3(Cell(s, t, i - 1, j) + 1, Cell(s, t, i, j - 1) + 1,
           Cell(s, t, i - 1, j - 1) + (if s[i - 1] == t[j - 1] then 0 else 1))
  {
    assert s[..i][..i - 1] == s[..i - 1];
    assert t[..j][..j - 1] == t[..j - 1];
  }

  /** Against the empty string the distance is the other string's length. */
  lemma DistanceToEmpty(s: string)
    ensures Distance(s, "") == |s| && Distance("", s) == |s|
  {
  }

  /** A string is at distance 0 from itself. */
  lemma {:induction false} DistanceSelf(s: string)
    ensures Distance(s, s) == 0
    decreases |s|
  {
    if |s| > 0 {
      DistanceSelf(s[..|s| - 1]);
    }
  }

  /** The distance does not depend on the order of its arguments. */
  lemma {:induction false} DistanceSymmetric(s: string, t: string)
    ensures Distance(s, t) == Distance(t, s)
    decreases |s| + |t|
  {
    if |s| > 0 && |t| > 0 {
      DistanceSymmetric(s[..|s| - 1], t);
      DistanceSymmetric(s, t[..|t| - 1]);
      DistanceSymmetric(s[..|s| - 1], t[..|t| - 1]);
    }
  }

  /** The distance is at least the difference of the lengths and at most the
    * longer length. */
  lemma {:induction false} DistanceBounds(s: string, t: string)
    ensures Distance(s, t) >= |s| - |t| && Distance(s, t) >= |t| - |s|
    ensures Distance(s, t) <= if |s| >= |t| then |s| else |t|
    decreases |s| + |t|
  {
    if |s| > 0 && |t| > 0 {
      DistanceBounds(s[..|s| - 1], t);
      DistanceBounds(s, t[..|t| - 1]);
      DistanceBounds(s[..|s| - 1], t[..|t| - 1]);
    }
  }

  // ---------------------------------------------------------------------
  // Day-of-month suffix

  /** JavaScript's `%`, which keeps the sign of the dividend. */
  function JsRem(a: int, b: int): int
    requires b > 0
  {
    if a >= 0 then a % b else -((-a) % b)
  }

  /** `getDaySuffix`. */
  function DaySuffix(day: int): string {
    if day > 3 && day < 21 then "th"
    else
      var last := JsRem(day, 10);
      if last == 1 then "st" else if last == 2 then "nd" else if last == 3 then "rd" else "th"
  }

  /** Over the days of a month: 1, 21 and 31 take "st", 2 and 22 take "nd",
    * 3 and 23 take "rd", and every other day takes "th". */
  lemma DaySuffixOfMonthDays(day: int)
    requires 1 <= day <= 31
    ensures DaySuffix(day) == "st" <==> day == 1 || day == 21 || day == 31
    ensures DaySuffix(day) == "nd" <==> day == 2 || day == 22
    ensures DaySuffix(day) == "rd" <==> day == 3 || day == 23
    ensures DaySuffix(day) == "th" <==> !(day in {1, 2, 3, 21, 22, 23, 31})
  {
  }

  /** The teens take "th" even though they end in 1, 2 or 3. */
  lemma DaySuffixTeens(day: int)
    requires 4 <= day <= 20
    ensures DaySuffix(day) == "th"
  {
  }

  // ---------------------------------------------------------------------
  // Flow data

  /** A flow-data value: a boolean for "true" or "false", otherwise text. */
  datatype Value = Bool(b: bool) | Str(s: string)

  /** The value of an item: "true" or "false" in any letter case and with
    * surrounding spaces becomes a boolean; anything else is the trimmed text. */
  function ParseValue(v: string): Value {
    var t := ToLower(Trim(v));
    if t == "true" then Bool(true) else if t == "false" then Bool(false) else Str(Trim(v))
  }

  /** One `key:value` item: the key is the text before the first `:`, the
    * value the text between it and any second `:`. An item whose raw key or
    * value is empty is skipped; both are trimmed afterwards. */
  function ParseItem(item: string): Option<Entry<Value>> {
    var parts := Split(item, ':');
    if parts[0] == "" || |parts| < 2 || parts[1] == "" then None
    else Some(Entry(Trim(parts[0]), ParseValue(parts[1])))
  }

  /** The items of the flow data; absent or empty flow data has none. */
  function FlowItems(flowData: Option<string>): seq<string> {
    if flowData.None? || flowData.value == "" then [] else Split(flowData.value, ';')
  }

  /** The mapping after the items are assigned in order. */
  function ApplyItems(m: seq<Entry<Value>>, items: seq<string>): seq<Entry<Value>>
    decreases |items|
  {
    if items == [] then m
    else
      var before := ApplyItems(m, items[..|items| - 1]);
      match ParseItem(items[|items| - 1])
      case None => before
      case Some(e) => Put(before, e.key, e.value)
  }

  /** One more item applies its entry, if it has one, to the mapping so far. */
  lemma ApplyItemsStep(m: seq<Entry<Value>>, items: seq<string>, i: nat)
    requires i < |items|
    ensures var e := ParseItem(items[i]); var before := ApplyItems(m, items[..i]);
      ApplyItems(m, items[..i + 1]) == if e.Some? then Put(before, e.value.key, e.value.value) else before
  {
    assert items[..i + 1][..i] == items[..i];
  }

  /** `processFlowData`: the items, then `currentDate` set to today's text. */
  function ProcessedMapping(m: seq<Entry<Value>>, flowData: Option<string>, currentDate: string): seq<Entry<Value>> {
    Put(ApplyItems(m, FlowItems(flowData)), "currentDate", Str(currentDate))
  }

  /** The value the last item naming `key` gives it, if an item does. */
  function LastValue(items: seq<string>, key: string): Option<Value>
    decreases |items|
  {
    if items == [] then None
    else
      var e := ParseItem(items[|items| - 1]);
      if e.Some? && e.value.key == key then Some(e.value.value)
      else LastValue(items[..|items| - 1], key)
  }

  /** An item `k:v`, or `k:v:...`, with non-empty k and v assigns the trimmed
    * key the parsed value. */
  lemma ParseItemOfPair(k: string, v: string, rest: string)
    requires ':' !in k && ':' !in v && k != "" && v != ""
    requires rest == "" || rest[0] == ':'
    ensures ParseItem(k + [':'] + v + rest) == Some(Entry(Trim(k), ParseValue(v)))
  {
    AppendAssoc(k + [':'], v, rest);
    SplitAfterPiece(k, ':', v + rest);
    if rest == "" {
      assert v + rest == v;
      SplitNoSep(v, ':');
    } else {
      assert v + rest == v + [':'] + rest[1..];
      SplitAfterPiece(v, ':', rest[1..]);
    }
  }

  /** Items without a value, or with nothing before the `:`, are skipped. */
  lemma ParseItemSkips(k: string, v: string)
    requires ':' !in k
    ensures ParseItem(k) == None
    ensures ParseItem(k + [':']) == None
    ensures ParseItem([':'] + v) == None
  {
    SplitNoSep(k, ':');
    SplitAfterPiece(k, ':', "");
    assert k + [':'] + "" == k + [':'];
    SplitAfterPiece("", ':', v);
    assert "" + [':'] + v == [':'] + v;
  }

  /** After the items, a key reads the value of the last item naming it, and
    * a key no item names keeps its earlier value. */
  lemma {:induction false} ApplyItemsLookup(m: seq<Entry<Value>>, items: seq<string>, key: string)
    ensures Lookup(ApplyItems(m, items), key) ==
      if LastValue(items, key).Some? then LastValue(items, key) else Lookup(m, key)
    decreases |items|
  {
    if items != [] {
      var init := items[..|items| - 1];
      ApplyItemsLookup(m, init, key);
      var e := ParseItem(items[|items| - 1]);
      if e.Some? {
        PutLookup(ApplyItems(m, init), e.value.key, e.value.value, key);
      }
    }
  }

  /** `currentDate` always reads today's text, whatever the flow data says;
    * every other key reads what the flow data last gave it, or its earlier
    * value. */
  lemma ProcessedMappingLookup(m: seq<Entry<Value>>, flowData: Option<string>, currentDate: string, key: string)
    ensures Lookup(ProcessedMapping(m, flowData, currentDate), key) ==
      if key == "currentDate" then Some(Str(currentDate))
      else if LastValue(FlowItems(flowData), key).Some? then LastValue(FlowItems(flowData), key)
      else Lookup(m, key)
  {
    var items := FlowItems(flowData);
    PutLookup(ApplyItems(m, items), "currentDate", Str(currentDate), key);
    ApplyItemsLookup(m, items, key);
  }

  /** The mapping stays a dictionary: no key twice. */
  lemma {:induction false} ApplyItemsDistinct(m: seq<Entry<Value>>, items: seq<string>)
    requires DistinctKeys(m)
    ensures DistinctKeys(ApplyItems(m, items))
    decreases |items|
  {
    if items != [] {
      var init := items[..|items| - 1];
      ApplyItemsDistinct(m, init);
      var e := ParseItem(items[|items| - 1]);
      if e.Some? {
        PutDistinct(ApplyItems(m, init), e.value.key, e.value.value);
      }
    }
  }

  // ---------------------------------------------------------------------
  // Template keys matched to flow-data keys

  /** Keys are compared lowercased and without the characters outside
    * `[a-zA-Z0-9]`. */
  function Normalize(s: string): string {
    Keep(ToLower(s), IsAlnum)
  }

  /** The largest distance at which a template key still takes a value. */
  const MatchThreshold: nat := 3

  /** The best candidate so far: its index and its distance. */
  datatype Match = Match(index: nat, distance: nat)

  /** The nearest name to key, scanning in order and replacing the candidate
    * only on a strictly smaller distance. */
  function BestMatch(key: string, names: seq<string>): (r: Option<Match>)
    ensures r.Some? ==> r.value.index < |names|
    decreases |names|
  {
    if names == [] then None
    else
      var best := BestMatch(key, names[..|names| - 1]);
      var d := Distance(Normalize(key), Normalize(names[|names| - 1]));
      if best.None? || d < best.value.distance then Some(Match(|names| - 1, d)) else best
  }

  /** m names the first of the names at the smallest distance from key. */
  ghost predicate FirstNearest(key: string, names: seq<string>, m: Match) {
    m.index < |names| &&
    m.distance == Distance(Normalize(key), Normalize(names[m.index])) &&
    (forall i :: 0 <= i < |names| ==> m.distance <= Distance(Normalize(key), Normalize(names[i]))) &&
    (forall i :: 0 <= i < m.index ==> m.distance < Distance(Normalize(key), Normalize(names[i])))
  }

  /** The chosen name is the first of those at the smallest distance, and
    * there is one whenever there are names. */
  lemma {:induction false} BestMatchIsFirstNearest(key: string, names: seq<string>)
    ensures BestMatch(key, names).None? <==> names == []
    ensures BestMatch(key, names).Some? ==> FirstNearest(key, names, BestMatch(key, names).value)
    decreases |names|
  {
    if names != [] {
      var init := names[..|names| - 1];
      BestMatchIsFirstNearest(key, init);
      var best := BestMatch(key, init);
      var d := Distance(Normalize(key), Normalize(names[|names| - 1]));
      if best.None? {
        assert init == [];
      } else if d < best.value.distance {
        NearestExtendedByNew(key, init, best.value, names[|names| - 1]);
        assert init + [names[|names| - 1]] == names;
      } else {
        NearestExtendedByOld(key, init, best.value, names[|names| - 1]);
        assert init + [names[|names| - 1]] == names;
      }
    }
  }

  lemma NearestExtendedByNew(key: string, names: seq<string>, m: Match, next: string)
    requires FirstNearest(key, names, m)
    requires Distance(Normalize(key), Normalize(next)) < m.distance
    ensures FirstNearest(key, names + [next], Match(|names|, Distance(Normalize(key), Normalize(next))))
  {
    var all := names + [next];
    forall i | 0 <= i < |names| ensures all[i] == names[i] { }
  }

  lemma NearestExtendedByOld(key: string, names: seq<string>, m: Match, next: string)
    requires FirstNearest(key, names, m)
    requires Distance(Normalize(key), Normalize(next)) >= m.distance
    ensures FirstNearest(key, names + [next], m)
  {
    var all := names + [next];
    forall i | 0 <= i < |names| ensures all[i] == names[i] { }
  }

  /** Whether a template key takes a value, and from which entry. */
  function Accepted(key: string, props: seq<Entry<Value>>): (r: Option<nat>)
    ensures r.Some? ==> r.value < |props|
  {
    var best := BestMatch(key, Keys(props));
    if best.Some? && best.value.distance <= MatchThreshold then Some(best.value.index) else None
  }

  /** `matchKeysToProperties`: each template key in turn takes the value of
    * its nearest flow-data key when that is near enough. */
  function MatchKeys(keys: seq<string>, props: seq<Entry<Value>>): seq<Entry<Value>>
    decreases |keys|
  {
    if keys == [] then []
    else
      var r := MatchKeys(keys[..|keys| - 1], props);
      var k := keys[|keys| - 1];
      var a := Accepted(k, props);
      if a.Some? then Put(r, k, props[a.value].value) else r
  }

  /** The result holds exactly the template keys that are accepted, each with
    * the value of its nearest flow-data key. */
  lemma {:induction false} MatchKeysLookup(keys: seq<string>, props: seq<Entry<Value>>, k: string)
    ensures Lookup(MatchKeys(keys, props), k) ==
      if k in keys && Accepted(k, props).Some? then Some(props[Accepted(k, props).value].value) else None
    decreases |keys|
  {
    if keys != [] {
      var init := keys[..|keys| - 1];
      var last := keys[|keys| - 1];
      MatchKeysLookup(init, props, k);
      assert keys == init + [last];
      var a := Accepted(last, props);
      if a.Some? {
        PutLookup(MatchKeys(init, props), last, props[a.value].value, k);
      }
    }
  }

  /** Only template keys appear in the result. */
  lemma MatchKeysSubset(keys: seq<string>, props: seq<Entry<Value>>, k: string)
    requires k in Keys(MatchKeys(keys, props))
    ensures k in keys
  {
    LookupSome(MatchKeys(keys, props), k);
    MatchKeysLookup(keys, props, k);
  }

  /** With no flow data at all, no template key takes a value. */
  lemma MatchKeysNoProps(keys: seq<string>, k: string)
    ensures Lookup(MatchKeys(keys, []), k) == None
  {
    MatchKeysLookup(keys, [], k);
  }

  /** The nearest-name scan of `matchKeysToProperties` for one template key. */
  method FindBestMatch(key: string, names: seq<string>) returns (best: Option<Match>)
    ensures best == BestMatch(key, names)
  {
    best := None;
    var i := 0;
    while i < |names|
      invariant 0 <= i <= |names|
      invariant best == BestMatch(key, names[..i])
    {
      var d := LevenshteinDistance(Normalize(key), Normalize(names[i]));
      assert names[..i + 1][..i] == names[..i];
      if best.None? || d < best.value.distance {
        best := Some(Match(i, d));
      }
      i := i + 1;
    }
    assert names[..i] == names;
  }

  /** The component's `mapping` of placeholder values. */
  class FlowMapping {
    var mapping: seq<Entry<Value>>

    constructor ()
      ensures mapping == []
    {
      mapping := [];
    }

    /** `processFlowData`. */
    method ProcessFlowData(flowData: Option<string>, currentDate: string)
      modifies this`mapping
      ensures mapping == ProcessedMapping(old(mapping), flowData, currentDate)
    {
      var items := FlowItems(flowData);
      ghost var m0 := mapping;
      var m := mapping;
      var i := 0;
      while i < |items|
        invariant 0 <= i <= |items|
        invariant m == ApplyItems(m0, items[..i])
      {
        ApplyItemsStep(m0, items, i);
        var e := ParseItem(items[i]);
        if e.Some? {
          m := Put(m, e.value.key, e.value.value);
        }
        i := i + 1;
      }
      assert items[..i] == items;
      assert m == ApplyItems(m0, FlowItems(flowData));
      mapping := Put(m, "currentDate", Str(currentDate));
    }

    /** `matchKeysToProperties` over the current mapping. */
    method MatchKeysToProperties(templateKeys: seq<string>) returns (result: seq<Entry<Value>>)
      ensures result == MatchKeys(templateKeys, mapping)
    {
      result := [];
      var i := 0;
      while i < |templateKeys|
        invariant 0 <= i <= |templateKeys|
        invariant result == MatchKeys(templateKeys[..i], mapping)
      {
        var k := templateKeys[i];
        assert templateKeys[..i + 1][..i] == templateKeys[..i];
        var best := FindBestMatch(k, Keys(mapping));
        if best.Some? && best.value.distance <= MatchThreshold {
          result := Put(result, k, mapping[best.value.index].value);
        }
        i := i + 1;
      }
      assert templateKeys[..i] == templateKeys;
    }
  }

  // ---------------------------------------------------------------------
  // Header keys

  predicate IsHeaderKey(key: string) {
    StartsWith(key, "HEADER")
  }

  /** A header key's label (its second `_`-separated piece) and custom field
    * (the pieces after that, joined back with `_`); a key without `_` has
    * neither. */
  function HeaderParts(key: string): Option<(string, string)> {
    var parts := Split(key, '_');
    if |parts| > 1 then Some((parts[1], Join(parts[2..], '_'))) else None
  }

  /** The custom fields collected for a label so far. */
  function FieldsOf(groups: seq<Entry<seq<string>>>, headerLabel: string): seq<string> {
    match Lookup(groups, headerLabel)
    case None => []
    case Some(fs) => fs
  }

  /** The grouping part of `processHeaderKeys`, over the header keys. */
  function GroupHeaders(keys: seq<string>): seq<Entry<seq<string>>>
    decreases |keys|
  {
    if keys == [] then []
    else
      var g := GroupHeaders(keys[..|keys| - 1]);
      match HeaderParts(keys[|keys| - 1])
      case None => g
      case Some((headerLabel, field)) => Put(g, headerLabel, FieldsOf(g, headerLabel) + [field])
  }

  /** The custom fields of the keys with a given label, in key order. */
  function LabelFields(keys: seq<string>, headerLabel: string): seq<string>
    decreases |keys|
  {
    if keys == [] then []
    else
      var fs := LabelFields(keys[..|keys| - 1], headerLabel);
      var h := HeaderParts(keys[|keys| - 1]);
      if h.Some? && h.value.0 == headerLabel then fs + [h.value.1] else fs
  }

  /** Each label's group lists the custom fields of exactly the keys with that
    * label, in the order of the keys. */
  lemma {:induction false} GroupHeadersFields(keys: seq<string>, headerLabel: string)
    ensures FieldsOf(GroupHeaders(keys), headerLabel) == LabelFields(keys, headerLabel)
    decreases |keys|
  {
    if keys != [] {
      var init := keys[..|keys| - 1];
      GroupHeadersFields(init, headerLabel);
      var h := HeaderParts(keys[|keys| - 1]);
      if h.Some? {
        var g := GroupHeaders(init);
        PutLookup(g, h.value.0, FieldsOf(g, h.value.0) + [h.value.1], headerLabel);
      }
    }
  }

  /** A key has a label exactly when it contains `_`, and it is the first
    * piece, the label and the custom field put back together. */
  lemma HeaderPartsRoundTrip(key: string)
    ensures HeaderParts(key).Some? <==> '_' in key
    ensures HeaderParts(key).Some? ==>
      var (headerLabel, field) := HeaderParts(key).value;
      var parts := Split(key, '_');
      key == parts[0] + "_" + headerLabel + (if |parts| > 2 then "_" + field else "")
  {
    SplitSeveral(key, '_');
    var parts := Split(key, '_');
    JoinSplit(key, '_');
    if |parts| > 1 {
      var rest := parts[1..];
      assert key == parts[0] + "_" + Join(rest, '_');
      if |parts| > 2 {
        assert rest[1..] == parts[2..];
        assert Join(rest, '_') == parts[1] + "_" + Join(parts[2..], '_');
      } else {
        assert Join(rest, '_') == parts[1];
      }
    }
  }

  /** `processHeaderKeys` up to the metadata fetch: the header keys of the
    * template, grouped by label. */
  method ProcessHeaderKeys(docKeys: seq<string>) returns (groups: seq<Entry<seq<string>>>)
    ensures groups == GroupHeaders(Filter(docKeys, IsHeaderKey))
  {
    var headerKeys := Filter(docKeys, IsHeaderKey);
    groups := [];
    var i := 0;
    while i < |headerKeys|
      invariant 0 <= i <= |headerKeys|
      invariant groups == GroupHeaders(headerKeys[..i])
    {
      assert headerKeys[..i + 1][..i] == headerKeys[..i];
      var key := headerKeys[i];
      var parts := Split(key, '_');
      if |parts| > 1 {
        var headerLabel := parts[1];
        var field := Join(parts[2..], '_');
        groups := Put(groups, headerLabel, FieldsOf(groups, headerLabel) + [field]);
      }
      i := i + 1;
    }
    assert headerKeys[..i] == headerKeys;
  }
}
