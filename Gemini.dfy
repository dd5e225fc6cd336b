/**
 * The non-network part of the AI content service (services/geminiService.ts):
 * which topic a round asks for, and how the reply's items are matched to the
 * region table by name.
 */
module Gemini {
  import opened Types

  /** One element of the reply's `items` array. */
  datatype AiItem = AiItem(prefectureName: string, content: string)

  /** One element of the matcher's result. */
  datatype AiEntry = AiEntry(prefectureCode: int, content: string)

  /** The content a region gets when no item matches it. */
  const Fallback: string := "？"

  const SouvenirTopic: string := "有名なお土産や特産品（子供にもわかるような短い名前、例: 白い恋人）"
  const DefaultCustomTopic: string := "有名な観光地"

  // ------------------------------------------------------------ topic choice

  /** What generateGameContent does before any network traffic. */
  datatype ContentRequest =
    | MissingKey           // getClient throws: no API key in the environment
    | NoRequest            // the mode is not an AI mode: the call resolves to null
    | Ask(topic: string)   // a request is sent with this prompt topic

  predicate IsAiMode(mode: GameMode)
  {
    mode == SOUVENIR || mode == CUSTOM
  }

  /** `customTopic || "有名な観光地"`: both an absent and an empty topic fall back. */
  function CustomTopicOrDefault(customTopic: Option<string>): string
  {
    if customTopic.None? || customTopic.value == "" then DefaultCustomTopic else customTopic.value
  }

  function RequestFor(mode: GameMode, customTopic: Option<string>, hasKey: bool): (r: ContentRequest)
    ensures !hasKey <==> r == MissingKey
    ensures hasKey ==> (r == NoRequest <==> !IsAiMode(mode))
    ensures r.Ask? ==> r.topic != ""
    ensures hasKey && mode == CUSTOM && customTopic.Some? && customTopic.value != "" ==> r == Ask(customTopic.value)
    ensures hasKey && mode == CUSTOM && (customTopic.None? || customTopic.value == "") ==> r == Ask(DefaultCustomTopic)
    ensures hasKey && mode == SOUVENIR ==> r == Ask(SouvenirTopic)
  {
    if !hasKey then MissingKey
    else match mode
      case SOUVENIR => Ask(SouvenirTopic)
      case CUSTOM => Ask(CustomTopicOrDefault(customTopic))
      case _ => NoRequest
  }

  // ------------------------------------------------------------ string matching

  /** String.prototype.includes: `sub` occurs in `s` at some offset. */
  predicate Includes(s: string, sub: string)
  {
    exists i :: 0 <= i <= |s| - |sub| && OccursAt(s, sub, i)
  }

  /** `sub` occurs in `s` starting at offset `i`. */
  predicate OccursAt(s: string, sub: string, i: int)
  {
    0 <= i <= |s| - |sub| && s[i..i + |sub|] == sub
  }

  lemma IncludesEmptyAndSelf(s: string)
    ensures Includes(s, "") && Includes(s, s)
  {
    assert OccursAt(s, "", 0);
    assert OccursAt(s, s, 0);
  }

  /** A string never includes a longer one. */
  lemma IncludesNoLonger(s: string, sub: string)
    requires Includes(s, sub)
    ensures |sub| <= |s|
  {
  }

  /** includes is the "occurs as a slice" relation: prefix plus occurrence plus suffix. */
  lemma IncludesIffSplit(s: string, sub: string)
    ensures Includes(s, sub) <==> exists i, j :: 0 <= i <= j <= |s| && s == s[..i] + sub + s[j..]
  {
    if Includes(s, sub) {
      var i :| 0 <= i <= |s| - |sub| && OccursAt(s, sub, i);
      var j := i + |sub|;
      assert s == s[..i] + s[i..j] + s[j..];
    }
    if exists i, j :: 0 <= i <= j <= |s| && s == s[..i] + sub + s[j..] {
      var i, j :| 0 <= i <= j <= |s| && s == s[..i] + sub + s[j..];
      assert |s| == i + |sub| + (|s| - j);
      assert s[i..i + |sub|] == sub;
      assert OccursAt(s, sub, i);
    }
  }

  /** The predicate of the matcher's find: equal, containing, or contained. */
  predicate Matches(item: AiItem, name: string)
  {
    name == item.prefectureName || Includes(item.prefectureName, name) || Includes(name, item.prefectureName)
  }

  /** Array.prototype.find with Matches: the first matching item. */
  function FirstMatch(items: seq<AiItem>, name: string): (r: Option<AiItem>)
    ensures r.None? <==> forall k :: 0 <= k < |items| ==> !Matches(items[k], name)
    ensures r.Some? ==> exists k :: 0 <= k < |items| && items[k] == r.value && Matches(items[k], name) &&
                                    forall j :: 0 <= j < k ==> !Matches(items[j], name)
  {
    if items == [] then None
    else if Matches(items[0], name) then Some(items[0])
    else
      var r := FirstMatch(items[1..], name);
      assert forall k :: 1 <= k < |items| ==> items[k] == items[1..][k - 1];
      r
  }

  /** The content the matcher gives the region called `name`. */
  function ContentFor(items: seq<AiItem>, name: string): (c: string)
    ensures (forall k :: 0 <= k < |items| ==> !Matches(items[k], name)) ==> c == Fallback
    ensures forall k :: (0 <= k < |items| && Matches(items[k], name) &&
                         forall j :: 0 <= j < k ==> !Matches(items[j], name)) ==> c == items[k].content
  {
    var r := FirstMatch(items, name);
    if r.Some? then
      var k :| 0 <= k < |items| && items[k] == r.value && Matches(items[k], name) &&
               forall j :: 0 <= j < k ==> !Matches(items[j], name);
      FirstMatchIndexUnique(items, name, k);
      r.value.content
    else Fallback
  }

  lemma FirstMatchIndexUnique(items: seq<AiItem>, name: string, k: nat)
    requires k < |items| && Matches(items[k], name)
    requires forall j :: 0 <= j < k ==> !Matches(items[j], name)
    ensures forall m :: (0 <= m < |items| && Matches(items[m], name) &&
                         forall j :: 0 <= j < m ==> !Matches(items[j], name)) ==> m == k
  {
  }

  /** Skipping items that do not match leaves the first match where it was. */
  lemma FirstMatchAfterMisses(items: seq<AiItem>, name: string, k: nat)
    requires k < |items| && !Matches(items[k], name)
    ensures FirstMatch(items[k..], name) == FirstMatch(items[k + 1..], name)
  {
    assert items[k..][1..] == items[k + 1..];
  }

  /** The find loop of the matcher. */
  method FindMatch(items: seq<AiItem>, name: string) returns (found: Option<AiItem>)
    ensures found == FirstMatch(items, name)
  {
    var k := 0;
    while k < |items|
      invariant 0 <= k <= |items|
      invariant FirstMatch(items, name) == FirstMatch(items[k..], name)
    {
      var item := items[k];
      if name == item.prefectureName || Includes(item.prefectureName, name) || Includes(name, item.prefectureName) {
        return Some(item);
      }
      FirstMatchAfterMisses(items, name, k);
      k := k + 1;
    }
    return None;
  }

  /**
   * mapAiResponseToIds, as written: one entry per region of the table, in
   * table order, carrying the content of the first item that matches the
   * region's name, or the fallback.
   */
  method MapAiResponseToIds(table: seq<Prefecture>, items: seq<AiItem>) returns (mapped: seq<AiEntry>)
    ensures |mapped| == |table|
    ensures forall i :: 0 <= i < |table| ==> mapped[i] == AiEntry(table[i].code, ContentFor(items, table[i].name))
  {
    mapped := [];
    for i := 0 to |table|
      invariant |mapped| == i
      invariant forall m :: 0 <= m < i ==> mapped[m] == AiEntry(table[m].code, ContentFor(items, table[m].name))
    {
      var p := table[i];
      var found := FindMatch(items, p.name);
      if found.Some? {
        mapped := mapped + [AiEntry(p.code, found.value.content)];
      } else {
        mapped := mapped + [AiEntry(p.code, Fallback)];
      }
    }
  }

  /** The entries the as-written matcher produces, as a value. */
  function MatchedEntries(table: seq<Prefecture>, items: seq<AiItem>): seq<AiEntry>
  {
    seq(|table|, i requires 0 <= i < |table| => AiEntry(table[i].code, ContentFor(items, table[i].name)))
  }

  /** An item with an empty name matches every region, since every string includes "". */
  lemma EmptyNameMatchesEveryRegion(item: AiItem, name: string)
    requires item.prefectureName == ""
    ensures Matches(item, name)
  {
    IncludesEmptyAndSelf(name);
  }

  /** Once an item with an empty name is present, no region gets the fallback through it being unmatched. */
  lemma EmptyNameItemLeavesNoFallback(items: seq<AiItem>, name: string, k: nat)
    requires k < |items| && items[k].prefectureName == ""
    ensures FirstMatch(items, name).Some?
  {
    EmptyNameMatchesEveryRegion(items[k], name);
  }

  /** A region that some item matches takes its content from that item or from an earlier matching one. */
  lemma MatchedRegionTakesEarliestItem(items: seq<AiItem>, name: string, k: nat)
    requires k < |items| && Matches(items[k], name)
    ensures exists m :: 0 <= m <= k && Matches(items[m], name) && ContentFor(items, name) == items[m].content
  {
    var r := FirstMatch(items, name);
    var m :| 0 <= m < |items| && items[m] == r.value && Matches(items[m], name) &&
             forall j :: 0 <= j < m ==> !Matches(items[j], name);
    assert m <= k;
  }

  // ------------------------------------------------------------ the Kyoto case

  /** The region table names Tokyo and Kyoto without their suffixes (constants.ts). */
  const Tokyo: string := "東京"
  const Kyoto: string := "京都"

  /**
   * A reply that names both regions in full, Tokyo first as in code order:
   * Kyoto is given Tokyo's answer, because "東京都" includes "京都".
   */
  lemma KyotoTakesTokyoAnswer()
    ensures var items := [AiItem("東京都", "雷おこし"), AiItem("京都府", "八ツ橋")];
            ContentFor(items, Kyoto) == "雷おこし" && ContentFor(items, Tokyo) == "雷おこし"
  {
    var items := [AiItem("東京都", "雷おこし"), AiItem("京都府", "八ツ橋")];
    assert OccursAt("東京都", Kyoto, 1);
    assert Matches(items[0], Kyoto);
    assert OccursAt("東京都", Tokyo, 0);
    assert Matches(items[0], Tokyo);
  }

  /** The suffixes a full region name carries after the name in the table. */
  const RegionSuffixes: string := "都道府県"

  /** The item names this very region: the table name itself or the table name and one suffix. */
  predicate NamesRegion(itemName: string, name: string)
  {
    itemName == name ||
    (|itemName| == |name| + 1 && itemName[..|name|] == name && itemName[|name|] in RegionSuffixes)
  }

  /** The first item that names the region itself. */
  function FirstOwnItem(items: seq<AiItem>, name: string): (r: Option<AiItem>)
    ensures r.None? <==> forall k :: 0 <= k < |items| ==> !NamesRegion(items[k].prefectureName, name)
    ensures r.Some? ==> exists k :: 0 <= k < |items| && items[k] == r.value && NamesRegion(items[k].prefectureName, name) &&
                                    forall j :: 0 <= j < k ==> !NamesRegion(items[j].prefectureName, name)
  {
    if items == [] then None
    else if NamesRegion(items[0].prefectureName, name) then Some(items[0])
    else
      var r := FirstOwnItem(items[1..], name);
      assert forall k :: 1 <= k < |items| ==> items[k] == items[1..][k - 1];
      r
  }

  /**
   * The matcher as evidently intended: an item that names the region itself
   * wins; only when there is none does the containment match decide.
   */
  function ContentPreferringOwn(items: seq<AiItem>, name: string): (c: string)
    ensures (forall k :: 0 <= k < |items| ==> !NamesRegion(items[k].prefectureName, name)) ==> c == ContentFor(items, name)
    ensures forall k :: (0 <= k < |items| && NamesRegion(items[k].prefectureName, name) &&
                         forall j :: 0 <= j < k ==> !NamesRegion(items[j].prefectureName, name)) ==> c == items[k].content
  {
    var r := FirstOwnItem(items, name);
    if r.Some? then
      var k :| 0 <= k < |items| && items[k] == r.value && NamesRegion(items[k].prefectureName, name) &&
               forall j :: 0 <= j < k ==> !NamesRegion(items[j].prefectureName, name);
      assert forall m :: (0 <= m < |items| && NamesRegion(items[m].prefectureName, name) &&
                          forall j :: 0 <= j < m ==> !NamesRegion(items[j].prefectureName, name)) ==> m == k;
      r.value.content
    else ContentFor(items, name)
  }

  /** With the intended matcher, Kyoto and Tokyo each get their own answer from the same reply. */
  lemma CorrectedKyotoGetsOwnAnswer()
    ensures var items := [AiItem("東京都", "雷おこし"), AiItem("京都府", "八ツ橋")];
            ContentPreferringOwn(items, Kyoto) == "八ツ橋" && ContentPreferringOwn(items, Tokyo) == "雷おこし"
  {
    var items := [AiItem("東京都", "雷おこし"), AiItem("京都府", "八ツ橋")];
    assert "京都府"[..2] == Kyoto && "京都府"[2] == '府';
    assert "東京都"[..2] == Tokyo && Tokyo[0] != Kyoto[0];
    assert !NamesRegion(items[0].prefectureName, Kyoto);
    assert NamesRegion(items[1].prefectureName, Kyoto);
    assert "東京都"[..2] == Tokyo && "東京都"[2] == '都';
    assert NamesRegion(items[0].prefectureName, Tokyo);
  }

  /** An item that names its region in full always matches it under the as-written rule too. */
  lemma NamesRegionImpliesMatches(item: AiItem, name: string)
    requires NamesRegion(item.prefectureName, name)
    ensures Matches(item, name)
  {
    if item.prefectureName != name {
      assert OccursAt(item.prefectureName, name, 0);
    }
  }

  /** The find loop of the intended matcher's first pass. */
  method FindOwnItem(items: seq<AiItem>, name: string) returns (found: Option<AiItem>)
    ensures found == FirstOwnItem(items, name)
  {
    var k := 0;
    while k < |items|
      invariant 0 <= k <= |items|
      invariant FirstOwnItem(items, name) == FirstOwnItem(items[k..], name)
    {
      var item := items[k];
      if NamesRegion(item.prefectureName, name) {
        return Some(item);
      }
      assert items[k..][1..] == items[k + 1..];
      k := k + 1;
    }
    return None;
  }

  /** mapAiResponseToIds with the intended matcher: same shape, own items first. */
  method MapAiResponseToIdsPreferringOwn(table: seq<Prefecture>, items: seq<AiItem>) returns (mapped: seq<AiEntry>)
    ensures |mapped| == |table|
    ensures forall i :: 0 <= i < |table| ==> mapped[i] == AiEntry(table[i].code, ContentPreferringOwn(items, table[i].name))
  {
    mapped := [];
    for i := 0 to |table|
      invariant |mapped| == i
      invariant forall m :: 0 <= m < i ==> mapped[m] == AiEntry(table[m].code, ContentPreferringOwn(items, table[m].name))
    {
      var p := table[i];
      var own := FindOwnItem(items, p.name);
      if own.Some? {
        mapped := mapped + [AiEntry(p.code, own.value.content)];
      } else {
        var found := FindMatch(items, p.name);
        mapped := mapped + [AiEntry(p.code, if found.Some? then found.value.content else Fallback)];
      }
    }
  }

  /** The entries the intended matcher produces, as a value. */
  function MatchedEntriesPreferringOwn(table: seq<Prefecture>, items: seq<AiItem>): seq<AiEntry>
  {
    seq(|table|, i requires 0 <= i < |table| => AiEntry(table[i].code, ContentPreferringOwn(items, table[i].name)))
  }
}
