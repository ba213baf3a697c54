/**
 * The gitmoji page (app/git-mojis/page.tsx): the 24-entry table, the case-insensitive
 * search, the eight category tabs, the empty-result notices and the copy mark.
 */
module GitMojis {
  import opened Wrappers
  import opened Text
  import opened Lists

  datatype Category = Feature | Fix | Docs | Style | Refactor | Test | Chore | Other

  datatype GitMoji = GitMoji(emoji: string, code: string, description: string, category: Category)

  /** The table, in the order the page lists it. */
  const Table: seq<GitMoji> := seq(24, i requires 0 <= i < 24 => Entry(i))

  /** The entry at position `i` of the table. */
  function Entry(i: nat): GitMoji
    requires i < 24
  {
    match i
    case 0 => GitMoji("\U{2728}", Shortcode("sparkles"), "Introduce new features", Feature)
    case 1 => GitMoji("\U{1F41B}", Shortcode("bug"), "Fix a bug", Fix)
    case 2 => GitMoji("\U{1F525}", Shortcode("fire"), "Remove code or files", Chore)
    case 3 => GitMoji("\U{1F4DD}", Shortcode("memo"), "Add or update documentation", Docs)
    case 4 => GitMoji("\U{1F680}", Shortcode("rocket"), "Deploy stuff", Chore)
    case 5 => GitMoji("\U{1F484}", Shortcode("lipstick"), "Add or update the UI and style files", Style)
    case 6 => GitMoji("\U{1F389}", Shortcode("tada"), "Begin a project", Other)
    case 7 => GitMoji("\U{2705}", Shortcode("white_check_mark"), "Add, update, or pass tests", Test)
    case 8 => GitMoji("\U{1F512}", Shortcode("lock"), "Fix security issues", Fix)
    case 9 => GitMoji("\U{1F516}", Shortcode("bookmark"), "Release / Version tags", Chore)
    case 10 => GitMoji("\U{1F6A7}", Shortcode("construction"), "Work in progress", Other)
    case 11 => GitMoji("\U{267B}\U{FE0F}", Shortcode("recycle"), "Refactor code", Refactor)
    case 12 => GitMoji("\U{2795}", Shortcode("heavy_plus_sign"), "Add a dependency", Chore)
    case 13 => GitMoji("\U{2796}", Shortcode("heavy_minus_sign"), "Remove a dependency", Chore)
    case 14 => GitMoji("\U{1F527}", Shortcode("wrench"), "Add or update configuration files", Chore)
    case 15 => GitMoji("\U{1F528}", Shortcode("hammer"), "Add or update development scripts", Chore)
    case 16 => GitMoji("\U{1F4C8}", Shortcode("chart_with_upwards_trend"), "Add or update analytics or track code", Feature)
    case 17 => GitMoji("\U{267F}\U{FE0F}", Shortcode("wheelchair"), "Improve accessibility", Feature)
    case 18 => GitMoji("\U{1F69A}", Shortcode("truck"), "Move or rename resources (e.g.: files, paths, routes)", Chore)
    case 19 => GitMoji("\U{1F4A1}", Shortcode("bulb"), "Add or update comments in source code", Docs)
    case 20 => GitMoji("\U{1F371}", Shortcode("bento"), "Add or update assets", Feature)
    case 21 => GitMoji("\U{1F44C}", Shortcode("ok_hand"), "Update code due to code review changes", Style)
    case 22 => GitMoji("\U{1F3D7}\U{FE0F}", Shortcode("building_construction"), "Make architectural changes", Refactor)
    case 23 => GitMoji("\U{1F4F1}", Shortcode("iphone"), "Work on responsive design", Style)
  }

  /** The category tabs after "All", in the order the page renders them. */
  const TabCategories: seq<Category> := [Feature, Fix, Docs, Style, Refactor, Test, Chore, Other]

  /** The search test: the description or the code contains the term, ignoring case. */
  predicate SearchMatches(m: GitMoji, term: string) {
    ContainsIgnoringCase(m.description, term) || ContainsIgnoringCase(m.code, term)
  }

  /** `filteredGitMojis`, over the table the page holds (`Table`). */
  function Filtered(table: seq<GitMoji>, term: string): (r: seq<GitMoji>)
    ensures forall i :: 0 <= i < |r| ==> r[i] in table && SearchMatches(r[i], term)
    ensures forall i :: 0 <= i < |table| && SearchMatches(table[i], term) ==> table[i] in r
  {
    Filter(table, (m: GitMoji) => SearchMatches(m, term))
  }

  /** `getGitMojisByCategory`: the filtered entries of one category, in order. */
  function ByCategory(filtered: seq<GitMoji>, c: Category): (r: seq<GitMoji>)
    ensures forall i :: 0 <= i < |r| ==> r[i] in filtered && r[i].category == c
    ensures forall i :: 0 <= i < |filtered| && filtered[i].category == c ==> filtered[i] in r
  {
    Filter(filtered, (m: GitMoji) => m.category == c)
  }

  /** `:name:`. */
  function Shortcode(name: string): (code: string)
    ensures |code| == |name| + 2 && code[0] == ':' && code[|code| - 1] == ':'
    ensures code[1..|code| - 1] == name
  {
    ":" + name + ":"
  }

  /** The position of a name in the table, read off its length and its last two
      characters (no two names share both); -1 for a string that is not a name of the
      table. */
  function NameIndex(name: string): int {
    if |name| < 2 then -1
    else
      var n, x, y := |name|, name[|name| - 2], name[|name| - 1];
      if n == 3 then (if x == 'u' && y == 'g' then 1 else -1)
      else if n == 4 then
        (if x == 'r' && y == 'e' then 2
         else if x == 'm' && y == 'o' then 3
         else if x == 'd' && y == 'a' then 6
         else if x == 'c' && y == 'k' then 8
         else if x == 'l' && y == 'b' then 19
         else -1)
      else if n == 5 then
        (if x == 'c' && y == 'k' then 18
         else if x == 't' && y == 'o' then 20
         else -1)
      else if n == 6 then
        (if x == 'e' && y == 't' then 4
         else if x == 'c' && y == 'h' then 14
         else if x == 'e' && y == 'r' then 15
         else if x == 'n' && y == 'e' then 23
         else -1)
      else if n == 7 then
        (if x == 'l' && y == 'e' then 11
         else if x == 'n' && y == 'd' then 21
         else -1)
      else if n == 8 then
        (if x == 'e' && y == 's' then 0
         else if x == 'c' && y == 'k' then 5
         else if x == 'r' && y == 'k' then 9
         else -1)
      else if n == 10 then (if x == 'i' && y == 'r' then 17 else -1)
      else if n == 12 then (if x == 'o' && y == 'n' then 10 else -1)
      else if n == 15 then (if x == 'g' && y == 'n' then 12 else -1)
      else if n == 16 then
        (if x == 'r' && y == 'k' then 7
         else if x == 'g' && y == 'n' then 13
         else -1)
      else if n == 21 then (if x == 'o' && y == 'n' then 22 else -1)
      else if n == 24 then (if x == 'n' && y == 'd' then 16 else -1)
      else -1
  }

  /** The facts `TableCodes` states, for the entry at `i`. */
  lemma EntryFacts(i: nat)
    requires i < |Table|
    ensures var code := Table[i].code;
      |code| >= 3 && code[0] == ':' && code[|code| - 1] == ':' && NameIndex(code[1..|code| - 1]) == i
  {
    assert Table[i] == Entry(i);
    if i < 4 {
      EntryFactsFrom0(i);
    } else if i < 8 {
      EntryFactsFrom4(i);
    } else if i < 12 {
      EntryFactsFrom8(i);
    } else if i < 16 {
      EntryFactsFrom12(i);
    } else if i < 20 {
      EntryFactsFrom16(i);
    } else {
      EntryFactsFrom20(i);
    }
  }

  lemma EntryFactsFrom0(i: nat)
    requires 0 <= i < 4
    ensures var code := Entry(i).code;
      |code| >= 3 && code[0] == ':' && code[|code| - 1] == ':' && NameIndex(code[1..|code| - 1]) == i
  {
    match i
    case 0 => ShortcodeFacts(Entry(i).code, "sparkles", 0);
    case 1 => ShortcodeFacts(Entry(i).code, "bug", 1);
    case 2 => ShortcodeFacts(Entry(i).code, "fire", 2);
    case 3 => ShortcodeFacts(Entry(i).code, "memo", 3);
  }

  lemma EntryFactsFrom4(i: nat)
    requires 4 <= i < 8
    ensures var code := Entry(i).code;
      |code| >= 3 && code[0] == ':' && code[|code| - 1] == ':' && NameIndex(code[1..|code| - 1]) == i
  {
    match i
    case 4 => ShortcodeFacts(Entry(i).code, "rocket", 4);
    case 5 => ShortcodeFacts(Entry(i).code, "lipstick", 5);
    case 6 => ShortcodeFacts(Entry(i).code, "tada", 6);
    case 7 => ShortcodeFacts(Entry(i).code, "white_check_mark", 7);
  }

  lemma EntryFactsFrom8(i: nat)
    requires 8 <= i < 12
    ensures var code := Entry(i).code;
      |code| >= 3 && code[0] == ':' && code[|code| - 1] == ':' && NameIndex(code[1..|code| - 1]) == i
  {
    match i
    case 8 => ShortcodeFacts(Entry(i).code, "lock", 8);
    case 9 => ShortcodeFacts(Entry(i).code, "bookmark", 9);
    case 10 => ShortcodeFacts(Entry(i).code, "construction", 10);
    case 11 => ShortcodeFacts(Entry(i).code, "recycle", 11);
  }

  lemma EntryFactsFrom12(i: nat)
    requires 12 <= i < 16
    ensures var code := Entry(i).code;
      |code| >= 3 && code[0] == ':' && code[|code| - 1] == ':' && NameIndex(code[1..|code| - 1]) == i
  {
    match i
    case 12 => ShortcodeFacts(Entry(i).code, "heavy_plus_sign", 12);
    case 13 => ShortcodeFacts(Entry(i).code, "heavy_minus_sign", 13);
    case 14 => ShortcodeFacts(Entry(i).code, "wrench", 14);
    case 15 => ShortcodeFacts(Entry(i).code, "hammer", 15);
  }

  lemma EntryFactsFrom16(i: nat)
    requires 16 <= i < 20
    ensures var code := Entry(i).code;
      |code| >= 3 && code[0] == ':' && code[|code| - 1] == ':' && NameIndex(code[1..|code| - 1]) == i
  {
    match i
    case 16 => ShortcodeFacts(Entry(i).code, "chart_with_upwards_trend", 16);
    case 17 => ShortcodeFacts(Entry(i).code, "wheelchair", 17);
    case 18 => ShortcodeFacts(Entry(i).code, "truck", 18);
    case 19 => ShortcodeFacts(Entry(i).code, "bulb", 19);
  }

  lemma EntryFactsFrom20(i: nat)
    requires 20 <= i < 24
    ensures var code := Entry(i).code;
      |code| >= 3 && code[0] == ':' && code[|code| - 1] == ':' && NameIndex(code[1..|code| - 1]) == i
  {
    match i
    case 20 => ShortcodeFacts(Entry(i).code, "bento", 20);
    case 21 => ShortcodeFacts(Entry(i).code, "ok_hand", 21);
    case 22 => ShortcodeFacts(Entry(i).code, "building_construction", 22);
    case 23 => ShortcodeFacts(Entry(i).code, "iphone", 23);
  }

  lemma ShortcodeFacts(code: string, name: string, i: int)
    requires code == Shortcode(name) && |name| >= 1 && NameIndex(name) == i
    ensures |code| >= 3 && code[0] == ':' && code[|code| - 1] == ':' && NameIndex(code[1..|code| - 1]) == i
  {
  }

  /** Every code in the table starts and ends with a colon with a name between, and no two
      entries share a code. */
  lemma TableCodes()
    ensures |Table| == 24
    ensures forall i :: 0 <= i < |Table| ==> |Table[i].code| >= 3 && Table[i].code[0] == ':' && Table[i].code[|Table[i].code| - 1] == ':'
    ensures forall i, j :: 0 <= i < j < |Table| ==> Table[i].code != Table[j].code
  {
    forall i | 0 <= i < |Table| ensures |Table[i].code| >= 3 && Table[i].code[0] == ':' && Table[i].code[|Table[i].code| - 1] == ':' {
      EntryFacts(i);
    }
    forall i, j | 0 <= i < j < |Table| ensures Table[i].code != Table[j].code {
      EntryFacts(i);
      EntryFacts(j);
    }
  }

  /** With an empty search term every entry is shown: every string contains the empty
      string. */
  lemma EmptySearchKeepsAll(table: seq<GitMoji>)
    ensures Filtered(table, "") == table
  {
    assert Lower("") == "";
    forall i | 0 <= i < |table| ensures SearchMatches(table[i], "") {
      ContainsEmpty(Lower(table[i].description));
    }
    FilterKeepsAll(table, (m: GitMoji) => SearchMatches(m, ""));
  }

  /** Each shown entry sits in exactly one category tab: the tabs cover all eight
      categories, and a tab holds only its own category. */
  lemma EachEntryInOneTab(filtered: seq<GitMoji>, i: nat, c: Category)
    requires i < |filtered|
    ensures filtered[i].category in TabCategories
    ensures filtered[i] in ByCategory(filtered, c) <==> c == filtered[i].category
  {
  }

  /** How many cards the eight category tabs show in total. */
  function TabTotal(filtered: seq<GitMoji>): nat {
    |ByCategory(filtered, Feature)| + |ByCategory(filtered, Fix)| + |ByCategory(filtered, Docs)| +
    |ByCategory(filtered, Style)| + |ByCategory(filtered, Refactor)| + |ByCategory(filtered, Test)| +
    |ByCategory(filtered, Chore)| + |ByCategory(filtered, Other)|
  }

  lemma ByCategoryStep(filtered: seq<GitMoji>, c: Category)
    requires filtered != []
    ensures |ByCategory(filtered, c)| == (if filtered[0].category == c then 1 else 0) + |ByCategory(filtered[1..], c)|
  {
    var head := if filtered[0].category == c then [filtered[0]] else [];
    assert ByCategory(filtered, c) == head + ByCategory(filtered[1..], c);
  }

  /** The eight tabs together show every entry of "All" exactly once. */
  lemma {:induction false} TabsPartition(filtered: seq<GitMoji>)
    ensures TabTotal(filtered) == |filtered|
    decreases |filtered|
  {
    if filtered != [] {
      ByCategoryStep(filtered, Feature);
      ByCategoryStep(filtered, Fix);
      ByCategoryStep(filtered, Docs);
      ByCategoryStep(filtered, Style);
      ByCategoryStep(filtered, Refactor);
      ByCategoryStep(filtered, Test);
      ByCategoryStep(filtered, Chore);
      ByCategoryStep(filtered, Other);
      TabsPartition(filtered[1..]);
    }
  }

  /** "No Git Mojis found" shows under "All" exactly when every category tab shows its own
      empty notice. */
  lemma NoticesAgree(filtered: seq<GitMoji>)
    ensures |filtered| == 0 <==> forall c :: c in TabCategories ==> |ByCategory(filtered, c)| == 0
  {
    if filtered != [] {
      EachEntryInOneTab(filtered, 0, filtered[0].category);
    }
  }

  /** The copy button's label. */
  function CopyLabel(copiedCode: Option<string>, code: string): string {
    if copiedCode == Some(code) then "Copied!" else "Copy"
  }

  /** Codes are distinct, so at most one entry of the table shows "Copied!". */
  lemma AtMostOneCopied(copiedCode: Option<string>, i: nat, j: nat)
    requires i < |Table| && j < |Table|
    requires CopyLabel(copiedCode, Table[i].code) == "Copied!" && CopyLabel(copiedCode, Table[j].code) == "Copied!"
    ensures i == j
  {
    TableCodes();
  }

  class GitMojisPage {
    var searchTerm: string
    var copiedCode: Option<string>

    constructor()
      ensures searchTerm == "" && copiedCode == None
    {
      searchTerm := "";
      copiedCode := None;
    }

    /** The search box's `onChange`. */
    method Search(term: string)
      modifies this
      ensures searchTerm == term && copiedCode == old(copiedCode)
    {
      searchTerm := term;
    }

    /** `copyToClipboard`: the write is not awaited, and the card is marked at once. */
    method CopyToClipboard(code: string)
      modifies this
      ensures copiedCode == Some(code) && searchTerm == old(searchTerm)
    {
      copiedCode := Some(code);
    }

    /** The 2000 ms timer of `copyToClipboard`: it clears the mark whatever it names now,
        so the timer of an earlier copy also clears the mark of a later one. */
    method CopyTimerFired()
      modifies this
      ensures copiedCode == None && searchTerm == old(searchTerm)
    {
      copiedCode := None;
    }
  }
}
