/** Writing a whole section/key/value map to text and parsing the text again. */
module TomlConfigs {
  import opened Options
  import opened TomlText
  import opened TomlParser
  import opened TomlRoundTrip
  import opened TomlDocuments

  const FRESH: Tables := Tables("", [], map[])

  predicate OneLine(s: string) {
    '\n' !in s
  }

  predicate StorableEntry(section: string, key: string, value: string) {
    && section != "" && GoodSection(section) && OneLine(section)
    && GoodKey(key) && OneLine(key)
    && GoodValue(value) && OneLine(value)
  }

  /** The names and values the file format can carry. */
  ghost predicate Storable(keys: Keys) {
    forall s, k :: Get(keys, s, k).Some? ==> StorableEntry(s, k, Get(keys, s, k).value)
  }

  ghost predicate SameEntries(a: Keys, b: Keys) {
    forall s, k :: Get(a, s, k) == Get(b, s, k)
  }

  // ------------------------------------------------------------------------- writing

  /** One header to write, and the keys to write under it. */
  datatype Entry = Entry(name: string, names: seq<string>)

  /**
   * The entries name everything in the map and nothing else. Sections and keys come in any
   * order; a section may be spread over several headers and a key written more than once.
   */
  ghost predicate Enumerates(order: seq<Entry>, keys: Keys) {
    && (forall e :: e in order ==> Within(e, keys))
    && (forall s, k :: Get(keys, s, k).Some? ==> Covered(order, s, k))
  }

  predicate Within(e: Entry, keys: Keys) {
    e.name in keys && e.names != [] && forall k :: k in e.names ==> k in keys[e.name]
  }

  ghost predicate Covered(order: seq<Entry>, s: string, k: string) {
    exists e :: e in order && e.name == s && k in e.names
  }

  function BindingsOf(m: map<string, string>, names: seq<string>): seq<Item>
    requires forall k :: k in names ==> k in m
  {
    if names == [] then [] else [Plain(names[0], m[names[0]])] + BindingsOf(m, names[1..])
  }

  /** The lines of the map in the given order: [name], then key = "value" for each key. */
  function ItemsOf(keys: Keys, order: seq<Entry>): seq<Item>
    requires forall e :: e in order ==> Within(e, keys)
  {
    if order == [] then []
    else
      assert Within(order[0], keys);
      [PlainHeader(order[0].name)] + BindingsOf(keys[order[0].name], order[0].names) + ItemsOf(keys, order[1..])
  }

  function TextOf(keys: Keys, order: seq<Entry>): string
    requires forall e :: e in order ==> Within(e, keys)
  {
    JoinLines(ShowAll(ItemsOf(keys, order)))
  }

  /** There is such an order for every map. */
  lemma {:induction false} SomeOrder(keys: Keys) returns (order: seq<Entry>)
    ensures Enumerates(order, keys)
    decreases |keys|
  {
    if s :| s in keys {
      var keys' := keys - {s};
      var rest := SomeOrder(keys');
      var names := SomeNames(keys[s]);
      order := if names == [] then rest else [Entry(s, names)] + rest;
      forall s', k | Get(keys, s', k).Some? ensures Covered(order, s', k) {
        if s' == s {
          assert Entry(s, names) in order;
        } else {
          assert Get(keys', s', k).Some? && Covered(rest, s', k);
        }
      }
    } else {
      order := [];
    }
  }

  lemma {:induction false} SomeNames(m: map<string, string>) returns (names: seq<string>)
    ensures forall k :: k in names <==> k in m
    decreases |m|
  {
    if k :| k in m {
      var rest := SomeNames(m - {k});
      names := [k] + rest;
    } else {
      names := [];
    }
  }

  /** What a fresh parser makes of a text. */
  function Parse(text: string): Result {
    Read(FRESH, GetLines(text))
  }

  // ------------------------------------------------------------------ what was written

  lemma {:induction false} LookupInBindings(
      m: map<string, string>, names: seq<string>, rest: seq<Item>, current: string, s: string, k: string)
    requires forall name :: name in names ==> name in m
    ensures Lookup(current, BindingsOf(m, names) + rest, s, k) ==
            if current == s && k in names then Some(m[k]) else Lookup(current, rest, s, k)
    ensures current != "" ==> (Bound(current, BindingsOf(m, names) + rest) <==> Bound(current, rest))
    decreases |names|
  {
    if names == [] {
      assert BindingsOf(m, names) + rest == rest;
    } else {
      var doc := BindingsOf(m, names) + rest;
      assert doc[0] == Plain(names[0], m[names[0]]) && doc[1..] == BindingsOf(m, names[1..]) + rest;
      LookupInBindings(m, names[1..], rest, current, s, k);
    }
  }

  lemma {:induction false} LookupInItems(keys: Keys, order: seq<Entry>, current: string, s: string, k: string)
    requires forall e :: e in order ==> Within(e, keys) && e.name != ""
    ensures Lookup(current, ItemsOf(keys, order), s, k) == if Covered(order, s, k) then Get(keys, s, k) else None
    ensures Bound(current, ItemsOf(keys, order))
    decreases |order|
  {
    if order != [] {
      var e, doc := order[0], ItemsOf(keys, order);
      assert Within(e, keys);
      assert doc[0] == PlainHeader(e.name);
      assert doc[1..] == BindingsOf(keys[e.name], e.names) + ItemsOf(keys, order[1..]);
      LookupInBindings(keys[e.name], e.names, ItemsOf(keys, order[1..]), e.name, s, k);
      LookupInItems(keys, order[1..], e.name, s, k);
      CoveredFirst(order, s, k);
    }
  }

  lemma CoveredFirst(order: seq<Entry>, s: string, k: string)
    requires order != []
    ensures Covered(order, s, k) <==> (order[0].name == s && k in order[0].names) || Covered(order[1..], s, k)
  {
    if e :| e in order && e.name == s && k in e.names {
      assert e == order[0] || e in order[1..];
    }
    if e :| e in order[1..] && e.name == s && k in e.names {
      assert e in order;
    }
  }

  predicate CleanItem(item: Item) {
    WellWritten(item) && OneLine(Show(item))
  }

  predicate Clean(doc: seq<Item>) {
    forall i :: 0 <= i < |doc| ==> CleanItem(doc[i])
  }

  lemma PlainIsClean(section: string, key: string, value: string)
    requires StorableEntry(section, key, value)
    ensures CleanItem(PlainHeader(section)) && CleanItem(Plain(key, value))
  {
  }

  lemma {:induction false} BindingsAreClean(section: string, m: map<string, string>, names: seq<string>)
    requires forall k :: k in names ==> k in m && StorableEntry(section, k, m[k])
    ensures Clean(BindingsOf(m, names))
    decreases |names|
  {
    hide CleanItem, StorableEntry;
    if names != [] {
      PlainIsClean(section, names[0], m[names[0]]);
      BindingsAreClean(section, m, names[1..]);
    }
  }

  lemma {:induction false} ItemsAreClean(keys: Keys, order: seq<Entry>)
    requires Storable(keys) && forall e :: e in order ==> Within(e, keys)
    ensures Clean(ItemsOf(keys, order))
    ensures forall e :: e in order ==> e.name != ""
    decreases |order|
  {
    if order != [] {
      var e := order[0];
      EntryIsClean(keys, e);
      hide CleanItem, Within, Storable, BindingsOf;
      ItemsAreClean(keys, order[1..]);
    }
  }

  lemma EntryIsClean(keys: Keys, e: Entry)
    requires Storable(keys) && Within(e, keys)
    ensures CleanItem(PlainHeader(e.name)) && Clean(BindingsOf(keys[e.name], e.names)) && e.name != ""
  {
    hide CleanItem, Clean, BindingsOf;
    forall k | k in e.names ensures StorableEntry(e.name, k, keys[e.name][k]) {
      assert Get(keys, e.name, k) == Some(keys[e.name][k]);
    }
    PlainIsClean(e.name, e.names[0], keys[e.name][e.names[0]]);
    BindingsAreClean(e.name, keys[e.name], e.names);
  }

  lemma {:induction false} CleanLines(doc: seq<Item>)
    requires Clean(doc)
    ensures AllWellWritten(doc)
    ensures forall i :: 0 <= i < |doc| ==> '\n' !in ShowAll(doc)[i]
    decreases |doc|
  {
    if doc != [] {
      hide Show, WellWritten;
      assert CleanItem(doc[0]);
      assert forall i :: 0 <= i < |doc[1..]| ==> doc[1..][i] == doc[i + 1];
      CleanLines(doc[1..]);
      assert forall i :: 0 < i < |doc| ==> ShowAll(doc)[i] == ShowAll(doc[1..])[i - 1];
    }
  }

  // --------------------------------------------------------------------- the round trip

  /** Writing a storable map, in any order, and parsing the text gives every entry back, and no other. */
  lemma WrittenThenRead(keys: Keys, order: seq<Entry>)
    requires Storable(keys) && Enumerates(order, keys)
    ensures Parse(TextOf(keys, order)).ok && SameEntries(Parse(TextOf(keys, order)).tables.keys, keys)
  {
    hide ItemsOf, Clean, Storable, Get, Lookup, GetLines, JoinLines, Read, Bound, Within, Covered;
    var doc := ItemsOf(keys, order);
    ItemsAreClean(keys, order);
    CleanLines(doc);
    LinesRoundTrip(ShowAll(doc));
    ReadDocument(FRESH, doc);
    LookupInItems(keys, order, "", "", "");
    var r := Read(FRESH, ShowAll(doc)).tables;
    forall s, k ensures Get(r.keys, s, k) == Get(keys, s, k) {
      LookupInItems(keys, order, "", s, k);
      NothingYet(s, k);
    }
  }

  lemma NothingYet(s: string, k: string)
    ensures Get(FRESH.keys, s, k) == None
  {
  }

  predicate GoodTables(t: Tables) {
    t.current == "" || (GoodSection(t.current) && OneLine(t.current))
  }

  lemma ReadLineKeepsStorable(t: Tables, raw: string)
    requires Storable(t.keys) && GoodTables(t) && OneLine(raw)
    ensures Storable(ReadLine(t, raw).tables.keys) && GoodTables(ReadLine(t, raw).tables)
  {
    hide Classify, GoodSection, GoodKey, GoodValue, Get;
    if Classify(raw).Assign? {
      AssignIsGood(raw);
    } else if Classify(raw).Section? {
      SectionIsGood(raw);
    }
  }

  /** Whatever lines are read, even up to a refused one, only storable entries are stored. */
  lemma {:induction false} ReadKeepsStorable(t: Tables, lines: seq<string>)
    requires Storable(t.keys) && GoodTables(t)
    requires forall i :: 0 <= i < |lines| ==> OneLine(lines[i])
    ensures Storable(Read(t, lines).tables.keys)
    decreases |lines|
  {
    if lines != [] {
      hide ReadLine, Storable, GoodTables;
      ReadLineKeepsStorable(t, lines[0]);
      ReadKeepsStorable(ReadLine(t, lines[0]).tables, lines[1..]);
    }
  }

  /**
   * In whatever order the map is written, the round trip succeeds for exactly the storable
   * maps: trimmed names that contain no delimiter of their own, and values without '[',
   * '#' or newline.
   */
  lemma RoundTripIff(keys: Keys, order: seq<Entry>)
    requires Enumerates(order, keys)
    ensures Storable(keys) <==>
            Parse(TextOf(keys, order)).ok && SameEntries(Parse(TextOf(keys, order)).tables.keys, keys)
  {
    hide Parse, TextOf, Enumerates, Storable, SameEntries;
    if Storable(keys) {
      WrittenThenRead(keys, order);
    }
    var text := TextWhen(keys, order);
    ParsedIsStorable(text);
    if SameEntries(Parse(text).tables.keys, keys) {
      SameIsStorable(Parse(text).tables.keys, keys);
    }
  }

  lemma TextWhen(keys: Keys, order: seq<Entry>) returns (text: string)
    requires Enumerates(order, keys)
    ensures (forall e :: e in order ==> Within(e, keys)) && text == TextOf(keys, order)
  {
    text := TextOf(keys, order);
  }

  lemma SameIsStorable(a: Keys, b: Keys)
    requires Storable(a) && SameEntries(a, b)
    ensures Storable(b)
  {
  }

  lemma ParsedIsStorable(text: string)
    ensures Storable(Parse(text).tables.keys)
  {
    hide Read, GetLines, StorableEntry;
    GetLinesHaveNoNewline(text);
    assert Storable(FRESH.keys);
    ReadKeepsStorable(FRESH, GetLines(text));
  }

  /** Parsing any text, writing the tables out in any order and parsing again changes no entry. */
  lemma ReparseIsStable(text: string, order: seq<Entry>)
    requires Enumerates(order, Parse(text).tables.keys)
    ensures var keys := Parse(text).tables.keys;
            Parse(TextOf(keys, order)).ok && SameEntries(Parse(TextOf(keys, order)).tables.keys, keys)
  {
    hide Parse, Storable, TextOf, SameEntries, Within, Covered;
    ParsedIsStorable(text);
    WrittenThenRead(Parse(text).tables.keys, order);
  }

  // --------------------------------------------------------------------------- lookups

  /** get_string returns the stored value exactly when that value is not itself in quotes. */
  lemma GetStringIff(p: TomlParser, section: string, key: string)
    requires '.' !in section && p.GetValue(section, key).Some?
    ensures p.GetString(section + ['.'] + key) == p.GetValue(section, key).value <==>
            !Quoted(p.GetValue(section, key).value)
  {
    hide IndexOf;
    var path := section + ['.'] + key;
    IndexAfter(section, '.', key);
    assert path[..|section|] == section && path[|section| + 1..] == key;
  }

  /** A path names a section only up to its first dot, so dotted sections cannot be reached. */
  lemma DottedSectionUnreachable(p: TomlParser, head: string, tail: string, key: string)
    requires '.' !in head
    requires p.GetValue(head, tail + ['.'] + key).None?
    ensures p.GetString((head + ['.'] + tail) + ['.'] + key) == ""
  {
    hide IndexOf;
    var path := (head + ['.'] + tail) + ['.'] + key;
    assert path == head + ['.'] + (tail + ['.'] + key);
    IndexAfter(head, '.', tail + ['.'] + key);
    assert path[..|head|] == head && path[|head| + 1..] == tail + ['.'] + key;
  }

  /** The round trip on the object: a fresh parser fed the written text answers every lookup. */
  method LoadWritten(keys: Keys, ghost order: seq<Entry>, lines: seq<string>) returns (p: TomlParser, ok: bool)
    requires Storable(keys) && Enumerates(order, keys) && lines == GetLines(TextOf(keys, order))
    ensures ok && forall s, k :: p.GetValue(s, k) == Get(keys, s, k)
  {
    hide GetLines, TextOf, Storable, Read, Within, Covered;
    WrittenThenRead(keys, order);
    p := new TomlParser();
    ok := p.ExtractKeys(lines);
  }
}
