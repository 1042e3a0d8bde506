/** Whole documents: reading back what was written, and exactly what survives the trip. */
module TomlDocuments {
  import opened Options
  import opened TomlText
  import opened TomlParser
  import opened TomlRoundTrip

  // -------------------------------------------------------- what a line can ever mean

  /** Whatever the line, a key and value read from it are good. */
  lemma AssignIsGood(raw: string)
    requires Classify(raw).Assign?
    ensures GoodKey(Classify(raw).key) && GoodValue(Classify(raw).value)
    ensures '\n' !in raw ==> '\n' !in Classify(raw).key && '\n' !in Classify(raw).value
  {
    hide TrimLeft, TrimRight, IndexOf, Uncomment, Unquote, Trimmed;
    var line := Trim(raw);
    TrimKeeps(raw, '\n');
    var eq := IndexOf(line, '=');
    KeyIsGood(line, eq);
    ValueLacks(line[eq + 1..], '[');
    ValueLacks(line[eq + 1..], '\n');
    ValueLacksHash(line[eq + 1..]);
  }

  lemma KeyIsGood(line: string, eq: nat)
    requires line != "" && Trimmed(line) && '[' !in line && line[0] != '#'
    requires '=' in line && eq == IndexOf(line, '=')
    ensures GoodKey(Trim(line[..eq]))
    ensures '\n' !in line ==> '\n' !in Trim(line[..eq])
  {
    hide TrimRight, IndexOf;
    var left := line[..eq];
    IndexOfFirst(line, '=');
    TrimKeeps(left, '=');
    TrimKeeps(left, '[');
    TrimKeeps(left, '\n');
    TrimRightKeepsFirst(TrimLeft(left));
  }

  /** Trimming, uncommenting and unquoting add no character. */
  lemma ValueLacks(v: string, c: char)
    ensures c !in v ==> c !in Unquote(Uncomment(Trim(v)))
  {
    hide TrimLeft, TrimRight, IndexOf, Trim;
    var t := Trim(v);
    TrimKeeps(v, c);
    var cut := t[..IndexOf(t, '#')];
    TrimKeeps(cut, c);
    TrimKeeps(TrimRight(cut), c);
  }

  lemma ValueLacksHash(v: string)
    ensures '#' !in Unquote(Uncomment(Trim(v)))
  {
    hide TrimLeft, TrimRight, IndexOf, Trim;
    var t := Trim(v);
    IndexOfFirst(t, '#');
    var cut := t[..IndexOf(t, '#')];
    TrimKeeps(cut, '#');
    TrimKeeps(TrimRight(cut), '#');
  }

  lemma SectionIsGood(raw: string)
    requires Classify(raw).Section?
    ensures GoodSection(Classify(raw).name)
    ensures '\n' !in raw ==> '\n' !in Classify(raw).name
  {
    hide TrimLeft, TrimRight, IndexOf;
    var line := Trim(raw);
    TrimKeeps(raw, '\n');
    var rest := line[IndexOf(line, '[') + 1..];
    IndexOfFirst(rest, ']');
    TrimKeeps(rest[..IndexOf(rest, ']')], ']');
    TrimKeeps(rest[..IndexOf(rest, ']')], '\n');
  }

  /** key = "value" */
  function Plain(key: string, value: string): Item {
    Binding("", key, " ", " ", Double, value, "", None)
  }

  /** [name] */
  function PlainHeader(name: string): Item {
    Header("", "", name, "", "")
  }

  /** Exactly these keys and values survive being written on a line and read back. */
  lemma PlainLineIff(key: string, value: string)
    ensures Classify(Show(Plain(key, value))) == Assign(key, value) <==> GoodKey(key) && GoodValue(value)
  {
    hide Classify, Show;
    if GoodKey(key) && GoodValue(value) {
      ShownLineReads(Plain(key, value));
    } else if Classify(Show(Plain(key, value))).Assign? {
      AssignIsGood(Show(Plain(key, value)));
    }
  }

  /** Exactly these names survive as section headers. */
  lemma PlainHeaderIff(name: string)
    ensures Classify(Show(PlainHeader(name))) == Section(name) <==> GoodSection(name)
  {
    hide Classify, Show;
    if GoodSection(name) {
      ShownLineReads(PlainHeader(name));
    } else if Classify(Show(PlainHeader(name))).Section? {
      SectionIsGood(Show(PlainHeader(name)));
    }
  }

  // ----------------------------------------------------------------------- documents

  /** Every binding comes after a header with a non-empty name. */
  predicate Bound(current: string, doc: seq<Item>)
    decreases |doc|
  {
    doc == [] ||
    match doc[0]
    case Header(_, _, name, _, _) => Bound(name, doc[1..])
    case Binding(_, _, _, _, _, _, _, _) => current != "" && Bound(current, doc[1..])
    case _ => Bound(current, doc[1..])
  }

  /** What the document says about a key: the first binding of it, under any header of that section. */
  function Lookup(current: string, doc: seq<Item>, section: string, key: string): Option<string>
    decreases |doc|
  {
    if doc == [] then None else
    match doc[0]
    case Header(_, _, name, _, _) => Lookup(name, doc[1..], section, key)
    case Binding(_, k, _, _, _, value, _, _) =>
      if current == section && k == key then Some(value) else Lookup(current, doc[1..], section, key)
    case _ => Lookup(current, doc[1..], section, key)
  }

  function Headers(doc: seq<Item>): seq<string> {
    if doc == [] then []
    else (if doc[0].Header? then [doc[0].name] else []) + Headers(doc[1..])
  }

  function Else<T>(first: Option<T>, second: Option<T>): Option<T> {
    if first.Some? then first else second
  }

  predicate AllWellWritten(doc: seq<Item>) {
    forall i :: 0 <= i < |doc| ==> WellWritten(doc[i])
  }

  /** The tables `after` hold what was in `before`, and beyond that what the document says. */
  ghost predicate Learned(before: Tables, doc: seq<Item>, after: Tables) {
    && after.sections == before.sections + Headers(doc)
    && forall s, k :: Get(after.keys, s, k) == Else(Get(before.keys, s, k), Lookup(before.current, doc, s, k))
  }

  lemma LookupOne(current: string, item: Item, s: string, k: string)
    ensures Lookup(current, [item], s, k) ==
            if item.Binding? && current == s && item.key == k then Some(item.value) else None
  {
  }

  lemma ReadItem(t: Tables, item: Item)
    requires WellWritten(item)
    ensures ReadLine(t, Show(item)).ok <==> (item.Binding? ==> t.current != "")
    ensures ReadLine(t, Show(item)).ok ==> Learned(t, [item], ReadLine(t, Show(item)).tables)
    ensures ReadLine(t, Show(item)).ok ==>
              ReadLine(t, Show(item)).tables.current == if item.Header? then item.name else t.current
  {
    hide Classify, Show, WellWritten, Get;
    ShownLineReads(item);
    assert Headers([item]) == if item.Header? then [item.name] else [];
    forall s, k { LookupOne(t.current, item, s, k); }
  }

  lemma LearnedThen(a: Tables, item: Item, b: Tables, rest: seq<Item>, c: Tables)
    requires Learned(a, [item], b) && Learned(b, rest, c)
    requires b.current == if item.Header? then item.name else a.current
    ensures Learned(a, [item] + rest, c)
  {
    hide Get;
    var doc := [item] + rest;
    assert doc[0] == item && doc[1..] == rest && [item][1..] == [];
    assert Headers([item]) == if item.Header? then [item.name] else [];
    assert Headers(doc) == Headers([item]) + Headers(rest);
    forall s, k ensures Get(c.keys, s, k) == Else(Get(a.keys, s, k), Lookup(a.current, doc, s, k)) {
      LookupOne(a.current, item, s, k);
      assert Get(b.keys, s, k) == Else(Get(a.keys, s, k), Lookup(a.current, [item], s, k));
    }
  }

  /**
   * A written document is accepted exactly when each binding has a section to go to, and
   * the tables then say what the document says; the first value of a key wins.
   */
  lemma {:induction false} ReadDocument(t: Tables, doc: seq<Item>)
    requires AllWellWritten(doc)
    ensures Read(t, ShowAll(doc)).ok <==> Bound(t.current, doc)
    ensures Read(t, ShowAll(doc)).ok ==> Learned(t, doc, Read(t, ShowAll(doc)).tables)
    decreases |doc|
  {
    if doc == [] {
      hide Get;
      assert Learned(t, doc, t);
    } else {
      hide ReadLine, Show, WellWritten, Learned, Lookup;
      ReadItem(t, doc[0]);
      var lines := ShowAll(doc);
      assert lines[0] == Show(doc[0]) && lines[1..] == ShowAll(doc[1..]);
      var next := ReadLine(t, Show(doc[0]));
      if next.ok {
        ReadDocument(next.tables, doc[1..]);
        if Read(t, lines).ok {
          LearnedThen(t, doc[0], next.tables, doc[1..], Read(t, lines).tables);
          assert doc == [doc[0]] + doc[1..];
        }
      }
    }
  }

  /** Lines that are blank or comments can be dropped from, or put into, any input. */
  lemma {:induction false} NoiseIsInvisible(t: Tables, before: seq<string>, noise: string, after: seq<string>)
    requires Classify(noise) == Noise
    ensures Read(t, before + [noise] + after) == Read(t, before + after)
    decreases |before|
  {
    hide Classify;
    if before == [] {
      assert before + [noise] + after == [noise] + after && before + after == after;
    } else {
      var with, without := before + [noise] + after, before + after;
      assert with[1..] == before[1..] + [noise] + after && without[1..] == before[1..] + after;
      var r := ReadLine(t, before[0]);
      if r.ok {
        NoiseIsInvisible(r.tables, before[1..], noise, after);
      }
    }
  }

  /** A line is refused exactly when it has content, no '[', and either no '=' or no section to go to. */
  lemma RefusedIff(t: Tables, raw: string)
    ensures !ReadLine(t, raw).ok <==>
              && TrimLeft(raw) != "" && TrimLeft(raw)[0] != '#'
              && '[' !in raw && ('=' !in raw || t.current == "")
    ensures !ReadLine(t, raw).ok ==> ReadLine(t, raw).tables == t
  {
    hide TrimLeft, TrimRight, IndexOf, Uncomment, Unquote, SectionIn;
    TrimKeeps(raw, '[');
    TrimKeeps(raw, '=');
    TrimRightKeepsFirst(TrimLeft(raw));
    if TrimLeft(raw) != "" {
      TrimNonBlank(raw);
    }
  }

  /** Reading stops at the first refused line and keeps what the lines before it left. */
  lemma {:induction false} StopsAtFirstRefusal(t: Tables, before: seq<string>, bad: string, after: seq<string>)
    requires Read(t, before).ok && !ReadLine(Read(t, before).tables, bad).ok
    ensures Read(t, before + [bad] + after) == Result(false, Read(t, before).tables)
    decreases |before|
  {
    if before == [] {
      hide Classify;
      assert before + [bad] + after == [bad] + after;
      RefusedIff(t, bad);
    } else {
      hide ReadLine;
      var all := before + [bad] + after;
      assert all[0] == before[0] && all[1..] == before[1..] + [bad] + after;
      StopsAtFirstRefusal(ReadLine(t, before[0]).tables, before[1..], bad, after);
    }
  }
}
